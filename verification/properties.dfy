/** What the mesh `GenerateMesh` builds promises, stated over the whole
    mesh: its sizes, its quads and their index pattern, the geometry of
    every vertex and triangle, and how it answers an edit of one cell.
    Everything here is derived from the closed form `Describes`. */
module MeshProperties {
  import opened Geometry
  import opened Faces
  import opened VoxelGrid
  import opened ChunkMesher

  // ---------------------------------------------------------------- sizes

  /** Four per-vertex entries and six indices per face, six faces per solid
      cell; the index list holds whole triangles naming existing vertices. */
  lemma MeshSizes(g: Grid, n: nat)
    requires Fits(g, n)
    ensures var m := MeshOf(g, n);
      && |m.vertices| == 24 * SolidCount(g, n)
      && |m.normals| == |m.vertices|
      && |m.uvs| == |m.vertices|
      && |m.indices| == 36 * SolidCount(g, n)
      && |m.indices| % 3 == 0
      && forall t :: 0 <= t < |m.indices| ==> 0 <= m.indices[t] < |m.vertices|
  {
    MeshOfDescribes(g, n);
  }

  /** The mesh is empty exactly when every cell of the cube is air. */
  lemma EmptyGridEmptyMesh(g: Grid, n: nat)
    requires Fits(g, n)
    ensures MeshOf(g, n) == EmptyMesh <==> forall c :: InCube(c, n) ==> g.At(c) == Air
  {
    MeshOfDescribes(g, n);
    ScanOrderEnumeratesCube(n);
    var m, S := MeshOf(g, n), SolidInScan(g, n);
    if forall c :: InCube(c, n) ==> g.At(c) == Air {
      SolidCellsNone(g, ScanOrder(n));
      assert m.vertices == [] && m.normals == [] && m.uvs == [] && m.indices == [];
    }
    if m == EmptyMesh {
      assert S == [];
      forall c | InCube(c, n) ensures g.At(c) == Air {
        assert c in ScanOrder(n);
      }
    }
  }

  /** The length half of `MeshSizes`, written over `SolidInScan` itself: the
      form the per-entry lemmas below index into. */
  lemma MeshLengths(g: Grid, n: nat)
    requires Fits(g, n)
    ensures var m, k := MeshOf(g, n), |SolidInScan(g, n)|;
      |m.vertices| == |m.normals| == |m.uvs| == 24 * k && |m.indices| == 36 * k
  {
    MeshOfDescribes(g, n);
  }

  // ---------------------------------------------------------------- single entries

  /** Vertex `i` of the mesh: corner `i % 4` of face `(i % 24) / 4` of the
      `i / 24`-th solid cell, with that face's normal and the corner of the
      empty rectangle as texture coordinate. */
  lemma VertexOfMesh(g: Grid, n: nat, i: int)
    requires Fits(g, n) && 0 <= i < |MeshOf(g, n).vertices|
    ensures var m, S := MeshOf(g, n), SolidInScan(g, n);
      && i / 24 < |S| && 0 <= i % 24 / 4 < 6 && 0 <= i % 4 < 4
      && |m.normals| == |m.uvs| == |m.vertices|
      && m.vertices[i] == FaceVertex(S[i / 24], FaceOrder[i % 24 / 4], i % 4)
      && m.normals[i] == Normal(FaceOrder[i % 24 / 4])
      && m.uvs[i] == UVCorners(EmptyRect)[i % 4]
  {
    MeshOfDescribes(g, n);
  }

  /** Where vertex `j` of quad `p` sits in the closed form. */
  lemma VertexOfQuad(p: nat, j: int)
    requires 0 <= j < 4
    ensures (4 * p + j) / 24 == p / 6 && (4 * p + j) % 24 / 4 == p % 6 && (4 * p + j) % 4 == j
  {
    var a, b := p / 6, p % 6;
    assert 4 * p + j == 24 * a + (4 * b + j);
    SplitVertexPosition(a, 4 * b + j);
  }

  /** Where index `k` of quad `p` sits in the closed form. */
  lemma IndexOfQuad(p: nat, k: int)
    requires 0 <= k < 6
    ensures (6 * p + k) / 6 == p && (6 * p + k) % 6 == k
  {
  }

  /** Vertex `j` of quad `p` of a mesh in closed form: corner `j` of face
      `p % 6` of the `p / 6`-th cell. */
  lemma VertexOfDescribed(m: Mesh, S: seq<Vec3>, p: nat, j: int)
    requires Describes(m, S) && p < 6 * |S| && 0 <= j < 4
    ensures 4 * p + j < |m.vertices| == |m.normals| == |m.uvs|
    ensures m.vertices[4 * p + j] == FaceVertex(S[p / 6], FaceOrder[p % 6], j)
    ensures m.normals[4 * p + j] == Normal(FaceOrder[p % 6])
    ensures m.uvs[4 * p + j] == UVCorners(EmptyRect)[j]
  {
    VertexOfQuad(p, j);
  }

  /** Index `k` of quad `p` of a mesh in closed form: the quad's first
      vertex `4p` plus entry `k` of the pattern `0, 1, 2, 0, 2, 3`. */
  lemma IndexOfDescribed(m: Mesh, S: seq<Vec3>, p: nat, k: int)
    requires Describes(m, S) && p < 6 * |S| && 0 <= k < 6
    ensures 6 * p + k < |m.indices|
    ensures m.indices[6 * p + k] == 4 * p + QuadIndices[k]
  {
    IndexOfQuad(p, k);
  }

  /** Quad `p` of `m`, entry by entry: corners `v0` to `v3`, normal `w`
      four times, the corners of the empty rectangle, and the two triangles
      `4p + {0, 1, 2}` and `4p + {0, 2, 3}`. */
  predicate QuadIs(m: Mesh, p: nat, v0: Vec3, v1: Vec3, v2: Vec3, v3: Vec3, w: Vec3) {
    QuadCornersAre(m, p, v0, v1, v2, v3, w) && QuadIndicesAre(m, p)
  }

  predicate QuadCornersAre(m: Mesh, p: nat, v0: Vec3, v1: Vec3, v2: Vec3, v3: Vec3, w: Vec3) {
    && |m.normals| == |m.vertices| && |m.uvs| == |m.vertices| && 4 * p + 4 <= |m.vertices|
    && m.vertices[4 * p + 0] == v0 && m.vertices[4 * p + 1] == v1
    && m.vertices[4 * p + 2] == v2 && m.vertices[4 * p + 3] == v3
    && m.normals[4 * p + 0] == m.normals[4 * p + 1] == m.normals[4 * p + 2] == m.normals[4 * p + 3] == w
    && m.uvs[4 * p + 0] == UVCorners(EmptyRect)[0] && m.uvs[4 * p + 1] == UVCorners(EmptyRect)[1]
    && m.uvs[4 * p + 2] == UVCorners(EmptyRect)[2] && m.uvs[4 * p + 3] == UVCorners(EmptyRect)[3]
  }

  predicate QuadIndicesAre(m: Mesh, p: nat) {
    && 6 * p + 6 <= |m.indices|
    && m.indices[6 * p + 0] == 4 * p && m.indices[6 * p + 1] == 4 * p + 1 && m.indices[6 * p + 2] == 4 * p + 2
    && m.indices[6 * p + 3] == 4 * p && m.indices[6 * p + 4] == 4 * p + 2 && m.indices[6 * p + 5] == 4 * p + 3
  }

  /** The entries of quad `p` of a mesh in closed form. */
  lemma QuadEntries(m: Mesh, S: seq<Vec3>, p: nat)
    requires Describes(m, S) && p < 6 * |S|
    ensures var cell, f := S[p / 6], FaceOrder[p % 6];
      QuadIs(m, p, FaceVertex(cell, f, 0), FaceVertex(cell, f, 1), FaceVertex(cell, f, 2), FaceVertex(cell, f, 3), Normal(f))
  {
    QuadCornerEntries(m, S, p);
    QuadIndexEntries(m, S, p);
  }

  lemma QuadCornerEntries(m: Mesh, S: seq<Vec3>, p: nat)
    requires Describes(m, S) && p < 6 * |S|
    ensures var cell, f := S[p / 6], FaceOrder[p % 6];
      QuadCornersAre(m, p, FaceVertex(cell, f, 0), FaceVertex(cell, f, 1), FaceVertex(cell, f, 2), FaceVertex(cell, f, 3), Normal(f))
  {
    VertexOfDescribed(m, S, p, 0);
    VertexOfDescribed(m, S, p, 1);
    VertexOfDescribed(m, S, p, 2);
    VertexOfDescribed(m, S, p, 3);
  }

  lemma QuadIndexEntries(m: Mesh, S: seq<Vec3>, p: nat)
    requires Describes(m, S) && p < 6 * |S|
    ensures QuadIndicesAre(m, p)
  {
    IndexOfDescribed(m, S, p, 0);
    IndexOfDescribed(m, S, p, 1);
    IndexOfDescribed(m, S, p, 2);
    IndexOfDescribed(m, S, p, 3);
    IndexOfDescribed(m, S, p, 4);
    IndexOfDescribed(m, S, p, 5);
  }

  // ---------------------------------------------------------------- quads

  /** Quad `p` of a mesh: vertices and per-vertex entries `4p .. 4p + 3`,
      indices `6p .. 6p + 5`. */
  function QuadAt(m: Mesh, p: nat): Mesh
    requires 4 * p + 4 <= |m.vertices| && 4 * p + 4 <= |m.normals| && 4 * p + 4 <= |m.uvs|
    requires 6 * p + 6 <= |m.indices|
  {
    Mesh(m.vertices[4 * p .. 4 * p + 4], m.normals[4 * p .. 4 * p + 4], m.uvs[4 * p .. 4 * p + 4],
         m.indices[6 * p .. 6 * p + 6])
  }

  /** The mesh is a run of quads: quad `p` is exactly what the emitter for
      face `p % 6` of the `p / 6`-th solid cell appends with the cursor at
      `4p` — its corners, its normal four times, the corners of the empty
      rectangle, and the triangles `4p + {0, 1, 2}` and `4p + {0, 2, 3}`. */
  lemma MeshIsQuads(g: Grid, n: nat)
    requires Fits(g, n)
    ensures var m, S := MeshOf(g, n), SolidInScan(g, n);
      && |m.vertices| == |m.normals| == |m.uvs| == 24 * |S|
      && |m.indices| == 36 * |S|
      && forall p: nat :: p < 6 * |S| ==> QuadAt(m, p) == FaceQuad(S[p / 6], FaceOrder[p % 6], EmptyRect, 4 * p)
  {
    MeshLengths(g, n);
    var m, S := MeshOf(g, n), SolidInScan(g, n);
    forall p: nat | p < 6 * |S|
      ensures QuadAt(m, p) == FaceQuad(S[p / 6], FaceOrder[p % 6], EmptyRect, 4 * p)
    {
      QuadAtOfMesh(g, n, p);
    }
  }

  /** One quad of the mesh. */
  lemma QuadAtOfMesh(g: Grid, n: nat, p: nat)
    requires Fits(g, n) && p < 6 * |SolidInScan(g, n)|
    ensures var m := MeshOf(g, n);
      && 4 * p + 4 <= |m.vertices| && 4 * p + 4 <= |m.normals| && 4 * p + 4 <= |m.uvs|
      && 6 * p + 6 <= |m.indices|
      && QuadAt(m, p) == FaceQuad(SolidInScan(g, n)[p / 6], FaceOrder[p % 6], EmptyRect, 4 * p)
  {
    MeshOfDescribes(g, n);
    var S := SolidInScan(g, n);
    QuadEntries(MeshOf(g, n), S, p);
    QuadAtIs(MeshOf(g, n), p, S[p / 6], FaceOrder[p % 6]);
  }

  /** A quad known entry by entry is the emitter's quad. */
  lemma QuadAtIs(m: Mesh, p: nat, cell: Vec3, f: Face)
    requires QuadIs(m, p, FaceVertex(cell, f, 0), FaceVertex(cell, f, 1), FaceVertex(cell, f, 2), FaceVertex(cell, f, 3), Normal(f))
    ensures 4 * p + 4 <= |m.vertices| && 4 * p + 4 <= |m.normals| && 4 * p + 4 <= |m.uvs|
    ensures 6 * p + 6 <= |m.indices|
    ensures QuadAt(m, p) == FaceQuad(cell, f, EmptyRect, 4 * p)
  {
    var at, q := QuadAt(m, p), FaceQuad(cell, f, EmptyRect, 4 * p);
    forall j | 0 <= j < 4
      ensures at.vertices[j] == q.vertices[j] && at.normals[j] == q.normals[j] && at.uvs[j] == q.uvs[j]
    {
      if j == 0 {
      } else if j == 1 {
      } else if j == 2 {
      } else {
      }
    }
    assert at.vertices == q.vertices;
    assert at.normals == q.normals;
    assert at.uvs == q.uvs;
    assert at.indices == q.indices;
  }

  /** Every quad's indices are `base + {0, 1, 2, 0, 2, 3}` with `base` four
      times its number: the cursor stands at the quad's first vertex. */
  lemma QuadIndexPattern(g: Grid, n: nat)
    requires Fits(g, n)
    ensures var m := MeshOf(g, n);
      forall t :: 0 <= t < |m.indices| ==> m.indices[t] == 4 * (t / 6) + QuadIndices[t % 6]
  {
    MeshOfDescribes(g, n);
  }

  // ---------------------------------------------------------------- geometry

  /** Every vertex lies on the plane of its face, half a unit from the
      centre of its cell along the face's normal, and every normal is a
      unit axis vector pointing out of that face. */
  lemma VerticesOnFaces(g: Grid, n: nat)
    requires Fits(g, n)
    ensures var m, S := MeshOf(g, n), SolidInScan(g, n);
      && |m.vertices| == |m.normals| == 24 * |S|
      && (forall i :: 0 <= i < |m.vertices| ==>
            OnFacePlane(Sub(m.vertices[i], Centre(S[i / 24])), FaceOrder[i % 24 / 4]))
      && (forall i :: 0 <= i < |m.normals| ==>
            IsUnitAxis(m.normals[i]) && m.normals[i] == Normal(FaceOrder[i % 24 / 4]))
  {
    MeshOfDescribes(g, n);
  }

  /** The four corners of every quad are distinct: two vertices in the
      same run of four never coincide. */
  lemma QuadCornersDistinct(g: Grid, n: nat)
    requires Fits(g, n)
    ensures var m := MeshOf(g, n);
      forall i, j :: 0 <= i < j < |m.vertices| && i / 4 == j / 4 ==> m.vertices[i] != m.vertices[j]
  {
    var m := MeshOf(g, n);
    forall i, j | 0 <= i < j < |m.vertices| && i / 4 == j / 4
      ensures m.vertices[i] != m.vertices[j]
    {
      CornerPairDistinct(g, n, i, j);
    }
  }

  /** Two vertices of the same quad. */
  lemma CornerPairDistinct(g: Grid, n: nat, i: int, j: int)
    requires Fits(g, n) && 0 <= i < j < |MeshOf(g, n).vertices| && i / 4 == j / 4
    ensures MeshOf(g, n).vertices[i] != MeshOf(g, n).vertices[j]
  {
    SameQuad(i, j);
    VertexOfMesh(g, n, i);
    VertexOfMesh(g, n, j);
    FaceVerticesDistinct(SolidInScan(g, n)[i / 24], FaceOrder[i % 24 / 4], i % 4, j % 4);
  }

  /** Two positions in the same run of four lie in the same cell's run of
      24 and the same face, at different corners. */
  lemma SameQuad(i: nat, j: nat)
    requires i < j && i / 4 == j / 4
    ensures i / 24 == j / 24 && i % 24 / 4 == j % 24 / 4 && i % 4 != j % 4
  {
    var p := i / 4;
    assert i == 4 * p + i % 4 && j == 4 * p + j % 4;
    VertexOfQuad(p, i % 4);
    VertexOfQuad(p, j % 4);
  }

  /** Different corners of one face of one cell are different points. */
  lemma FaceVerticesDistinct(cell: Vec3, f: Face, a: int, b: int)
    requires 0 <= a < 4 && 0 <= b < 4 && a != b
    ensures FaceVertex(cell, f, a) != FaceVertex(cell, f, b)
  {
    CornersCoverFace(f);
    assert Corners(f)[a] != Corners(f)[b];
  }

  /** The six normals of one solid cell are pairwise different: vertices of
      the same cell on different faces never share a normal. */
  lemma VoxelNormalsDistinct(g: Grid, n: nat)
    requires Fits(g, n)
    ensures var m := MeshOf(g, n);
      forall i, j :: 0 <= i < |m.normals| && 0 <= j < |m.normals| && i / 24 == j / 24 && i % 24 / 4 != j % 24 / 4
        ==> m.normals[i] != m.normals[j]
  {
    var m := MeshOf(g, n);
    forall i, j | 0 <= i < |m.normals| && 0 <= j < |m.normals| && i / 24 == j / 24 && i % 24 / 4 != j % 24 / 4
      ensures m.normals[i] != m.normals[j]
    {
      NormalPairDistinct(g, n, i, j);
    }
  }

  /** Two vertices on different faces have different normals. */
  lemma NormalPairDistinct(g: Grid, n: nat, i: int, j: int)
    requires Fits(g, n) && 0 <= i < |MeshOf(g, n).normals| && 0 <= j < |MeshOf(g, n).normals|
    requires i % 24 / 4 != j % 24 / 4
    ensures MeshOf(g, n).normals[i] != MeshOf(g, n).normals[j]
  {
    MeshLengths(g, n);
    VertexOfMesh(g, n, i);
    VertexOfMesh(g, n, j);
    NormalsIdentifyFaces(FaceOrder[i % 24 / 4], FaceOrder[j % 24 / 4]);
  }

  /** Triangle `t` (indices `3t`, `3t + 1`, `3t + 2`) names existing
      vertices sharing one normal, and is oriented along it: the
      cross product of its sides leaving the first corner, in order, is
      four times the normal (the sides are two doubled units long). */
  predicate TriangleFacesOut(m: Mesh, t: int) {
    && 0 <= t && 3 * t + 2 < |m.indices|
    && |m.normals| == |m.vertices|
    && var a, b, c := m.indices[3 * t], m.indices[3 * t + 1], m.indices[3 * t + 2];
       && 0 <= a < |m.vertices| && 0 <= b < |m.vertices| && 0 <= c < |m.vertices|
       && m.normals[a] == m.normals[b] == m.normals[c]
       && Cross(Sub(m.vertices[b], m.vertices[a]), Sub(m.vertices[c], m.vertices[a])) == Scale(4, m.normals[a])
  }

  /** Moving both ends of a difference by the same vector leaves it
      unchanged. */
  lemma SubTranslated(o: Vec3, a: Vec3, b: Vec3)
    ensures Sub(Add(o, a), Add(o, b)) == Sub(a, b)
  {
  }

  /** For every triangle of the mesh, the cross product of its sides
      leaving its first corner points along its vertices' shared normal. */
  lemma TrianglesFaceOutward(g: Grid, n: nat)
    requires Fits(g, n)
    ensures var m := MeshOf(g, n);
      forall t :: 0 <= t < |m.indices| / 3 ==> TriangleFacesOut(m, t)
  {
    var m := MeshOf(g, n);
    forall t | 0 <= t < |m.indices| / 3 ensures TriangleFacesOut(m, t) {
      TriangleOfMesh(g, n, t);
    }
  }

  /** One triangle: it is the first or the second half of quad `t / 2`. */
  lemma TriangleOfMesh(g: Grid, n: nat, t: int)
    requires Fits(g, n)
    requires 0 <= t < |MeshOf(g, n).indices| / 3
    ensures TriangleFacesOut(MeshOf(g, n), t)
  {
    MeshLengths(g, n);
    var p: nat := t / 2;
    var v0, v1, v2, v3, w := QuadOfMesh(g, n, p);
    if t == 2 * p {
      FirstTriangleOfQuad(MeshOf(g, n), p, t, v0, v1, v2, v3, w);
    } else {
      SecondTriangleOfQuad(MeshOf(g, n), p, t, v0, v1, v2, v3, w);
    }
  }

  /** Quad `p` of the mesh: its corners `v0` to `v3` wind about its normal
      `w`. */
  lemma QuadOfMesh(g: Grid, n: nat, p: nat) returns (v0: Vec3, v1: Vec3, v2: Vec3, v3: Vec3, w: Vec3)
    requires Fits(g, n) && p < 6 * |SolidInScan(g, n)|
    ensures QuadIs(MeshOf(g, n), p, v0, v1, v2, v3, w)
    ensures QuadWinds(v0, v1, v2, v3, w)
  {
    MeshOfDescribes(g, n);
    var cell, f := SolidInScan(g, n)[p / 6], FaceOrder[p % 6];
    QuadEntries(MeshOf(g, n), SolidInScan(g, n), p);
    FaceTriangle(cell, f, 1, 2);
    FaceTriangle(cell, f, 2, 3);
    v0, v1, v2, v3, w := FaceVertex(cell, f, 0), FaceVertex(cell, f, 1), FaceVertex(cell, f, 2), FaceVertex(cell, f, 3), Normal(f);
  }

  /** Both triangles of the quad `v0 v1 v2 v3` face the way `w` points. */
  predicate QuadWinds(v0: Vec3, v1: Vec3, v2: Vec3, v3: Vec3, w: Vec3) {
    && Cross(Sub(v1, v0), Sub(v2, v0)) == Scale(4, w)
    && Cross(Sub(v2, v0), Sub(v3, v0)) == Scale(4, w)
  }

  /** The first triangle of a quad, corners 0, 1, 2. */
  lemma FirstTriangleOfQuad(m: Mesh, p: nat, t: int, v0: Vec3, v1: Vec3, v2: Vec3, v3: Vec3, w: Vec3)
    requires QuadIs(m, p, v0, v1, v2, v3, w) && QuadWinds(v0, v1, v2, v3, w) && t == 2 * p
    ensures TriangleFacesOut(m, t)
  {
    assert 3 * t == 6 * p;
  }

  /** The second triangle of a quad, corners 0, 2, 3. */
  lemma SecondTriangleOfQuad(m: Mesh, p: nat, t: int, v0: Vec3, v1: Vec3, v2: Vec3, v3: Vec3, w: Vec3)
    requires QuadIs(m, p, v0, v1, v2, v3, w) && QuadWinds(v0, v1, v2, v3, w) && t == 2 * p + 1
    ensures TriangleFacesOut(m, t)
  {
    assert 3 * t == 6 * p + 3;
  }

  /** Both triangles of the quad of face `f` of `cell` (corners 0, 1, 2
      and 0, 2, 3) face the way the face's normal points. */
  lemma FaceTriangle(cell: Vec3, f: Face, j: int, k: int)
    requires (j, k) == (1, 2) || (j, k) == (2, 3)
    ensures Cross(Sub(FaceVertex(cell, f, j), FaceVertex(cell, f, 0)), Sub(FaceVertex(cell, f, k), FaceVertex(cell, f, 0)))
            == Scale(4, Normal(f))
  {
    CornersFaceNormal(f);
    CrossTranslated(Centre(cell), Corners(f)[0], Corners(f)[j], Corners(f)[k]);
  }

  /** Moving a triangle leaves the cross product of its sides unchanged. */
  lemma CrossTranslated(o: Vec3, a: Vec3, b: Vec3, c: Vec3)
    ensures Cross(Sub(Add(o, b), Add(o, a)), Sub(Add(o, c), Add(o, a))) == Cross(Sub(b, a), Sub(c, a))
  {
    SubTranslated(o, b, a);
    SubTranslated(o, c, a);
  }

  /** Every texture coordinate is `(0, 0)`: each emitter is given a default
      `new Rect()`, all of whose corners are the origin. */
  lemma UVsAreZero(g: Grid, n: nat)
    requires Fits(g, n)
    ensures var m := MeshOf(g, n);
      forall i :: 0 <= i < |m.uvs| ==> m.uvs[i] == Vec2(0.0, 0.0)
  {
    MeshOfDescribes(g, n);
  }

  // ---------------------------------------------------------------- edits and scenarios

  /** Overwriting one cell inside the cube and rebuilding changes the mesh by
      exactly one cell's worth of faces: 24 vertices and 36 indices more
      when air becomes solid, as many fewer when solid becomes air, and no
      change otherwise. */
  lemma StoreChangesMesh(g: Grid, n: nat, c: Vec3, v: BlockId)
    requires Fits(g, n) && InCube(c, n)
    ensures Store(g, c, v).Success? && Fits(Store(g, c, v).value, n)
    ensures var m, m' := MeshOf(g, n), MeshOf(Store(g, c, v).value, n);
      var delta := (if v != Air then 1 else 0) - (if g.At(c) != Air then 1 else 0);
      && |m'.vertices| == |m.vertices| + 24 * delta
      && |m'.indices| == |m.indices| + 36 * delta
  {
    SolidCountAfterStore(g, n, c, v);
    MeshSizes(g, n);
    MeshSizes(Store(g, c, v).value, n);
  }

  /** A cube with a single solid cell yields exactly that cell's six faces:
      24 vertices, 36 indices. */
  lemma SingleVoxel(g: Grid, n: nat, c: Vec3)
    requires Fits(g, n) && InCube(c, n)
    requires forall d :: InCube(d, n) ==> (g.At(d) != Air <==> d == c)
    ensures var m := MeshOf(g, n);
      && |m.vertices| == 24 && |m.indices| == 36
      && forall i :: 0 <= i < 24 ==> m.vertices[i] == FaceVertex(c, FaceOrder[i / 4], i % 4)
  {
    SolidInScanIsSingle(g, n, c);
    MeshLengths(g, n);
    forall i | 0 <= i < 24 ensures MeshOf(g, n).vertices[i] == FaceVertex(c, FaceOrder[i / 4], i % 4) {
      SingleVoxelVertex(g, n, c, i);
    }
  }

  lemma SingleVoxelVertex(g: Grid, n: nat, c: Vec3, i: int)
    requires Fits(g, n) && SolidInScan(g, n) == [c] && 0 <= i < 24
    ensures i < |MeshOf(g, n).vertices|
    ensures MeshOf(g, n).vertices[i] == FaceVertex(c, FaceOrder[i / 4], i % 4)
  {
    MeshLengths(g, n);
    VertexOfMesh(g, n, i);
    assert i / 24 == 0 && i % 24 == i;
  }

  /** With `c` the only solid cell, the scan meets exactly `[c]`. */
  lemma SolidInScanIsSingle(g: Grid, n: nat, c: Vec3)
    requires Fits(g, n) && InCube(c, n)
    requires forall d :: InCube(d, n) ==> (g.At(d) != Air <==> d == c)
    ensures SolidInScan(g, n) == [c]
  {
    OnlyElement(SolidInScan(g, n), c);
  }

  /** A strictly sorted sequence all of whose elements are `c`, and which
      holds `c`, is `[c]`. */
  lemma OnlyElement(S: seq<Vec3>, c: Vec3)
    requires Sorted(S) && c in S
    requires forall d :: d in S ==> d == c
    ensures S == [c]
  {
    forall i | 0 <= i < |S| ensures S[i] == c {
      assert S[i] in S;
    }
    assert |S| < 2 || Before(S[0], S[1]);
  }

  /** A 2 x 2 x 2 cube that is solid except for the cell (1, 1, 1) has seven
      solid cells, so 168 vertices and 252 indices. */
  lemma SevenOfEight(g: Grid)
    requires Fits(g, 2)
    requires forall d :: InCube(d, 2) ==> (g.At(d) != Air <==> d != Vec3(1, 1, 1))
    ensures |MeshOf(g, 2).vertices| == 168 && |MeshOf(g, 2).indices| == 252
  {
    ScanOrderEnumeratesCube(2);
    SolidCellsAllBut(g, Vec3(1, 1, 1), ScanOrder(2));
    MeshSizes(g, 2);
  }
}
