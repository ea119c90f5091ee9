/** `GenerateMesh` and its six face emitters: the scan over the grid that
    appends, for every solid cell, the six faces of a unit cube to four
    parallel buffers. */
module ChunkMesher {
  import opened Geometry
  import opened Outcomes
  import opened Faces
  import opened VoxelGrid

  /** The four lists `GenerateMesh` fills and hands to the engine mesh.
      Positions are doubled (see `Geometry`). */
  datatype Mesh = Mesh(vertices: seq<Vec3>, normals: seq<Vec3>, uvs: seq<Vec2>, indices: seq<int>)

  const EmptyMesh: Mesh := Mesh([], [], [], [])

  /** Appending one batch of buffer entries after another. */
  function Append(a: Mesh, b: Mesh): Mesh {
    Mesh(a.vertices + b.vertices, a.normals + b.normals, a.uvs + b.uvs, a.indices + b.indices)
  }

  /** The emitters' shared state: `currentIndex` and the four lists. */
  datatype Builder = Builder(cursor: int, mesh: Mesh)

  /** The state `GenerateMesh` starts from. */
  const Start: Builder := Builder(0, EmptyMesh)

  /** The buffer invariant: the three per-vertex lists have one entry per
      vertex, the cursor is the vertex count, there are whole triangles
      only, and every index names an existing vertex. */
  predicate WellFormed(b: Builder) {
    && |b.mesh.normals| == |b.mesh.vertices|
    && |b.mesh.uvs| == |b.mesh.vertices|
    && b.cursor == |b.mesh.vertices|
    && |b.mesh.indices| % 3 == 0
    && forall t :: 0 <= t < |b.mesh.indices| ==> 0 <= b.mesh.indices[t] < |b.mesh.vertices|
  }

  /** The corners of face `f` of `cell`, in emission order. */
  function CornerRun(cell: Vec3, f: Face): seq<Vec3> {
    seq(4, m requires 0 <= m < 4 => FaceVertex(cell, f, m))
  }

  /** The two triangles of a quad whose first vertex is `base`. */
  function IndexRun(base: int): seq<int> {
    [base + 0, base + 1, base + 2, base + 0, base + 2, base + 3]
  }

  /** The entries one `GenerateBlock_*` emitter appends when the cursor
      stands at `base`: the four corners of face `f` of `cell`, four copies
      of the face's normal, the corners of the UV rectangle, and the two
      triangles `base + {0, 1, 2}` and `base + {0, 2, 3}`. */
  function FaceQuad(cell: Vec3, f: Face, r: Rect, base: int): Mesh {
    var n := Normal(f);
    Mesh(CornerRun(cell, f), [n, n, n, n], UVCorners(r), IndexRun(base))
  }

  /** One `GenerateBlock_*` call: append the face's quad, then advance the
      cursor past its four vertices.  The buffer invariant is preserved. */
  function EmitFace(b: Builder, cell: Vec3, f: Face, r: Rect): (b': Builder)
    ensures WellFormed(b) ==> WellFormed(b')
    ensures b'.cursor == b.cursor + 4
    ensures |b'.mesh.vertices| == |b.mesh.vertices| + 4 && |b'.mesh.normals| == |b.mesh.normals| + 4
    ensures |b'.mesh.uvs| == |b.mesh.uvs| + 4 && |b'.mesh.indices| == |b.mesh.indices| + 6
  {
    var b' := Builder(b.cursor + 4, Append(b.mesh, FaceQuad(cell, f, r, b.cursor)));
    assert WellFormed(b) ==> WellFormed(b') by {
      if WellFormed(b) {
        var m, m' := b.mesh, b'.mesh;
        forall t | 0 <= t < |m'.indices| ensures 0 <= m'.indices[t] < |m'.vertices| {
          if t >= |m.indices| {
            assert m'.indices[t] == FaceQuad(cell, f, r, b.cursor).indices[t - |m.indices|];
          }
        }
      }
    }
    b'
  }

  /** One emitter call keeps every entry already in the buffers and adds
      the face's four corners, its normal four times, the rectangle's
      corners, and the index pattern shifted to the cursor. */
  lemma EmitFaceAppends(b: Builder, cell: Vec3, f: Face, r: Rect)
    ensures var m, m' := b.mesh, EmitFace(b, cell, f, r).mesh;
      && m'.vertices[..|m.vertices|] == m.vertices && m'.normals[..|m.normals|] == m.normals
      && m'.uvs[..|m.uvs|] == m.uvs && m'.indices[..|m.indices|] == m.indices
      && m'.vertices[|m.vertices|..] == [FaceVertex(cell, f, 0), FaceVertex(cell, f, 1), FaceVertex(cell, f, 2), FaceVertex(cell, f, 3)]
      && m'.normals[|m.normals|..] == [Normal(f), Normal(f), Normal(f), Normal(f)]
      && m'.uvs[|m.uvs|..] == UVCorners(r)
      && (forall k :: 0 <= k < 6 ==> m'.indices[|m.indices| + k] == b.cursor + QuadIndices[k])
  {
    var m, m' := b.mesh, EmitFace(b, cell, f, r).mesh;
    assert m'.vertices[|m.vertices|..] == CornerRun(cell, f);
    assert m'.normals[|m.normals|..] == FaceQuad(cell, f, r, b.cursor).normals;
    assert m'.uvs[|m.uvs|..] == UVCorners(r);
  }

  /** The emitters for the faces `fs` called in turn. */
  function EmitFaces(b: Builder, cell: Vec3, fs: seq<Face>, r: Rect): (b': Builder)
    ensures WellFormed(b) ==> WellFormed(b')
    ensures b'.cursor == b.cursor + 4 * |fs|
    decreases |fs|
  {
    if fs == [] then b else EmitFaces(EmitFace(b, cell, fs[0], r), cell, fs[1..], r)
  }

  /** What the emitters for the faces `fs` append, with the cursor at
      `base` before the first: face `fs[j]` owns vertices `4j .. 4j + 3`
      and indices `6j .. 6j + 5`. */
  function FaceQuads(cell: Vec3, fs: seq<Face>, r: Rect, base: int): Mesh {
    Mesh(QuadVertices(cell, fs), QuadNormals(fs), QuadUVs(fs, r), QuadIndexRun(fs, base))
  }

  function QuadVertices(cell: Vec3, fs: seq<Face>): (vs: seq<Vec3>)
    ensures |vs| == 4 * |fs|
    ensures forall j :: 0 <= j < 4 * |fs| ==> vs[j] == FaceVertex(cell, fs[j / 4], j % 4)
  {
    if fs == [] then []
    else
      var rest := QuadVertices(cell, fs[1..]);
      var vs := CornerRun(cell, fs[0]) + rest;
      forall j | 0 <= j < 4 * |fs| ensures vs[j] == FaceVertex(cell, fs[j / 4], j % 4) {
        if j < 4 {
          FirstQuadVertex(cell, fs, rest, j);
        } else {
          LaterQuadVertex(cell, fs, rest, j);
        }
      }
      vs
  }

  lemma FirstQuadVertex(cell: Vec3, fs: seq<Face>, rest: seq<Vec3>, j: int)
    requires fs != [] && 0 <= j < 4
    ensures (CornerRun(cell, fs[0]) + rest)[j] == FaceVertex(cell, fs[j / 4], j % 4)
  {
    assert j / 4 == 0 && j % 4 == j;
  }

  lemma LaterQuadVertex(cell: Vec3, fs: seq<Face>, rest: seq<Vec3>, j: int)
    requires fs != [] && 4 <= j < 4 * |fs| && |rest| == 4 * |fs[1..]|
    requires forall k :: 0 <= k < 4 * |fs[1..]| ==> rest[k] == FaceVertex(cell, fs[1..][k / 4], k % 4)
    ensures (CornerRun(cell, fs[0]) + rest)[j] == FaceVertex(cell, fs[j / 4], j % 4)
  {
    Shift(j, 4);
    assert (CornerRun(cell, fs[0]) + rest)[j] == rest[j - 4];
    assert fs[1..][(j - 4) / 4] == fs[j / 4];
  }

  function QuadNormals(fs: seq<Face>): (ns: seq<Vec3>)
    ensures |ns| == 4 * |fs|
    ensures forall j :: 0 <= j < 4 * |fs| ==> ns[j] == Normal(fs[j / 4])
  {
    if fs == [] then []
    else
      var n := Normal(fs[0]);
      var rest := QuadNormals(fs[1..]);
      var ns := [n, n, n, n] + rest;
      forall j | 0 <= j < 4 * |fs| ensures ns[j] == Normal(fs[j / 4]) {
        if j < 4 {
          assert j / 4 == 0;
        } else {
          Shift(j, 4);
          assert ns[j] == rest[j - 4];
          assert fs[1..][(j - 4) / 4] == fs[j / 4];
        }
      }
      ns
  }

  function QuadUVs(fs: seq<Face>, r: Rect): (uvs: seq<Vec2>)
    ensures |uvs| == 4 * |fs|
    ensures forall j :: 0 <= j < 4 * |fs| ==> uvs[j] == UVCorners(r)[j % 4]
  {
    if fs == [] then []
    else
      var rest := QuadUVs(fs[1..], r);
      var uvs := UVCorners(r) + rest;
      forall j | 0 <= j < 4 * |fs| ensures uvs[j] == UVCorners(r)[j % 4] {
        if j < 4 {
          assert j % 4 == j;
        } else {
          Shift(j, 4);
          assert uvs[j] == rest[j - 4];
        }
      }
      uvs
  }

  function QuadIndexRun(fs: seq<Face>, base: int): (ix: seq<int>)
    ensures |ix| == 6 * |fs|
    ensures forall t :: 0 <= t < 6 * |fs| ==> ix[t] == base + 4 * (t / 6) + QuadIndices[t % 6]
  {
    if fs == [] then []
    else
      var rest := QuadIndexRun(fs[1..], base + 4);
      var ix := IndexRun(base) + rest;
      forall t | 0 <= t < 6 * |fs| ensures ix[t] == base + 4 * (t / 6) + QuadIndices[t % 6] {
        if t < 6 {
          assert t / 6 == 0 && t % 6 == t;
        } else {
          Shift(t, 6);
          assert ix[t] == rest[t - 6];
        }
      }
      ix
  }

  /** Moving an index back by one period. */
  lemma Shift(j: int, d: int)
    requires d == 4 || d == 6
    requires j >= d
    ensures (j - d) / d == j / d - 1 && (j - d) % d == j % d
  {
  }

  /** Calling the emitters in turn appends exactly their quads, numbered
      from the cursor. */
  lemma {:induction false} EmitFacesAppends(b: Builder, cell: Vec3, fs: seq<Face>, r: Rect)
    ensures EmitFaces(b, cell, fs, r).mesh == Append(b.mesh, FaceQuads(cell, fs, r, b.cursor))
    decreases |fs|
  {
    if fs != [] {
      var b1 := EmitFace(b, cell, fs[0], r);
      EmitFacesAppends(b1, cell, fs[1..], r);
      var head := FaceQuad(cell, fs[0], r, b.cursor);
      var tail := FaceQuads(cell, fs[1..], r, b.cursor + 4);
      AppendAssociative(b.mesh, head, tail);
    }
  }

  lemma AppendAssociative(a: Mesh, b: Mesh, c: Mesh)
    ensures Append(Append(a, b), c) == Append(a, Append(b, c))
  {
    assert (a.vertices + b.vertices) + c.vertices == a.vertices + (b.vertices + c.vertices);
    assert (a.normals + b.normals) + c.normals == a.normals + (b.normals + c.normals);
    assert (a.uvs + b.uvs) + c.uvs == a.uvs + (b.uvs + c.uvs);
    assert (a.indices + b.indices) + c.indices == a.indices + (b.indices + c.indices);
  }

  // ---------------------------------------------------------------- one voxel

  /** What the six emitter calls for one solid voxel append, in the order
      Top, Right, Left, Forward, Back, Bottom, each given a default
      `new Rect()`.  Kept in closed form so that it does not unfold into
      the calls (see `EmitVoxelIsSixCalls`). */
  function EmitVoxel(b: Builder, cell: Vec3): Builder {
    Builder(b.cursor + 24, Append(b.mesh, FaceQuads(cell, FaceOrder, EmptyRect, b.cursor)))
  }

  /** `EmitVoxel` is the emitters for the six faces called in turn, so it
      keeps the buffer invariant. */
  lemma EmitVoxelIsFaceOrder(b: Builder, cell: Vec3)
    ensures EmitVoxel(b, cell) == EmitFaces(b, cell, FaceOrder, EmptyRect)
    ensures WellFormed(b) ==> WellFormed(EmitVoxel(b, cell))
  {
    EmitFacesAppends(b, cell, FaceOrder, EmptyRect);
  }

  /** `EmitVoxel` is literally the six calls `GenerateMesh` makes. */
  lemma EmitVoxelIsSixCalls(b: Builder, cell: Vec3)
    ensures EmitVoxel(b, cell)
         == EmitFace(EmitFace(EmitFace(EmitFace(EmitFace(EmitFace(b,
              cell, Top, EmptyRect), cell, Right, EmptyRect), cell, Left, EmptyRect),
              cell, Forward, EmptyRect), cell, Back, EmptyRect), cell, Bottom, EmptyRect)
  {
    EmitVoxelIsFaceOrder(b, cell);
    var fs := FaceOrder;
    assert fs[0] == Top && fs[1..][0] == Right && fs[1..][1..][0] == Left;
    assert fs[1..][1..][1..][0] == Forward && fs[1..][1..][1..][1..][0] == Back;
    assert fs[1..][1..][1..][1..][1..] == [Bottom];
    assert [Bottom][1..] == [];
  }

  /** What one cell contributes: nothing for air (`continue`), the six
      faces otherwise. */
  function Visit(b: Builder, g: Grid, c: Vec3): Builder
    requires g.Valid() && g.InBox(c)
  {
    if g.At(c) == Air then b else EmitVoxel(b, c)
  }

  /** Visiting the cells `cs` in turn. */
  function Scan(b: Builder, g: Grid, cs: seq<Vec3>): Builder
    requires g.Valid() && forall c :: c in cs ==> g.InBox(c)
    decreases |cs|
  {
    if cs == [] then b
    else
      assert forall c :: c in cs[1..] ==> c in cs;
      Scan(Visit(b, g, cs[0]), g, cs[1..])
  }

  /** Every scan keeps the buffer invariant and moves the cursor by 24
      per solid cell. */
  lemma {:induction false} ScanKeepsWellFormed(b: Builder, g: Grid, cs: seq<Vec3>)
    requires g.Valid() && forall c :: c in cs ==> g.InBox(c)
    ensures WellFormed(b) ==> WellFormed(Scan(b, g, cs))
    ensures Scan(b, g, cs).cursor == b.cursor + 24 * |SolidCells(g, cs)|
    decreases |cs|
  {
    if cs != [] {
      assert forall c :: c in cs[1..] ==> c in cs;
      EmitVoxelIsFaceOrder(b, cs[0]);
      ScanKeepsWellFormed(Visit(b, g, cs[0]), g, cs[1..]);
    }
  }

  // ---------------------------------------------------------------- the closed form

  /** Where every entry of a mesh built from the solid cells `S` (in
      order) sits, without reference to how it was built: vertex `i`
      belongs to voxel `i / 24`, to the face at position `(i % 24) / 4` of
      the face order, and is that face's corner `i % 4`; index `t` belongs
      to quad `t / 6`, whose first vertex is `4 * (t / 6)`. */
  predicate Describes(m: Mesh, S: seq<Vec3>) {
    && |m.vertices| == 24 * |S|
    && |m.normals| == 24 * |S|
    && |m.uvs| == 24 * |S|
    && |m.indices| == 36 * |S|
    && (forall i :: 0 <= i < 24 * |S| ==> m.vertices[i] == FaceVertex(S[i / 24], FaceOrder[i % 24 / 4], i % 4))
    && (forall i :: 0 <= i < 24 * |S| ==> m.normals[i] == Normal(FaceOrder[i % 24 / 4]))
    && (forall i :: 0 <= i < 24 * |S| ==> m.uvs[i] == UVCorners(EmptyRect)[i % 4])
    && (forall t :: 0 <= t < 36 * |S| ==> m.indices[t] == 4 * (t / 6) + QuadIndices[t % 6])
  }

  /** Splitting a position in voxel `q`'s run of 24 vertices. */
  lemma SplitVertexPosition(q: nat, j: int)
    requires 0 <= j < 24
    ensures (24 * q + j) / 24 == q && (24 * q + j) % 24 == j && (24 * q + j) % 4 == j % 4
  {
  }

  /** Splitting a position in voxel `q`'s run of 36 indices. */
  lemma SplitIndexPosition(q: nat, t: int)
    requires 0 <= t < 36
    ensures (36 * q + t) / 6 == 6 * q + t / 6 && (36 * q + t) % 6 == t % 6
  {
  }

  /** The vertices of one more voxel extend the closed form by that voxel. */
  lemma {:induction false} VerticesExtend(m: Mesh, S: seq<Vec3>, c: Vec3)
    requires Describes(m, S)
    ensures var vs := m.vertices + QuadVertices(c, FaceOrder);
      forall i :: 0 <= i < 24 * |S + [c]| ==> vs[i] == FaceVertex((S + [c])[i / 24], FaceOrder[i % 24 / 4], i % 4)
  {
    var vs := m.vertices + QuadVertices(c, FaceOrder);
    forall i | 0 <= i < 24 * |S + [c]|
      ensures vs[i] == FaceVertex((S + [c])[i / 24], FaceOrder[i % 24 / 4], i % 4)
    {
      if i < 24 * |S| {
        OldVertexKept(m, S, c, i);
      } else {
        NewVertexPlaced(m.vertices, S, c, i);
      }
    }
  }

  lemma OldVertexKept(m: Mesh, S: seq<Vec3>, c: Vec3, i: int)
    requires Describes(m, S) && 0 <= i < 24 * |S|
    ensures i / 24 < |S + [c]|
    ensures (m.vertices + QuadVertices(c, FaceOrder))[i] == FaceVertex((S + [c])[i / 24], FaceOrder[i % 24 / 4], i % 4)
  {
    assert i / 24 < |S|;
    assert (S + [c])[i / 24] == S[i / 24];
  }

  lemma NewVertexPlaced(vs: seq<Vec3>, S: seq<Vec3>, c: Vec3, i: int)
    requires |vs| == 24 * |S| && 24 * |S| <= i < 24 * |S| + 24
    ensures i / 24 < |S + [c]|
    ensures (vs + QuadVertices(c, FaceOrder))[i] == FaceVertex((S + [c])[i / 24], FaceOrder[i % 24 / 4], i % 4)
  {
    var j := i - 24 * |S|;
    var qs := QuadVertices(c, FaceOrder);
    NextVoxelPosition(|S|, i, j);
    LastOfSnoc(S, c);
    QuadVertexAt(c, j);
    IndexPastPrefix(vs, qs, i, j);
  }

  /** Position `i = 24q + j` in the run of voxel `q`, by its parts. */
  lemma NextVoxelPosition(q: nat, i: int, j: int)
    requires i == 24 * q + j && 0 <= j < 24
    ensures i / 24 == q && i % 24 / 4 == j / 4 && i % 4 == j % 4
  {
    SplitVertexPosition(q, j);
  }

  lemma LastOfSnoc(S: seq<Vec3>, c: Vec3)
    ensures (S + [c])[|S|] == c
  {
  }

  lemma QuadVertexAt(c: Vec3, j: int)
    requires 0 <= j < 24
    ensures |QuadVertices(c, FaceOrder)| == 24
    ensures QuadVertices(c, FaceOrder)[j] == FaceVertex(c, FaceOrder[j / 4], j % 4)
  {
  }

  lemma IndexPastPrefix(vs: seq<Vec3>, qs: seq<Vec3>, i: int, j: int)
    requires j == i - |vs| && 0 <= j < |qs|
    ensures (vs + qs)[i] == qs[j]
  {
  }

  lemma {:induction false} NormalsExtend(m: Mesh, S: seq<Vec3>, c: Vec3)
    requires Describes(m, S)
    ensures var ns := m.normals + QuadNormals(FaceOrder);
      forall i :: 0 <= i < 24 * |S + [c]| ==> ns[i] == Normal(FaceOrder[i % 24 / 4])
  {
    var ns := m.normals + QuadNormals(FaceOrder);
    forall i | 0 <= i < 24 * |S + [c]|
      ensures ns[i] == Normal(FaceOrder[i % 24 / 4])
    {
      if i < 24 * |S| {
        assert ns[i] == m.normals[i];
      } else {
        NewNormalPlaced(m.normals, S, i);
      }
    }
  }

  lemma NewNormalPlaced(ns: seq<Vec3>, S: seq<Vec3>, i: int)
    requires |ns| == 24 * |S| && 24 * |S| <= i < 24 * |S| + 24
    ensures (ns + QuadNormals(FaceOrder))[i] == Normal(FaceOrder[i % 24 / 4])
  {
    var j := i - 24 * |S|;
    var qs := QuadNormals(FaceOrder);
    NextVoxelPosition(|S|, i, j);
    assert qs[j] == Normal(FaceOrder[j / 4]);
    IndexPastPrefix(ns, qs, i, j);
  }

  lemma {:induction false} UVsExtend(m: Mesh, S: seq<Vec3>, c: Vec3)
    requires Describes(m, S)
    ensures var uvs := m.uvs + QuadUVs(FaceOrder, EmptyRect);
      forall i :: 0 <= i < 24 * |S + [c]| ==> uvs[i] == UVCorners(EmptyRect)[i % 4]
  {
    var uvs := m.uvs + QuadUVs(FaceOrder, EmptyRect);
    forall i | 0 <= i < 24 * |S + [c]|
      ensures uvs[i] == UVCorners(EmptyRect)[i % 4]
    {
      if i < 24 * |S| {
        assert uvs[i] == m.uvs[i];
      } else {
        var j := i - 24 * |S|;
        SplitVertexPosition(|S|, j);
        assert uvs[i] == QuadUVs(FaceOrder, EmptyRect)[j];
      }
    }
  }

  lemma {:induction false} IndicesExtend(m: Mesh, S: seq<Vec3>, c: Vec3)
    requires Describes(m, S)
    ensures var ix := m.indices + QuadIndexRun(FaceOrder, 24 * |S|);
      forall t :: 0 <= t < 36 * |S + [c]| ==> ix[t] == 4 * (t / 6) + QuadIndices[t % 6]
  {
    var ix := m.indices + QuadIndexRun(FaceOrder, 24 * |S|);
    forall t | 0 <= t < 36 * |S + [c]|
      ensures ix[t] == 4 * (t / 6) + QuadIndices[t % 6]
    {
      if t < 36 * |S| {
        assert ix[t] == m.indices[t];
      } else {
        var k := t - 36 * |S|;
        SplitIndexPosition(|S|, k);
        assert ix[t] == QuadIndexRun(FaceOrder, 24 * |S|)[k];
      }
    }
  }

  /** Emitting one more solid voxel extends the closed form by that voxel. */
  lemma {:induction false} VoxelExtends(b: Builder, S: seq<Vec3>, c: Vec3)
    requires Describes(b.mesh, S) && b.cursor == 24 * |S|
    ensures Describes(EmitVoxel(b, c).mesh, S + [c])
  {
    VerticesExtend(b.mesh, S, c);
    NormalsExtend(b.mesh, S, c);
    UVsExtend(b.mesh, S, c);
    IndicesExtend(b.mesh, S, c);
  }

  /** Scanning cells after a prefix described by `S` yields the mesh
      described by `S` followed by the solid ones among the cells. */
  lemma {:induction false} ScanDescribes(b: Builder, g: Grid, cs: seq<Vec3>, S: seq<Vec3>)
    requires g.Valid() && forall c :: c in cs ==> g.InBox(c)
    requires Describes(b.mesh, S) && b.cursor == 24 * |S|
    ensures Describes(Scan(b, g, cs).mesh, S + SolidCells(g, cs))
    decreases |cs|
  {
    if cs == [] {
      assert S + [] == S;
    } else {
      var c := cs[0];
      assert forall d :: d in cs[1..] ==> d in cs;
      var b1 := Visit(b, g, c);
      var S1 := if g.At(c) == Air then S else S + [c];
      VisitExtends(b, g, c, S);
      ScanDescribes(b1, g, cs[1..], S1);
      SolidCellsStep(g, cs, S);
    }
  }

  /** Visiting one cell extends the closed form by that cell if it is
      solid. */
  lemma VisitExtends(b: Builder, g: Grid, c: Vec3, S: seq<Vec3>)
    requires g.Valid() && g.InBox(c)
    requires Describes(b.mesh, S) && b.cursor == 24 * |S|
    ensures var S1 := if g.At(c) == Air then S else S + [c];
      Describes(Visit(b, g, c).mesh, S1) && Visit(b, g, c).cursor == 24 * |S1|
  {
    if g.At(c) != Air {
      VoxelExtends(b, S, c);
    }
  }

  /** Peeling the first cell off the solid cells of `cs`. */
  lemma SolidCellsStep(g: Grid, cs: seq<Vec3>, S: seq<Vec3>)
    requires g.Valid() && forall c :: c in cs ==> g.InBox(c)
    requires cs != []
    ensures forall d :: d in cs[1..] ==> g.InBox(d)
    ensures (if g.At(cs[0]) == Air then S else S + [cs[0]]) + SolidCells(g, cs[1..]) == S + SolidCells(g, cs)
  {
    assert forall d :: d in cs[1..] ==> d in cs;
    if g.At(cs[0]) != Air {
      assert (S + [cs[0]]) + SolidCells(g, cs[1..]) == S + ([cs[0]] + SolidCells(g, cs[1..]));
    }
  }

  // ---------------------------------------------------------------- GenerateMesh

  /** The buffers `GenerateMesh` builds from the `n`-cube of `g`: each
      solid cell's six faces, cells in scan order. */
  function MeshOf(g: Grid, n: nat): Mesh
    requires Fits(g, n)
  {
    ScanOrderEnumeratesCube(n);
    Scan(Start, g, ScanOrder(n)).mesh
  }

  /** The mesh built from the `n`-cube is the closed form of its solid
      cells in scan order, and satisfies the buffer invariant. */
  lemma MeshOfDescribes(g: Grid, n: nat)
    requires Fits(g, n)
    ensures Describes(MeshOf(g, n), SolidInScan(g, n))
    ensures WellFormed(Builder(|MeshOf(g, n).vertices|, MeshOf(g, n)))
  {
    ScanOrderEnumeratesCube(n);
    ScanKeepsWellFormed(Start, g, ScanOrder(n));
    ScanDescribes(Start, g, ScanOrder(n), []);
    assert [] + SolidCells(g, ScanOrder(n)) == SolidInScan(g, n);
  }

  /** The outcome of `GenerateMesh` with `BlockIDs` = `blocks` and `Size` =
      `size`: no cell is read when `size <= 0`; otherwise the first read
      fails on a null array, and a read beyond the array's dimensions fails
      before the loops finish.  A failure leaves no mesh behind. */
  function MeshResult(blocks: Option<Grid>, size: int): (r: Result<Mesh>)
    requires blocks.Some? ==> blocks.value.Valid()
    ensures size <= 0 ==> r == Success(EmptyMesh)
    ensures size > 0 ==> (r.Success? <==> blocks.Some? && Fits(blocks.value, size))
    ensures size > 0 && r.Success? ==> Describes(r.value, SolidInScan(blocks.value, size))
    ensures r.Failure? ==> r.error == (if blocks.None? then NullReference else IndexOutOfRange)
  {
    if size <= 0 then Success(EmptyMesh)
    else
      match blocks
      case None => Failure(NullReference)
      case Some(g) =>
        if Fits(g, size) then MeshOfDescribes(g, size); Success(MeshOf(g, size))
        else Failure(IndexOutOfRange)
  }

  /** `GenerateMesh` as written: three nested loops over `x`, `y`, `z`
      (the two inner ones in `MeshSlice` and `MeshRow`, the loop body in
      `MeshCell`) reading `BlockIDs[x, y, z]`, skipping air and otherwise
      calling the six emitters in order. */
  method GenerateMesh(blocks: Option<Grid>, size: int) returns (r: Result<Mesh>)
    requires blocks.Some? ==> blocks.value.Valid()
    ensures r == MeshResult(blocks, size)
  {
    var n: nat := if size > 0 then size else 0;
    var b := Start;
    var x := 0;
    while x < size
      invariant 0 <= x <= n
      invariant x > 0 ==> blocks.Some? && blocks.value.InBox(Vec3(x - 1, n - 1, n - 1))
      invariant blocks.None? ==> b == Start
      invariant blocks.Some? ==> b == BlockPrefix(blocks.value, n, x)
      invariant WellFormed(b)
    {
      var slice := MeshSlice(blocks, n, x, b);
      if slice.Failure? {
        return Failure(slice.error);
      }
      b := slice.value;
      x := x + 1;
    }
    if n > 0 {
      BlockPrefixIsMeshOf(blocks.value, n);
    }
    r := Success(b.mesh);
  }

  /** The `y` loop of `GenerateMesh` for slice `x`, starting from `b`. */
  method MeshSlice(blocks: Option<Grid>, n: nat, x: nat, b: Builder) returns (r: Result<Builder>)
    requires blocks.Some? ==> blocks.value.Valid()
    requires x < n
    requires x > 0 ==> blocks.Some? && blocks.value.InBox(Vec3(x - 1, n - 1, n - 1))
    ensures r.Failure? ==> !Covers(blocks, n) && r.error == (if blocks.None? then NullReference else IndexOutOfRange)
    ensures r.Success? ==> blocks.Some? && blocks.value.InBox(Vec3(x, n - 1, n - 1))
    ensures r.Success? ==> r.value == SlicePrefix(b, blocks.value, x, n, n)
    ensures r.Success? && WellFormed(b) ==> WellFormed(r.value)
  {
    var acc := b;
    var y := 0;
    while y < n
      invariant 0 <= y <= n
      invariant y > 0 ==> blocks.Some? && blocks.value.InBox(Vec3(x, y - 1, n - 1))
      invariant blocks.Some? ==> acc == SlicePrefix(b, blocks.value, x, n, y)
      invariant WellFormed(b) ==> WellFormed(acc)
    {
      var row := MeshRow(blocks, n, x, y, acc);
      if row.Failure? {
        return Failure(row.error);
      }
      acc := row.value;
      y := y + 1;
    }
    return Success(acc);
  }

  /** The `z` loop of `GenerateMesh` for row `(x, y)`, starting from `b`. */
  method MeshRow(blocks: Option<Grid>, n: nat, x: nat, y: nat, b: Builder) returns (r: Result<Builder>)
    requires blocks.Some? ==> blocks.value.Valid()
    requires x < n && y < n
    ensures r.Failure? ==> !Covers(blocks, n) && r.error == (if blocks.None? then NullReference else IndexOutOfRange)
    ensures r.Success? ==> blocks.Some? && blocks.value.InBox(Vec3(x, y, n - 1))
    ensures r.Success? ==> r.value == RowPrefix(b, blocks.value, x, y, n)
    ensures r.Success? && WellFormed(b) ==> WellFormed(r.value)
  {
    var acc := b;
    var z := 0;
    while z < n
      invariant 0 <= z <= n
      invariant z > 0 ==> blocks.Some? && blocks.value.InBox(Vec3(x, y, z - 1))
      invariant blocks.Some? ==> acc == RowPrefix(b, blocks.value, x, y, z)
      invariant WellFormed(b) ==> WellFormed(acc)
    {
      var cell := MeshCell(blocks, acc, Vec3(x, y, z));
      if cell.Failure? {
        return Failure(cell.error);
      }
      acc := cell.value;
      z := z + 1;
    }
    return Success(acc);
  }

  /** The loop body of `GenerateMesh` for the cell `c`: read its block id,
      skip air, otherwise call the six emitters in order. */
  method MeshCell(blocks: Option<Grid>, b: Builder, c: Vec3) returns (r: Result<Builder>)
    requires blocks.Some? ==> blocks.value.Valid()
    ensures r.Failure? <==> Lookup(blocks, c).Failure?
    ensures r.Failure? ==> r.error == Lookup(blocks, c).error
    ensures r.Success? ==> r.value == Visit(b, blocks.value, c)
    ensures r.Success? && WellFormed(b) ==> WellFormed(r.value)
  {
    var read := Lookup(blocks, c);
    if read.Failure? {
      return Failure(read.error);
    }
    if read.value == Air {
      return Success(b);
    }
    var acc := b;
    acc := EmitFace(acc, c, Top, EmptyRect);
    acc := EmitFace(acc, c, Right, EmptyRect);
    acc := EmitFace(acc, c, Left, EmptyRect);
    acc := EmitFace(acc, c, Forward, EmptyRect);
    acc := EmitFace(acc, c, Back, EmptyRect);
    acc := EmitFace(acc, c, Bottom, EmptyRect);
    EmitVoxelIsSixCalls(b, c);
    return Success(acc);
  }

  /** The array exists and holds the whole `n`-cube. */
  predicate Covers(blocks: Option<Grid>, n: nat) {
    blocks.Some? && Fits(blocks.value, n)
  }

  /** The state after the first `z` cells of row `(x, y)`, starting from
      `b`. */
  function RowPrefix(b: Builder, g: Grid, x: int, y: int, z: nat): Builder
    requires g.Valid() && (z > 0 ==> g.InBox(Vec3(x, y, z - 1)))
  {
    if z == 0 then b else Visit(RowPrefix(b, g, x, y, z - 1), g, Vec3(x, y, z - 1))
  }

  /** The state after the first `y` rows of slice `x`, starting from `b`. */
  function SlicePrefix(b: Builder, g: Grid, x: int, n: nat, y: nat): Builder
    requires g.Valid() && (y > 0 ==> g.InBox(Vec3(x, y - 1, n - 1)))
  {
    if y == 0 then b else RowPrefix(SlicePrefix(b, g, x, n, y - 1), g, x, y - 1, n)
  }

  /** The state after the first `x` slices of the `n`-cube. */
  function BlockPrefix(g: Grid, n: nat, x: nat): Builder
    requires g.Valid() && (x > 0 ==> g.InBox(Vec3(x - 1, n - 1, n - 1)))
  {
    if x == 0 then Start else SlicePrefix(BlockPrefix(g, n, x - 1), g, x - 1, n, n)
  }

  /** Visiting the first `z` cells of a row leaves the rest of the row to
      the scan. */
  lemma {:induction false} RowPrefixScans(b: Builder, g: Grid, n: nat, x: int, y: int, z: nat)
    requires Fits(g, n) && 0 <= x < n && 0 <= y < n && z <= n
    ensures Scan(b, g, Row(n, x, y, 0)) == Scan(RowPrefix(b, g, x, y, z), g, Row(n, x, y, z))
  {
    if z > 0 {
      RowPrefixScans(b, g, n, x, y, z - 1);
      RowStep(RowPrefix(b, g, x, y, z - 1), g, n, x, y, z - 1);
    }
  }

  /** Scanning a row from cell `z` on visits cell `z` first. */
  lemma RowStep(b: Builder, g: Grid, n: nat, x: int, y: int, z: nat)
    requires Fits(g, n) && 0 <= x < n && 0 <= y < n && z < n
    ensures Scan(b, g, Row(n, x, y, z)) == Scan(Visit(b, g, Vec3(x, y, z)), g, Row(n, x, y, z + 1))
  {
    assert Row(n, x, y, z) == [Vec3(x, y, z)] + Row(n, x, y, z + 1);
    ScanCons(b, g, Vec3(x, y, z), Row(n, x, y, z + 1));
  }

  /** The scan of a whole row is the row loop run to its end. */
  lemma RowScan(b: Builder, g: Grid, n: nat, x: int, y: int)
    requires Fits(g, n) && 0 <= x < n && 0 <= y < n
    ensures Scan(b, g, Row(n, x, y, 0)) == RowPrefix(b, g, x, y, n)
  {
    RowPrefixScans(b, g, n, x, y, n);
    assert Row(n, x, y, n) == [];
  }

  /** Visiting the first `y` rows of a slice leaves the rest of the slice
      to the scan. */
  lemma {:induction false} SlicePrefixScans(b: Builder, g: Grid, n: nat, x: int, y: nat)
    requires Fits(g, n) && 0 <= x < n && y <= n
    ensures Scan(b, g, Plane(n, x, 0)) == Scan(SlicePrefix(b, g, x, n, y), g, Plane(n, x, y))
  {
    if y > 0 {
      SlicePrefixScans(b, g, n, x, y - 1);
      var before := SlicePrefix(b, g, x, n, y - 1);
      SliceStep(before, g, n, x, y - 1);
      RowScan(before, g, n, x, y - 1);
    }
  }

  /** Scanning a slice from row `y` on scans row `y` first. */
  lemma SliceStep(b: Builder, g: Grid, n: nat, x: int, y: nat)
    requires Fits(g, n) && 0 <= x < n && y < n
    ensures Scan(b, g, Plane(n, x, y)) == Scan(Scan(b, g, Row(n, x, y, 0)), g, Plane(n, x, y + 1))
  {
    assert Plane(n, x, y) == Row(n, x, y, 0) + Plane(n, x, y + 1);
    ScanAppend(b, g, Row(n, x, y, 0), Plane(n, x, y + 1));
  }

  /** The scan of a whole slice is the slice loop run to its end. */
  lemma SliceScan(b: Builder, g: Grid, n: nat, x: int)
    requires Fits(g, n) && 0 <= x < n
    ensures Scan(b, g, Plane(n, x, 0)) == SlicePrefix(b, g, x, n, n)
  {
    SlicePrefixScans(b, g, n, x, n);
    assert Plane(n, x, n) == [];
  }

  /** Visiting the first `x` slices of the cube leaves the rest of the cube
      to the scan. */
  lemma {:induction false} BlockPrefixScans(g: Grid, n: nat, x: nat)
    requires Fits(g, n) && x <= n
    ensures Scan(Start, g, Block(n, 0)) == Scan(BlockPrefix(g, n, x), g, Block(n, x))
  {
    if x > 0 {
      BlockPrefixScans(g, n, x - 1);
      var before := BlockPrefix(g, n, x - 1);
      BlockStep(before, g, n, x - 1);
      SliceScan(before, g, n, x - 1);
    }
  }

  /** Scanning the cube from slice `x` on scans slice `x` first. */
  lemma BlockStep(b: Builder, g: Grid, n: nat, x: nat)
    requires Fits(g, n) && x < n
    ensures Scan(b, g, Block(n, x)) == Scan(Scan(b, g, Plane(n, x, 0)), g, Block(n, x + 1))
  {
    assert Block(n, x) == Plane(n, x, 0) + Block(n, x + 1);
    ScanAppend(b, g, Plane(n, x, 0), Block(n, x + 1));
  }

  /** The three loops end in the mesh of the whole cube. */
  lemma BlockPrefixIsMeshOf(g: Grid, n: nat)
    requires g.Valid() && n > 0 && g.InBox(Vec3(n - 1, n - 1, n - 1))
    ensures Fits(g, n)
    ensures BlockPrefix(g, n, n).mesh == MeshOf(g, n)
  {
    BlockPrefixScans(g, n, n);
    assert Block(n, n) == [];
  }

  /** Scanning a cell followed by more cells visits the cell first. */
  lemma ScanCons(b: Builder, g: Grid, c: Vec3, rest: seq<Vec3>)
    requires g.Valid() && g.InBox(c) && forall d :: d in rest ==> g.InBox(d)
    ensures forall d :: d in [c] + rest ==> g.InBox(d)
    ensures Scan(b, g, [c] + rest) == Scan(Visit(b, g, c), g, rest)
  {
    assert ([c] + rest)[1..] == rest;
  }

  /** Scanning two runs of cells is scanning the first, then the second
      from where the first left off. */
  lemma {:induction false} ScanAppend(b: Builder, g: Grid, xs: seq<Vec3>, ys: seq<Vec3>)
    requires g.Valid() && forall c :: c in xs + ys ==> g.InBox(c)
    ensures forall c :: c in xs ==> g.InBox(c)
    ensures forall c :: c in ys ==> g.InBox(c)
    ensures Scan(b, g, xs + ys) == Scan(Scan(b, g, xs), g, ys)
    decreases |xs|
  {
    assert forall c :: c in xs ==> c in xs + ys;
    assert forall c :: c in ys ==> c in xs + ys;
    if xs != [] {
      assert (xs + ys)[1..] == xs[1..] + ys;
      ScanAppend(Visit(b, g, xs[0]), g, xs[1..], ys);
    } else {
      assert xs + ys == ys;
    }
  }
}
