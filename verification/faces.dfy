/** The six face emitters of the chunk mesher, collapsed into one table.

    Each emitter appends a quad whose four corners, normal, UV corners and
    index pattern are fixed per direction; only the voxel offset and the
    running vertex cursor vary.  This module holds the per-direction rows
    (normal axis and sign, four corner offsets) and states, row by row, the
    geometry they promise: the corners lie on the face's plane and cover it,
    the normal is an outward unit axis, and the cross product of each
    triangle's sides leaving its first corner points along the normal.
 */
module Faces {
  import opened Geometry
  import opened Outcomes

  datatype Face = Top | Right | Left | Forward | Back | Bottom

  /** The order in which every solid voxel emits its faces. */
  const FaceOrder: seq<Face> := [Top, Right, Left, Forward, Back, Bottom]

  /** The two triangles of a quad, relative to its first vertex. */
  const QuadIndices: seq<int> := [0, 1, 2, 0, 2, 3]

  /** The axis a face is perpendicular to. */
  function NormalAxis(f: Face): Axis {
    match f
    case Top => Y
    case Bottom => Y
    case Right => X
    case Left => X
    case Forward => Z
    case Back => Z
  }

  /** Whether a face looks towards the positive (+1) or negative (-1) end
      of its axis. */
  function NormalSign(f: Face): int {
    match f
    case Top => 1
    case Right => 1
    case Forward => 1
    case Left => -1
    case Back => -1
    case Bottom => -1
  }

  /** The normal each emitter appends (`Vector3.up`, `.right`, `.left`,
      `.forward`, `.back`, `.down`). */
  function Normal(f: Face): (n: Vec3)
    ensures IsUnitAxis(n)
    ensures Component(n, NormalAxis(f)) == NormalSign(f)
  {
    AxisVec(NormalAxis(f), NormalSign(f))
  }

  /** A doubled corner offset lies on the face's plane: it is a cube corner
      whose component along the face's axis has the face's sign. */
  predicate OnFacePlane(c: Vec3, f: Face) {
    IsSignVec(c) && Component(c, NormalAxis(f)) == NormalSign(f)
  }

  /** The four corner offsets each emitter adds to the voxel coordinate, in
      emission order, doubled. */
  function Corners(f: Face): (cs: seq<Vec3>)
    ensures |cs| == 4
  {
    match f
    case Top => [Vec3(-1, 1, 1), Vec3(1, 1, 1), Vec3(1, 1, -1), Vec3(-1, 1, -1)]
    case Right => [Vec3(1, 1, -1), Vec3(1, 1, 1), Vec3(1, -1, 1), Vec3(1, -1, -1)]
    case Left => [Vec3(-1, 1, 1), Vec3(-1, 1, -1), Vec3(-1, -1, -1), Vec3(-1, -1, 1)]
    case Forward => [Vec3(1, 1, 1), Vec3(-1, 1, 1), Vec3(-1, -1, 1), Vec3(1, -1, 1)]
    case Back => [Vec3(-1, 1, -1), Vec3(1, 1, -1), Vec3(1, -1, -1), Vec3(-1, -1, -1)]
    case Bottom => [Vec3(-1, -1, -1), Vec3(1, -1, -1), Vec3(1, -1, 1), Vec3(-1, -1, 1)]
  }

  /** Each row of the corner table is exactly the face's quad: four
      distinct cube corners on the face's plane, and no cube corner on that
      plane is missing. */
  lemma CornersCoverFace(f: Face)
    ensures forall m :: 0 <= m < 4 ==> OnFacePlane(Corners(f)[m], f)
    ensures forall m, k :: 0 <= m < k < 4 ==> Corners(f)[m] != Corners(f)[k]
    ensures forall c :: OnFacePlane(c, f) ==> c in Corners(f)
  {
  }

  /** A quarter turn of `v` about the face's normal: the cross product
      `Normal(f) x v`, written out per axis. */
  function Turn(f: Face, v: Vec3): Vec3 {
    match f
    case Top => Vec3(v.z, 0, -v.x)
    case Bottom => Vec3(-v.z, 0, v.x)
    case Right => Vec3(0, -v.z, v.y)
    case Left => Vec3(0, v.z, -v.y)
    case Forward => Vec3(-v.y, v.x, 0)
    case Back => Vec3(v.y, -v.x, 0)
  }

  /** `Turn` is the cross product with the normal. */
  lemma TurnIsCross(f: Face, v: Vec3)
    ensures Turn(f, v) == Cross(Normal(f), v)
  {
  }

  /** The edge of the quad from corner `i` to corner `j`. */
  function Edge(f: Face, i: int, j: int): Vec3
    requires 0 <= i < 4 && 0 <= j < 4
  {
    Sub(Corners(f)[j], Corners(f)[i])
  }

  /** The quad of face `f` runs round its face in one turning direction:
      every edge is the previous one turned by `Turn`, the cross product
      with the normal.  Its first edge is a full unit edge of the cube lying
      in the face's plane, hence so are the others. */
  predicate WindsAboutNormal(f: Face) {
    && Edge(f, 1, 2) == Turn(f, Edge(f, 0, 1))
    && Edge(f, 2, 3) == Turn(f, Edge(f, 1, 2))
    && Edge(f, 3, 0) == Turn(f, Edge(f, 2, 3))
    && Edge(f, 0, 1) == Turn(f, Edge(f, 3, 0))
    && IsCubeEdge(Edge(f, 0, 1))
    && Component(Edge(f, 0, 1), NormalAxis(f)) == 0
  }

  /** For both triangles of the quad of face `f` (corners 0,1,2 and 0,2,3),
      the cross product of the sides leaving corner 0, taken in index
      order, points along the normal: it is four times the normal. */
  predicate TrianglesFaceNormal(f: Face) {
    && Cross(Edge(f, 0, 1), Edge(f, 0, 2)) == Scale(4, Normal(f))
    && Cross(Edge(f, 0, 2), Edge(f, 0, 3)) == Scale(4, Normal(f))
  }

  /** Every row of the corner table turns the same way round its face. */
  lemma CornersWindAboutNormal(f: Face)
    ensures WindsAboutNormal(f)
  {
    match f
    case Top => TopWinds();
    case Right => RightWinds();
    case Left => LeftWinds();
    case Forward => ForwardWinds();
    case Back => BackWinds();
    case Bottom => BottomWinds();
  }

  /** For every row of the corner table, the cross products of both
      triangles' sides point along the normal. */
  lemma CornersFaceNormal(f: Face)
    ensures TrianglesFaceNormal(f)
  {
    match f
    case Top => TopFacesNormal();
    case Right => RightFacesNormal();
    case Left => LeftFacesNormal();
    case Forward => ForwardFacesNormal();
    case Back => BackFacesNormal();
    case Bottom => BottomFacesNormal();
  }

  // The per-face steps below first compute each edge and each cross product
  // as a literal in a lemma of its own, then chain the literals; the solver
  // evaluates one literal vector equation quickly but stalls when several
  // are to be derived in the same proof.

  lemma TopWinds()
    ensures WindsAboutNormal(Top)
  {
    TopEdges();
  }

  lemma TopFacesNormal()
    ensures TrianglesFaceNormal(Top)
  {
    TopEdges();
    TopCross012();
    TopCross023();
    TopScaled();
  }

  /** The edges of the top quad, and the sides from corner 0 to
      corners 2 and 3. */
  lemma TopEdges()
    ensures Edge(Top, 0, 1) == Vec3(2, 0, 0) && Edge(Top, 1, 2) == Vec3(0, 0, -2)
    ensures Edge(Top, 2, 3) == Vec3(-2, 0, 0) && Edge(Top, 3, 0) == Vec3(0, 0, 2)
    ensures Edge(Top, 0, 2) == Vec3(2, 0, -2) && Edge(Top, 0, 3) == Vec3(0, 0, -2)
  {
  }

  lemma TopScaled()
    ensures Scale(4, Normal(Top)) == Vec3(0, 4, 0)
  {
  }

  lemma TopCross012()
    ensures Cross(Vec3(2, 0, 0), Vec3(2, 0, -2)) == Vec3(0, 4, 0)
  {
  }

  lemma TopCross023()
    ensures Cross(Vec3(2, 0, -2), Vec3(0, 0, -2)) == Vec3(0, 4, 0)
  {
  }

  lemma RightWinds()
    ensures WindsAboutNormal(Right)
  {
    RightEdges();
  }

  lemma RightFacesNormal()
    ensures TrianglesFaceNormal(Right)
  {
    RightEdges();
    RightCross012();
    RightCross023();
    RightScaled();
  }

  /** The edges of the right quad, and the sides from corner 0 to
      corners 2 and 3. */
  lemma RightEdges()
    ensures Edge(Right, 0, 1) == Vec3(0, 0, 2) && Edge(Right, 1, 2) == Vec3(0, -2, 0)
    ensures Edge(Right, 2, 3) == Vec3(0, 0, -2) && Edge(Right, 3, 0) == Vec3(0, 2, 0)
    ensures Edge(Right, 0, 2) == Vec3(0, -2, 2) && Edge(Right, 0, 3) == Vec3(0, -2, 0)
  {
  }

  lemma RightScaled()
    ensures Scale(4, Normal(Right)) == Vec3(4, 0, 0)
  {
  }

  lemma RightCross012()
    ensures Cross(Vec3(0, 0, 2), Vec3(0, -2, 2)) == Vec3(4, 0, 0)
  {
  }

  lemma RightCross023()
    ensures Cross(Vec3(0, -2, 2), Vec3(0, -2, 0)) == Vec3(4, 0, 0)
  {
  }

  lemma LeftWinds()
    ensures WindsAboutNormal(Left)
  {
    LeftEdges();
  }

  lemma LeftFacesNormal()
    ensures TrianglesFaceNormal(Left)
  {
    LeftEdges();
    LeftCross012();
    LeftCross023();
    LeftScaled();
  }

  /** The edges of the left quad, and the sides from corner 0 to
      corners 2 and 3. */
  lemma LeftEdges()
    ensures Edge(Left, 0, 1) == Vec3(0, 0, -2) && Edge(Left, 1, 2) == Vec3(0, -2, 0)
    ensures Edge(Left, 2, 3) == Vec3(0, 0, 2) && Edge(Left, 3, 0) == Vec3(0, 2, 0)
    ensures Edge(Left, 0, 2) == Vec3(0, -2, -2) && Edge(Left, 0, 3) == Vec3(0, -2, 0)
  {
  }

  lemma LeftScaled()
    ensures Scale(4, Normal(Left)) == Vec3(-4, 0, 0)
  {
  }

  lemma LeftCross012()
    ensures Cross(Vec3(0, 0, -2), Vec3(0, -2, -2)) == Vec3(-4, 0, 0)
  {
  }

  lemma LeftCross023()
    ensures Cross(Vec3(0, -2, -2), Vec3(0, -2, 0)) == Vec3(-4, 0, 0)
  {
  }

  lemma ForwardWinds()
    ensures WindsAboutNormal(Forward)
  {
    ForwardEdges();
  }

  lemma ForwardFacesNormal()
    ensures TrianglesFaceNormal(Forward)
  {
    ForwardEdges();
    ForwardCross012();
    ForwardCross023();
    ForwardScaled();
  }

  /** The edges of the forward quad, and the sides from corner 0 to
      corners 2 and 3. */
  lemma ForwardEdges()
    ensures Edge(Forward, 0, 1) == Vec3(-2, 0, 0) && Edge(Forward, 1, 2) == Vec3(0, -2, 0)
    ensures Edge(Forward, 2, 3) == Vec3(2, 0, 0) && Edge(Forward, 3, 0) == Vec3(0, 2, 0)
    ensures Edge(Forward, 0, 2) == Vec3(-2, -2, 0) && Edge(Forward, 0, 3) == Vec3(0, -2, 0)
  {
  }

  lemma ForwardScaled()
    ensures Scale(4, Normal(Forward)) == Vec3(0, 0, 4)
  {
  }

  lemma ForwardCross012()
    ensures Cross(Vec3(-2, 0, 0), Vec3(-2, -2, 0)) == Vec3(0, 0, 4)
  {
  }

  lemma ForwardCross023()
    ensures Cross(Vec3(-2, -2, 0), Vec3(0, -2, 0)) == Vec3(0, 0, 4)
  {
  }

  lemma BackWinds()
    ensures WindsAboutNormal(Back)
  {
    BackEdges();
  }

  lemma BackFacesNormal()
    ensures TrianglesFaceNormal(Back)
  {
    BackEdges();
    BackCross012();
    BackCross023();
    BackScaled();
  }

  /** The edges of the back quad, and the sides from corner 0 to
      corners 2 and 3. */
  lemma BackEdges()
    ensures Edge(Back, 0, 1) == Vec3(2, 0, 0) && Edge(Back, 1, 2) == Vec3(0, -2, 0)
    ensures Edge(Back, 2, 3) == Vec3(-2, 0, 0) && Edge(Back, 3, 0) == Vec3(0, 2, 0)
    ensures Edge(Back, 0, 2) == Vec3(2, -2, 0) && Edge(Back, 0, 3) == Vec3(0, -2, 0)
  {
  }

  lemma BackScaled()
    ensures Scale(4, Normal(Back)) == Vec3(0, 0, -4)
  {
  }

  lemma BackCross012()
    ensures Cross(Vec3(2, 0, 0), Vec3(2, -2, 0)) == Vec3(0, 0, -4)
  {
  }

  lemma BackCross023()
    ensures Cross(Vec3(2, -2, 0), Vec3(0, -2, 0)) == Vec3(0, 0, -4)
  {
  }

  lemma BottomWinds()
    ensures WindsAboutNormal(Bottom)
  {
    BottomEdges();
  }

  lemma BottomFacesNormal()
    ensures TrianglesFaceNormal(Bottom)
  {
    BottomEdges();
    BottomCross012();
    BottomCross023();
    BottomScaled();
  }

  /** The edges of the bottom quad, and the sides from corner 0 to
      corners 2 and 3. */
  lemma BottomEdges()
    ensures Edge(Bottom, 0, 1) == Vec3(2, 0, 0) && Edge(Bottom, 1, 2) == Vec3(0, 0, 2)
    ensures Edge(Bottom, 2, 3) == Vec3(-2, 0, 0) && Edge(Bottom, 3, 0) == Vec3(0, 0, -2)
    ensures Edge(Bottom, 0, 2) == Vec3(2, 0, 2) && Edge(Bottom, 0, 3) == Vec3(0, 0, 2)
  {
  }

  lemma BottomScaled()
    ensures Scale(4, Normal(Bottom)) == Vec3(0, -4, 0)
  {
  }

  lemma BottomCross012()
    ensures Cross(Vec3(2, 0, 0), Vec3(2, 0, 2)) == Vec3(0, -4, 0)
  {
  }

  lemma BottomCross023()
    ensures Cross(Vec3(2, 0, 2), Vec3(0, 0, 2)) == Vec3(0, -4, 0)
  {
  }

  /** The texture coordinates every emitter appends, taken from the corners
      of the rectangle it is given: (xMin, yMax), (xMax, yMax),
      (xMax, yMin), (xMin, yMin). */
  function UVCorners(r: Rect): (uvs: seq<Vec2>)
    ensures |uvs| == 4
    ensures forall m :: 0 <= m < 4 ==> uvs[m].u == (if m == 0 || m == 3 then r.XMin() else r.XMax())
    ensures forall m :: 0 <= m < 4 ==> uvs[m].v == (if m < 2 then r.YMax() else r.YMin())
  {
    [Vec2(r.XMin(), r.YMax()), Vec2(r.XMax(), r.YMax()), Vec2(r.XMax(), r.YMin()), Vec2(r.XMin(), r.YMin())]
  }

  /** The doubled position of corner `m` of face `f` of the voxel `cell`:
      the voxel's centre moved half a unit out along the face's normal and
      half a unit along each of the two other axes. */
  function FaceVertex(cell: Vec3, f: Face, m: int): (p: Vec3)
    requires 0 <= m < 4
    ensures OnFacePlane(Sub(p, Centre(cell)), f)
  {
    var p := Add(Centre(cell), Corners(f)[m]);
    assert Sub(p, Centre(cell)) == Corners(f)[m];
    CornersCoverFace(f);
    p
  }

  /** Inverse of `Normal`: the face whose emitter appends the normal `n`,
      if there is one. */
  function FaceWithNormal(n: Vec3): (r: Option<Face>)
    ensures r.Some? <==> IsUnitAxis(n)
    ensures r.Some? ==> Normal(r.value) == n
  {
    if n == Vec3(0, 1, 0) then Some(Top)
    else if n == Vec3(1, 0, 0) then Some(Right)
    else if n == Vec3(-1, 0, 0) then Some(Left)
    else if n == Vec3(0, 0, 1) then Some(Forward)
    else if n == Vec3(0, 0, -1) then Some(Back)
    else if n == Vec3(0, -1, 0) then Some(Bottom)
    else None
  }

  /** Distinct faces have distinct normals, so the six normals of one voxel
      are pairwise different; the face order lists every face exactly once. */
  lemma NormalsIdentifyFaces(f: Face, g: Face)
    ensures Normal(f) == Normal(g) <==> f == g
    ensures FaceWithNormal(Normal(f)) == Some(f)
    ensures |FaceOrder| == 6 && f in FaceOrder
    ensures forall i, j :: 0 <= i < j < 6 ==> FaceOrder[i] != FaceOrder[j]
  {
  }
}
