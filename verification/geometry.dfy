/** Exact vector arithmetic for the chunk mesher.

    Every position the mesher produces is a voxel coordinate plus an offset of
    +-0.5 on each axis.  Doubling every coordinate makes those positions
    integral: the voxel (x, y, z) has its centre at (2x, 2y, 2z) and its
    corners at (2x +- 1, 2y +- 1, 2z +- 1).  Normals are unit axis vectors and
    need no scaling.  Texture coordinates are copied, never computed on, so
    they stay `real`.
 */
module Geometry {

  /** An integer 3-vector: a voxel coordinate (`Vector3Int`), a doubled
      vertex position, or an axis-aligned normal. */
  datatype Vec3 = Vec3(x: int, y: int, z: int)

  /** A texture coordinate (`Vector2`). */
  datatype Vec2 = Vec2(u: real, v: real)

  /** A texture rectangle stored, like the engine's `Rect`, as origin and
      size; the max edges are origin plus size. */
  datatype Rect = Rect(x: real, y: real, width: real, height: real) {
    function XMin(): real { x }
    function YMin(): real { y }
    function XMax(): real { x + width }
    function YMax(): real { y + height }
  }

  /** The default-constructed rectangle (`new Rect()`): all fields zero. */
  const EmptyRect: Rect := Rect(0.0, 0.0, 0.0, 0.0)

  function Add(a: Vec3, b: Vec3): Vec3 {
    Vec3(a.x + b.x, a.y + b.y, a.z + b.z)
  }

  function Sub(a: Vec3, b: Vec3): Vec3 {
    Vec3(a.x - b.x, a.y - b.y, a.z - b.z)
  }

  function Scale(k: int, a: Vec3): Vec3 {
    Vec3(k * a.x, k * a.y, k * a.z)
  }

  datatype Axis = X | Y | Z

  /** The component of `v` along axis `a`. */
  function Component(v: Vec3, a: Axis): int {
    match a
    case X => v.x
    case Y => v.y
    case Z => v.z
  }

  /** The vector of length |s| along axis `a`, pointing the way `s` does. */
  function AxisVec(a: Axis, s: int): (v: Vec3)
    ensures Component(v, a) == s
    ensures forall b: Axis :: b != a ==> Component(v, b) == 0
  {
    match a
    case X => Vec3(s, 0, 0)
    case Y => Vec3(0, s, 0)
    case Z => Vec3(0, 0, s)
  }

  /** The determinant of the 2x2 matrix with rows (a, b) and (c, d). */
  function Det2(a: int, b: int, c: int, d: int): int {
    a * d - b * c
  }

  function Cross(a: Vec3, b: Vec3): Vec3 {
    Vec3(Det2(a.y, a.z, b.y, b.z), Det2(a.z, a.x, b.z, b.x), Det2(a.x, a.y, b.x, b.y))
  }

  /** The doubled position of a voxel's centre. */
  function Centre(cell: Vec3): Vec3 {
    Scale(2, cell)
  }

  predicate IsSign(i: int) {
    i == 1 || i == -1
  }

  /** A doubled corner offset of the unit cube: every component is +-1. */
  predicate IsSignVec(v: Vec3) {
    IsSign(v.x) && IsSign(v.y) && IsSign(v.z)
  }

  /** One of the six axis-aligned unit vectors. */
  predicate IsUnitAxis(v: Vec3) {
    || (IsSign(v.x) && v.y == 0 && v.z == 0)
    || (v.x == 0 && IsSign(v.y) && v.z == 0)
    || (v.x == 0 && v.y == 0 && IsSign(v.z))
  }

  /** An edge of the unit cube in doubled coordinates: twice a unit axis
      vector. */
  predicate IsCubeEdge(v: Vec3) {
    || ((v.x == 2 || v.x == -2) && v.y == 0 && v.z == 0)
    || (v.x == 0 && (v.y == 2 || v.y == -2) && v.z == 0)
    || (v.x == 0 && v.y == 0 && (v.z == 2 || v.z == -2))
  }
}
