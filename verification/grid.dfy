/** The chunk's block grid (`short[,,] BlockIDs`), the fill performed by
    `GenerateBlocks`, and the x-outer, y-middle, z-inner order in which the
    mesher visits the cells. */
module VoxelGrid {
  import opened Geometry
  import opened Outcomes

  /** A block identifier, stored as a C# `short`. */
  type BlockId = i: int | -0x8000 <= i < 0x8000

  /** The identifier of an empty cell; every other identifier is solid. */
  const Air: BlockId := 0

  /** The identifier `GenerateBlocks` writes into the cells it fills. */
  const Stone: BlockId := 1

  /** A three-dimensional array with dimensions `dx`, `dy`, `dz`, indexed
      `ids[x][y][z]`.  `GenerateBlocks` only ever allocates cubes, but the
      field is public and the mesher reads it with whatever dimensions it
      has. */
  datatype Grid = Grid(dx: nat, dy: nat, dz: nat, ids: seq<seq<seq<BlockId>>>) {
    predicate Valid() {
      && |ids| == dx
      && (forall x :: 0 <= x < dx ==> |ids[x]| == dy)
      && (forall x, y :: 0 <= x < dx && 0 <= y < dy ==> |ids[x][y]| == dz)
    }

    /** Whether `c` is a legal index triple of the array. */
    predicate InBox(c: Vec3) {
      0 <= c.x < dx && 0 <= c.y < dy && 0 <= c.z < dz
    }

    function At(c: Vec3): BlockId
      requires Valid() && InBox(c)
    {
      ids[c.x][c.y][c.z]
    }
  }

  /** A grid holds at least the `n x n x n` cube the mesher scans. */
  predicate Fits(g: Grid, n: nat) {
    g.Valid() && n <= g.dx && n <= g.dy && n <= g.dz
  }

  /** The cells of the `n x n x n` cube at the origin. */
  predicate InCube(c: Vec3, n: int) {
    0 <= c.x < n && 0 <= c.y < n && 0 <= c.z < n
  }

  /** The `n`-cube whose cell `(x, y, z)` holds `f(x, y, z)`. */
  function CubeOf(n: nat, f: (int, int, int) -> BlockId): (g: Grid)
    ensures Fits(g, n) && g.dx == n && g.dy == n && g.dz == n
    ensures forall c :: g.InBox(c) ==> g.At(c) == f(c.x, c.y, c.z)
  {
    Grid(n, n, n, seq(n, x => PlaneOf(n, x, f)))
  }

  function PlaneOf(n: nat, x: int, f: (int, int, int) -> BlockId): (p: seq<seq<BlockId>>)
    ensures |p| == n
    ensures forall y :: 0 <= y < n ==> |p[y]| == n
    ensures forall y, z :: 0 <= y < n && 0 <= z < n ==> p[y][z] == f(x, y, z)
  {
    seq(n, y => RowOf(n, x, y, f))
  }

  function RowOf(n: nat, x: int, y: int, f: (int, int, int) -> BlockId): (r: seq<BlockId>)
    ensures |r| == n
    ensures forall z :: 0 <= z < n ==> r[z] == f(x, y, z)
  {
    seq(n, z => f(x, y, z))
  }

  /** `new short[n, n, n]`: a zero-filled cube, or the exception a negative
      dimension raises. */
  function Allocate(n: int): (r: Result<Grid>)
    ensures r.Success? <==> n >= 0
    ensures r.Success? ==> Fits(r.value, n) && r.value.dx == r.value.dy == r.value.dz == n
    ensures r.Success? ==> forall c :: r.value.InBox(c) ==> r.value.At(c) == Air
  {
    if n < 0 then Failure(NegativeSize)
    else Success(CubeOf(n, (x, y, z) => Air))
  }

  /** Reading `BlockIDs[x, y, z]`: the field may still be null, and the
      indices are bounds-checked. */
  function Lookup(blocks: Option<Grid>, c: Vec3): (r: Result<BlockId>)
    requires blocks.Some? ==> blocks.value.Valid()
    ensures blocks.None? ==> r == Failure(NullReference)
    ensures blocks.Some? && !blocks.value.InBox(c) ==> r == Failure(IndexOutOfRange)
    ensures r.Success? <==> blocks.Some? && blocks.value.InBox(c)
    ensures r.Success? ==> r.value == blocks.value.At(c)
  {
    match blocks
    case None => Failure(NullReference)
    case Some(g) => if g.InBox(c) then Success(g.At(c)) else Failure(IndexOutOfRange)
  }

  /** Writing `BlockIDs[x, y, z] = v`: afterwards the cell reads `v` and
      every other cell reads what it read before. */
  function Store(g: Grid, c: Vec3, v: BlockId): (r: Result<Grid>)
    requires g.Valid()
    ensures r.Success? <==> g.InBox(c)
    ensures r.Success? ==> r.value.Valid()
    ensures r.Success? ==> r.value.dx == g.dx && r.value.dy == g.dy && r.value.dz == g.dz
    ensures r.Success? ==> r.value.At(c) == v
    ensures r.Success? ==> forall d :: g.InBox(d) && d != c ==> r.value.At(d) == g.At(d)
  {
    if !g.InBox(c) then Failure(IndexOutOfRange)
    else
      var plane := g.ids[c.x];
      var row := plane[c.y];
      Success(g.(ids := g.ids[c.x := plane[c.y := row[c.z := v]]]))
  }

  /** Reading a cell back after writing it yields the written value. */
  lemma LookupAfterStore(g: Grid, c: Vec3, d: Vec3, v: BlockId)
    requires g.Valid() && g.InBox(c)
    ensures Store(g, c, v).Success?
    ensures Lookup(Some(Store(g, c, v).value), d)
         == (if d == c then Success(v) else Lookup(Some(g), d))
  {
  }

  /** `GenerateBlocks`: allocate a `Size`-cube of air, then give each cell
      the identifier 1 exactly when the per-cell decision says so.  The
      decision stands for `Random.Range(0, 2) == 1`. */
  function GenerateBlocks(size: int, decide: (int, int, int) -> bool): (r: Result<Grid>)
    ensures r.Success? <==> size >= 0
    ensures r.Success? ==> Fits(r.value, size) && r.value.dx == r.value.dy == r.value.dz == size
    ensures r.Success? ==> forall c :: r.value.InBox(c) ==>
              r.value.At(c) == (if decide(c.x, c.y, c.z) then Stone else Air)
  {
    if size < 0 then Failure(NegativeSize)
    else Success(CubeOf(size, (x, y, z) => if decide(x, y, z) then Stone else Air))
  }

  /** Every generated cell is air or stone, and the array has the cube's
      dimensions. */
  lemma GeneratedCellsAreBinary(size: int, decide: (int, int, int) -> bool)
    requires size >= 0
    ensures var r := GenerateBlocks(size, decide);
      && r.Success?
      && r.value.dx == size && r.value.dy == size && r.value.dz == size
      && forall c :: r.value.InBox(c) ==> r.value.At(c) == Air || r.value.At(c) == Stone
  {
  }

  // ---------------------------------------------------------------- scan order

  /** Strict lexicographic order on cells: by x, then y, then z. */
  predicate Before(a: Vec3, b: Vec3) {
    || a.x < b.x
    || (a.x == b.x && a.y < b.y)
    || (a.x == b.x && a.y == b.y && a.z < b.z)
  }

  predicate Sorted(cs: seq<Vec3>) {
    forall i, j :: 0 <= i < j < |cs| ==> Before(cs[i], cs[j])
  }

  /** Cells `(x, y, z)`, `(x, y, z + 1)`, ..., `(x, y, n - 1)`: the inner
      loop over z. */
  function Row(n: nat, x: int, y: int, z: int): (cs: seq<Vec3>)
    ensures forall c :: c in cs <==> c.x == x && c.y == y && z <= c.z < n
    decreases n - z
  {
    if z >= n then [] else [Vec3(x, y, z)] + Row(n, x, y, z + 1)
  }

  /** Rows `y` to `n - 1` of plane `x`: the middle loop over y. */
  function Plane(n: nat, x: int, y: int): (cs: seq<Vec3>)
    ensures forall c :: c in cs <==> c.x == x && y <= c.y < n && 0 <= c.z < n
    decreases n - y
  {
    if y >= n then [] else Row(n, x, y, 0) + Plane(n, x, y + 1)
  }

  /** Planes `x` to `n - 1`: the outer loop over x. */
  function Block(n: nat, x: int): (cs: seq<Vec3>)
    ensures forall c :: c in cs <==> x <= c.x < n && 0 <= c.y < n && 0 <= c.z < n
    decreases n - x
  {
    if x >= n then [] else Plane(n, x, 0) + Block(n, x + 1)
  }

  /** A row is sorted. */
  lemma {:induction false} RowSorted(n: nat, x: int, y: int, z: int)
    ensures Sorted(Row(n, x, y, z))
    decreases n - z
  {
    if z < n {
      RowSorted(n, x, y, z + 1);
      SortedAppend([Vec3(x, y, z)], Row(n, x, y, z + 1));
    }
  }

  /** A plane is sorted. */
  lemma {:induction false} PlaneSorted(n: nat, x: int, y: int)
    ensures Sorted(Plane(n, x, y))
    decreases n - y
  {
    if y < n {
      RowSorted(n, x, y, 0);
      PlaneSorted(n, x, y + 1);
      SortedAppend(Row(n, x, y, 0), Plane(n, x, y + 1));
    }
  }

  /** A block is sorted. */
  lemma {:induction false} BlockSorted(n: nat, x: int)
    ensures Sorted(Block(n, x))
    decreases n - x
  {
    if x < n {
      PlaneSorted(n, x, 0);
      BlockSorted(n, x + 1);
      SortedAppend(Plane(n, x, 0), Block(n, x + 1));
    }
  }

  /** A row has one cell per remaining z. */
  lemma {:induction false} RowLength(n: nat, x: int, y: int, z: int)
    requires 0 <= z <= n
    ensures |Row(n, x, y, z)| == n - z
    decreases n - z
  {
    if z < n {
      RowLength(n, x, y, z + 1);
    }
  }

  /** A plane has `n` cells per remaining row. */
  lemma {:induction false} PlaneLength(n: nat, x: int, y: int)
    requires 0 <= y <= n
    ensures |Plane(n, x, y)| == (n - y) * n
    decreases n - y
  {
    if y < n {
      var row, rest := Row(n, x, y, 0), Plane(n, x, y + 1);
      assert Plane(n, x, y) == row + rest;
      RowLength(n, x, y, 0);
      PlaneLength(n, x, y + 1);
      CountStep(|Plane(n, x, y)|, |Row(n, x, y, 0)|, |Plane(n, x, y + 1)|, n - (y + 1), n);
    }
  }

  /** A block has `n * n` cells per remaining plane. */
  lemma {:induction false} BlockLength(n: nat, x: int)
    requires 0 <= x <= n
    ensures |Block(n, x)| == (n - x) * (n * n)
    decreases n - x
  {
    if x < n {
      var plane, rest := Plane(n, x, 0), Block(n, x + 1);
      assert Block(n, x) == plane + rest;
      PlaneLength(n, x, 0);
      BlockLength(n, x + 1);
      CountStep(|Block(n, x)|, |Plane(n, x, 0)|, |Block(n, x + 1)|, n - (x + 1), n * n);
    }
  }

  /** One more run of `k` cells in front of `a` runs makes `a + 1`. */
  lemma CountStep(total: int, first: int, rest: int, a: int, k: int)
    requires total == first + rest && first == k && a >= 0
    requires rest == a * k
    ensures total == (a + 1) * k
  {
  }

  /** The order in which `GenerateMesh` visits the cells of an `n`-cube. */
  function ScanOrder(n: nat): seq<Vec3> {
    Block(n, 0)
  }

  /** The scan visits every cell of the cube and nothing else, once each,
      in increasing lexicographic order. */
  lemma ScanOrderEnumeratesCube(n: nat)
    ensures forall c :: c in ScanOrder(n) <==> InCube(c, n)
    ensures Sorted(ScanOrder(n))
    ensures forall i, j :: 0 <= i < j < |ScanOrder(n)| ==> ScanOrder(n)[i] != ScanOrder(n)[j]
    ensures |ScanOrder(n)| == n * n * n
  {
    BlockSorted(n, 0);
    BlockLength(n, 0);
    assert n * (n * n) == n * n * n;
  }

  /** Concatenating two sorted runs, the first wholly before the second,
      keeps them sorted. */
  lemma {:induction false} SortedAppend(a: seq<Vec3>, b: seq<Vec3>)
    requires Sorted(a) && Sorted(b)
    requires forall p, q :: p in a && q in b ==> Before(p, q)
    ensures Sorted(a + b)
  {
    forall i, j | 0 <= i < j < |a + b|
      ensures Before((a + b)[i], (a + b)[j])
    {
      if j < |a| {
      } else if i >= |a| {
        assert (a + b)[i] == b[i - |a|] && (a + b)[j] == b[j - |a|];
      } else {
        assert (a + b)[i] in a && (a + b)[j] in b;
      }
    }
  }

  // ---------------------------------------------------------------- solid cells

  /** The cells of `cs` that are not air, in the order of `cs`. */
  function SolidCells(g: Grid, cs: seq<Vec3>): (s: seq<Vec3>)
    requires g.Valid() && forall c :: c in cs ==> g.InBox(c)
    ensures forall c :: c in s <==> c in cs && g.At(c) != Air
    ensures |s| <= |cs|
    ensures Sorted(cs) ==> Sorted(s)
  {
    if cs == [] then []
    else
      var rest := SolidCells(g, cs[1..]);
      if g.At(cs[0]) != Air then
        assert Sorted(cs) ==> forall q :: q in rest ==> Before(cs[0], q) by {
          if Sorted(cs) {
            forall q | q in rest ensures Before(cs[0], q) {
              var k :| 0 <= k < |cs[1..]| && cs[1..][k] == q;
              assert cs[k + 1] == q;
            }
          }
        }
        assert Sorted(cs) ==> Sorted(cs[1..]) by {
          if Sorted(cs) {
            forall i, j | 0 <= i < j < |cs[1..]| ensures Before(cs[1..][i], cs[1..][j]) {
              assert cs[1..][i] == cs[i + 1] && cs[1..][j] == cs[j + 1];
            }
          }
        }
        if Sorted(cs) then SortedAppend([cs[0]], rest); [cs[0]] + rest
        else [cs[0]] + rest
      else
        assert Sorted(cs) ==> Sorted(cs[1..]) by {
          if Sorted(cs) {
            forall i, j | 0 <= i < j < |cs[1..]| ensures Before(cs[1..][i], cs[1..][j]) {
              assert cs[1..][i] == cs[i + 1] && cs[1..][j] == cs[j + 1];
            }
          }
        }
        rest
  }

  /** The solid cells of the `n`-cube, in scan order. */
  function SolidInScan(g: Grid, n: nat): (s: seq<Vec3>)
    requires Fits(g, n)
    ensures forall c :: c in s <==> InCube(c, n) && g.At(c) != Air
    ensures Sorted(s)
  {
    ScanOrderEnumeratesCube(n);
    SolidCells(g, ScanOrder(n))
  }

  /** Number of solid cells among the first `n` in each dimension. */
  function SolidCount(g: Grid, n: nat): nat
    requires Fits(g, n)
  {
    |SolidInScan(g, n)|
  }

  predicate Distinct(cs: seq<Vec3>) {
    forall i, j :: 0 <= i < j < |cs| ==> cs[i] != cs[j]
  }

  /** Overwriting one cell that occurs once in `cs` changes the number of
      solid cells among `cs` by exactly the change in that cell's
      solidity; cells outside `cs` do not matter. */
  lemma {:induction false} SolidCellsAfterStore(g: Grid, c: Vec3, v: BlockId, cs: seq<Vec3>)
    requires g.Valid() && g.InBox(c)
    requires forall d :: d in cs ==> g.InBox(d)
    requires Distinct(cs)
    ensures Store(g, c, v).Success?
    ensures |SolidCells(Store(g, c, v).value, cs)|
         == |SolidCells(g, cs)|
            + (if c in cs then (if v != Air then 1 else 0) - (if g.At(c) != Air then 1 else 0) else 0)
  {
    var h := Store(g, c, v).value;
    if cs != [] {
      assert Distinct(cs[1..]) by {
        forall i, j | 0 <= i < j < |cs[1..]| ensures cs[1..][i] != cs[1..][j] {
          assert cs[1..][i] == cs[i + 1] && cs[1..][j] == cs[j + 1];
        }
      }
      SolidCellsAfterStore(g, c, v, cs[1..]);
      assert c in cs <==> c == cs[0] || c in cs[1..] by {
        assert cs == [cs[0]] + cs[1..];
      }
      if c == cs[0] {
        FirstNotInTail(cs);
      }
    }
  }

  /** The count over the whole `n`-cube changes by exactly the change in
      the overwritten cell, if that cell is inside the cube. */
  lemma SolidCountAfterStore(g: Grid, n: nat, c: Vec3, v: BlockId)
    requires Fits(g, n) && g.InBox(c)
    ensures Store(g, c, v).Success? && Fits(Store(g, c, v).value, n)
    ensures SolidCount(Store(g, c, v).value, n)
         == SolidCount(g, n)
            + (if InCube(c, n) then (if v != Air then 1 else 0) - (if g.At(c) != Air then 1 else 0) else 0)
  {
    ScanOrderEnumeratesCube(n);
    SolidCellsAfterStore(g, c, v, ScanOrder(n));
  }

  /** If exactly the cells of `cs` other than `c` are solid, all but one
      cell of `cs` counts. */
  lemma {:induction false} SolidCellsAllBut(g: Grid, c: Vec3, cs: seq<Vec3>)
    requires g.Valid() && forall d :: d in cs ==> g.InBox(d)
    requires Distinct(cs) && c in cs
    requires forall d :: d in cs ==> (g.At(d) != Air <==> d != c)
    ensures |SolidCells(g, cs)| == |cs| - 1
  {
    assert Distinct(cs[1..]) by {
      forall i, j | 0 <= i < j < |cs[1..]| ensures cs[1..][i] != cs[1..][j] {
        assert cs[1..][i] == cs[i + 1] && cs[1..][j] == cs[j + 1];
      }
    }
    if cs[0] == c {
      FirstNotInTail(cs);
      SolidCellsAll(g, cs[1..]);
    } else {
      assert c in cs[1..] by {
        assert cs == [cs[0]] + cs[1..];
      }
      SolidCellsAllBut(g, c, cs[1..]);
    }
  }

  /** In a sequence without repetitions the first element does not recur. */
  lemma FirstNotInTail(cs: seq<Vec3>)
    requires Distinct(cs) && cs != []
    ensures cs[0] !in cs[1..]
  {
    forall k | 0 <= k < |cs[1..]| ensures cs[1..][k] != cs[0] {
      assert cs[1..][k] == cs[k + 1];
    }
  }

  /** If every cell of `cs` is air, none of them counts. */
  lemma {:induction false} SolidCellsNone(g: Grid, cs: seq<Vec3>)
    requires g.Valid() && forall d :: d in cs ==> g.InBox(d)
    requires forall d :: d in cs ==> g.At(d) == Air
    ensures SolidCells(g, cs) == []
  {
    if cs != [] {
      assert forall d :: d in cs[1..] ==> d in cs;
      SolidCellsNone(g, cs[1..]);
    }
  }

  /** If every cell of `cs` is solid, all of them count. */
  lemma {:induction false} SolidCellsAll(g: Grid, cs: seq<Vec3>)
    requires g.Valid() && forall d :: d in cs ==> g.InBox(d)
    requires forall d :: d in cs ==> g.At(d) != Air
    ensures SolidCells(g, cs) == cs
  {
    if cs != [] {
      SolidCellsAll(g, cs[1..]);
    }
  }
}
