/** The chunk component's life cycle: `Start` fills the block array and
    raises the rebuild flag, `Update` rebuilds the mesh while the flag is
    up, and a successful rebuild lowers it.  An exception thrown by a call
    leaves the fields it had not yet assigned as they were. */
module Chunk {
  import opened Geometry
  import opened Outcomes
  import opened VoxelGrid
  import opened ChunkMesher

  /** The component's fields that the life cycle reads or writes: `Size`,
      `BlockIDs` (null until `Start`), `RequiresMeshGeneration`, and the
      mesh last handed to the renderer and collider (none until the first
      rebuild). */
  datatype Chunk = Chunk(size: int, blocks: Option<Grid>, requiresMeshGeneration: bool, mesh: Option<Mesh>) {
    predicate Valid() {
      blocks.Some? ==> blocks.value.Valid()
    }
  }

  /** The state after one call: the fields, and the exception the call
      threw, if any. */
  datatype Step = Step(chunk: Chunk, thrown: Option<Error>)

  /** A freshly created component: no blocks, flag down, no mesh. */
  function Fresh(size: int): (c: Chunk)
    ensures c.Valid() && c.size == size
    ensures c.blocks.None? && !c.requiresMeshGeneration && c.mesh.None?
  {
    Chunk(size, None, false, None)
  }

  /** `Start`: allocate and fill the block array, then raise the flag.  A
      negative `Size` makes the allocation throw before either field is
      assigned.  `decide(x, y, z)` stands for the coin flip made for the
      cell. */
  function Start(c: Chunk, decide: (int, int, int) -> bool): (s: Step)
    requires c.Valid()
    ensures s.chunk.Valid()
    ensures s.thrown.None? <==> c.size >= 0
    ensures s.thrown.Some? ==> s.thrown.value == NegativeSize && s.chunk == c
    ensures s.thrown.None? ==>
      && s.chunk.blocks == Some(GenerateBlocks(c.size, decide).value)
      && s.chunk.requiresMeshGeneration
      && s.chunk.size == c.size && s.chunk.mesh == c.mesh
  {
    match GenerateBlocks(c.size, decide)
    case Failure(e) => Step(c, Some(e))
    case Success(g) => Step(c.(blocks := Some(g), requiresMeshGeneration := true), None)
  }

  /** `GenerateMesh` called on the component: on success the new mesh
      replaces the old one and the flag goes down; an exception leaves
      every field as it was. */
  function Rebuild(c: Chunk): (s: Step)
    requires c.Valid()
    ensures s.chunk.Valid()
    ensures s.chunk.blocks == c.blocks && s.chunk.size == c.size
    ensures s.thrown.None? <==> MeshResult(c.blocks, c.size).Success?
    ensures s.thrown.None? ==>
      s.chunk.mesh == Some(MeshResult(c.blocks, c.size).value) && !s.chunk.requiresMeshGeneration
    ensures s.thrown.Some? ==> s.chunk == c && s.thrown.value == MeshResult(c.blocks, c.size).error
  {
    match MeshResult(c.blocks, c.size)
    case Failure(e) => Step(c, Some(e))
    case Success(m) => Step(c.(mesh := Some(m), requiresMeshGeneration := false), None)
  }

  /** `Update`: rebuild only while the flag is up. */
  function Update(c: Chunk): (s: Step)
    requires c.Valid()
    ensures s.chunk.Valid()
    ensures !c.requiresMeshGeneration ==> s == Step(c, None)
    ensures c.requiresMeshGeneration ==> s == Rebuild(c)
  {
    if c.requiresMeshGeneration then Rebuild(c) else Step(c, None)
  }

  /** Meshing never touches the blocks or the size; it changes the mesh
      only together with lowering the flag. */
  lemma UpdateKeepsBlocks(c: Chunk)
    requires c.Valid()
    ensures Update(c).chunk.blocks == c.blocks && Update(c).chunk.size == c.size
    ensures Update(c).chunk.mesh != c.mesh ==> c.requiresMeshGeneration && !Update(c).chunk.requiresMeshGeneration
  {
  }

  /** Once a rebuild has succeeded, further updates do nothing until the
      flag is raised again. */
  lemma UpdateSettles(c: Chunk)
    requires c.Valid()
    requires Update(c).thrown.None?
    ensures !Update(c).chunk.requiresMeshGeneration
    ensures Update(Update(c).chunk) == Step(Update(c).chunk, None)
  {
  }

  /** A failed rebuild leaves the flag up, so the next frame tries again
      with the same outcome. */
  lemma FailedUpdateRetries(c: Chunk)
    requires c.Valid()
    requires Update(c).thrown.Some?
    ensures Update(c).chunk == c && c.requiresMeshGeneration
    ensures Update(Update(c).chunk) == Update(c)
  {
  }

  /** From a fresh component with a non-negative size, `Start` followed by
      one `Update` shows the mesh of the generated blocks — a closed-form
      run of six faces per solid cell — and leaves the flag down. */
  lemma StartThenUpdate(size: int, decide: (int, int, int) -> bool)
    requires size >= 0
    ensures var started := Start(Fresh(size), decide);
      && started.thrown.None?
      && var updated := Update(started.chunk);
      && updated.thrown.None?
      && !updated.chunk.requiresMeshGeneration
      && var g := GenerateBlocks(size, decide).value;
      && Fits(g, size)
      && updated.chunk.mesh == Some(MeshOf(g, size))
      && Describes(MeshOf(g, size), SolidInScan(g, size))
  {
    var g := GenerateBlocks(size, decide).value;
    MeshOfDescribes(g, size);
    if size == 0 {
      MeshOfEmptyCube(g);
    }
  }

  /** The cube with side zero has no cells and so no mesh. */
  lemma MeshOfEmptyCube(g: Grid)
    requires Fits(g, 0)
    ensures MeshOf(g, 0) == EmptyMesh
  {
    MeshOfDescribes(g, 0);
    ScanOrderEnumeratesCube(0);
    assert SolidInScan(g, 0) == [];
    assert MeshOf(g, 0).vertices == [] && MeshOf(g, 0).normals == [];
    assert MeshOf(g, 0).uvs == [] && MeshOf(g, 0).indices == [];
  }
}
