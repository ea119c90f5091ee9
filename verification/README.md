# Voxel chunk mesher

A model of the chunk component of a small voxel game (`Assets/VoxelChunk.cs`).
The component owns a dense `Size x Size x Size` array of `short` block
identifiers, where 0 is air and everything else is solid. It fills the array
once (`GenerateBlocks`) and raises the `RequiresMeshGeneration` flag
(`Start`). Every frame it polls the flag (`Update`). While the flag is up it
rebuilds the render mesh (`GenerateMesh`). The rebuild visits the cells with
x outermost and z innermost. For every solid cell it calls six face emitters
in the order Top, Right, Left, Forward, Back, Bottom. Each emitter appends to
four parallel lists:

- four corners;
- four copies of the face normal;
- four texture coordinates;
- the six indices `base + {0, 1, 2, 0, 2, 3}`.

The running vertex cursor `currentIndex` then advances by four. There is no
culling of hidden faces and no vertex sharing.

Modules:

- `Geometry` (`geometry.dfy`): exact vector arithmetic. Every position is
  doubled, so the cell `(x, y, z)` with corner offsets of plus or minus 0.5
  has its corners at `(2x +- 1, 2y +- 1, 2z +- 1)`. Texture rectangles keep
  `real` fields.
- `Faces` (`faces.dfy`): the six emitters collapsed into one table. For each
  face it gives the normal, the four corner offsets, the texture corners and
  the index pattern. It also proves the geometry of every row.
- `VoxelGrid` (`grid.dfy`):
  - the block array, reads and writes on it, and `GenerateBlocks` with the
    random coin replaced by a parameter;
  - the scan order of the three loops;
  - the solid cells in scan order.
- `ChunkMesher` (`mesher.dfy`):
  - the emitters and the functional meaning of `GenerateMesh` (a fold over
    the scan order);
  - a closed form (`Describes`) that says where every entry of the mesh sits;
  - `GenerateMesh` itself as three nested loops, proved equal to the fold,
    including the exceptions a null or too small array raises.
- `MeshProperties` (`properties.dfy`): what the finished mesh promises.
  - Buffer sizes.
  - The quad and index pattern.
  - Vertices lie on their faces' planes, and corners within a face are
    distinct.
  - Normals are distinct within a voxel.
  - The cross product of every triangle's sides points along its normal.
  - Texture coordinates are zero.
  - The effect of a one-cell edit, and the worked examples.
- `Chunk` (`chunk.dfy`): the `RequiresMeshGeneration` life cycle across
  `Start`, `Update` and `GenerateMesh`, including what an exception leaves
  behind.

## Model

| member | source | states |
|---|---|---|
| Faces.Normal | Assets/VoxelChunk.cs:105-108 | the normal each emitter appends is a unit axis vector whose component along the face's axis has the face's sign (up, right, left, forward, back, down; the same for the other five emitters' normal lines) |
| Faces.Corners | Assets/VoxelChunk.cs:98-252 | the corner table: for each face, the four offsets its emitter adds to the cell, in emission order and doubled (vertex lines 100-103, 126-129, 152-155, 178-181, 204-207, 230-233); the contract states only that each row has four corners, and `CornersCoverFace` states their geometry |
| Faces.CornersCoverFace | Assets/VoxelChunk.cs:100-103 | each emitter's four corner offsets lie on the plane of its face, are pairwise distinct, and are all of the cube's corners on that plane (the same for the other five emitters' vertex lines) |
| Faces.CornersFaceNormal | Assets/VoxelChunk.cs:98-252 | for every emitter, the triangles 0,1,2 and 0,2,3 over its corners have edge cross products equal to four times the emitted normal |
| Faces.CornersWindAboutNormal | Assets/VoxelChunk.cs:98-252 | for every emitter, each edge of the quad is the previous edge turned a quarter turn about the normal, and the first edge is a full cube edge in the face's plane |
| Faces.TurnIsCross | Assets/VoxelChunk.cs:98-252 | the per-face quarter turn used for the winding is the cross product with that face's normal |
| Faces.UVCorners | Assets/VoxelChunk.cs:110-113 | the four texture coordinates are (xMin, yMax), (xMax, yMax), (xMax, yMin), (xMin, yMin) of the rectangle passed in |
| Faces.FaceVertex | Assets/VoxelChunk.cs:100-103 | a corner of a face of a cell, taken from the table and moved by the cell's offset, lies on that face's plane around the cell's centre |
| Faces.FaceWithNormal | Assets/VoxelChunk.cs:105-108 | inverse of the normal table: a vector is some face's normal exactly when it is a unit axis vector, and the face found has that normal |
| Faces.NormalsIdentifyFaces | Assets/VoxelChunk.cs:74-79 | two faces have the same normal only when they are the same face; the emission order lists each of the six faces exactly once |
| VoxelGrid.Allocate | Assets/VoxelChunk.cs:37 | `new short[n, n, n]` succeeds exactly for `n >= 0` (memory exhaustion aside), giving an all-air cube of side `n`; a negative size raises the allocation error |
| VoxelGrid.GenerateBlocks | Assets/VoxelChunk.cs:35-52 | succeeds exactly for a non-negative size (memory exhaustion aside); the array is a `size`-cube whose cell holds 1 exactly when the coin for that cell says so, and 0 otherwise |
| VoxelGrid.GeneratedCellsAreBinary | Assets/VoxelChunk.cs:37-51 | after generation the array is `Size x Size x Size` and every cell is 0 or 1 |
| VoxelGrid.Lookup | Assets/VoxelChunk.cs:71 | reading `BlockIDs[x, y, z]` gives the cell's identifier; it fails on a null array and on an index outside the array's dimensions, and in no other case |
| VoxelGrid.Store | Assets/VoxelChunk.cs:47 | writing one cell succeeds exactly inside the array, keeps the dimensions, sets that cell, and leaves every other cell as it was |
| VoxelGrid.LookupAfterStore | Assets/VoxelChunk.cs:47 | a read after a write returns the written value at the written cell and the old value everywhere else |
| VoxelGrid.ScanOrderEnumeratesCube | Assets/VoxelChunk.cs:64-69 | the three loops visit each cell of the `n`-cube exactly once and nothing else, in increasing (x, y, z) order, `n * n * n` cells in all |
| VoxelGrid.SolidInScan | Assets/VoxelChunk.cs:64-71 | the cells that pass the air test are exactly the non-air cells of the cube, in scan order |
| VoxelGrid.SolidCountAfterStore | Assets/VoxelChunk.cs:71 | overwriting one cell changes the number of solid cells in the cube by exactly the change in that cell's solidity |
| ChunkMesher.EmitFace | Assets/VoxelChunk.cs:98-122 | one emitter call advances the cursor by 4, grows the three per-vertex lists by 4 and the index list by 6, and keeps the buffer invariant (the cursor equals the vertex count, whole triangles, every index names an existing vertex) |
| ChunkMesher.EmitFaceAppends | Assets/VoxelChunk.cs:98-122 | one emitter call keeps every earlier entry, and appends the face's corners, its normal four times, the rectangle's corners, and the indices cursor + 0, 1, 2, 0, 2, 3 |
| ChunkMesher.EmitFacesAppends | Assets/VoxelChunk.cs:74-79 | calling the emitters for a list of faces in turn appends their quads in that order, each numbered from the cursor it met |
| ChunkMesher.EmitVoxelIsFaceOrder | Assets/VoxelChunk.cs:74-79 | one solid cell's contribution is the emitters called in the order Top, Right, Left, Forward, Back, Bottom, and it keeps the buffer invariant |
| ChunkMesher.EmitVoxelIsSixCalls | Assets/VoxelChunk.cs:74-79 | that contribution equals the six literal nested emitter calls, each given an empty rectangle |
| ChunkMesher.ScanKeepsWellFormed | Assets/VoxelChunk.cs:64-83 | visiting any run of cells keeps the buffer invariant and moves the cursor by 24 per solid cell |
| ChunkMesher.MeshOfDescribes | Assets/VoxelChunk.cs:64-83 | the lists built from the cube are, entry by entry, the six faces of each solid cell in scan order (vertex `i` is corner `i % 4` of face `(i % 24) / 4` of solid cell `i / 24`; index `t` is `4 * (t / 6)` plus the pattern), and satisfy the buffer invariant |
| ChunkMesher.MeshResult | Assets/VoxelChunk.cs:54-96 | with `Size <= 0` no cell is read and the mesh is empty; otherwise meshing succeeds exactly when the array exists and covers the cube, the result is the closed form of its solid cells, and the failure is a null reference or an index out of range |
| ChunkMesher.GenerateMesh | Assets/VoxelChunk.cs:54-96 | the triple loop as written, with the cursor kept equal to the vertex count on every iteration, returns exactly the outcome stated for `MeshResult` |
| ChunkMesher.MeshSlice | Assets/VoxelChunk.cs:66-82 | the `y` loop over one slice ends in the state after all of its rows, or fails only when the array is null or does not cover the cube |
| ChunkMesher.MeshRow | Assets/VoxelChunk.cs:68-81 | the `z` loop over one row ends in the state after all of its cells, or fails only when the array is null or does not cover the cube |
| ChunkMesher.MeshCell | Assets/VoxelChunk.cs:70-80 | the loop body fails exactly when the read fails; otherwise it skips air and emits the six faces of a solid cell |
| ChunkMesher.BlockPrefixIsMeshOf | Assets/VoxelChunk.cs:64-83 | the state after the last slice of the loops is the fold over the whole scan order |
| MeshProperties.MeshSizes | Assets/VoxelChunk.cs:64-83 | 24 vertices, normals and texture coordinates and 36 indices per solid cell; whole triangles; every index names an existing vertex |
| MeshProperties.EmptyGridEmptyMesh | Assets/VoxelChunk.cs:71 | the mesh is empty exactly when every cell of the cube is air |
| MeshProperties.MeshIsQuads | Assets/VoxelChunk.cs:74-79 | quad `p` of the mesh is exactly what the emitter for face `p % 6` of solid cell `p / 6` appends with the cursor at `4p` |
| MeshProperties.QuadIndexPattern | Assets/VoxelChunk.cs:115-121 | index `t` of the mesh is `4 * (t / 6)` plus entry `t % 6` of `0, 1, 2, 0, 2, 3` |
| MeshProperties.VerticesOnFaces | Assets/VoxelChunk.cs:100-108 | every vertex lies on its face's plane half a unit from its cell's centre, and every normal is the unit axis vector of that face |
| MeshProperties.QuadCornersDistinct | Assets/VoxelChunk.cs:100-103 | the four corners of every quad of the mesh are distinct points |
| MeshProperties.VoxelNormalsDistinct | Assets/VoxelChunk.cs:74-79 | the vertices of one cell that lie on different faces have different normals |
| MeshProperties.TrianglesFaceOutward | Assets/VoxelChunk.cs:115-120 | every triangle of the mesh names three vertices that share one normal, and its edge cross product is four times that normal |
| MeshProperties.UVsAreZero | Assets/VoxelChunk.cs:74-79 | since every call passes `new Rect()`, every texture coordinate is (0, 0) |
| MeshProperties.VertexOfMesh | Assets/VoxelChunk.cs:64-83 | vertex `i` of the mesh is corner `i % 4` of face `(i % 24) / 4` of solid cell `i / 24`, with that face's normal and the empty rectangle's corner |
| MeshProperties.StoreChangesMesh | Assets/VoxelChunk.cs:47 | overwriting one cell of the cube and rebuilding changes the mesh by exactly plus or minus 24 vertices and 36 indices, or not at all, according to the change in that cell's solidity |
| MeshProperties.SingleVoxel | Assets/VoxelChunk.cs:64-83 | a cube with a single solid cell gives 24 vertices and 36 indices, namely that cell's six faces in order |
| MeshProperties.SevenOfEight | Assets/VoxelChunk.cs:64-83 | a 2-cube that is solid except at (1, 1, 1) gives 168 vertices and 252 indices |
| Chunk.Fresh | Assets/VoxelChunk.cs:10-12 | a new component has no array, the flag down, and no mesh |
| Chunk.Start | Assets/VoxelChunk.cs:29-33 | with a non-negative size, `Start` stores the generated array and raises the flag, keeping the size and the mesh; with a negative size the allocation throws and nothing changes |
| Chunk.Rebuild | Assets/VoxelChunk.cs:54-96 | a rebuild never changes the array or the size; it succeeds exactly when meshing succeeds, and then installs the mesh and lowers the flag; a failure leaves every field as it was |
| Chunk.Update | Assets/VoxelChunk.cs:21-27 | `Update` rebuilds while the flag is up and otherwise changes nothing |
| Chunk.UpdateKeepsBlocks | Assets/VoxelChunk.cs:21-27 | an update never changes the array or the size, and changes the mesh only when the flag was up, lowering it |
| Chunk.UpdateSettles | Assets/VoxelChunk.cs:21-27 | after a successful update the flag is down and the next update does nothing |
| Chunk.FailedUpdateRetries | Assets/VoxelChunk.cs:21-27 | a failed update leaves the component as it was with the flag up, so the next update repeats it |
| Chunk.StartThenUpdate | Assets/VoxelChunk.cs:21-33 | from a fresh component with a non-negative size, `Start` and then one `Update` succeed, lower the flag, and install the mesh of the generated array, which is the closed form of its solid cells |
| Chunk.MeshOfEmptyCube | Assets/VoxelChunk.cs:64 | with side 0 the loops do not run and the mesh is empty |

## Left out

- Floating point. Positions are doubled integers, which makes the +-0.5 offsets exact. `Vector3` rounding is not modelled: every coordinate the source produces is a small half-integer, which a float holds exactly.
- `Random.Range(0, 2)` (line 45) is a parameter `decide(x, y, z)`: the model covers every possible outcome of the coin.
- The engine mesh plumbing (lines 56 and 85-92) is left out. This covers `new Mesh`, `SetVertices`, `SetNormals`, `SetUVs`, `SetIndices`, `RecalculateTangents`, and the handover to `MeshFilter` and `MeshCollider`. The mesh is the record of the four lists. So is the limit of the engine's default 16-bit index format, which would reject meshes of more than 65535 vertices (more than 2730 solid cells).
- `Awake` (lines 14-19) and the renderer, filter and collider fields (lines 7-9) are left out. They are foreign component lookups. A missing component would make the assignments on lines 91-92 throw after the lists are built; this is not modelled.
- The engine's per-frame scheduling of `Update` is left out. The model describes one call, and a sequence of frames is a sequence of calls.
- Threading, and edits made during a rebuild, are left out. The code has neither.
- Exhaustion of memory while the lists grow is left out.
- VoxelGrid.Allocate: succeeds for every non-negative size. The runtime would throw if it could not find room for the `Size^3` cells of the array (line 37); memory exhaustion is not modelled.
- VoxelGrid.GenerateBlocks: succeeds for every non-negative size, for the same reason: its allocation on line 37 cannot run out of memory in the model.
- `Assets/PlayerController.cs` is not part of this model. It is input wiring and rigid-body physics with no bearing on the mesh.
- ChunkMesher.EmitFace: the cursor is an unbounded integer. The source's 32-bit `currentIndex` could only wrap after 2^31 vertices, far beyond any cube the engine could hold in one mesh.
- `Size` 0 is accepted: an empty array and an empty mesh. A negative `Size` throws in `GenerateBlocks` (line 37) but makes `GenerateMesh` run no loop iterations.
- An operation that overwrites one cell and raises the flag is not in the code. The model has `VoxelGrid.Store` for the raw array write (the source writes `BlockIDs[x, y, z]` directly at line 47) and states what a rebuild after it yields. It has no separate edit operation on the component.
