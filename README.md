# Voxel chunk streaming, modelled in Dafny

This project models the chunk pipeline of a Unity voxel world (the TGAG course project) and proves properties of that model. It has four parts:

- **The naive voxel mesh builder** (`MeshGenerator`). It walks a 3-D grid of cube types and emits one quad for every face of a non-zero cube that is on the grid boundary or next to an empty cell. Each quad is 4 vertices, two triangles, 4 colours for types 1 and 2, and 4 texture coordinates from the atlas band of its direction.
- **The stream-era chunk manager** (`WorldGen/ChunkManager`). Each frame it:
  - clears the chunk grid;
  - files every active chunk under its grid cell, and pools the ones that left the grid on the inactive stack;
  - orders the positions of empty, non-pending cells from the world generation workers;
  - launches up to a budget of finished results into pooled or new chunks.
- **The first-draft chunk manager** (`ChunkManager`). It has the same grid loop, but redeploys pooled chunks straight into the empty cells, with a pool fixed at `chunkCount * chunkCount` chunks.
- **The classification part of the voxel field generator** (`ChunkVoxelDataGenerator`). It fills a `(chunkSize + 2) x chunkHeight x (chunkSize + 2)` block map in two passes:
  - the first pass sets solidity: DIRT, or WATER below the water line, or NONE;
  - the second pass sets the surface type (SAND) and the modifiers (SNOW, GRASS).

## Files

| file | module | contents |
|---|---|---|
| `geometry.dfy` | `Geometry` | An option type and exact real vectors (the engine's `Vector3`/`Vector2`). |
| `chunk_grid.dfy` | `ChunkGrid` | Grid arithmetic shared by both managers: `checkBounds`, the quantised player position, the world position of a cell and the cell of a world position. |
| `mesh_generator.dfy` | `VoxelMesh` | The mesh as a function of the grid (`AllFaces`, `MeshOf`), and the `MeshGenerator` class, whose methods append to the four lists as the source does. |
| `chunk_pool.dfy` | `ChunkPool` | Chunk records in an arena, the active and inactive id lists, and the list functions of the shared update loop (`Kept`, `Evicted`, `Placed`, `Deactivate`). |
| `stream_chunk_manager.dfy` | `StreamChunks` | The stream-era manager as a class over the arena, the grid array, the pending set and the two queues. |
| `draft_chunk_manager.dfy` | `DraftChunks` | The first-draft manager as a class, and the deployment functions. |
| `voxel_data.dfy` | `VoxelData` | Block types, the block map class with its row-major `index1D`, the two passes and the rules they follow. |

## Modelling choices

- **Numbers.** Floats are exact reals. `Mathf.Floor` and `Mathf.FloorToInt` are Dafny's `.Floor`.
- **Chunks.** Game objects are `Chunk` records in an arena `seq<Chunk>`. The active list, the inactive list or stack, and the grid hold arena indices, so one object can sit in several containers, as a reference does. A chunk's mesh is the `MeshData` value that `MeshGenerator` builds.
- **Methods.** Each imperative method runs the source's loops and is specified against a function of the old state:
  - `Updated` and `Visited` for `updateChunkGrid`;
  - `GridOrders` for `orderNewChunks`;
  - `LaunchAll` for `launchOrderedChunks`;
  - `Deployed` and `Filled` for `deployInactiveChunks`;
  - `AllFaces` and `MeshOf` for `GenerateMesh`;
  - `Classify` and `Final` for `getChunkVoxelData`.

  Lemmas prove the source's promises about those functions.
- **Loop bodies.** Where a loop body needs a proof of its own, it is its own method (`VisitChunk`, `DeployCell`, `OrderRow`, `GenerateColumn`, `SurfaceCell`). `VisitChunk` and `DeployCell` also take the loop's ghost state (the lists built so far) as parameters; the others need only the loop indices.
- **Per-frame inputs.** The stream manager reads the player position, `ChunkConfig` and `Settings` from the engine. Here they are constructor parameters, and the player position is a field.
- **Unused xOffset.** `AddTextureCoordinates` divides `xOffset` by the number of textures and then does not use it. The model does the same, so the cube type has no effect on the texture coordinates.
- **Noise.** SimplexNoise, `calcHeight`, `calc3DStructure`, `calc3DUnstructure` and the snow-line perturbation are function-valued fields of `VoxelData.Config`.

### Behaviour worth noting

- **No grid write on launch.** `launchOrderedChunks` does not write the chunk it launches into the grid (`Assets/Scripts/WorldGen/ChunkManager.cs:126-144`). The next frame's `updateChunkGrid` files it.
- **init pushes without deactivating.** `init` pushes every created chunk onto the inactive stack without deactivating it (`Assets/Scripts/WorldGen/ChunkManager.cs:72`). The first frame therefore orders every cell (`StreamChunks.EmptyGridOrdersAll`). `init` may run again after `clear`, on an arena that still holds the destroyed chunks' records.
- **Early return in deployInactiveChunks.** `deployInactiveChunks` returns from the whole method, not just the inner loop, as soon as the inactive list is empty (`Assets/Scripts/ChunkManager.cs:75`). In the model the row loop returns, and every later row stops at its first cell for the same reason. The resulting state is the same.

## Model

| member | source | states |
|---|---|---|
| ChunkGrid.Quantise | Assets/Scripts/WorldGen/ChunkManager.cs:154-155 | The quantised coordinate is at most the input and within one step of it. |
| ChunkGrid.QuantiseUnique | Assets/Scripts/WorldGen/ChunkManager.cs:154-155 | The quantised coordinate is the only multiple of the step in that window. |
| ChunkGrid.QuantiseIdempotent | Assets/Scripts/WorldGen/ChunkManager.cs:154-155 | Quantising a quantised coordinate changes nothing. |
| ChunkGrid.PlayerPos | Assets/Scripts/WorldGen/ChunkManager.cs:151-157 | getPlayerPos drops y, and puts x and z at most one chunk below the player. |
| ChunkGrid.CellRoundTrip | Assets/Scripts/WorldGen/ChunkManager.cs:94-96 | The cell computed from the world position built for cell (x, z) is (x, z). |
| ChunkGrid.CellWorldPosInjective | Assets/Scripts/WorldGen/ChunkManager.cs:114 | Distinct cells have distinct world positions. |
| ChunkGrid.PlayerCellInGrid | Assets/Scripts/WorldGen/ChunkManager.cs:66 | With the offset of half the grid, the player's own cell passes checkBounds whenever chunkCount >= 2. |
| ChunkGrid.CellAligned | Assets/Scripts/WorldGen/ChunkManager.cs:154-155 | A chunk placed at a cell position for one player position is, after any move, exactly at the position of the cell it is filed under. |
| ChunkPool.KeptEvictedSplit | Assets/Scripts/WorldGen/ChunkManager.cs:92-106 | The kept and the evicted chunks together are a permutation of the active list. Every kept chunk is in bounds and every evicted one out of bounds. |
| ChunkPool.PlacedSound | Assets/Scripts/WorldGen/ChunkManager.cs:97-98 | A grid cell holds only a listed chunk whose computed cell it is. |
| ChunkPool.PlacedComplete | Assets/Scripts/WorldGen/ChunkManager.cs:97-98 | The cell of every listed chunk is occupied after the writes. |
| ChunkPool.UpdateStep | Assets/Scripts/WorldGen/ChunkManager.cs:93-104 | With the i-- after RemoveAt, the next unvisited chunk always sits at index len(kept), so no chunk is skipped. A visit keeps the chunk in place or moves it to the end of the evicted list, and its cell then holds it. |
| ChunkPool.DeactivateEffect | Assets/Scripts/WorldGen/ChunkManager.cs:101 | SetActive(false) clears exactly the active flags of the listed chunks and leaves positions and meshes alone. |
| ChunkPool.PoolPerm | Assets/Scripts/WorldGen/ChunkManager.cs:92-106 | Rearranging a duplicate-free pool of ids keeps it duplicate-free and in the arena. |
| ChunkPool.IdsNoDup | Assets/Scripts/WorldGen/ChunkManager.cs:69-74 | The ids of the chunks init creates are distinct. |
| StreamChunks.ChunkManager.constructor | Assets/Scripts/WorldGen/ChunkManager.cs:26-33 | After Start there is one new chunk per cell, at the cell's world position, all on the inactive stack. The grid is empty and nothing is pending or queued. |
| StreamChunks.ChunkManager.Init | Assets/Scripts/WorldGen/ChunkManager.cs:65-75 | init sets the offset to minus half the grid and makes a fresh empty grid. It appends one chunk per cell, in x-major order, to the arena and pushes all of them on the inactive stack. |
| StreamChunks.ChunkManager.InitChunks | Assets/Scripts/WorldGen/ChunkManager.cs:69-74 | init's loops create the chunks of all rows, in order; the pools stay duplicate-free. |
| StreamChunks.ChunkManager.InitRow | Assets/Scripts/WorldGen/ChunkManager.cs:70-73 | One row of init: the row's chunks are appended and pushed. |
| StreamChunks.ChunkManager.Clear | Assets/Scripts/WorldGen/ChunkManager.cs:46-60 | clear leaves nothing pending, no result queued and both pools empty. |
| StreamChunks.ChunkManager.ClearChunkGrid | Assets/Scripts/WorldGen/ChunkManager.cs:80-86 | Every grid cell is empty afterwards. |
| StreamChunks.VisitedStep | Assets/Scripts/WorldGen/ChunkManager.cs:97-103 | One loop turn either leaves the pools as they are, or removes the chunk from the active list, pushes it and deactivates it. |
| StreamChunks.VisitedDone | Assets/Scripts/WorldGen/ChunkManager.cs:92-106 | After the loop, exactly the in-bounds chunks are active, and the others are pushed in order and deactivated. The pools stay duplicate-free. |
| StreamChunks.Updated | Assets/Scripts/WorldGen/ChunkManager.cs:92-106 | The pools after updateChunkGrid are duplicate-free. |
| StreamChunks.ChunkManager.UpdateChunkGrid | Assets/Scripts/WorldGen/ChunkManager.cs:92-106 | The new pools are Updated of the old ones, so \|active\| + \|inactive\| is unchanged. Every cell holds the last chunk filed under it. |
| StreamChunks.ChunkManager.UpdateLoop | Assets/Scripts/WorldGen/ChunkManager.cs:93-105 | The loop with RemoveAt and i-- visits every chunk of the active list once, in order. |
| StreamChunks.ChunkManager.VisitChunk | Assets/Scripts/WorldGen/ChunkManager.cs:94-104 | One visit moves the state from the first j chunks to the first j + 1. |
| StreamChunks.GridOrdersSound | Assets/Scripts/WorldGen/ChunkManager.cs:111-121 | Every ordered position is the world position of an empty cell, and was not in the pending set. |
| StreamChunks.GridOrdersComplete | Assets/Scripts/WorldGen/ChunkManager.cs:111-121 | The position of every empty cell that is not pending is ordered. |
| StreamChunks.GridOrdersNoDup | Assets/Scripts/WorldGen/ChunkManager.cs:111-121 | No position is ordered twice in one call. |
| StreamChunks.PendingCoversEmpty | Assets/Scripts/WorldGen/ChunkManager.cs:111-121 | After ordering, the position of every empty cell is pending. |
| StreamChunks.EmptyGridOrdersAll | Assets/Scripts/WorldGen/ChunkManager.cs:72 | With an empty grid and nothing pending, every cell is ordered, in x-major order. This is the first frame after init. |
| StreamChunks.OrderStep | Assets/Scripts/WorldGen/ChunkManager.cs:115-118 | A cell is ordered exactly when it is empty and not pending, and the pending set grows by its position. |
| StreamChunks.ChunkManager.OrderNewChunks | Assets/Scripts/WorldGen/ChunkManager.cs:111-121 | The orders queue and the pending set grow by exactly GridOrders. Afterwards every empty cell's position is pending. |
| StreamChunks.ChunkManager.OrderRow | Assets/Scripts/WorldGen/ChunkManager.cs:113-119 | One row of orderNewChunks appends RowOrders. |
| StreamChunks.LaunchBudget | Assets/Scripts/WorldGen/ChunkManager.cs:127-130 | The launch count is at most the results available and at most the budget, and it is one of them (0 for a non-positive budget). |
| StreamChunks.TakeChunk | Assets/Scripts/WorldGen/ChunkManager.cs:173-181 | getChunk reactivates and pops the top of a non-empty stack. It creates a chunk at the origin only when the stack is empty. |
| StreamChunks.ChunkManager.GetChunk | Assets/Scripts/WorldGen/ChunkManager.cs:173-181 | The method's effect is TakeChunk of the old pools. |
| StreamChunks.ChunkManager.CreateChunk | Assets/Scripts/WorldGen/ChunkManager.cs:189-195 | A new active chunk, without mesh, is appended to the arena at the given position. |
| StreamChunks.LaunchOneWf | Assets/Scripts/WorldGen/ChunkManager.cs:135-140 | Launching one result keeps the pools duplicate-free. |
| StreamChunks.LaunchAll | Assets/Scripts/WorldGen/ChunkManager.cs:130-143 | Launching any results keeps the pools duplicate-free and in the arena. |
| StreamChunks.LaunchAllEffect | Assets/Scripts/WorldGen/ChunkManager.cs:130-143 | The active list grows by exactly the launch count. The k-th new entry is an active chunk at the k-th result's position with its mesh. |
| StreamChunks.LaunchAllCreates | Assets/Scripts/WorldGen/ChunkManager.cs:173-181 | Launching creates exactly the chunks the inactive stack cannot serve. |
| StreamChunks.ChunkManager.LaunchOrderedChunks | Assets/Scripts/WorldGen/ChunkManager.cs:126-144 | The oldest LaunchBudget results leave the queue, and their positions leave the pending set. The pools are LaunchAll of them. |
| StreamChunks.Sentinels | Assets/Scripts/WorldGen/ChunkManager.cs:202 | n copies of Vector3.down. |
| StreamChunks.ChunkManager.StopThreads | Assets/Scripts/WorldGen/ChunkManager.cs:200-205 | Exactly one sentinel per worker is enqueued. |
| StreamChunks.ChunkManager.Tick | Assets/Scripts/WorldGen/ChunkManager.cs:36-41 | One frame is the composition of the four steps. The grid holds only the re-filed chunks, the new orders are those of its empty cells, and the pending set loses the launched positions. |
| DraftChunks.DraftPlayerPos | Assets/Scripts/ChunkManager.cs:92-98 | x and z are quantised to multiples of 10, whatever the chunk size, and y is dropped. |
| DraftChunks.DraftOffsetMissesPlayer | Assets/Scripts/ChunkManager.cs:12 | With the offset built from chunkSize, the player's own cell can fall outside the grid. |
| DraftChunks.DraftPlayerPosMisaligns | Assets/Scripts/ChunkManager.cs:95-96 | With a step of 10 instead of chunkSize, a placed chunk stops being at its cell's position after the player moves. |
| DraftChunks.ChunkManager.constructor | Assets/Scripts/ChunkManager.cs:22-30 | Start makes exactly chunkCount * chunkCount active chunks, one at the world position of each cell, in x-major order. |
| DraftChunks.ChunkManager.StartChunks | Assets/Scripts/ChunkManager.cs:24-29 | Start's loops create the chunks of all rows, in order. |
| DraftChunks.ChunkManager.StartRow | Assets/Scripts/ChunkManager.cs:25-28 | One row of Start. |
| DraftChunks.RowsAppend | Assets/Scripts/ChunkManager.cs:24-29 | The rows created so far, followed by one more row, are the chunks of one more row. |
| DraftChunks.ChunkManager.CreateChunk | Assets/Scripts/ChunkManager.cs:116-120 | A new active chunk is appended at the given position. |
| DraftChunks.ChunkManager.ClearChunkGrid | Assets/Scripts/ChunkManager.cs:42-48 | Every grid cell is empty afterwards. |
| DraftChunks.VisitedStep | Assets/Scripts/ChunkManager.cs:59-64 | One loop turn keeps the chunk, or moves it to the end of the inactive list. |
| DraftChunks.VisitedDone | Assets/Scripts/ChunkManager.cs:54-67 | After the loop, exactly the in-bounds chunks are active, and the others are appended in order. |
| DraftChunks.Updated | Assets/Scripts/ChunkManager.cs:54-67 | updateChunkGrid keeps the arena and keeps \|active\| + \|inactive\|. |
| DraftChunks.PlacedGrid | Assets/Scripts/ChunkManager.cs:59-60 | The cleared grid after the loop holds in each cell the last chunk filed under it. |
| DraftChunks.ChunkManager.UpdateChunkGrid | Assets/Scripts/ChunkManager.cs:54-67 | The new pools are Updated of the old ones; the grid gains the filed chunks. |
| DraftChunks.ChunkManager.UpdateLoop | Assets/Scripts/ChunkManager.cs:55-66 | The loop with RemoveAt and i-- visits every active chunk once, in order. |
| DraftChunks.ChunkManager.VisitChunk | Assets/Scripts/ChunkManager.cs:56-65 | One visit moves the state from the first j chunks to the first j + 1. |
| DraftChunks.EmptyCellsSound | Assets/Scripts/ChunkManager.cs:73-76 | Every listed cell is an empty cell of the grid. |
| DraftChunks.EmptyCellsComplete | Assets/Scripts/ChunkManager.cs:73-76 | Every empty cell is listed. |
| DraftChunks.FilledIff | Assets/Scripts/ChunkManager.cs:75-79 | A cell receives a chunk exactly when it is among the first min(empty cells, inactive chunks) empty cells. |
| DraftChunks.FilledFrom | Assets/Scripts/ChunkManager.cs:77-78 | The chunk a cell receives is taken from the front of the inactive list. |
| DraftChunks.Deployed | Assets/Scripts/ChunkManager.cs:72-86 | Deployment keeps active + inactive as a sequence, and so the pool size, and it keeps the pools duplicate-free. |
| DraftChunks.DeployedInCell | Assets/Scripts/ChunkManager.cs:79-81 | Every chunk a cell receives is moved to that cell's world position, so the cell computation of the same frame files it under that cell. |
| DraftChunks.DeployFillsAll | Assets/Scripts/ChunkManager.cs:72-86 | With enough inactive chunks, every cell of the grid is occupied afterwards. |
| DraftChunks.DeployStep | Assets/Scripts/ChunkManager.cs:76-83 | One cell with chunks left: an empty cell takes the front inactive chunk, and a full cell changes nothing. |
| DraftChunks.DeployRowDone | Assets/Scripts/ChunkManager.cs:75 | Once the inactive list is empty, the rest of the grid is left as it is. |
| DraftChunks.ChunkManager.DeployInactiveChunks | Assets/Scripts/ChunkManager.cs:72-86 | The new pools are Deployed of the old ones over the empty cells in x-major order. Each grid cell holds what Filled gives it, and the pool still has chunkCount * chunkCount chunks. |
| DraftChunks.ChunkManager.DeployRow | Assets/Scripts/ChunkManager.cs:74-84 | One row of deployInactiveChunks, stopping when the inactive list is empty. |
| DraftChunks.ChunkManager.DeployCell | Assets/Scripts/ChunkManager.cs:76-83 | One cell of deployInactiveChunks. |
| DraftChunks.ChunkManager.Tick | Assets/Scripts/ChunkManager.cs:33-37 | One frame keeps the pool at chunkCount * chunkCount chunks, and its result is Deployed after Updated. |
| VoxelMesh.FaceOffsetsAreCorners | Assets/Scripts/MeshGenerator.cs:88-125 | The four offsets of a face have ±0.5 on the normal axis toward the face's side and ±0.5 on the other two axes; the four are distinct. |
| VoxelMesh.FaceVertexOffset | Assets/Scripts/MeshGenerator.cs:88-125 | Vertex k of a face is the cube position plus corner offset k. |
| VoxelMesh.FaceWinding | Assets/Scripts/MeshGenerator.cs:127-128 | Both triangles (v, v+1, v+2) and (v+2, v+1, v+3) face outward on every direction. |
| VoxelMesh.YOffset | Assets/Scripts/MeshGenerator.cs:105-112 | The atlas band is 0, 1 or 2. |
| VoxelMesh.FaceUVsInBand | Assets/Scripts/MeshGenerator.cs:155-173 | A face's four texture coordinates are distinct, with u in {0, 1} and v in {yOffset/3, (yOffset+1)/3}. |
| VoxelMesh.FaceUVFollowsGeometry | Assets/Scripts/MeshGenerator.cs:163-173 | The reordered corners of xm, zp and ym are exactly what makes every coordinate follow an independent reference mapping of the corner. |
| VoxelMesh.FaceColorsShade | Assets/Scripts/MeshGenerator.cs:131-140 | Type 1 gets four white, type 2 four gray, any other type no colour. |
| VoxelMesh.ColorsOfFull | Assets/Scripts/MeshGenerator.cs:131-140 | There are 4 colours per face exactly when every face has type 1 or 2. |
| VoxelMesh.ColorCount | Assets/Scripts/MeshGenerator.cs:131-140 | The colour count equals the vertex count exactly when every emitted face has type 1 or 2. This holds whenever every non-zero cell has type 1 or 2. |
| VoxelMesh.MeshOfSnoc | Assets/Scripts/MeshGenerator.cs:83-142 | Emitting one face appends its quad to every list; its indices start at the old vertex count. |
| VoxelMesh.MeshWellFormed | Assets/Scripts/MeshGenerator.cs:83-128 | 4 vertices, 4 UVs and 6 indices per face, and every index names a vertex. |
| VoxelMesh.MeshWindingAt | Assets/Scripts/MeshGenerator.cs:127-128 | Quad q indexes the vertices of face q, as two triangles that face along its normal. |
| VoxelMesh.MeshVertexAt | Assets/Scripts/MeshGenerator.cs:88-174 | Every vertex is a corner of its face, and its UV is the reference mapping of that corner. |
| VoxelMesh.CellFacesMember | Assets/Scripts/MeshGenerator.cs:66-73 | A cell emits face f exactly when f belongs to that cell and is exposed. |
| VoxelMesh.FaceEmittedIff | Assets/Scripts/MeshGenerator.cs:44-72 | A face is emitted exactly when its cube is a non-zero cell, it carries the cell's value, and its side is on the boundary or next to a 0 cell. |
| VoxelMesh.IsolatedVoxel | Assets/Scripts/MeshGenerator.cs:67-72 | A non-zero cell with no non-zero neighbour emits 6 faces, 12 triangles. |
| VoxelMesh.BuriedVoxel | Assets/Scripts/MeshGenerator.cs:67-72 | A cell with six non-zero neighbours emits nothing. |
| VoxelMesh.EmissionOrder | Assets/Scripts/MeshGenerator.cs:44-72 | Faces come out strictly in x, y, z order, then in the order xp, yp, zp, xm, ym, zm, so no face is emitted twice. |
| VoxelMesh.SingleVoxelFaces | Assets/Scripts/MeshGenerator.cs:67-72 | A grid with one non-zero cell emits exactly that cell's six faces. |
| VoxelMesh.SingleVoxelMesh | Assets/Scripts/MeshGenerator.cs:44-72 | That grid's mesh has 24 vertices and 12 triangles. |
| VoxelMesh.MeshGenerator.constructor | Assets/Scripts/MeshGenerator.cs:26-32 | Initialize leaves four empty lists. |
| VoxelMesh.MeshGenerator.AddTextureCoordinates | Assets/Scripts/MeshGenerator.cs:151-176 | Appends the band's four corners in the direction's order. |
| VoxelMesh.MeshGenerator.GenerateCubeFace | Assets/Scripts/MeshGenerator.cs:82-144 | The lists become the mesh of the old faces plus this face. |
| VoxelMesh.MeshGenerator.GenerateFaceIf | Assets/Scripts/MeshGenerator.cs:67 | One exposure test of GenerateCube: the face is emitted exactly when exposed. |
| VoxelMesh.MeshGenerator.GenerateCube | Assets/Scripts/MeshGenerator.cs:66-73 | Appends the exposed faces of the cube, in rank order; no neighbour is read out of range. |
| VoxelMesh.MeshGenerator.Recalculate | Assets/Scripts/MeshGenerator.cs:195-201 | The mesh is MeshOf the faces emitted so far. |
| VoxelMesh.MeshGenerator.GenerateColumn | Assets/Scripts/MeshGenerator.cs:46-49 | The innermost loop appends the faces of one column. |
| VoxelMesh.MeshGenerator.GenerateSlice | Assets/Scripts/MeshGenerator.cs:45-50 | The middle loop appends the faces of one slice. |
| VoxelMesh.MeshGenerator.GenerateMesh | Assets/Scripts/MeshGenerator.cs:39-57 | The mesh built is MeshOf(AllFaces(pointmap)), so every lemma about AllFaces applies to it. |
| VoxelData.ClassifyIff | Assets/Scripts/WorldGen/ChunkVoxelDataGenerator.cs:33-38 | Pass 1 gives DIRT exactly at voxels, WATER exactly at non-voxels below the water line, and NONE elsewhere, never with a modifier. |
| VoxelData.FinalKeepsNone | Assets/Scripts/WorldGen/ChunkVoxelDataGenerator.cs:46-47 | No cell becomes or stops being NONE, and NONE and WATER cells are unchanged. |
| VoxelData.FinalType | Assets/Scripts/WorldGen/ChunkVoxelDataGenerator.cs:66-67 | A DIRT cell below the water line becomes SAND, and every other cell keeps its type. |
| VoxelData.FinalModifier | Assets/Scripts/WorldGen/ChunkVoxelDataGenerator.cs:70-76 | SNOW and GRASS each exactly under their conditions, and no modifier otherwise. |
| VoxelData.SandHasNoGrass | Assets/Scripts/WorldGen/ChunkVoxelDataGenerator.cs:66-76 | SAND never carries GRASS. |
| VoxelData.CoveredHasNoModifier | Assets/Scripts/WorldGen/ChunkVoxelDataGenerator.cs:70 | A cell below the top layer under a non-NONE cell, water included, gets no modifier. |
| VoxelData.DecideOrderFree | Assets/Scripts/WorldGen/ChunkVoxelDataGenerator.cs:43-51 | decideBlockType gives the same block whether the cell above has had its own turn yet or not. |
| VoxelData.BlockDataMap.constructor | Assets/Scripts/WorldGen/ChunkVoxelDataGenerator.cs:27 | A map of the given dimensions. |
| VoxelData.BlockDataMap.Index1D | Assets/Scripts/WorldGen/ChunkVoxelDataGenerator.cs:32 | Every cell of the box has an array index. |
| VoxelData.BlockDataMap.IndexRoundTrip | Assets/Scripts/WorldGen/ChunkVoxelDataGenerator.cs:32 | index1D is one-to-one: the cell is read back from its index. |
| VoxelData.BlockDataMap.CoordsRoundTrip | Assets/Scripts/WorldGen/ChunkVoxelDataGenerator.cs:32 | index1D is onto: every array position is some cell's index. |
| VoxelData.BlockDataMap.IndexStep | Assets/Scripts/WorldGen/ChunkVoxelDataGenerator.cs:29-31 | The index past the last z of a row is the first of the next row, past the last row of a slice the first of the next slice, and past the last slice the map's size. So the loops visit 0, 1, ..., size - 1 in order. |
| VoxelData.BlockDataMap.IndexUp | Assets/Scripts/WorldGen/ChunkVoxelDataGenerator.cs:70 | The cell above lies one z-row further on, so it has not been visited yet. |
| VoxelData.GetChunkVoxelData | Assets/Scripts/WorldGen/ChunkVoxelDataGenerator.cs:26-53 | A fresh map of (chunkSize+2) x chunkHeight x (chunkSize+2), each of whose cells holds Final, the result of both passes. |
| VoxelData.FirstPass | Assets/Scripts/WorldGen/ChunkVoxelDataGenerator.cs:29-41 | Every array position gets its cell's classification. |
| VoxelData.ClassifyCell | Assets/Scripts/WorldGen/ChunkVoxelDataGenerator.cs:32-38 | One cell of pass 1. |
| VoxelData.SecondPass | Assets/Scripts/WorldGen/ChunkVoxelDataGenerator.cs:43-50 | From the pass-1 map, every position ends up Final. |
| VoxelData.SurfaceCell | Assets/Scripts/WorldGen/ChunkVoxelDataGenerator.cs:46-47 | One cell of pass 2; decideBlockType runs only on cells that are neither NONE nor WATER. |
| VoxelData.DecideBlockType | Assets/Scripts/WorldGen/ChunkVoxelDataGenerator.cs:61-79 | Only the cell's own entry changes, to Decide of it. The neighbour above is read only below the top layer. |

## Left out

- The worker threads (`ChunkVoxelDataThread`), and the locking of `BlockingQueue` and `LockingQueue`: the order and result queues are plain sequences, and results arrive only as the initial contents of the queue.
- `clear`'s busy wait on the workers: after draining the result queue the model empties the pending set, which is the state the wait ends in. The destroyed chunks' records stay in the arena.
- Unity engine calls (`Instantiate`, `Destroy`, `SetActive` as an engine call, `CreatePrimitive`, the scale of the draft's cube chunks, `MeshFilter`/`MeshCollider`, `Mesh`, `RecalculateNormals`): chunks are records and meshes are `MeshData` values.
- `ClearMesh` of the mesh generator, the draft's `getVoxelMesh` stub, `OnDestroy`/`OnApplicationQuit` (they only call `stopThreads`) and `Settings.load`: nothing in the modelled core depends on them.
- StreamChunks.ChunkManager.LaunchOrderedChunks: `launchOrderedChunks` re-reads `Settings.MaxChunkLaunchesPerUpdate` on every call, and the options menu can change it while the game runs. The model fixes the budget as the constant `maxLaunches` at construction, so a budget change between frames is not modelled.
- `calcHeight`, `calc3DStructure`, `calc3DUnstructure` and SimplexNoise: float numerics over an unseen library, modelled as function-valued parameters. So the unstructure threshold (`Unstructure3DRate`) is not stated.
- `BlockDataMap` and `BlockData` come from files that are not part of this model. The model supplies its own row-major `index1D`, x slowest and z fastest, treats a modifier of NONE as "no modifier", and starts the array at NONE blocks.

## Findings

The first-draft manager is modelled as written, with both quirks below. The stream-era manager uses the corrected definitions (`ChunkGrid.GridOffset`, `ChunkGrid.PlayerPos`).

| source | as written | input that shows it | evidently intended | confidence | as-written member | corrected member |
|---|---|---|---|---|---|---|
| Assets/Scripts/ChunkManager.cs:12 | The draft's grid offset is minus half of chunkSize cells. | chunkSize 16, chunkCount 3, player at the origin: the player's cell is (8, 8), outside the 3 x 3 grid. | Minus half of chunkCount cells, as the stream-era manager writes it, which keeps the player's cell inside the grid. | not executed | DraftChunks.DraftOffsetMissesPlayer | ChunkGrid.PlayerCellInGrid |
| Assets/Scripts/ChunkManager.cs:95-96 | The draft quantises the player position to multiples of 10. | chunkSize 16: a chunk placed at cell (1, 1) with the player at the origin is off its cell's position once the player is at x = 10. | Multiples of chunkSize, as the stream-era getPlayerPos does, which keeps placed chunks on cell positions. | not executed | DraftChunks.DraftPlayerPosMisaligns | ChunkGrid.CellAligned |
