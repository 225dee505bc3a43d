# Voxel world model

A Dafny model of the world logic of a browser voxel game in three versions.

- **T3, the current game** (`T3/execution_part3.js`, `T3/scripts/trees.js`, `T3/scripts/buildings.js`):
  - The world is four tables: the set of occupied cells, the block type of each cell, the height of each column, and the set of loaded chunks. They are held by one `World` object.
  - Chunks of 6 × 6 columns are generated from a noise value per column.
  - Chunks are streamed in and out around the player.
  - The player places and removes blocks, and moves under gravity with per-axis collision.
  - Trees and buildings are planted on the generated terrain. For buildings, the ground is first flattened and ringed with stairs.
- **T2, an earlier version** (`T2/execution_part2.js`): 16 × 16 chunks, a different layering, a simpler tree planter and a taller collision box.
- **T1, the first version** (`T1/execution.js`): a 35 × 35 map in one dictionary, stacked from a map file and three tree files.
- **The structure editor** (`T3/builder_part3.js`): a cursor on a grid, a dictionary of voxels, a cycling type selection, and saving and loading models as JSON.

## How the model is built

- Code that changes the tables in place is written as methods that take the `World` by reference.
  - Each method ensures that the new tables equal a specification function of the old ones, for example `w.Data() == ApplyChunk(old(w.Data()), k, noise)`.
  - What the program promises is then proved about that function as lemmas.
- Things the model takes as inputs:
  - noise values;
  - random draws;
  - whether a mesh could be created;
  - the camera direction.
- Files:

| file | contents |
|---|---|
| `wrappers.dfy` | the `Option` type |
| `voxel.dfy` | block types, cells, columns, chunk keys |
| `store.dfy` | the world tables |
| `terrain.dfy` | T3 chunk generation |
| `classic.dfy` | T2 chunk generation |
| `physics.dfy` | collision and chunk tests, and the movement step |
| `motion.dfy` | the per-axis movement rules |
| `streaming.dfy` | chunk streaming and the full-map sweep |
| `editor.dfy` | block placement and removal |
| `trees.dfy` | tree placement in T3 and T2 |
| `buildings.dfy` | ground flattening and building insertion |
| `placement.dfy` | the building placement loop |
| `original.dfy` | T1 |
| `builder.dfy` | the structure editor |

## Model

| member | source | states |
|---|---|---|
| Store.TerrainHeight | T3/execution_part3.js:589-592 | `getTerrainHeight` rounds both coordinates with `Math.round` and reads a missing column as 0; the result is the height of every integer column within half a unit of (x, z) |
| Store.World.constructor | T3/execution_part3.js:66-93 | the world starts with no occupied cell, no type, no height and no loaded chunk |
| Store.CellSet.Claim | T3/scripts/trees.js:15-20 | `isTreePositionOccupied` reports whether the cell was taken and takes it in any case, so a repeated claim of a cell always reports true |
| Store.CellSet.constructor | T3/scripts/trees.js:7 | the module's cell set starts empty |
| Store.CellSet.Add | T3/scripts/trees.js:210 | registering a cell adds it and keeps every cell already there |
| Terrain.SurfaceHeight | T3/execution_part3.js:373-374 | the surface height is at most 30, and equals floor(noise · amplitude) + 1 unless capped |
| Terrain.TopBlock | T3/execution_part3.js:399-403 | the top cell of a dry column is Sand exactly when h = 11, Snow exactly when h ≥ 25 (and h ≠ 11), and Grass otherwise |
| Terrain.ColumnHeight | T3/execution_part3.js:371-421 | the recorded column height is at least sea level and at least h, and is one of the two |
| Terrain.ColumnType | T3/execution_part3.js:367-423 | a generated column holds a block at y exactly between its floor and its recorded height |
| Terrain.ColumnLayers | T3/execution_part3.js:367-423 | Bedrock at y = 0 (Water there when h ≤ 0). Below sea level: Dirt at 1..h-1, Water at h..9, height 10. Otherwise: the top block at h-1, Dirt at h-4..h-2, Stone below, nothing from h up, height h |
| Terrain.GenerateColumn | T3/execution_part3.js:367-423 | one pass of the column loop leaves the tables as `ApplyColumn`: the column's cells and types added and its height reset |
| Terrain.SubmergedLayers | T3/execution_part3.js:375-395 | below sea level the column gains exactly its Dirt and Water cells with their types, and its height becomes 10 |
| Terrain.DirtFill | T3/execution_part3.js:376-386 | the Dirt loop adds exactly the cells 1..h-1 as Dirt and sets the height to max(h, 1) |
| Terrain.WaterFill | T3/execution_part3.js:387-393 | the Water loop adds exactly the cells h..9 as Water and leaves the heights alone |
| Terrain.DryLayers | T3/execution_part3.js:396-423 | the layer loop of a dry column writes the cells 1..h-1 in order, each with its layer's type, and sets the height to h |
| Terrain.DryColumn | T3/execution_part3.js:396-423 | Bedrock at y = 0 followed by the layer loop yields exactly `ApplyColumn` for a dry column |
| Terrain.DryOccupied | T3/execution_part3.js:396-423 | a dry column's loop adds exactly the column's cells 0..h-1 |
| Terrain.DryTypes | T3/execution_part3.js:396-423 | a dry column's loop writes exactly the column's layer types over the Bedrock cell and the cells above it |
| Terrain.ColumnSets | T3/execution_part3.js:367-423 | the cell-by-cell description of a column's writes is `ApplyColumn` |
| Chunks.GenerateChunk | T3/execution_part3.js:341-481 | `generateChunk` leaves the tables as `ApplyChunk`: unchanged for a loaded key, otherwise all 36 columns generated and the key loaded |
| Chunks.GenerateChunkRow | T3/execution_part3.js:363-425 | the inner loop generates the six columns of one x offset in order and does not touch the loaded set |
| Chunks.ChunkColumnsMembers | T3/execution_part3.js:362-365 | a column is among a chunk's columns exactly when it lies in that chunk |
| Chunks.ApplyColumnsEffect | T3/execution_part3.js:362-426 | after a list of columns: a cell is occupied and typed exactly when it was, or its listed column generates it; generated cells have their layer type; listed columns have their generated height; everything else is kept |
| Chunks.GenerateChunkEffect | T3/execution_part3.js:341-481 | a loaded key changes nothing. Otherwise the key is loaded, every cell of the chunk's layers is occupied with its layer type, every column of the chunk gets its recorded height (resetting taller heights left by trees), and nothing outside the chunk changes |
| Chunks.GenerateChunkIdempotent | T3/execution_part3.js:341-481 | generating a chunk twice is generating it once, and the key is loaded afterwards |
| Classic.ClassicType | T2/execution_part2.js:368-447 | a column holds a block at y exactly for 0 ≤ y below its recorded height |
| Classic.ClassicLayers | T2/execution_part2.js:368-447 | below sea level: Water exactly at 0..9, with no Bedrock and no Dirt anywhere. Otherwise: the top block at h-1 (Sand at 11, Snow at ≥ 25, else Grass), Dirt at h-4..h-2, Stone below, blocks exactly at 0..h-1 |
| Classic.ClassicColumns | T2/execution_part2.js:351-354 | a 16 × 16 chunk has 256 columns |
| Classic.GenerateClassicChunk | T2/execution_part2.js:331-471 | this version's `generateChunk` leaves the tables as `ApplyClassicChunk` |
| Classic.GenerateClassicRow | T2/execution_part2.js:352-449 | the inner loop generates the 16 columns of one x offset and does not touch the loaded set |
| Classic.GenerateClassicColumn | T2/execution_part2.js:357-448 | an in-plane column is generated as `ApplyClassicColumn`: the water loop below sea level, the soil loop otherwise |
| Classic.ClassicPrefixShape | T2/execution_part2.js:357-448 | after i passes of the column loop the column holds exactly its cells 0..i-1, typed in write order, and its height is raised to at least i and never lowered |
| Classic.ClassicPrefixApply | T2/execution_part2.js:357-448 | the whole loop of an in-plane column, one cell per pass, is `ApplyClassicColumn` |
| Classic.ClassicColumnsEffect | T2/execution_part2.js:351-450 | a list of columns never removes a cell, never lowers a height and leaves the loaded set alone; columns that are not listed, or lie outside the ±100 plane, are untouched |
| Classic.ClassicChunkEffect | T2/execution_part2.js:331-471 | a loaded key changes nothing, and generating twice is generating once. Otherwise the key is loaded; every in-plane column of the chunk holds its generated cells with their types and has the larger of its old and its generated height; no cell is removed, no height goes down, and nothing outside the chunk or the plane changes |
| Classic.ClassicColumnsMembers | T2/execution_part2.js:351-354 | a column is listed for a chunk exactly when it lies in that 16 × 16 chunk |
| Classic.ClassicColumnsAt | T2/execution_part2.js:351-450 | after a list of columns, a cell is occupied and typed exactly when it was before or its listed in-plane column reaches it, with the generated type in that case and its old type otherwise |
| Classic.ClassicColumnsHeightAt | T2/execution_part2.js:351-450 | after a list of columns, a listed in-plane column has the larger of its old and its generated height, and every other column keeps its height |
| Physics.TouchingInWindow | T3/execution_part3.js:1315-1321 | a cell whose unit box meets the player box lies within ±8 of the rounded position, so the bounded scan misses no colliding cell |
| Physics.IsInLoadedChunk | T3/execution_part3.js:1481-1485 | `isPositionInLoadedChunk` is true exactly when the chunk holding the position is loaded |
| Physics.ChunkUnderSpans | T3/execution_part3.js:1482-1483 | the chunk under a position is the only chunk whose span covers it, and it is (floor(x / size), floor(z / size)) |
| Physics.InsideBlock | T3/execution_part3.js:1188-1196 | `isPositionInsideBlock` is true exactly when the cell of the floored position is occupied |
| Physics.IsPositionColliding | T3/execution_part3.js:1290-1327 | `isPositionColliding` is true exactly when the player box leaves the plane or meets the unit box of a solid occupied cell (Water exempt in T3, not in T2) |
| Physics.ScanPlane | T3/execution_part3.js:1316-1324 | one x-plane of the scan finds a hit exactly when some cell of that plane, within the window, is solid and touches the player box |
| Movement.Player.constructor | T3/execution_part3.js:104-110 | the player starts at the given position with zero velocity and unable to jump |
| Movement.HandleMovement | T3/execution_part3.js:1329-1452 | `handleMovement` leaves the player in the state `Step` gives for the free positions of the current world |
| Movement.Frame | T3/execution_part3.js:1399-1452 | the frame's body is `Step` of the free positions: gravity and input, then X, Y and Z moves, then the clamp |
| Movement.TryMoveX | T3/execution_part3.js:1405-1414 | the X move is taken exactly when its target is in a loaded chunk and not colliding; otherwise the X velocity is zeroed |
| Movement.TryMoveY | T3/execution_part3.js:1416-1429 | the Y move is taken, clearing `canJump`, exactly when its target is free; otherwise the Y velocity is zeroed and a falling player may jump |
| Movement.TryMoveZ | T3/execution_part3.js:1431-1440 | the Z move is taken exactly when its target is free; otherwise the Z velocity is zeroed |
| Movement.CanMoveTo | T3/execution_part3.js:1407-1410 | a target is accepted exactly when it is among the free positions (in a loaded chunk and not colliding) |
| Movement.FreeWithinReach | T3/execution_part3.js:1293-1300 | every free position lies within the clamp bound ±(half plane − 0.3), because positions outside it collide with the plane edge |
| Motion.Clamp | T3/execution_part3.js:1443-1452 | `THREE.MathUtils.clamp` lands in [lo, hi] and leaves a value already there unchanged |
| Motion.StepSafe | T3/execution_part3.js:1399-1452 | after a frame x and z lie within the clamp bound; the vertical velocity is 0 or the velocity after gravity; a moving body cannot jump and a stopped falling one can; a body that starts on a free position ends on one |
| Streaming.GenerateChunkBy | T3/execution_part3.js:341-481 | generating a chunk under either version's rules leaves the tables as that version's chunk function |
| Streaming.ChunkByEffect | T3/execution_part3.js:341-481 | generating a chunk loads its key and changes nothing outside that chunk |
| Streaming.ChunksByEffect | T3/execution_part3.js:496-503 | generating a list of chunks loads exactly the listed keys in addition and changes nothing outside them |
| Streaming.DiscBounds | T3/execution_part3.js:496-499 | an offset with dx² + dz² ≤ r² lies in the scanned square [-r, r]² |
| Streaming.DiscRowMembers | T3/execution_part3.js:497-502 | one row of the loop visits exactly the in-disc offsets of that row, in order of dz |
| Streaming.DiscRowsMembers | T3/execution_part3.js:496-503 | the first n rows visit exactly the in-disc offsets with dx below -r + n |
| Streaming.LoadOrderMembers | T3/execution_part3.js:496-503 | the loop visits exactly the chunks whose offset from the player's chunk has dx² + dz² ≤ r² |
| Streaming.DiscNotFar | T3/execution_part3.js:505-518 | a chunk the loop loads is never at distance > r + 1, so the eviction pass never drops a chunk it has just loaded |
| Streaming.UpdateChunks | T3/execution_part3.js:484-518 | `updateChunks` leaves the tables as `UpdateResult`, and the scene children as the eviction pass leaves them: nothing changes without a model, with fog off or with the orbital camera; otherwise the disc is loaded and the pass drops the far keys it reaches |
| Streaming.EvictFar | T3/execution_part3.js:505-518 | the `forEach` pass over the scene children, which splices the array it walks, drops from the loaded set exactly the keys of `SkipEvicted` (after each removal the next child is passed over), leaves the children of `SkipKept` and touches no other table |
| Streaming.SkipEvictedCarried | T3/execution_part3.js:505-518 | every key the pass drops belongs to a far chunk mesh of the scene |
| Streaming.SkipKeepsNear | T3/execution_part3.js:505-518 | a child that is not a far chunk mesh stays in the scene |
| Streaming.EvictAllFar | T3/execution_part3.js:505-518 | the pass with every child visited drops exactly the keys of the far chunk meshes and keeps exactly the other children |
| Streaming.AllEvictedMembers | T3/execution_part3.js:505-518 | a key is dropped by the corrected pass exactly when a far chunk mesh carries it |
| Streaming.NearChildrenMembers | T3/execution_part3.js:505-518 | the corrected pass keeps exactly the children that are not far chunk meshes |
| Streaming.SkipEvictedWithinAll | T3/execution_part3.js:505-518 | the pass as written drops no key the corrected pass would keep |
| Streaming.EvictSkipsNext | T3/execution_part3.js:505-518 | with two far chunk meshes next to each other, the pass as written drops only the first key and leaves the second mesh in the scene, where the corrected pass drops both |
| Streaming.LoadDisc | T3/execution_part3.js:496-503 | the two nested loops generate the chunks of the disc in loop order |
| Streaming.LoadDiscRow | T3/execution_part3.js:497-502 | the inner loop generates the in-disc chunks of one dx |
| Streaming.UpdateEffect | T3/execution_part3.js:484-518 | every chunk of the disc is loaded afterwards; every loaded key was loaded before or lies in the disc; a key that stops being loaded is carried by a far chunk mesh of the scene (distance > r + 1); occupancy, types and heights change only inside the disc |
| Streaming.SweepAt | T3/execution_part3.js:1509-1535 | chunk (cx, cz) sits at its computed index in the sweep order as written, for cz up to 22 |
| Streaming.SweepStep | T3/execution_part3.js:1513-1530 | one `generateChunk` call of the sweep generates the next chunk of the sweep order |
| Streaming.LoadEntireMap | T3/execution_part3.js:1493-1540 | the sweep as written generates the chunks of `SweepOrder` in order |
| Streaming.SweepCovers | T3/execution_part3.js:1509-1535 | the sweep as written visits exactly cx in [-21, 21] and cz in [-21, 22]: 43 × 44 chunks, including the extra row cz = 22 |
| Streaming.SquareAt | T3/execution_part3.js:1504-1505 | chunk (cx, cz) of the 43 × 43 square sits at its row-major index |
| Streaming.NextCell | T3/execution_part3.js:1517-1521 | the corrected step moves to the next cell of the square, wrapping cz back to -21 |
| Streaming.LoadEntireMapSquare | T3/execution_part3.js:1504-1505 | the corrected sweep generates the chunks of the 43 × 43 square in row-major order |
| Streaming.SquareCovers | T3/execution_part3.js:1504-1505 | the corrected sweep visits exactly the 43 × 43 square, each chunk once |
| Editor.PlaceBlock | T3/execution_part3.js:781-816 | the successful write marks the cell occupied with the selected type and raises its column to max(old, y + 1) |
| Editor.AddBlock | T3/execution_part3.js:729-818 | `addBlock` leaves the tables as `AddResult`: a torch is written only into an empty cell when it is created, and its creation (`createTorch`, T3/scripts/torch.js:77) marks the torch's chunk loaded without generating it; any other type first generates the cell's chunk, then is refused when its unit box meets the player's box, refused on the existing-mesh path when the cell is occupied, and written when the mesh is made |
| Editor.AddBlockEffect | T3/execution_part3.js:729-818 | the chunk of the cell is loaded and nothing else is (non-torch); a torch adds exactly its chunk key to the loaded set when it is created in an empty cell, and leaves the set alone otherwise; no cell but the target and no column but its own changes beyond chunk generation; a newly written cell holds the selected type and never overlaps the player; an occupied cell with an existing mesh is left alone; the column height never goes down, and a torch never changes heights |
| Editor.AddBlockKeepsTop | T3/execution_part3.js:781-816 | when the column's recorded height is one above its highest block before the write, it still is afterwards |
| Editor.PlaceKeepsTop | T3/execution_part3.js:813-816 | writing a cell and raising its column to max(old, y + 1) keeps "height = one above the highest block" for that column |
| Editor.RescanMeaning | T3/execution_part3.js:1094-1097 | the downward rescan stops one above the highest occupied cell below y, or at -1 when cells -1 .. y - 1 are all empty |
| Editor.RescanColumn | T3/execution_part3.js:1094-1097 | the `while` loop returns the rescan's value |
| Editor.RemoveBlock | T3/execution_part3.js:1048-1146 | `removeBlock` leaves the tables as `RemoveResult`: Bedrock is never removed; torches, instanced cells, building and tree meshes delete the cell's occupancy and type; when the cell was its column's recorded top, the column takes the rescan's value, -1 included |
| Editor.RemoveBlockEffect | T3/execution_part3.js:1048-1146 | Bedrock leaves everything as it was; otherwise the cell is gone from occupancy and types, no other cell changes, loaded chunks do not change, and only the cell's own column height can change, and only when it was the top |
| Editor.RemoveEmptiesToMinusOne | T3/execution_part3.js:1093-1099 | removing the only block of a column (a Stone block at y = 0) stores height -1, breaking "height = one above the highest block"; such a column is not shown to arise from generated terrain |
| Editor.RemoveFixedKeepsTop | T3/execution_part3.js:1093-1099 | with a rescan that stores max(result, 0), removal keeps the column invariant of the removed cell's column |
| Editor.SwapRemove | T3/execution_part3.js:1081-1088 | the batch shrinks by one, the freed slot receives the last instance and every other slot keeps its own |
| Editor.SwapRemoveContents | T3/execution_part3.js:1081-1088 | the batch afterwards holds exactly its old instances less the removed one |
| Editor.InstanceBatch.RemoveAt | T3/execution_part3.js:1081-1088 | in place on the transform buffer: the live prefix becomes `SwapRemove` of the old one, and the buffer itself is kept |
| Editor.InstanceBatch.constructor | T3/execution_part3.js:774-775 | a batch holds the given instances in order |
| Trees.TreeBlock | T3/scripts/trees.js:106-108 | the recorded type is Leaves exactly for file types Leaves (4) and 5; every other file type is kept as it is |
| Trees.MinY | T3/scripts/trees.js:45 | the least y among the tree's voxels: no voxel is lower, and some voxel has it |
| Trees.MaxY | T3/scripts/trees.js:147 | the greatest y among the tree's voxels: no voxel is higher, and some voxel has it |
| Trees.HasGroundContact | T3/scripts/trees.js:33-44 | the 3 × 3 scan answers whether some cell of the square around (baseX, baseZ) at height baseY - 1 is occupied |
| Trees.CanPlaceTree | T3/scripts/trees.js:32-52 | `canPlaceTree` answers ground contact and, for every voxel, that (baseX + x, baseY + y - minY, baseZ + z) is free |
| Trees.LowestTrunk | T3/scripts/trees.js:75-86 | the index found is -1 or that of a Trunk voxel |
| Trees.LowestTrunkIsFirstLowest | T3/scripts/trees.js:75-86 | -1 exactly when no voxel is a Trunk; otherwise the chosen Trunk is the lowest, and the first of the lowest in file order |
| Trees.FindBaseTrunk | T3/scripts/trees.js:81-86 | the scan returns that same index |
| Trees.PlaceVoxelsCells | T3/scripts/trees.js:98-117 | the voxel loop occupies exactly the old cells plus the targets, leaves heights and loaded chunks alone, and keeps the type of every non-target cell |
| Trees.PlaceVoxelsLastWriter | T3/scripts/trees.js:104-110 | a target cell ends with the converted type of the last voxel written to it |
| Trees.AddTree | T3/scripts/trees.js:66-152 | `addTree` returns whether `AddTreeResult` succeeds and leaves the tables as its result, or unchanged on failure |
| Trees.AddTreeFails | T3/scripts/trees.js:75-79 | `addTree` fails exactly when no voxel has type Trunk |
| Trees.AddTreeCells | T3/scripts/trees.js:81-110 | the lowest Trunk lands on (baseX, baseY, baseZ); the occupied set grows by exactly the shifted voxels; types of other cells are kept |
| Trees.AddTreePlaces | T3/scripts/trees.js:98-117 | occupancy and types afterwards are those of the voxel loop, whatever the meshes do |
| Trees.AddTreeColumn | T3/scripts/trees.js:119-150 | only the anchor column's height changes, to top + 1 when it was 0 or missing and to max(old, top + 1) otherwise; no voxel lies above top; at most the anchor's chunk joins the loaded set |
| Trees.AddClassicTree | T2/execution_part2.js:610-661 | the earlier `addTree` returns whether `ClassicAddTreeResult` succeeds and leaves the tables as its result |
| Trees.ClassicAddTreeEffect | T2/execution_part2.js:610-661 | it fails exactly when no voxel is a Trunk; on success it adds exactly the cells of voxels of type 3, 4 or 6, anchored at the column's height, and changes neither types, heights nor loaded chunks |
| Trees.TreesFromEffect | T3/scripts/trees.js:190-214 | the attempt loop places at most 50 trees; every tree stands on a cell claimed during the loop; no cell gets two trees, so the planted set grows by exactly the number placed; no claim is withdrawn |
| Trees.PlantedStep | T3/scripts/trees.js:198-211 | one attempt followed by the rest of the loop keeps the planted-versus-claimed bookkeeping |
| Trees.TreeAttemptEffect | T3/scripts/trees.js:193-213 | one attempt claims its cell; it plants there, counting one more tree, only when the cell was not claimed before |
| Trees.TryTree | T3/scripts/trees.js:193-213 | one pass of the loop body in place on the world and both cell sets, as `TreeAttempt` |
| Trees.LoadTrees | T3/scripts/trees.js:169-215 | the loop leaves the world, the claimed and planted sets and the count as `TreesFrom` |
| Trees.TryClassicTree | T2/execution_part2.js:561-591 | one pass of the earlier loop body, as `TreeAttempt` under the earlier rules, with one shared cell set |
| Trees.LoadClassicTrees | T2/execution_part2.js:546-592 | the earlier loop leaves the world, the cell set and the count as `TreesFrom` under the earlier rules |
| Trees.CheckedCellsAreTargets | T3/scripts/trees.js:45-102 | the cells `canPlaceTree` checks are the cells `addTree` writes when the lowest Trunk sits at x = z = 0 with y = minY |
| Trees.CheckedCellsMissTarget | T3/scripts/trees.js:45-102 | a one-voxel tree with its Trunk at x = 1 passes the check while `addTree` then writes an occupied cell |
| Trees.FixedCheckProtectsCells | T3/scripts/trees.js:45-102 | a check that uses `addTree`'s own trunk-relative offsets guarantees that every written cell was free |
| Buildings.Count | T3/scripts/buildings.js:21-22 | a loop `for (v = a; v < a + n; v++)` makes n passes, none when n is not positive |
| Buildings.IntegerTerrainHeight | T3/scripts/buildings.js:468-471 | the module's `getTerrainHeight` at integer coordinates reads that column, 0 when it is missing |
| Buildings.RectMinIsLeast | T3/scripts/buildings.js:19-30 | `getMinSurfaceHeight` yields `Infinity` exactly for an empty rectangle, and otherwise a column height of the rectangle that no column of it is below |
| Buildings.MinSurfaceHeight | T3/scripts/buildings.js:19-30 | the two nested loops compute that minimum |
| Buildings.RectMaxIsGreatest | T3/scripts/buildings.js:33-44 | `getMaxSurfaceHeight` is never below 0, no column of the rectangle is above it, and it is 0 or one of their heights |
| Buildings.MaxSurfaceHeight | T3/scripts/buildings.js:33-44 | the two nested loops compute that maximum |
| Buildings.ClearColumnEffect | T3/scripts/buildings.js:66-76 | the y loop deletes exactly the occupied cells of the column with fill < y ≤ fill + n, with their types, saving the Water ones |
| Buildings.ClearStripEffect | T3/scripts/buildings.js:64-77 | the z loop deletes exactly the occupied cells of its row of columns above fill and at or below each column's height |
| Buildings.ClearAreaEffect | T3/scripts/buildings.js:62-78 | step 1 deletes exactly the occupied footprint cells above fill and at or below their column height, with their types; it saves exactly the Water ones among them; heights and loaded chunks do not change |
| Buildings.ClearColumnCells | T3/scripts/buildings.js:66-76 | the y loop in place, as `ClearColumn` |
| Buildings.ClearStripCells | T3/scripts/buildings.js:64-77 | the z loop in place, as `ClearStrip` |
| Buildings.ClearFootprint | T3/scripts/buildings.js:62-78 | step 1 in place, as `ClearArea`, returning the saved Water cells |
| Buildings.FillCellEffect | T3/scripts/buildings.js:84-91 | one column of step 2: its cell at y = fill is occupied afterwards, its height becomes max(old, fill + 1), and only that cell can be written, as Dirt |
| Buildings.FillStripEffect | T3/scripts/buildings.js:83-92 | one row of step 2 has that effect on each of its columns |
| Buildings.FillAreaEffect | T3/scripts/buildings.js:81-93 | step 2: every footprint cell at y = fill is occupied; every footprint column becomes max(old, fill + 1), so none is lowered; other columns keep their heights; only footprint cells at y = fill are written, each as Dirt and queued |
| Buildings.FillStripCells | T3/scripts/buildings.js:83-92 | the z loop of step 2 in place, as `FillStrip` |
| Buildings.FillFootprint | T3/scripts/buildings.js:81-93 | step 2 in place, as `FillArea`, returning the queued cells |
| Buildings.WriteStairEffect | T3/scripts/buildings.js:106-110 | one staircase cell is written as Dirt and queued exactly when it is empty and passes `currentHeight >= (minTerrainHeightAround \|\| 0)` |
| Buildings.XSideEffect | T3/scripts/buildings.js:104-117 | the x loop of a ring writes exactly the empty admitted cells of the north and south sides |
| Buildings.ZSideEffect | T3/scripts/buildings.js:118-131 | the z loop of a ring writes exactly the empty admitted cells of the west and east sides |
| Buildings.RingCellsMembers | T3/scripts/buildings.js:100-131 | ring `step` visits exactly the cells at offset `step` beside the four sides of the footprint, corners excluded, at height fill - step + 1 |
| Buildings.RingEffect | T3/scripts/buildings.js:100-131 | a ring writes exactly its empty admitted cells as Dirt and changes no height |
| Buildings.StairCellsMembers | T3/scripts/buildings.js:99-132 | rings 1 .. n visit exactly the ring cells of those steps, each at height fill - step + 1 |
| Buildings.StairsOutsideFootprint | T3/scripts/buildings.js:104-131 | no staircase cell lies in a footprint column |
| Buildings.StairsEffect | T3/scripts/buildings.js:99-132 | step 3 writes exactly the empty admitted staircase cells as Dirt and queues them; no height and no loaded chunk changes |
| Buildings.StairsNotBelowZero | T3/scripts/buildings.js:97-101 | the rings run stop at `maxSteps` and at the first negative height, so every staircase cell is at 0 ≤ y ≤ fill |
| Buildings.StairCell | T3/scripts/buildings.js:106-110 | one staircase cell in place, as `WriteStair` |
| Buildings.StairXSideCells | T3/scripts/buildings.js:104-117 | the x loop of a ring in place, as `XSide` |
| Buildings.StairZSideCells | T3/scripts/buildings.js:118-131 | the z loop of a ring in place, as `ZSide` |
| Buildings.BuildStairs | T3/scripts/buildings.js:96-132 | the step loop in place, with its `break` at a negative height, as `Stairs` over `StepsRun` rings |
| Buildings.ForceTerrainFlat | T3/scripts/buildings.js:46-193 | `forceTerrainFlat` in place returns and leaves the tables as `Flatten` |
| Buildings.FlattenColumn | T3/scripts/buildings.js:82-93 | every footprint column ends at max(old, fill + 1) with its cell at y = fill occupied, whatever the return value; every other column keeps its height |
| Buildings.FlattenDoomed | T3/scripts/buildings.js:62-185 | a cell step 1 deletes stays deleted, unless it was Water, the call succeeds and the Water mesh is made, in which case it is back as Water |
| Buildings.FlattenKeeps | T3/scripts/buildings.js:46-193 | a cell outside what the three steps touch keeps its occupancy and type |
| Buildings.FlattenFinal | T3/scripts/buildings.js:135-192 | the success branch changes no cell but the saved Water ones |
| Buildings.StairsAt | T3/scripts/buildings.js:99-132 | after step 3 a staircase cell is occupied exactly when it was or when it is admitted, and an empty admitted one is Dirt |
| Buildings.FlattenStairs | T3/scripts/buildings.js:99-192 | the same holds of the final tables, on either return |
| Buildings.FlattenSucceeds | T3/scripts/buildings.js:84-189 | with the Dirt mesh made, the call returns true as soon as one footprint cell at y = fill was empty |
| Buildings.FlattenOutcome | T3/scripts/buildings.js:135-192 | a true return needs the Dirt mesh and loads exactly the chunk of (bx, bz); a false return loads nothing; with no footprint and no staircase it returns false |
| Buildings.CornerOfIsLeast | T3/scripts/buildings.js:358-365 | (minX, minY, minZ) bounds every voxel from below, and each coordinate is attained by some voxel |
| Buildings.MinCorner | T3/scripts/buildings.js:358-365 | the loop computes that corner |
| Buildings.BuildingNormalised | T3/scripts/buildings.js:371-378 | every voxel lands at or beyond the base in each axis, and in each axis some voxel lands on the base |
| Buildings.LastWriter | T3/scripts/buildings.js:371-382 | the index found is -1 or that of one of the voxels written so far |
| Buildings.LastWriterIsLast | T3/scripts/buildings.js:371-382 | the last writer of a cell lands on it and no later voxel does |
| Buildings.BuildingTypesAt | T3/scripts/buildings.js:380-382 | a cell is written exactly when some voxel lands on it; it then holds the last such voxel's type; other cells keep theirs |
| Buildings.BuildingChunksMembers | T3/scripts/buildings.js:384-425 | the gathered chunks are exactly those holding a voxel of the right kind, torch or not |
| Buildings.AddBuildingAt | T3/scripts/buildings.js:371-406 | a cell is occupied afterwards when it was or when a voxel lands on it, then with the type of the last such voxel; other cells keep their type; no height changes |
| Buildings.WriteBuildingVoxels | T3/scripts/buildings.js:371-417 | the voxel loop adds exactly the building's cells with their types, and gathers the non-torch chunks and the torch positions |
| Buildings.LoadTorchChunks | T3/scripts/buildings.js:420-425 | the torches' chunks are loaded when the torch model is ready, and nothing else changes |
| Buildings.AddBuilding | T3/scripts/buildings.js:341-465 | `addBuilding` returns false and changes nothing for an empty voxel list; otherwise it returns true with the tables as `AddBuildingResult` |
| Placement.PickIndex | T3/scripts/buildings.js:250 | `Math.floor(Math.random() * n)` is an index of the pool |
| Placement.AreaFree | T3/scripts/buildings.js:267-277 | the area test is true exactly when the grown rectangle [rx - 1, rx + w + 1) × [rz - 1, rz + d + 1) holds no tree cell and no registered building cell |
| Placement.RegisterHalo | T3/scripts/buildings.js:315-319 | registering adds exactly the grown rectangle to `buildingPositions` |
| Placement.SeparatedPairwise | T3/scripts/buildings.js:267-319 | placed buildings have pairwise disjoint grown rectangles, none touching a tree or a cell registered before the loop |
| Placement.BuildingAttemptEffect | T3/scripts/buildings.js:249-331 | one attempt keeps the separation invariant, moves to the next quadrant, and either changes no count or adds one building and takes exactly its definition out of the pool |
| Placement.BuildingsFromEffect | T3/scripts/buildings.js:249-331 | the loop never adds more than needed and every building added took one definition out of the pool |
| Placement.LoadBuildingsEffect | T3/scripts/buildings.js:230-331 | at most min(requested, 2 × definitions) buildings; the pool loses one definition per building; `buildingPositions` gains exactly the grown rectangles; these are pairwise disjoint and touch no tree and no earlier registration |
| Placement.TryBuilding | T3/scripts/buildings.js:250-330 | the loop body in place, as `BuildingAttempt` |
| Placement.SettleBuilding | T3/scripts/buildings.js:285-329 | the flatten-then-add part of the loop body in place, as `Settle` |
| Placement.LoadBuildings | T3/scripts/buildings.js:230-331 | the placement loop in place leaves the world, `buildingPositions` and the count as `LoadBuildingsResult` |
| Original.StackHeight | T1/execution.js:9-18 | an entry stacks between 1 and 5 voxels, and exactly 1 for type 2 and for every type the table does not list, and more than 1 for types 0, 1 and 3 .. 7 (the table is read at line 155) |
| Original.VoxelMap.constructor | T1/execution.js:40 | the voxel dictionary starts empty |
| Original.VoxelMap.AddVoxel | T1/execution.js:244-257 | `addVoxel` stores the type at the cell, replacing whatever was there, and changes no other cell |
| Original.VoxelMap.TerrainHeight | T1/execution.js:231-241 | `getTerrainHeight` is between 0 and 35; it is 0 exactly when the column has no voxel at heights 0 .. 34; otherwise the cell below it holds a voxel and no voxel lies from it up to 34 |
| Original.StackAt | T1/execution.js:157-159 | a stack of height k writes exactly the cells y .. y + k - 1 of its column, all with its type, and keeps every other cell |
| Original.LoadMapAt | T1/execution.js:152-160 | after loading, a cell covered by some entry's stack holds the type of the last entry covering it, and no later entry covers it; an uncovered cell is as before |
| Original.LoadVoxelMap | T1/execution.js:152-160 | the two loops leave the dictionary as `LoadMap` of the whole file |
| Original.TreePositions | T1/execution.js:198-217 | two positions for each of the three tree files and none for any other index, all within the 35 × 35 map |
| Original.PlantTreeAt | T1/execution.js:220-228 | each tree voxel goes to (baseX + x, y, baseZ + z), with y taken as it is; a cell holds the type of the last voxel planted there and other cells keep theirs |
| Original.AddTree | T1/execution.js:220-228 | the loop leaves the dictionary as `PlantTree` of the whole tree |
| Original.PlantAllIgnoresExtraFiles | T1/execution.js:181-216 | tree files after the third are planted nowhere |
| Original.LoadAllTrees | T1/execution.js:179-189 | the two loops leave the dictionary as `PlantAll` of every file |
| Builder.SnapToGrid | T3/builder_part3.js:32-39 | the snapped value is within half a unit of the input, and on the integer grid (x, z) or the half-integer grid (y) |
| Builder.SnapFixesGrid | T3/builder_part3.js:32-39 | a value already on its grid is unchanged, so snapping twice is snapping once |
| Builder.CursorAfter | T3/builder_part3.js:251-327 | after a handled key the cursor lies in x, z ∈ [-17, 17] and y ∈ [0.5, 18], on the grid except for y = 18 |
| Builder.CursorLeavesGrid | T3/builder_part3.js:270-322 | PageUp from the grid level 17.5 gives y = 18, which is off the half-integer grid |
| Builder.CursorAfterFixed | T3/builder_part3.js:251-327 | with the y bound 17.5 the cursor always stays on the grid and in bounds |
| Builder.PageKeysStepOneLevel | T3/builder_part3.js:270-327 | with the y bound 17.5, PageUp and PageDown move an on-grid cursor by exactly one level while the target is in bounds |
| Builder.ActionKeysKeepCursor | T3/builder_part3.js:278-327 | the add, remove and cycle keys leave a reachable cursor where it is |
| Builder.Placed | T3/builder_part3.js:334-359 | `addVoxel` adds exactly the cursor cell when it is empty and the type has a material, and never changes an existing entry |
| Builder.Removed | T3/builder_part3.js:362-372 | `removeVoxel` deletes the cursor cell when present and keeps every other entry |
| Builder.RemoveUndoesPlace | T3/builder_part3.js:334-372 | removing a freshly added voxel restores the dictionary, and adding again on a filled cell is a no-op |
| Builder.IndexOf | T3/builder_part3.js:377 | `indexOf` returns the first index holding the value, or -1 when none does |
| Builder.IndexOfRanked | T3/builder_part3.js:376-377 | in a list without repeats, `indexOf` of the element at i is i |
| Builder.Next | T3/builder_part3.js:377-379 | the next type is a listed type, and the first one when the current type is not listed |
| Builder.CycleWalksList | T3/builder_part3.js:375-379 | pressing H n times from type 0 walks the list in order and wraps back to its first type after 12 presses |
| Builder.CycleStep | T3/builder_part3.js:376-379 | each listed type moves to its successor in the list, the last one to the first |
| Builder.CycleReachesUnplaceable | T3/builder_part3.js:374-378 | the cycle reaches type 9 after type 5; 9 has no material, so adding a voxel of type 9 leaves the dictionary unchanged (materials at lines 141-173, read at 344-346) |
| Builder.NextTypeFixed | T3/builder_part3.js:376-379 | the cycle without 9 only selects types that have a material |
| Builder.CycleFixedPlaceable | T3/builder_part3.js:334-379 | with that cycle, adding a voxel at an empty cursor always stores it |
| Builder.TrimStart | T3/builder_part3.js:393 | the result is a suffix of the input, every removed leading character is white space, and the result starts with none |
| Builder.TrimEnd | T3/builder_part3.js:393 | the result is a prefix of the input, every removed trailing character is white space, and the result ends with none |
| Builder.Trim | T3/builder_part3.js:393 | the result is a slice of the input with only white space before and after it, and it neither starts nor ends with white space |
| Builder.TrimUnique | T3/builder_part3.js:393 | any slice of the input with only white space around it and none at its own ends is the trimmed string, so the trim is uniquely determined |
| Builder.TrimmedIsFixed | T3/builder_part3.js:393 | trimming a trimmed string changes nothing |
| Builder.SaveName | T3/builder_part3.js:393-440 | saving aborts exactly when the trimmed name is empty; otherwise the file name ends in `.json` and is the trimmed name itself or the trimmed name plus `.json`, and it is the trimmed name itself whenever that already ends in `.json` |
| Builder.SaveNameIdempotent | T3/builder_part3.js:393-440 | a file name produced by the rule maps to itself: `.json` is not appended twice |
| Builder.FirstInvalid | T3/builder_part3.js:470-478 | the load stops at the first entry with a non-numeric field or a type without a material; every entry before it is valid |
| Builder.LoadItemsAt | T3/builder_part3.js:470-498 | after the first n entries a cell holds a voxel exactly when some entry names it, and then the type of the last entry naming it |
| Builder.LoadItemsPlaceable | T3/builder_part3.js:476-478 | every loaded voxel has a type with a material |
| Builder.LoadAfterSave | T3/builder_part3.js:399-498 | loading the entries that saving lists for the dictionary gives back exactly that dictionary, whatever was loaded before |
| Builder.Editor.constructor | T3/builder_part3.js:15-19 | the editor starts with no voxel, the cursor at (0, 0.5, 0) and type 0 selected (cursor start at line 100) |
| Builder.Editor.AddVoxel | T3/builder_part3.js:334-359 | the dictionary becomes `Placed` of the cursor and the selected type; cursor and selection stay; the cursor invariant is kept |
| Builder.Editor.RemoveVoxel | T3/builder_part3.js:362-372 | the dictionary becomes `Removed` at the cursor; cursor and selection stay |
| Builder.Editor.CycleBlockType | T3/builder_part3.js:375-379 | the selection moves to `NextType` of the old one; voxels and cursor stay |
| Builder.Editor.HandleKey | T3/builder_part3.js:234-331 | Q, E and H act on the dictionary or selection; any handled key then moves, snaps and clamps the cursor, except an unknown key and a Q that fails for lack of a material, which leave it; the cursor invariant is kept |
| Builder.Editor.SaveModel | T3/builder_part3.js:392-442 | the file name follows `SaveName`; nothing is listed when it aborts; otherwise every entry is a valid item naming a stored voxel, and the list holds exactly the dictionary's entries |
| Builder.Editor.LoadModel | T3/builder_part3.js:445-508 | the dictionary becomes `LoadModelResult`: unchanged without a file or with unparseable text, unchanged for a non-array, otherwise cleared and refilled with the entries before the first invalid one |

## Left out

- Rendering is not modelled. This covers instanced and plain meshes, `chunkMeshes`, mesh disposal, materials, textures, shadows, the highlight box, raycasting and the torch scene objects. Whether a mesh could be created is a boolean input; the scene's children, as the eviction pass sees them, are an input: each with its chunk key, if any, and whether it is an instanced mesh.
- The noise generator is not part of this model. Each column's noise value is an input, and the height is taken as `floor(noise × amplitude) + 1`, capped at 30.
- Random draws (`Math.random`) are inputs: one draw per attempt, indexed by the attempt number.
- Fetching tree, building and map files, `FileReader`, Blob downloads and JSON parsing are left out. Loaded files are inputs. The editor's parse result is one of the `ModelFile` cases.
- Frame scheduling is not modelled: `requestAnimationFrame`, `setTimeout` and `async` yielding. The full-map sweep is one loop over its frames.
- Progress bars, loading screens, sounds, alerts, console messages, the DOM, sliders and the editor's height indicator line are left out.
- Keyboard and mouse listeners are left out, and so are the mouse clicks that pick the editor's selected type.
- The camera is an input. In the game it gives the movement intent; in the editor it gives the forward vector (fx, fz).
- Positions and velocities are exact reals, not IEEE doubles.
- The voxel coordinates of tree and building files are integers. Their `Math.floor` is therefore the identity.
- `loadAllBuildingsWithProgress` looks up building sizes through `availableBuildingFiles`. That list is not filtered along with the loaded data, so after a failed fetch the file names and definitions go out of step. The model pairs each definition with its own size instead.
- The minimum surface height computed in the building loop is only logged and is not modelled.
- In `addBuilding`, the column-height update behind `!occupiedBlocks.has(key)` cannot run, because the key has just been added. The model therefore changes no height; `Buildings.AddBuildingAt` states this.
- The editor's save-side type lookup compares three.js material identity. The model lists each voxel with its stored type code, and the order of saved entries is not modelled.
- The editor's `trim` is modelled for space, tab, line feed, vertical tab, form feed and carriage return only, not for the other Unicode white space and line terminators JavaScript removes (such as no-break space and the line separators).
- The T1 voxel meshes and their colours are left out; the dictionary holds the type code.
- Both T1 tree and map loaders are modelled from the point where the parsed file is available; a failed fetch leaves the dictionary unchanged and is not modelled separately.
- The start-up guards `if (!model) return` of `handleMovement` (T3/execution_part3.js:1330, T2/execution_part2.js:1099) and `if (!scene)` of `generateChunk` (T3/execution_part3.js:344-347) are not modelled: the model starts from a loaded player model and scene.
- The second pass of `updateChunks` (T3/execution_part3.js:520-536) removes far torch objects from the scene and from `chunkMeshes`; torches there are scene objects, not table entries, so it is not modelled.
- Movement.HandleMovement: the intended horizontal velocity is an input. In the program it comes from the keys held, the run multiplier and the camera mode and angle. The model keeps the choice between that intent and damping by 0.8.

## Findings

| source | as written | input that shows it | evidently intended | confidence | as-written member | corrected member |
|---|---|---|---|---|---|---|
| T3/execution_part3.js:1513-1531 | the batch loop of the full-map sweep never wraps `cz`, so the next frame's first call generates (cx, 22) for every cx | any run of the sweep: 43 × 44 chunks, including the row cz = 22 beyond the plane's edge | the 43 × 43 square of `totalChunks` | high, not executed | Streaming.LoadEntireMap, Streaming.SweepCovers | Streaming.LoadEntireMapSquare, Streaming.SquareCovers |
| T3/execution_part3.js:506-517 | `forEach` walks `scene.children` while `scene.remove` splices it, so the child right after each removed one is never visited | scene children [a mesh of far chunk (5, 0), the only mesh of far chunk (6, 0)]: (5, 0) is dropped, (6, 0) stays loaded and its mesh stays in the scene until a later call | every far chunk mesh is removed and its key dropped | medium, not executed | Streaming.EvictFar, Streaming.EvictSkipsNext | Streaming.EvictAllFar, Streaming.AllEvictedMembers |
| T3/execution_part3.js:1093-1099 | `newHeight \|\| 0` keeps -1, because -1 is truthy | removing the only block of column (0, 0), a Stone block at y = 0; not shown reachable in play, since generated columns keep Bedrock (never removed, lines 1052-1055) or Water (never highlighted, lines 1000-1003) at y = 0 | a column with no blocks gets height 0 | low, not executed; reachability unshown | Editor.RemoveResult, Editor.RemoveEmptiesToMinusOne | Editor.RemoveResultFixed, Editor.RemoveFixedKeepsTop |
| T3/scripts/trees.js:45-51, 100-102 | `canPlaceTree` checks raw offsets from the base, while `addTree` writes trunk-relative offsets | a one-voxel tree whose Trunk is at x = 1, with (0, 1, 0) occupied: the check passes and `addTree` writes (0, 1, 0) | the check covers the cells `addTree` writes | medium, not executed | Trees.CanPlace, Trees.CheckedCellsMissTarget | Trees.CanPlaceFixed, Trees.FixedCheckProtectsCells |
| T3/builder_part3.js:318-322 | the cursor's y is clamped to `halfPlane + voxelSize / 2` = 18, which is off the half-integer grid | PageUp with the cursor at y = 17.5 | the top grid level 17.5 | medium, not executed | Builder.CursorAfter, Builder.CursorLeavesGrid | Builder.CursorAfterFixed, Builder.PageKeysStepOneLevel |
| T3/builder_part3.js:376 | the cycle list includes type 9, which has no material, so `addVoxel` throws on `blockMaterials[9].clone()` | pressing H seven times from type 0, then Q | only types with a material are selectable | medium, not executed | Builder.NextType, Builder.CycleReachesUnplaceable | Builder.NextTypeFixed, Builder.CycleFixedPlaceable |
