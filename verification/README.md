# Tile-world terrain: chunk store, chunks and the tile-map mesh builder

This project models the terrain core of a 2-D tile world. Its parts:

- **Chunk store** (`ChunkHandling.ChunkHandler`). It holds the generated chunks in a list searched linearly, plus a queue of chunk coordinates waiting to be meshed again. Each tick it:
  - drains the remesh queue;
  - generates every missing chunk of the 5 × 5 square around the player's chunk;
  - once the player has moved more than half a chunk, evicts the chunks whose anchor is more than 48 world units away.
- **Chunk** (`Chunks.Chunk`). It holds a 16 × 16 grid of tile types (`array2<nat>`), its chunk coordinate and its own mesh builder.
- **Tile-map mesh builder** (`Meshing.ChunkTileMapBuilder`). It is an append-only accumulator of unit quads. Each tile adds:
  - four vertices, four normals and four texture coordinates;
  - six triangle indices, shifted past the vertices of the earlier quads;
  - its texture, taken from the cell of an 8 × 8 texture atlas indexed by the tile type.

The imperative parts stay imperative. The builder, the chunk and the store are classes whose methods update their fields. Every loop of the modelled builder, chunk and store code is a `while` or `for` loop with invariants. Each class is tied to a pure specification:

- The builder has a ghost list of the `add_tile` calls since it was last cleared. `Valid()` says its buffers are `MeshOf(faces)`.
- A chunk's grid is read as the value `Blocks()`. Meshing it adds `GridFaces(Blocks())` to its builder.
- The store's effects are stated with these spec functions:
  - the generation pass by `Missing(GenerationOrder(center), have)`;
  - the remesh drain by `Repeat`, `Occurrences` and `Respawned`;
  - eviction by `Retained` and `Near`.

The properties of these spec functions are proved as lemmas.

Files:

- `dimensions.dfy`: the shared constants.
- `seqs.dfy`: generic sequence lemmas.
- `meshing.dfy`: the builder.
- `chunk.dfy`: the chunk.
- `chunk_handler.dfy`: the store and its streaming rules.

### Where the code does something other than one would expect (the model follows the code)

- **Duplicate remesh requests.** One would expect duplicate requests for a chunk to collapse into one rebuild. The code loops over the queue as it is, so a coordinate queued twice is meshed twice (`QueuedTwiceMeshedTwice`). Each match also despawns the old entity and spawns a new one. So a coordinate queued twice leaves its chunk with two entities on screen (`DuplicateRequestDoublesEntities`), and every later request for it meshes the chunk once per entity (`RespawnedCount`, `RemeshQueued`).
- **No clear before a remesh.** One would expect a remesh to clear the builder and rebuild it. The remesh path calls `generate_mesh` without `clear_builder`. The chunk's builder therefore keeps its old quads and gains 256 more for each remesh (`RemeshedSizes`).
- **Remesh of an absent coordinate.** One would expect a request for a coordinate that is not stored to fail loudly. The code looks among the chunk entities on screen. A queued coordinate with no entity is skipped silently (`RemeshEntities`).
- **Eviction distance.** One would expect the distance to be measured on the ground plane. The code takes the squared 3-D distance from the player's transform to the anchor, which sits at height 0. The controller puts the player's transform at height 1 (src/player/control.rs:39). A chunk exactly 48 units away on the ground is therefore kept only at height 0 (`HeightCounts`). The boundary case, exactly at the threshold distance, is kept (`BoundaryKept`).
- **Corners of the square.** One would expect every chunk the generation pass makes to be within eviction range. The corners of the 5 × 5 square need not be: a player at (15.5, 15.5), at height 1, stands in chunk (0, 0), yet chunk (−2, −2) is beyond 48 units (`CornerOutOfRange`). Every eligible eviction pass drops it and the next generation pass makes it again.
- **Foliage.** One would expect a chunk to carry a foliage grid. `Chunk` has none, so the foliage loop of `spawn_chunk` refers to a field that does not exist.

### Modelling choices

- **Vertex positions.** They are `int`. Every offset a chunk passes is a whole multiple of `TILE_SIZE = 1`, so f32 holds them exactly.
- **Texture coordinates.** They are `int`, counted in atlas cells. The value the renderer receives is that count divided by `TEXTURE_DIMENSION = 8`. Whole eighths are exact in f32.
- **Tile-type division.** `AtlasRow` takes the floor of the real quotient, as the source does. `AtlasCellOf` proves that this is integer division.
- **World positions.** They are `real`; chunk coordinates are `int` pairs (`Coord`).
- **Terrain.** Noise sampling and the biome and tile draws are folded into a total function `Terrain(coordinate, x, y)`. `Chunk`'s constructor receives it per chunk, as a `TileSelector`.
- **Entity queries.** The chunk entities on screen are the store's field `entities`: the `ChunkCoordinate` of each, in query order. A chunk can have several. `Presented()` says that a coordinate is on screen exactly when it is stored. The remesh pass and `remove_chunks` scan `entities` as it stood when the system started, since their despawns and spawns are deferred commands. The model applies each system's commands when that system ends (`Respawned`, `Near`); the engine applies them later, at the end of the stage (see "## Left out"). Spawns during the generation pass append one entity per new chunk.
- **Lookups that panic.** `get_chunk` panics on an absent coordinate, and array indexing panics out of range. Both are preconditions.

## Model

| member | source | states |
|---|---|---|
| Meshing.QuadIndices | src/terrain/meshing.rs:50-56 | the six indices of face k all name one of face k's own four vertices, 4k to 4k+3 |
| Meshing.QuadVertices | src/terrain/meshing.rs:42-46 | four corners, all at z = 0 inside the unit cell at the offset, with bl and tr apart and tl and br apart |
| Meshing.AtlasRow | src/terrain/meshing.rs:62 | the row r of the tile type in the 8-wide atlas: 8r ≤ tileType < 8(r + 1) |
| Meshing.AtlasColumn | src/terrain/meshing.rs:63 | the column lies in [0, 8) |
| Meshing.QuadUvs | src/terrain/meshing.rs:66-72 | four texture coordinates, each a corner of the tile type's atlas cell |
| Meshing.MeshOf | src/terrain/meshing.rs:41-77 | the buffers after the faces are added in order to an empty builder; it has no contract of its own, and the lemmas below (MeshOfSnoc, MeshSizes, IndexAt, VertexAt, UvAt, NormalsUp) state what it holds |
| Meshing.MeshOfSnoc | src/terrain/meshing.rs:41-77 | one more add_tile extends each of the four buffers by exactly that face's quad and leaves the earlier entries as they were |
| Meshing.MeshStep | src/terrain/meshing.rs:41-77 | buffers holding the mesh of some faces, each extended by one face's quad, hold the mesh of the longer face list |
| Meshing.AtlasCellOf | src/terrain/meshing.rs:62-63 | the float floor of tileType/8 is the integer quotient, and 8·row + col gives the tile type back |
| Meshing.QuadUvsInAtlas | src/terrain/meshing.rs:62-74 | a tile type below TEXTURES (64) gets four texture coordinates inside [0, 1] on both axes |
| Meshing.MeshSizes | src/terrain/meshing.rs:48-76 | after n add_tile calls the vertex, normal and uv buffers hold 4n entries and the index buffer 6n |
| Meshing.IndexAt | src/terrain/meshing.rs:50-56 | index j of face k is 4k plus entry j of the pattern [1, 0, 2, 1, 2, 3] |
| Meshing.IndicesBelowVertexCount | src/terrain/meshing.rs:50-56 | every stored index is below the number of stored vertices |
| Meshing.VertexAt | src/terrain/meshing.rs:42-48 | vertices 4k..4k+3 are the corners bl, tl, br, tr of the unit quad at face k's offset, at z = 0 |
| Meshing.UvAt | src/terrain/meshing.rs:62-74 | texture coordinates 4k..4k+3 are those of face k's atlas cell, bottom corners on the lower edge |
| Meshing.NormalsUp | src/terrain/meshing.rs:58-60 | every normal is (0, 0, 1) |
| Meshing.UvsInAtlas | src/terrain/meshing.rs:62-74 | when every tile type is below 64, every texture coordinate of the mesh lies in the atlas |
| Meshing.AppendOnly | src/terrain/meshing.rs:48-74 | adding faces only appends: each earlier buffer is a prefix of the same buffer afterwards |
| Meshing.WellFormed | src/terrain/meshing.rs:41-77 | after n add_tile calls the mesh holds 4n vertices, normals and uvs and 6n indices, each naming a stored vertex |
| Meshing.ChunkTileMapBuilder.constructor | src/terrain/meshing.rs:19-21 | the default builder has empty buffers, a zero face count and no faces |
| Meshing.ChunkTileMapBuilder.Clear | src/terrain/meshing.rs:23-31 | whatever the builder held, all four buffers are empty and the face count is 0 afterwards (so clearing twice is clearing once) |
| Meshing.ChunkTileMapBuilder.AddTile | src/terrain/meshing.rs:41-77 | records one face; extends vertices by the quad's corners, indices by QuadIndices(old face count), normals by four (0,0,1), uvs by the atlas cell's corners; increments the face count; the buffers stay MeshOf(faces) |
| Meshing.ChunkTileMapBuilder.PushNormals | src/terrain/meshing.rs:58-60 | the loop pushes exactly four (0, 0, 1) normals and touches no other buffer |
| Meshing.ChunkTileMapBuilder.ShiftIndices | src/terrain/meshing.rs:50-56 | the in-place loop turns the pattern array into the indices of face number faceCount |
| Meshing.ChunkTileMapBuilder.Build | src/terrain/meshing.rs:80-89 | returns the current buffers as the mesh of the faces added so far and changes nothing |
| Chunks.WithCell | src/terrain/chunk.rs:54-61 | the grid with cell (x, y) set to b and every other cell as before |
| Chunks.GridFaces | src/terrain/chunk.rs:66-71 | 256 faces, every offset inside the chunk's 16 × 16 span |
| Chunks.GridFaceAt | src/terrain/chunk.rs:66-71 | face 16x + y of a grid's meshing is the tile of cell (x, y) at offset (x, y) |
| Chunks.GridFacesStep | src/terrain/chunk.rs:67-71 | within column x, the faces up to cell y + 1 are those up to y followed by cell (x, y) |
| Chunks.GridColumnsStep | src/terrain/chunk.rs:66-72 | the faces of the columns up to x + 1 are those up to x followed by column x |
| Chunks.GridMeshSizes | src/terrain/chunk.rs:63-77 | meshing a grid after earlier faces adds 1024 vertices, normals and uvs and 1536 indices |
| Chunks.GridMeshAt | src/terrain/chunk.rs:66-71 | after a grid is added to earlier faces, face old + 16x + y has the corners of the quad at (x, y) and the texture of blocks[x][y] |
| Chunks.FreshGridMesh | src/terrain/chunk.rs:63-83 | meshing from a cleared builder yields 1024 vertices and 1536 indices, all below 1024 |
| Chunks.GridUvsInAtlas | src/terrain/chunk.rs:63-77 | a grid of textured tile types meshes to texture coordinates inside the atlas |
| Chunks.Chunk.Blocks | src/terrain/chunk.rs:15 | the block array read as a 16 × 16 grid |
| Chunks.Chunk.constructor | src/terrain/chunk.rs:26-51 | every cell (x, y) holds the selector's tile type, the coordinate is the one given, the builder is new and empty |
| Chunks.Chunk.SetBlock | src/terrain/chunk.rs:54-61 | only cell (x, y) changes, to the new block; coordinate and builder untouched |
| Chunks.Chunk.GenerateMesh | src/terrain/chunk.rs:63-77 | without clearing, appends the 256 faces of the grid, x outer and y inner, to the builder; returns the builder's whole mesh; the grid is untouched |
| Chunks.Chunk.AddColumn | src/terrain/chunk.rs:67-71 | the inner loop appends the 16 faces of column x, y ascending |
| Chunks.Chunk.ClearBuilder | src/terrain/chunk.rs:79-83 | the builder is emptied; the grid is untouched |
| ChunkHandling.ChunkIndex | src/terrain/chunk_handler.rs:62 | a world coordinate lies in the span [16i, 16(i+1)) of the chunk index i it gets |
| ChunkHandling.ChunkOf | src/terrain/chunk_handler.rs:155 | the player's position lies in the square of its chunk on both axes |
| ChunkHandling.LocalIndex | src/terrain/chunk_handler.rs:66-67 | the whole cell offset at or below w − 16·chunk, less than one below it |
| ChunkHandling.LocalIndexInChunk | src/terrain/chunk_handler.rs:66-67 | the local cell index w − 16·chunk lies in [0, 16) |
| ChunkHandling.WholeCoordinateSplit | src/terrain/chunk_handler.rs:62-67 | for a whole coordinate, chunk and cell are floor division and remainder by 16 and recombine to it |
| ChunkHandling.Made | src/terrain/chunk_handler.rs:161-169 | a chunk the generation pass made: its cells are the terrain's and its builder holds exactly one meshing of them; GenerateAt, MakeChunk, GenerateAround and UpdateChunks promise it of every new chunk |
| ChunkHandling.IndexOf | src/terrain/chunk_handler.rs:48-52 | the position of the first chunk with the coordinate |
| ChunkHandling.CoordsOfSnoc | src/terrain/chunk_handler.rs:169 | pushing a chunk appends its coordinate to the store's coordinates |
| ChunkHandling.SeparateSnoc | src/terrain/chunk_handler.rs:160-169 | pushing a chunk with a new coordinate, grid and builder keeps the store's coordinates unique and its objects unshared |
| ChunkHandling.IndexOfStored | src/terrain/chunk_handler.rs:136 | in a store with unique coordinates, looking up a stored chunk's coordinate finds that chunk |
| ChunkHandling.GenerationOrder | src/terrain/chunk_handler.rs:157-159 | 25 visits, each within 2 chunks of the centre on both axes |
| ChunkHandling.ColumnOrder | src/terrain/chunk_handler.rs:158-159 | the five visits of column dx, dy ascending; GenerationOrderColumn and VisitedStep state that the columns in turn make up the pass |
| ChunkHandling.GenerationOrderAt | src/terrain/chunk_handler.rs:157-159 | visit 5(dx+2) + (dy+2) of the pass is the player's chunk moved by (dx, dy) |
| ChunkHandling.GenerationOrderColumn | src/terrain/chunk_handler.rs:157-159 | the pass visits the square column by column, dy ascending |
| ChunkHandling.VisitedEnds | src/terrain/chunk_handler.rs:157 | before the first column nothing is visited; after the last the whole pass is |
| ChunkHandling.VisitedStep | src/terrain/chunk_handler.rs:157-158 | visiting column dx after the earlier ones is a pass over that column from the store the earlier ones left |
| ChunkHandling.GenerationOrderSquare | src/terrain/chunk_handler.rs:157-159 | the pass visits 25 coordinates, each once, exactly those within 2 chunks of the centre on both axes |
| ChunkHandling.MissingSnoc | src/terrain/chunk_handler.rs:160-169 | one more visit appends the coordinate exactly when the store does not hold it yet |
| ChunkHandling.MissingStep | src/terrain/chunk_handler.rs:160-169 | a store that gains a coordinate exactly when it lacked it has gone one visit further through the pass |
| ChunkHandling.MissingConcat | src/terrain/chunk_handler.rs:157-172 | a pass over a + b is a pass over a followed by a pass over b from the store the first one left |
| ChunkHandling.MissingConcatStep | src/terrain/chunk_handler.rs:157-172 | the inductive step of MissingConcat: the split survives one more visit |
| ChunkHandling.MissingPrefixStep | src/terrain/chunk_handler.rs:157-172 | extending the visited prefix by n visits is a pass over those n from the store the shorter prefix left |
| ChunkHandling.Missing | src/terrain/chunk_handler.rs:160-169 | a pass appends at most one coordinate per visit |
| ChunkHandling.MissingCovers | src/terrain/chunk_handler.rs:157-172 | afterwards every visited coordinate is in the store |
| ChunkHandling.MissingFresh | src/terrain/chunk_handler.rs:160-169 | a pass appends only visited coordinates the store lacked, so unique coordinates stay unique |
| ChunkHandling.MissingAll | src/terrain/chunk_handler.rs:160-169 | from a store holding none of them, a pass over distinct coordinates appends all of them in order |
| ChunkHandling.GenerationFromEmpty | src/terrain/chunk_handler.rs:154-173 | from an empty store the pass appends exactly the 25 coordinates of the square, in visiting order |
| ChunkHandling.GenerationPass | src/terrain/chunk_handler.rs:154-173 | the pass appends at most 25 chunks, all 25 from an empty store, and leaves every coordinate of the square present |
| ChunkHandling.Occurrences | src/terrain/chunk_handler.rs:132-149 | how often a coordinate occurs among the queued requests or the entities on screen; it has no contract of its own, and OccurrencesAppend and OccurrencesMember state how counts add up and when they are positive |
| ChunkHandling.Repeat | src/terrain/chunk_handler.rs:132-149 | n copies of a request's faces; it has no contract of its own, and RepeatLength, RepeatAdd and RepeatRepeat state its length and how copies combine |
| ChunkHandling.RepeatLength | src/terrain/chunk_handler.rs:132-149 | n remeshes add n times the grid's faces |
| ChunkHandling.RepeatAdd | src/terrain/chunk_handler.rs:132-149 | a copies of the faces followed by b copies are a + b copies |
| ChunkHandling.RepeatRepeat | src/terrain/chunk_handler.rs:132-149 | k rounds of n copies are k·n copies |
| ChunkHandling.OccurrencesAppend | src/terrain/chunk_handler.rs:132-149 | counts add up over a concatenation |
| ChunkHandling.OccurrencesMember | src/terrain/chunk_handler.rs:132-149 | a coordinate is listed exactly when its count is positive |
| ChunkHandling.Matching | src/terrain/chunk_handler.rs:133-146 | the entities spawned for one queued coordinate, one per on-screen entity at it; MatchingStep and MatchingCount state what it holds |
| ChunkHandling.Spawned | src/terrain/chunk_handler.rs:132-146 | the entities the whole remesh pass spawns, queued coordinate by queued coordinate; SpawnedStep and SpawnedCount state what it holds |
| ChunkHandling.Unqueued | src/terrain/chunk_handler.rs:133-139 | the on-screen entities the remesh pass does not despawn; UnqueuedCount states which |
| ChunkHandling.Respawned | src/terrain/chunk_handler.rs:132-149 | the entities on screen after the remesh pass; RespawnedCount and RespawnedMembers state its counts and coordinates |
| ChunkHandling.MatchingStep | src/terrain/chunk_handler.rs:133-134 | scanning one more entity adds one to the count and one spawn exactly when the entity matches |
| ChunkHandling.MatchingCount | src/terrain/chunk_handler.rs:133-146 | one request spawns one entity per on-screen entity at its coordinate, all at that coordinate |
| ChunkHandling.SpawnedCount | src/terrain/chunk_handler.rs:132-149 | the pass spawns, per coordinate, its queued count times its on-screen count entities |
| ChunkHandling.UnqueuedCount | src/terrain/chunk_handler.rs:132-139 | an on-screen entity survives the despawns exactly when its coordinate is not queued |
| ChunkHandling.RespawnedCount | src/terrain/chunk_handler.rs:132-149 | afterwards a queued coordinate has its on-screen count multiplied by its queued count; any other keeps its count |
| ChunkHandling.RespawnedMembers | src/terrain/chunk_handler.rs:132-149 | the pass neither loses nor invents a coordinate on screen |
| ChunkHandling.SpawnedStep | src/terrain/chunk_handler.rs:132-146 | one more queued coordinate appends the spawns of its matching entities |
| ChunkHandling.RemeshStep | src/terrain/chunk_handler.rs:132-149 | one more queued request for a chunk's coordinate adds one more copy of its grid's faces; other requests add none |
| ChunkHandling.RemeshOnceMore | src/terrain/chunk_handler.rs:136-146 | one more meshing after n meshings of a chunk is n + 1 of them |
| ChunkHandling.RemeshedSizes | src/terrain/chunk_handler.rs:132-149 | a chunk remeshed n times without clearing holds 1024n more vertices and 1536n more indices |
| ChunkHandling.QueuedTwiceMeshedTwice | src/terrain/chunk_handler.rs:132-149 | a coordinate with one entity queued twice is meshed twice: the builder gains 2048 vertices, not 1024 |
| ChunkHandling.DuplicateRequestDoublesEntities | src/terrain/chunk_handler.rs:132-149 | an entity whose coordinate is queued twice becomes two entities, so the next request for it meshes the chunk twice |
| ChunkHandling.FarCoordsStep | src/terrain/chunk_handler.rs:105-111 | scanning one more entity adds its coordinate to the evicted set exactly when it is beyond range |
| ChunkHandling.FarCoords | src/terrain/chunk_handler.rs:103-110 | the coordinates of the scanned entities that are out of range; FarCoordsStep and FarCoordsMembers state which |
| ChunkHandling.DistanceSquared | src/terrain/chunk_handler.rs:106 | the squared distance is never negative |
| ChunkHandling.AxisWithin | src/terrain/chunk_handler.rs:106-108 | a chunk within the threshold has its anchor within 48 units of the player along each ground axis |
| ChunkHandling.Far | src/terrain/chunk_handler.rs:108 | a chunk that is not out of range lies within 48 units along each ground axis |
| ChunkHandling.Retained | src/terrain/chunk_handler.rs:105-111 | eviction never grows the store |
| ChunkHandling.WithoutCoords | src/terrain/chunk_handler.rs:109 | retain never grows the store and keeps no chunk at a removed coordinate |
| ChunkHandling.NearStep | src/terrain/chunk_handler.rs:105-115 | scanning one more entity keeps it on screen exactly when it is in range |
| ChunkHandling.NearMembers | src/terrain/chunk_handler.rs:105-116 | the entities left on screen are exactly the in-range ones |
| ChunkHandling.RetainedCoords | src/terrain/chunk_handler.rs:105-111 | the stored coordinates left are exactly the in-range stored ones |
| ChunkHandling.Near | src/terrain/chunk_handler.rs:105-116 | the entities an eviction pass leaves on screen, in order; NearStep and NearMembers state which |
| ChunkHandling.FarCoordsMembers | src/terrain/chunk_handler.rs:105-111 | a coordinate is in the evicted set exactly when an entity has it and it is beyond range |
| ChunkHandling.RetainedMembers | src/terrain/chunk_handler.rs:106-109 | eviction keeps exactly the stored chunks whose squared distance is at most 48² |
| ChunkHandling.BoundaryKept | src/terrain/chunk_handler.rs:108 | a chunk exactly at the threshold distance is kept |
| ChunkHandling.HeightCounts | src/terrain/chunk_handler.rs:106 | the translation's height enters the distance: 48 units away on the ground is kept at height 0 and evicted at height 1 |
| ChunkHandling.CornerOutOfRange | src/terrain/chunk_handler.rs:106-108 | from (15.5, 15.5) at height 1, chunk (−2, −2) is in the generation square and beyond eviction range |
| ChunkHandling.WithoutCoordsSnoc | src/terrain/chunk_handler.rs:109 | retain on a longer store keeps the last chunk exactly when its coordinate is not removed |
| ChunkHandling.WithoutNothing | src/terrain/chunk_handler.rs:109 | retain that removes no coordinate keeps the store as it is |
| ChunkHandling.WithoutCoordsTwice | src/terrain/chunk_handler.rs:105-111 | two retains in a row remove the union of their coordinates |
| ChunkHandling.WithoutCoordsSeparate | src/terrain/chunk_handler.rs:109 | retain keeps a subset of the chunks and keeps them unique and unshared |
| ChunkHandling.WithoutFarIsRetained | src/terrain/chunk_handler.rs:105-111 | removing exactly the out-of-range coordinates is eviction |
| ChunkHandling.ChunkHandler.constructor | src/terrain/chunk_handler.rs:16-19 | the store, the remesh queue and the screen start empty |
| ChunkHandling.ChunkHandler.ContainsChunk | src/terrain/chunk_handler.rs:31-42 | true exactly when some stored chunk has the coordinate |
| ChunkHandling.ChunkHandler.GetChunk | src/terrain/chunk_handler.rs:44-55 | for a stored coordinate, returns the first chunk with it |
| ChunkHandling.ChunkHandler.GetChunkXY | src/terrain/chunk_handler.rs:58-70 | returns the first chunk of the position's chunk coordinate and the position's cell in it, both indices in [0, 16) |
| ChunkHandling.ChunkHandler.UpdateChunk | src/terrain/chunk_handler.rs:73-82 | only cell (x, y) of the first chunk with the coordinate changes; every other chunk's grid is unchanged |
| ChunkHandling.ChunkHandler.ChunksToRemesh | src/terrain/chunk_handler.rs:85-90 | appends the coordinate to the end of the queue, duplicates kept; the store and the screen are unchanged |
| ChunkHandling.ChunkHandler.RemeshQueued | src/terrain/chunk_handler.rs:131-151 | each stored chunk's builder gains its grid's faces once per pair of a queued copy of its coordinate and an entity at it; the screen becomes Respawned (unqueued entities stay, each match is replaced by a new entity); the list is unchanged, the queue ends empty and the stored coordinates are still exactly those on screen |
| ChunkHandling.ChunkHandler.RemeshEntities | src/terrain/chunk_handler.rs:133-148 | for one queued coordinate, the chunk with it gains its grid's faces once per entity at it; one new entity per match is returned; every other chunk is unchanged |
| ChunkHandling.ChunkHandler.RemeshOne | src/terrain/chunk_handler.rs:136-146 | the looked-up chunk is meshed once more without clearing |
| ChunkHandling.ChunkHandler.GenerateAround | src/terrain/chunk_handler.rs:154-173 | existing chunks keep their order; the appended coordinates are the pass's missing ones, each with one new entity; at most 25 are appended, 25 from empty; the square is covered; each new chunk holds the terrain and one meshing of it |
| ChunkHandling.ChunkHandler.GenerateColumn | src/terrain/chunk_handler.rs:158-171 | the inner loop: a pass over column dx, appending the coordinates the store lacks and an entity for each |
| ChunkHandling.ChunkHandler.GenerateAt | src/terrain/chunk_handler.rs:159-170 | a present coordinate changes nothing; an absent one gets one new chunk, with fresh grid and builder, appended at the end, and one entity |
| ChunkHandling.ChunkHandler.MakeChunk | src/terrain/chunk_handler.rs:161-163 | a fresh chunk at the coordinate whose cells are the terrain's and whose builder holds one meshing of them |
| ChunkHandling.ChunkHandler.Append | src/terrain/chunk_handler.rs:169 | pushes the chunk onto the end of the store and its entity onto the screen; coordinates stay unique |
| ChunkHandling.ChunkHandler.RemoveChunks | src/terrain/chunk_handler.rs:93-119 | over the half-chunk threshold the counter resets to 0, the store becomes exactly its in-range chunks in order and the screen exactly its in-range entities; otherwise nothing changes |
| ChunkHandling.ChunkHandler.Retain | src/terrain/chunk_handler.rs:109 | drops the chunks at the removed coordinates and keeps the rest in order; the screen is unchanged |
| ChunkHandling.ChunkHandler.UpdateChunks | src/terrain/chunk_handler.rs:121-174 | the remesh drain then the generation pass: the queue ends empty; the old chunks keep their order and gain one meshing per queued copy per entity; the screen is respawned and then gains one entity per new chunk; the square is covered; every chunk it appends holds the terrain's cells and one meshing of them |

## Left out

- Noise sampling (src/terrain/noise.rs) and the biome and tile draws called at src/terrain/chunk.rs:42 are not part of this model. Their floating-point numerics sit behind a foreign crate, and the draws are not in the files. They are folded into the `Terrain` function, which also fixes the seed (0).
- Foliage (src/terrain/foliage.rs) is not part of this model, and neither is the foliage loop of `spawn_chunk`, because `Chunk` has no foliage field.
- The ECS plumbing is left out because it is presentation, not store logic. An on-screen entity is modelled only by its `ChunkCoordinate`. That leaves out:
  - entity ids, meshes handed to the asset store, materials and transforms in `spawn_chunk`;
  - `despawn_recursive`'s removal of child entities; a chunk entity has none here, since foliage is not modelled.
- The plugin registration is modelled only as the `ChunkHandler` constructor.
- Command scheduling: `update_chunks` and `remove_chunks` are added to one stage with no order between them (src/terrain/chunk_handler.rs:19-20), and the engine applies their commands at the end of that stage. The model applies each system's commands when that system ends, so `Presented()` holds between them. It therefore does not capture:
  - with `update_chunks` first, a chunk generated this frame has no entity yet, so `remove_chunks` evicts it only on a later pass, while the model's `UpdateChunks` then `RemoveChunks` evicts it at once;
  - in the same order, a far chunk remeshed this frame leaves its replacement entity on screen while its chunk leaves the store;
  - with `remove_chunks` first, the remesh query still yields the despawned entities, so a queued coordinate whose chunk was just evicted reaches `get_chunk`, which panics (src/terrain/chunk_handler.rs:136, :54).
- `Build`'s hand-over to the renderer's `Mesh` type is modelled as a `Mesh` value of the four buffers.
- Player physics, keyboard control and the app bootstrap are left out. The player's position, translation and `distance_moved` are parameters of `UpdateChunks` and `RemoveChunks`.
- A query can yield several players. The model covers one player; several players are repeated calls.
- f32 rounding of positions, of the distance computation and of the `tile_type as f32` cast (src/terrain/meshing.rs:62-63) is not modelled; world positions are exact reals. The cast rounds above 2^24, so `AtlasRow` and `AtlasColumn` match the source only for tile types below 2^24. Chunk coordinates and tile offsets are whole numbers, which f32 holds exactly in the range considered.
- Meshing.ChunkTileMapBuilder.AddTile: does not model the u32 overflow of `face_count` or of the shifted indices, which would need about a billion faces in one builder; the counters are unbounded.
- ChunkHandling.ChunkHandler.RemeshEntities: the order of an ECS query is unspecified. The model scans entities in the order they were spawned, and respawned ones go last. Only the order of `entities` depends on this; the counts and the meshing do not.
- ChunkHandling.ChunkHandler.RemoveChunks: the `HashSet` of entities to despawn is modelled by its effect, each far entity removed once. The query order is the same spawn order as in RemeshEntities.
- ChunkHandling.ChunkHandler.GenerateAround: freshness of each new chunk's grid and builder is stated one step at a time (`GenerateAt`, `MakeChunk`) and kept as the store invariant (`Separate`). It is not restated for the whole pass.
