# SimpleChunkSystem in Dafny

This project models the core of SimpleChunkSystem, an Unreal Engine plugin. The core is a sparse, chunked 2-D store of typed data channels.

- **Grid.** The grid is cut into square chunks of `ChunkSize` points (`TChunkSystemBase`). A chunk is created lazily, the first time something is added to one of its points.
- **Chunk.** A chunk (`FChunk_DynamicData`, bounded by `FChunkBase`) eagerly holds one cell per point of its rectangle.
- **Cell.** A cell (`FCellDynamicInfo`) maps a channel key to an optional value. A key is a name plus a struct type; a key with no value is a placeholder.
- **Indexes.** Each chunk indexes the cells that hold each key. The system (`TChunkSystem_DynamicData`) keeps a multimap from each key to the chunks holding it, one occurrence per holding cell.
- **Iterator.** The system index feeds a chained iterator over every cell of one channel.
- **Manager and subsystem.** A manager (`UChunkManager_DynamicData`) guards and forwards calls to a system it owns or shares. A subsystem (`UChunkSubsystem`) keeps managers under names.

How the model is built:

- **Archive.** `FArchive` is a stream of tokens (int, name, bool, string). The `Archive` class carries the position, a sticky error flag and the saving/loading direction. `Ar << x` is a method that writes `x` when saving and reads into it when loading.
- **Type resolution.** `FindObject`/`LoadObject` are a partial map from (package, asset) names to struct types, passed as a parameter.
- **Payloads.** The payload types are the closed set of unit-test records: `FCellBaseInfo`, `FData_UnitTest`, `FData2_UnitTest` and `FData3_UnitTest`.
- **Values and objects.**
  - Cells and chunk states stored inside maps are values (datatypes), as the source stores them by value in `TMap`s.
  - The objects whose fields the source updates in place are classes: the chunk, the system, the iterator and its range, the manager and the subsystem.
  - Each class's methods are proved against pure specification functions on those values.
- **Map iteration order.** `TMap` iteration order is unspecified, so it appears as a ghost `order` out-parameter. The parameter is a duplicate-free enumeration of the keys, and the contracts hold for every order.

Modules, one per component:

| module | what it models |
|---|---|
| `ChunkTypes` | points, names, struct types, records, the resolver |
| `ArchiveIO` | the archive |
| `GridMath` | floor division, chunk of a point, chunk bounds, split by chunk |
| `ChunkBase` | corner normalisation and the corners codec |
| `CellInfo` | the cell's channel operations |
| `CellCodec` | key and cell serialisation |
| `ChunkState` / `ChunkCodec` / `DynamicChunks` | chunk specification, codec, class |
| `SystemState` / `SystemCodec` / `ChunkSystems` | system specification, codec, class |
| `ChannelVisits` / `ChannelIteration` | what the channel iterator visits, and the range and iterator classes |
| `ChunkManagers` | the manager |
| `ChunkSubsystems` | the subsystem |

## Model

Source cells give paths relative to the repository root, with line ranges.

| member | source | states |
|---|---|---|
| GridMath.DivFloorIsFloor | Source/SimpleChunkSystem/Public/System/ChunkSystem.h:242-245 | for d > 0, DivFloor(v, d) is the mathematical floor q of v/d: q*d <= v < (q+1)*d |
| GridMath.FloorUnique | Source/SimpleChunkSystem/Public/System/ChunkSystem.h:242-245 | the floor is the only integer q with q*d <= v < (q+1)*d |
| GridMath.DivFloorExamples | Source/SimpleChunkSystem/Public/UnitTest/ChunkSystem_UnitTest.h:42-49 | DivFloor gives the values the unit tests expect for negative, zero and positive numerators |
| GridMath.ChunkBounds | Source/SimpleChunkSystem/Public/System/ChunkSystem.h:225-236 | the bounds of chunk c are [c*s, (c+1)*s - 1] on each axis, with the first corner not after the last |
| GridMath.ChunkOfIffInBounds | Source/SimpleChunkSystem/Public/System/ChunkSystem.h:201-236 | a point belongs to chunk c (DivFloor on each axis) exactly when it lies inside c's bounds |
| GridMath.PointInOwnChunk | Source/SimpleChunkSystem/Public/System/ChunkSystem.h:201-236 | every grid point lies inside the bounds of its own chunk |
| GridMath.SplitIsPartition | Source/SimpleChunkSystem/Public/System/ChunkSystem.h:209-223 | the grouping by chunk covers the input, puts each point under exactly its own chunk and has no empty group |
| GridMath.SplitGridLocationsToChunks | Source/SimpleChunkSystem/Public/System/ChunkSystem.h:209-223 | the loop that adds each point to its chunk's group builds exactly that partition |
| ChunkBase.NormalizeCorners | Source/SimpleChunkSystem/Private/System/Chunk/ChunkBase.cpp:6-15 | the stored top-left is the per-axis minimum and the bottom-right the per-axis maximum of the given corners, so top-left <= bottom-right |
| ChunkBase.NormalizeIdempotent | Source/SimpleChunkSystem/Public/System/Chunk/ChunkBase.h:15-24 | constructing again from the stored corners gives the same corners |
| ChunkBase.NormalizeOrderIndependent | Source/SimpleChunkSystem/Public/System/Chunk/ChunkBase.h:15-24 | the stored corners depend only on the two values given per axis, not on which argument carried them |
| ChunkBase.NormalizeSpansGivenCorners | Source/SimpleChunkSystem/Private/System/Chunk/ChunkBase.cpp:6-15 | the normalised rectangle holds exactly the points between the given corners |
| ChunkBase.DecodeCorners | Source/SimpleChunkSystem/Public/System/Chunk/ChunkBase.h:29-33 | a successful read consumes exactly the four coordinates of the two corners; no normalisation is applied on load |
| ChunkBase.CornersRoundTrip | Source/SimpleChunkSystem/Private/System/Chunk/ChunkBase.cpp:17-21 | reading what was written gives back both corners in order and stops right after them |
| ChunkBase.SerializeCorners | Source/SimpleChunkSystem/Private/System/Chunk/ChunkBase.cpp:17-21 | saving appends exactly the two corners, top-left first; loading sets the corners to what DecodeCorners reads |
| ChunkTypes.DefaultData | Source/SimpleChunkSystem/Public/UnitTest/ChunkSystemTypes_UnitTest.h:8-69 | a default-constructed record is of the requested type |
| ChunkTypes.InitializeAs | Source/SimpleChunkSystem/Public/System/Chunk/Chunk_DynamicData.h:58-92 | a null type gives an empty struct, any other type a default record of that type |
| ChunkTypes.Resolve | Source/SimpleChunkSystem/Private/System/Chunk/Chunk_DynamicData.cpp:24-40 | a None package or asset name resolves to a null type; otherwise the resolver decides |
| CellInfo.GetOrAddChannel | Source/SimpleChunkSystem/Public/System/Chunk/Chunk_DynamicData.h:58-92 | an absent or unset key gets a default value of its type; a set value is returned unchanged; every other key is untouched |
| CellInfo.RemoveChannel | Source/SimpleChunkSystem/Public/System/Chunk/Chunk_DynamicData.h:94-123 | false and no change when the key is absent; otherwise true, with exactly that key gone |
| CellInfo.GetOrAddIdempotent | Source/SimpleChunkSystem/Public/UnitTest/ChunkSystem_UnitTest.h:128-133 | a second GetOrAddChannel finds what the first left and changes nothing |
| CellInfo.SameNameDistinctTypes | Source/SimpleChunkSystem/Public/System/Chunk/Chunk_DynamicData.h:11-27 | two keys with the same name and different types are different entries: adding one leaves the other as it was |
| CellInfo.RemoveAfterAdd | Source/SimpleChunkSystem/Public/System/Chunk/Chunk_DynamicData.h:58-136 | removing a key right after adding it reports a removal and leaves the cell without that key |
| CellCodec.DecodeData | Source/SimpleChunkSystem/Public/UnitTest/ChunkSystemTypes_UnitTest.h:8-69 | reading a record of type st gives a record of type st and never moves the position backwards |
| CellCodec.DataRoundTrip | Source/SimpleChunkSystem/Public/UnitTest/ChunkSystemTypes_UnitTest.h:8-69 | reading a record's written fields gives back the same record and stops right after them |
| CellCodec.SerializeData | Source/SimpleChunkSystem/Public/UnitTest/ChunkSystemTypes_UnitTest.h:8-69 | saving appends the record's fields; loading reads them back as DecodeData does |
| CellCodec.DecodeKey | Source/SimpleChunkSystem/Private/System/Chunk/Chunk_DynamicData.cpp:5-41 | a successful read consumes exactly three names: the channel name, then its type's package name and asset name |
| CellCodec.KeyRoundTrip | Source/SimpleChunkSystem/Private/System/Chunk/Chunk_DynamicData.cpp:5-41 | a key comes back as written: a null type (written as None/None) as null, any other type when it resolves |
| CellCodec.KeyUnresolvedLoadsNull | Source/SimpleChunkSystem/Private/System/Chunk/Chunk_DynamicData.cpp:24-40 | a key whose type cannot be found comes back with a null type |
| CellCodec.SerializeKey | Source/SimpleChunkSystem/Private/System/Chunk/Chunk_DynamicData.cpp:5-41 | saving appends the key's encoding; loading sets the key to what DecodeKey reads |
| CellCodec.SetEntryHead | Source/SimpleChunkSystem/Private/System/Chunk/Chunk_DynamicData.cpp:68-100 | an entry with a value is written as key, true, then the value's package and asset names, then the fields |
| CellCodec.UnresolvedEntryKeepsPayload | Source/SimpleChunkSystem/Private/System/Chunk/Chunk_DynamicData.cpp:138-143 | an entry whose value type does not resolve is dropped, and reading resumes right after the type names, not after the fields |
| CellCodec.LoadAllRebuilds | Source/SimpleChunkSystem/Private/System/Chunk/Chunk_DynamicData.cpp:102-153 | adding every saved entry to an emptied map rebuilds the original map |
| CellCodec.EntriesAt | Source/SimpleChunkSystem/Private/System/Chunk/Chunk_DynamicData.cpp:102-153 | reading saved entries adds each of them, as it was, to the map being filled |
| CellCodec.CellRoundTrip | Source/SimpleChunkSystem/Private/System/Chunk/Chunk_DynamicData.cpp:52-154 | when every record type resolves, loading what was saved gives back the same channel map; a cell with no entries leaves the target cell as it was |
| CellCodec.NegativeCountLeavesCell | Source/SimpleChunkSystem/Private/System/Chunk/Chunk_DynamicData.cpp:57-61 | a negative count is refused: nothing more is read and the cell is unchanged |
| CellCodec.PlaceholderSurvivesLoad | Source/SimpleChunkSystem/Private/System/Chunk/Chunk_DynamicData.cpp:114-118 | an entry saved without a value comes back as an unset placeholder, and its siblings load as usual |
| CellCodec.UnresolvedEmptyRecordSkipsCleanly | Source/SimpleChunkSystem/Private/System/Chunk/Chunk_DynamicData.cpp:138-143 | an unresolved record type with no fields costs only its own entry; the next entry loads as usual |
| CellCodec.UnresolvedRecordDerailsNextEntry | Source/SimpleChunkSystem/Private/System/Chunk/Chunk_DynamicData.cpp:138-143 | an unresolved record type with fields makes the next read start inside those fields, so the following entry is lost |
| CellCodec.SerializeCell | Source/SimpleChunkSystem/Private/System/Chunk/Chunk_DynamicData.cpp:52-154 | saving leaves the cell unchanged and appends its encoding in the reported order; loading sets the cell to what DecodeCell reads |
| CellCodec.SaveCell | Source/SimpleChunkSystem/Private/System/Chunk/Chunk_DynamicData.cpp:63-100 | saving writes the count, then every entry unless the count is zero |
| CellCodec.LoadCell | Source/SimpleChunkSystem/Private/System/Chunk/Chunk_DynamicData.cpp:57-66 | loading reads the count; a count that is not positive keeps the cell, any other empties it and reads that many entries |
| CellCodec.SaveEntries | Source/SimpleChunkSystem/Private/System/Chunk/Chunk_DynamicData.cpp:68-100 | the saving loop appends the encoding of every entry, in an order that enumerates the keys |
| CellCodec.LoadEntries | Source/SimpleChunkSystem/Private/System/Chunk/Chunk_DynamicData.cpp:102-153 | the loading loop reads count entries into the map, as the decoder does |
| CellCodec.LoadEntry | Source/SimpleChunkSystem/Private/System/Chunk/Chunk_DynamicData.cpp:104-152 | one entry is read: key, flag, and when set the type names and the record; an unresolved type adds nothing |
| ChunkState.NewChunk | Source/SimpleChunkSystem/Private/System/Chunk/Chunk_DynamicData.cpp:164-182 | a new chunk has the normalised corners, exactly one empty cell per point of its rectangle and an empty index |
| ChunkState.IndexOf | Source/SimpleChunkSystem/Private/System/Chunk/Chunk_DynamicData.cpp:280-299 | a (key, cell) pair is indexed exactly when the cell holds the key with a set value and the key's type is not null; no set is empty |
| ChunkState.IndexUnique | Source/SimpleChunkSystem/Private/System/Chunk/Chunk_DynamicData.cpp:280-299 | the cells determine the index: two indexes that both match them are equal |
| ChunkState.EmptyCellsEmptyIndex | Source/SimpleChunkSystem/Private/System/Chunk/Chunk_DynamicData.cpp:198-203 | a chunk with no cells has the empty index |
| ChunkState.Register | Source/SimpleChunkSystem/Private/System/Chunk/Chunk_DynamicData.cpp:246-255 | a null type is ignored; otherwise the cell joins the key's set and nothing else changes |
| ChunkState.Unregister | Source/SimpleChunkSystem/Private/System/Chunk/Chunk_DynamicData.cpp:257-268 | the cell leaves the key's set, and a set left empty is dropped, so no set is ever empty |
| ChunkState.UnregisterUndoesRegister | Source/SimpleChunkSystem/Private/System/Chunk/Chunk_DynamicData.cpp:246-268 | unregistering a cell just registered for a typed key restores the index it was registered in |
| ChunkState.FindOrAdd | Source/SimpleChunkSystem/Public/System/Chunk/Chunk_DynamicData.h:165-168 | the cell at p gets or adds the key; the model also registers the cell in the chunk index exactly when the key was absent, which the header itself does not do (see Left out) |
| ChunkState.TryRemove | Source/SimpleChunkSystem/Public/System/Chunk/Chunk_DynamicData.h:176-179 | the cell at p removes the key; the model also unregisters the cell from the chunk index exactly when something was removed, which the header itself does not do (see Left out) |
| ChunkState.FindOrAddKeepsIndex | Source/SimpleChunkSystem/Public/UnitTest/ChunkSystem_UnitTest.h:294-346 | FindOrAdd keeps the index matching the cells unless the cell held the key as a placeholder |
| ChunkState.TryRemoveKeepsIndex | Source/SimpleChunkSystem/Public/UnitTest/ChunkSystem_UnitTest.h:294-346 | TryRemove keeps the index matching the cells when the removed entry was not a placeholder |
| ChunkState.PlaceholderEscapesIndex | Source/SimpleChunkSystem/Public/System/Chunk/Chunk_DynamicData.h:125-136 | a placeholder counts as present, so FindOrAdd fills it without registering it and the index no longer matches the cells |
| ChunkState.FindOrAddIdempotent | Source/SimpleChunkSystem/Public/System/Chunk/Chunk_DynamicData.h:165-168 | a second FindOrAdd finds what the first left and changes nothing |
| ChunkState.TryRemoveAfterFindOrAdd | Source/SimpleChunkSystem/Public/System/Chunk/Chunk_DynamicData.h:165-179 | removing right after adding removes the entry and leaves the cell without it |
| ChunkCodec.ChunkAt | Source/SimpleChunkSystem/Private/System/Chunk/Chunk_DynamicData.cpp:184-234 | reading a saved chunk gives back its corners and cells, with the index rebuilt from the cells |
| ChunkCodec.ChunkRoundTrip | Source/SimpleChunkSystem/Private/System/Chunk/Chunk_DynamicData.cpp:184-234 | when every record type resolves, loading what was saved gives back the corners and cells with the index rebuilt, whatever the target chunk held |
| ChunkCodec.ConsistentChunkRoundTrip | Source/SimpleChunkSystem/Private/System/Chunk/Chunk_DynamicData.cpp:184-234 | a chunk whose index matches its cells comes back as itself |
| ChunkCodec.NegativeCountKeepsCells | Source/SimpleChunkSystem/Private/System/Chunk/Chunk_DynamicData.cpp:191-196 | a negative count keeps the target's cells and index, while its corners are already overwritten |
| ChunkCodec.NoChannelsIsEmptyCell | Source/SimpleChunkSystem/Private/System/Chunk/Chunk_DynamicData.cpp:63-66 | a cell whose channel map is empty is the empty cell, so a fresh cell loaded from a zero count equals the saved one |
| ChunkCodec.FreshCellAt | Source/SimpleChunkSystem/Private/System/Chunk/Chunk_DynamicData.cpp:205-219 | a saved cell read into a fresh empty cell comes back as it was, also with no channels |
| ChunkCodec.SaveChunk | Source/SimpleChunkSystem/Private/System/Chunk/Chunk_DynamicData.cpp:221-231 | saving appends the corners, the count and, unless the count is zero, every (point, cell) pair |
| ChunkCodec.SaveCellMap | Source/SimpleChunkSystem/Private/System/Chunk/Chunk_DynamicData.cpp:221-231 | the saving loop appends every (point, cell) pair in an order that enumerates the points |
| ChunkCodec.LoadCellMap | Source/SimpleChunkSystem/Private/System/Chunk/Chunk_DynamicData.cpp:205-219 | the loading loop reads count pairs, each cell read into a fresh empty cell, as the decoder does |
| DynamicChunks.Chunk.constructor | Source/SimpleChunkSystem/Private/System/Chunk/Chunk_DynamicData.cpp:164-182 | the column-by-column loops leave exactly the state NewChunk describes |
| DynamicChunks.GridUnique | Source/SimpleChunkSystem/Private/System/Chunk/Chunk_DynamicData.cpp:164-182 | the rectangle determines the grid of empty cells |
| DynamicChunks.Chunk.FindOrAddChannel | Source/SimpleChunkSystem/Public/System/Chunk/Chunk_DynamicData.h:165-168 | the chunk becomes FindOrAdd of its old state, including its chunk-index registration, and returns the value found or added |
| DynamicChunks.Chunk.TryRemoveChannel | Source/SimpleChunkSystem/Public/System/Chunk/Chunk_DynamicData.h:176-179 | the chunk becomes TryRemove of its old state, including its chunk-index unregistration, and reports whether the key was there |
| DynamicChunks.Chunk.RegisterChannelLocation | Source/SimpleChunkSystem/Private/System/Chunk/Chunk_DynamicData.cpp:246-255 | the index becomes Register of the old index; the cells are unchanged |
| DynamicChunks.Chunk.UnregisterChannelLocation | Source/SimpleChunkSystem/Private/System/Chunk/Chunk_DynamicData.cpp:257-268 | the index becomes Unregister of the old index; the cells are unchanged |
| DynamicChunks.Chunk.FindChannelLocations | Source/SimpleChunkSystem/Private/System/Chunk/Chunk_DynamicData.cpp:270-278 | the key's set, if indexed; when the index matches the cells, exactly the cells holding the key with a set value |
| DynamicChunks.Chunk.RebuildChannelIndex | Source/SimpleChunkSystem/Private/System/Chunk/Chunk_DynamicData.cpp:280-299 | the loops leave the index IndexOf computes from the cells, and the cells unchanged |
| DynamicChunks.Chunk.Serialize | Source/SimpleChunkSystem/Private/System/Chunk/Chunk_DynamicData.cpp:184-234 | saving appends the chunk's encoding and rebuilds the index; loading sets the chunk to what DecodeChunk reads, with the index rebuilt |
| SystemState.ClampChunkSize | Source/SimpleChunkSystem/Public/System/ChunkSystem.h:40-55 | the stored chunk size is max(given size, 1), so never below 1 |
| SystemState.SysRegister | Source/SimpleChunkSystem/Public/System/ChunkSystem_DynamicData.h:749-757 | a null type is ignored; otherwise the key lists chunk c once more and nothing else changes |
| SystemState.SysUnregister | Source/SimpleChunkSystem/Public/System/ChunkSystem_DynamicData.h:759-778 | a null type or an unlisted chunk is ignored; the last occurrence of a key drops the key, any other loses one occurrence of c |
| SystemState.RegisterKeepsSys | Source/SimpleChunkSystem/Public/System/ChunkSystem_DynamicData.h:749-757 | registering a chunk's new cell in the chunk's index and the chunk in the system index keeps the count invariant |
| SystemState.UnregisterKeepsSys | Source/SimpleChunkSystem/Public/System/ChunkSystem_DynamicData.h:759-778 | dropping a cell from its chunk's index and one occurrence of the chunk from the system index keeps the count invariant |
| SystemState.ChunkFor | Source/SimpleChunkSystem/Public/System/ChunkSystem.h:159-173 | the chunk TryMakeChunk creates has an empty cell for exactly the points of chunk c, and an empty index |
| SystemState.MakeChunk | Source/SimpleChunkSystem/Public/System/ChunkSystem.h:159-173 | nothing changes when the chunk exists; otherwise exactly that chunk is added |
| SystemState.MakeChunkKeeps | Source/SimpleChunkSystem/Public/System/ChunkSystem.h:159-173 | a new chunk keeps the system consistent and adds nothing to the system index |
| SystemState.TryRemoveAt | Source/SimpleChunkSystem/Public/System/ChunkSystem_DynamicData.h:278-295 | true exactly when the cell had the key; false leaves the system unchanged; the chunk size and the set of chunks are kept |
| SystemState.GetAt | Source/SimpleChunkSystem/Public/System/ChunkSystem_DynamicData.h:90-106 | nothing, with no change, exactly when the cell lacks the key (a missing chunk included) |
| SystemState.FindOrAddAtKeeps | Source/SimpleChunkSystem/Public/System/ChunkSystem_DynamicData.h:141-154 | FindOrAddChannel keeps a placeholder-free system consistent: the index counts, per key and chunk, the cells holding the key |
| SystemState.FindOrAddAtHolds | Source/SimpleChunkSystem/Public/System/ChunkSystem_DynamicData.h:141-154 | afterwards the cell holds the key with the value returned, and only the chunk of p may be new |
| SystemState.FindOrAddAtRegisters | Source/SimpleChunkSystem/Public/System/ChunkSystem_DynamicData.h:141-154 | the chunk of p is listed once more exactly when the cell lacked the key and the type is not null; every other count is unchanged |
| SystemState.FindOrAddAtFrame | Source/SimpleChunkSystem/Public/System/ChunkSystem_DynamicData.h:141-154 | every other cell of every chunk is left as it was |
| SystemState.FindOrAddAtIdempotent | Source/SimpleChunkSystem/Public/System/ChunkSystem_DynamicData.h:141-154 | a second call at the same cell changes nothing and does not grow the index |
| SystemState.FindOrAddNoPlaceholders | Source/SimpleChunkSystem/Public/System/ChunkSystem_DynamicData.h:141-154 | FindOrAddChannel creates no placeholder |
| SystemState.TryRemoveAtKeeps | Source/SimpleChunkSystem/Public/System/ChunkSystem_DynamicData.h:278-295 | TryRemoveChannel keeps a placeholder-free system consistent |
| SystemState.TryRemoveAtEffect | Source/SimpleChunkSystem/Public/UnitTest/ChunkSystem_UnitTest.h:151-164 | afterwards the cell lacks the key; a removal with a typed key lists the chunk once less |
| SystemState.TryRemoveAtFrame | Source/SimpleChunkSystem/Public/System/ChunkSystem_DynamicData.h:278-295 | every other grid point's cell is left as it was |
| SystemState.TryRemoveNoPlaceholders | Source/SimpleChunkSystem/Public/System/ChunkSystem_DynamicData.h:278-295 | TryRemoveChannel creates no placeholder |
| SystemState.GetAtReads | Source/SimpleChunkSystem/Public/System/ChunkSystem_DynamicData.h:90-106 | in a consistent system GetChannel creates nothing and gives the held value exactly when HasChannel holds |
| SystemState.ConsistentCellExists | Source/SimpleChunkSystem/Private/System/Chunk/Chunk_DynamicData.cpp:164-182 | in a consistent system every grid point has a cell once its chunk exists |
| SystemState.MissingChunkUnregistered | Source/SimpleChunkSystem/Public/System/ChunkSystem_DynamicData.h:749-785 | in a consistent system a missing chunk is listed for no key |
| SystemState.IndexCountsHolders | Source/SimpleChunkSystem/Public/System/ChunkSystem_DynamicData.h:749-785 | in a consistent system the multiplicity of (key, chunk) is the number of that chunk's cells holding the key with a set value |
| SystemState.NewSystemConsistent | Source/SimpleChunkSystem/Public/System/ChunkSystem_DynamicData.h:33-38 | a new system, with no chunks and an empty index, is consistent |
| SystemState.SysMatchesUnique | Source/SimpleChunkSystem/Public/System/ChunkSystem_DynamicData.h:787-807 | the chunks determine the system index: two indexes that both match them are equal |
| SystemState.NoChunksEmptyIndex | Source/SimpleChunkSystem/Public/System/ChunkSystem_DynamicData.h:532-536 | with no chunks the only matching index is the empty one |
| SystemState.UnregisteredStep | Source/SimpleChunkSystem/Public/System/ChunkSystem_DynamicData.h:759-778 | unregistering, under a listing's key, the chunk its cell lies in takes one more listing out of the index: for every key and chunk the count is the old count less the listings' tally, stopping at zero, with null-type keys ignored |
| SystemState.RegisteredStep | Source/SimpleChunkSystem/Public/System/ChunkSystem_DynamicData.h:749-757 | registering, under a listing's key, the chunk its cell lies in adds one more listing to the index: for every key and chunk the count is the old count plus the listings' tally, with null-type keys ignored |
| SystemState.RegisteredJoin | Source/SimpleChunkSystem/Public/System/ChunkSystem_DynamicData.h:787-807 | registering one set of listings after another disjoint set registers their union |
| SystemState.RebuiltIffMatches | Source/SimpleChunkSystem/Public/System/ChunkSystem_DynamicData.h:787-807 | when every chunk's index lies inside the chunk, the index the rebuild produces is exactly the one matching the chunks, in both directions |
| SystemState.RebuiltUnique | Source/SimpleChunkSystem/Public/System/ChunkSystem_DynamicData.h:787-807 | the chunks determine the rebuilt index: two indexes rebuilt from the same chunks are equal |
| SystemState.UnregisteredKeepsRebuilt | Source/SimpleChunkSystem/Public/System/ChunkSystem_DynamicData.h:721-747 | taking the listings of one chunk out of an index rebuilt from the chunks gives the index rebuilt from the other chunks, wherever their cells lie |
| SystemState.WriteAt | Source/SimpleChunkSystem/Private/Manager/ChunkManager_DynamicData.cpp:81-105 | assigning through the returned reference makes the cell hold v under k and changes no other entry, cell or index |
| SystemState.WriteAtKeeps | Source/SimpleChunkSystem/Private/Manager/ChunkManager_DynamicData.cpp:81-105 | overwriting a held channel with another set value keeps a consistent system consistent |
| SystemState.AddAll | Source/SimpleChunkSystem/Public/System/ChunkSystem_DynamicData.h:214-239 | one value per visited point; the chunk size is kept and every existing cell still exists |
| SystemState.RemoveAll | Source/SimpleChunkSystem/Public/System/ChunkSystem_DynamicData.h:356-383 | no chunk is created or removed, the chunk size is kept, and every existing cell still exists |
| SystemState.AddAllKeeps | Source/SimpleChunkSystem/Public/System/ChunkSystem_DynamicData.h:214-239 | FindOrAddChannels keeps a placeholder-free system consistent |
| SystemState.RemoveAllKeeps | Source/SimpleChunkSystem/Public/System/ChunkSystem_DynamicData.h:356-383 | TryRemoveChannels keeps a placeholder-free system consistent |
| SystemState.AddAllHolds | Source/SimpleChunkSystem/Public/System/ChunkSystem_DynamicData.h:214-239 | afterwards every visited point holds the key with the value returned for it |
| SystemState.RemoveAllFrame | Source/SimpleChunkSystem/Public/System/ChunkSystem_DynamicData.h:356-383 | every cell TryRemoveChannels does not visit is left as it was |
| SystemState.RemoveAllEffect | Source/SimpleChunkSystem/Public/UnitTest/ChunkSystem_UnitTest.h:931-933 | the result is true exactly when some visited point had the key, and afterwards no visited point has it |
| SystemState.DropChunk | Source/SimpleChunkSystem/Public/System/ChunkSystem_DynamicData.h:737-747 | the system index with every occurrence of chunk c taken out and no key left empty |
| SystemState.RemoveChunk | Source/SimpleChunkSystem/Public/System/ChunkSystem_DynamicData.h:721-735 | false and no change when the chunk is missing; otherwise the chunk is gone, and so is every occurrence of it in the index |
| SystemState.RemoveChunkKeeps | Source/SimpleChunkSystem/Public/System/ChunkSystem_DynamicData.h:721-747 | removing a chunk keeps the system consistent, and the index then lists that chunk for no key |
| SystemState.PurgedIsDropped | Source/SimpleChunkSystem/Public/System/ChunkSystem_DynamicData.h:737-747 | in a consistent system, the index left once the listings of chunk c are taken out is the one RemoveChunk describes |
| SystemCodec.DecodeSystem | Source/SimpleChunkSystem/Public/System/ChunkSystem.h:60-99 | loading reads the chunk size (clamped to at least 1), the count and that many (coordinate, chunk) pairs; a count that is not positive gives no chunk |
| SystemCodec.SystemRoundTrip | Source/SimpleChunkSystem/Public/System/ChunkSystem.h:60-99 | loading what was saved gives back the chunk size and every chunk, each with its index rebuilt from its cells |
| SystemCodec.ConsistentSystemRoundTrip | Source/SimpleChunkSystem/Public/System/ChunkSystem_DynamicData.h:40-51 | for a consistent system the reloaded chunks are the chunks themselves, and only the system's own index matches them |
| SystemCodec.SaveLoadRestores | Source/SimpleChunkSystem/Public/System/ChunkSystem_DynamicData.h:40-51 | saving a consistent system, loading it back and rebuilding the index restores the system exactly, with no error and every token read |
| SystemCodec.ReloadedAllKeeps | Source/SimpleChunkSystem/Private/System/Chunk/Chunk_DynamicData.cpp:233 | a system whose chunk indexes match their cells is unchanged by rebuilding every chunk's index |
| ChunkSystems.ChunkSystem.constructor | Source/SimpleChunkSystem/Public/System/ChunkSystem.h:40-55 | a new system is empty, with the given chunk size raised to at least 1 |
| ChunkSystems.ChunkSystem.Default | Source/SimpleChunkSystem/Public/System/ChunkSystem_DynamicData.h:33-38 | a new system is empty, with the default chunk size 15 |
| ChunkSystems.ChunkSystem.TryMakeChunk | Source/SimpleChunkSystem/Public/System/ChunkSystem.h:159-173 | the system becomes MakeChunk of its old state, and the result is true exactly when the chunk was missing |
| ChunkSystems.ChunkSystem.TryMakeChunkByGrid | Source/SimpleChunkSystem/Public/System/ChunkSystem.h:109-113 | TryMakeChunk for the chunk the grid point lies in |
| ChunkSystems.ChunkSystem.TryRemoveChunk | Source/SimpleChunkSystem/Public/System/ChunkSystem.h:175-186 | false and no change when the chunk is missing; otherwise only that chunk is removed |
| ChunkSystems.ChunkSystem.TryRemoveChunkInternal | Source/SimpleChunkSystem/Public/System/ChunkSystem_DynamicData.h:721-735 | false and no change for a missing chunk; otherwise the chunk is removed and every listing of its index is taken out of the system index; an index rebuilt from the chunks stays rebuilt from those left, and a consistent system becomes RemoveChunk of its old state |
| ChunkSystems.ChunkSystem.TryRemoveChunkByGrid | Source/SimpleChunkSystem/Public/System/ChunkSystem_DynamicData.h:526-530 | TryRemoveChunkInternal, with all its effects on chunks and index, for the chunk the grid point lies in |
| ChunkSystems.ChunkSystem.Num | Source/SimpleChunkSystem/Public/System/ChunkSystem.h:137-140 | the number of chunks |
| ChunkSystems.ChunkSystem.IsEmpty | Source/SimpleChunkSystem/Public/System/ChunkSystem.h:147-150 | true exactly when there is no chunk |
| ChunkSystems.ChunkSystem.Empty | Source/SimpleChunkSystem/Public/System/ChunkSystem_DynamicData.h:532-536 | every chunk goes, the index rebuilt is empty, and the chunk size stays |
| ChunkSystems.ChunkSystem.RegisterChannelLocation | Source/SimpleChunkSystem/Public/System/ChunkSystem_DynamicData.h:749-757 | the index becomes SysRegister of the old index; nothing else changes |
| ChunkSystems.ChunkSystem.UnregisterChannelLocation | Source/SimpleChunkSystem/Public/System/ChunkSystem_DynamicData.h:759-778 | the index becomes SysUnregister of the old index; nothing else changes |
| ChunkSystems.ChunkSystem.FindChannelLocations | Source/SimpleChunkSystem/Public/System/ChunkSystem_DynamicData.h:780-785 | every chunk listed under the key, as often as listed; in a consistent system once per cell holding the key |
| ChunkSystems.ChunkSystem.RemoveChunkFromChannelIndex | Source/SimpleChunkSystem/Public/System/ChunkSystem_DynamicData.h:737-747 | for every (key, cell) pair of the chunk's index, the chunk the cell lies in is unregistered once under the key, whatever the index holds; the chunks are unchanged and no empty or null-type key appears |
| ChunkSystems.ChunkSystem.RebuildChannelIndex | Source/SimpleChunkSystem/Public/System/ChunkSystem_DynamicData.h:787-807 | the index becomes the one rebuilt from all chunks' indexes, each listed cell registering the chunk it lies in; when each chunk's index lies inside the chunk, that is the index matching the chunks |
| ChunkSystems.ChunkSystem.RegisterChunkCells | Source/SimpleChunkSystem/Public/System/ChunkSystem_DynamicData.h:795-805 | for every (key, cell) pair of one chunk's index, the chunk the cell lies in is registered once under the key; the chunks are unchanged |
| ChunkSystems.ChunkSystem.HasChannel | Source/SimpleChunkSystem/Public/System/ChunkSystem_DynamicData.h:411-422 | false when the chunk is missing; otherwise whether the cell has the key |
| ChunkSystems.ChunkSystem.HasChannelInChunk | Source/SimpleChunkSystem/Public/System/ChunkSystem_DynamicData.h:395-401 | whether the cell has the key, for a chunk that must exist |
| ChunkSystems.ChunkSystem.FindOrAddChannel | Source/SimpleChunkSystem/Public/System/ChunkSystem_DynamicData.h:141-154 | the system becomes FindOrAddAt of its old state and returns the value found or added |
| ChunkSystems.ChunkSystem.TryRemoveChannel | Source/SimpleChunkSystem/Public/System/ChunkSystem_DynamicData.h:278-295 | the system and the result are TryRemoveAt of the old state |
| ChunkSystems.ChunkSystem.GetChannel | Source/SimpleChunkSystem/Public/System/ChunkSystem_DynamicData.h:90-106 | the system and the result are GetAt of the old state |
| ChunkSystems.ChunkSystem.WriteChannel | Source/SimpleChunkSystem/Private/Manager/ChunkManager_DynamicData.cpp:96-104 | the system becomes WriteAt of its old state |
| ChunkSystems.ChunkSystem.FindOrAddChannels | Source/SimpleChunkSystem/Public/System/ChunkSystem_DynamicData.h:214-239 | each point is visited once, and the system and the values are AddAll over that order |
| ChunkSystems.ChunkSystem.TryRemoveChannels | Source/SimpleChunkSystem/Public/System/ChunkSystem_DynamicData.h:356-383 | missing chunks are skipped; the points of existing chunks are visited once each, and the system and the result are RemoveAll over that order |
| ChunkSystems.ChunkSystem.HasChannels | Source/SimpleChunkSystem/Public/System/ChunkSystem_DynamicData.h:480-504 | true exactly when every point's chunk exists and its cell has the key; true for no points |
| ChunkSystems.ChunkSystem.Serialize | Source/SimpleChunkSystem/Public/System/ChunkSystem.h:60-99 | nothing when not serialisable; saving appends the system's encoding; loading sets the system to DecodeSystem's result with the index rebuilt from the loaded chunks |
| ChunkSystems.ChunkSystem.LoadSystem | Source/SimpleChunkSystem/Public/System/ChunkSystem_DynamicData.h:40-51 | loading reads as DecodeSystem does, then the index is the one rebuilt from the loaded chunks |
| ChunkSystems.WriteSystem | Source/SimpleChunkSystem/Public/System/ChunkSystem.h:88-98 | saving writes the chunk size, the count and the chunks |
| ChunkSystems.ReadSystem | Source/SimpleChunkSystem/Public/System/ChunkSystem.h:67-86 | loading reads the chunk size, clamped, the count and that many chunks; a count that is not positive leaves no chunk |
| ChunkSystems.SaveChunkMap | Source/SimpleChunkSystem/Public/System/ChunkSystem.h:88-98 | the saving loop writes each chunk's coordinate and then the chunk |
| ChunkSystems.LoadChunkMap | Source/SimpleChunkSystem/Public/System/ChunkSystem.h:72-86 | the loading loop reads count (coordinate, chunk) pairs, each chunk into a fresh chunk |
| ChannelVisits.IndexedChunks | Source/SimpleChunkSystem/Public/System/ChunkSystem_DynamicData.h:674-693 | the distinct chunks the system index lists for the key |
| ChannelVisits.IndexedChunksHold | Source/SimpleChunkSystem/Public/System/ChunkSystem_DynamicData.h:705-713 | in a consistent system these are exactly the chunks with a cell holding the key, which is what the range's Num counts |
| ChannelVisits.FlattenEnumerates | Source/SimpleChunkSystem/Public/System/ChunkSystem_DynamicData.h:557-671 | the chained per-chunk ranges list every cell those indexes hold exactly once, with its stored value |
| ChannelVisits.VisitsHolding | Source/SimpleChunkSystem/Public/UnitTest/ChunkSystem_UnitTest.h:376-403 | the chained range lists every grid point holding the key with a set value exactly once, with its value |
| ChannelVisits.HoldingAt | Source/SimpleChunkSystem/Public/System/ChunkSystem.h:201-207 | in a consistent system only the chunk a point belongs to can hold its cell |
| ChannelVisits.RemovedChunkNotVisited | Source/SimpleChunkSystem/Public/UnitTest/ChunkSystem_UnitTest.h:1052-1064 | after a chunk is removed, the points holding the key are those that held it before outside that chunk |
| ChannelIteration.Clamp | Source/SimpleChunkSystem/Public/System/ChunkSystem_DynamicData.h:607 | the result lies in [lo, hi], equals v inside it and the nearer bound outside it |
| ChannelIteration.ChunkEntries | Source/SimpleChunkSystem/Public/System/ChunkSystem_DynamicData.h:592-602 | the per-chunk range lists each cell the chunk's index holds for the key once, with its value |
| ChannelIteration.BuildRanges | Source/SimpleChunkSystem/Public/System/ChunkSystem_DynamicData.h:567-609 | each distinct point whose chunk exists contributes its chunk's range; a point without a chunk is skipped |
| ChannelIteration.UniquePoints | Source/SimpleChunkSystem/Public/System/ChunkSystem_DynamicData.h:674-693 | the distinct points of what FindChannelLocations found, each once |
| ChannelIteration.ChannelIterator.constructor | Source/SimpleChunkSystem/Public/System/ChunkSystem_DynamicData.h:567-609 | the ranges of the existing chunks are built, the index is clamped to [0, number of ranges], and every range from there on is pending |
| ChannelIteration.ChannelIterator.SkipToValid | Source/SimpleChunkSystem/Public/System/ChunkSystem_DynamicData.h:657-663 | finished ranges are passed over and nothing pending is skipped |
| ChannelIteration.ChannelIterator.Next | Source/SimpleChunkSystem/Public/System/ChunkSystem_DynamicData.h:611-626 | the first pending entry is consumed; at the end nothing changes |
| ChannelIteration.ChannelIterator.IsValid | Source/SimpleChunkSystem/Public/System/ChunkSystem_DynamicData.h:638-641 | true exactly when something is pending |
| ChannelIteration.ChannelIterator.Current | Source/SimpleChunkSystem/Public/System/ChunkSystem_DynamicData.h:648-654 | the grid point and value of the first pending entry |
| ChannelIteration.ChannelRange.constructor | Source/SimpleChunkSystem/Public/System/ChunkSystem_DynamicData.h:674-693 | a null owner gives an empty range; otherwise the locations enumerate the distinct chunks the index lists for the key |
| ChannelIteration.ChannelRange.Num | Source/SimpleChunkSystem/Public/System/ChunkSystem_DynamicData.h:705-713 | the number of distinct chunks the range covers |
| ChannelIteration.ChannelRange.IsEmpty | Source/SimpleChunkSystem/Public/System/ChunkSystem_DynamicData.h:705-713 | true exactly when the range covers no chunk |
| ChannelIteration.ChannelRange.Begin | Source/SimpleChunkSystem/Public/System/ChunkSystem_DynamicData.h:695-703 | an iterator with every entry of every range pending |
| ChannelIteration.ChannelRange.End | Source/SimpleChunkSystem/Public/System/ChunkSystem_DynamicData.h:695-703 | an iterator past the last range, with nothing pending |
| ChannelIteration.ChannelIterator.Equals | Source/SimpleChunkSystem/Public/System/ChunkSystem_DynamicData.h:628-631 | equality compares the owner, the originating range (its key by address) and the chunk index; equal iterators walk the same key |
| ChannelIteration.EqualsEndIffDone | Source/SimpleChunkSystem/Public/System/ChunkSystem_DynamicData.h:628-631 | an iterator of a range equals that range's end() exactly when nothing is pending, so `it != end` ends the walk |
| ChannelIteration.BeginVisitsHolding | Source/SimpleChunkSystem/Public/UnitTest/ChunkSystem_UnitTest.h:1037-1050 | walking a consistent system's range visits every point holding the key exactly once, with its value; the step count is the number of such points |
| ChannelIteration.RangeWalkVisitsHolding | Source/SimpleChunkSystem/Public/System/ChunkSystem_DynamicData.h:551-719 | the iterator a range starts with will visit every holder of the key once |
| ChunkManagers.StructOf | Source/SimpleChunkSystem/Private/Manager/ChunkManager_DynamicData.cpp:88-95 | an empty value has no type; any other value has the type of what it holds |
| ChunkManagers.Copy | Source/SimpleChunkSystem/Private/Manager/ChunkManager_DynamicData.cpp:160-166 | a caller receives a record value equal to the stored record, or an empty value for an empty struct |
| ChunkManagers.SetAt | Source/SimpleChunkSystem/Private/Manager/ChunkManager_DynamicData.cpp:81-105 | afterwards the cell exists and holds the value under the key; the chunk size is kept and only the point's chunk may be new |
| ChunkManagers.SetAtKeeps | Source/SimpleChunkSystem/Private/Manager/ChunkManager_DynamicData.cpp:81-105 | setting a channel keeps a consistent system consistent |
| ChunkManagers.SetAtFrame | Source/SimpleChunkSystem/Private/Manager/ChunkManager_DynamicData.cpp:81-105 | setting a channel leaves every other grid point's cell as it was |
| ChunkManagers.SetAtOtherChannels | Source/SimpleChunkSystem/Private/Manager/ChunkManager_DynamicData.cpp:81-105 | setting a channel leaves every other channel of the same cell as it was |
| ChunkManagers.SetAtIdempotent | Source/SimpleChunkSystem/Private/Manager/ChunkManager_DynamicData.cpp:81-105 | setting the same value twice equals setting it once |
| ChunkManagers.Lookup | Source/SimpleChunkSystem/Private/Manager/ChunkManager_DynamicData.cpp:139-169 | a value exactly when the cell has the key, and then the value held |
| ChunkManagers.SetThenLookup | Source/SimpleChunkSystem/Private/Manager/ChunkManager_DynamicData.cpp:81-169 | a value set under a key is what a later lookup of that key finds |
| ChunkManagers.RemoveAllOverPoints | Source/SimpleChunkSystem/Private/Manager/ChunkManager_DynamicData.cpp:295-318 | removing over a set of points reports a removal exactly when some point had the key, and afterwards no point has it |
| ChunkManagers.ChunkManager.constructor | Source/SimpleChunkSystem/Public/Manager/ChunkManagerBase.h:16-27 | a manager starts without a system and with the default chunk size 15 |
| ChunkManagers.ChunkManager.Initialize | Source/SimpleChunkSystem/Private/Manager/ChunkManagerBase.cpp:6-12 | the parameters are stored, then a new empty system is created from them |
| ChunkManagers.ChunkManager.CreateChunkSystem | Source/SimpleChunkSystem/Private/Manager/ChunkManager_DynamicData.cpp:470-478 | the system becomes a new, empty, serialising system with the stored chunk size, clamped |
| ChunkManagers.ChunkManager.InitializeWithSharedContext | Source/SimpleChunkSystem/Private/Manager/ChunkManager_DynamicData.cpp:37-53 | nothing for a null source or an already shared system; otherwise both managers refer to the same system |
| ChunkManagers.ChunkManager.SetChannelDataByGridPoint | Source/SimpleChunkSystem/Private/Manager/ChunkManager_DynamicData.cpp:81-105 | no change without a system or for a value that is not a cell record; otherwise the system becomes SetAt for the value's channel |
| ChunkManagers.ChunkManager.GetChannelDataByGridPoint | Source/SimpleChunkSystem/Private/Manager/ChunkManager_DynamicData.cpp:139-169 | found exactly when there is a system, the type is a cell record type and the cell has the channel; then a copy of the value, otherwise an empty one |
| ChunkManagers.ChunkManager.GetChannelDataByGridPoints | Source/SimpleChunkSystem/Private/Manager/ChunkManager_DynamicData.cpp:203-233 | empty for no system, a bad type or no points; otherwise FindOrAddChannels, one copy per point, and every point then holds its value |
| ChunkManagers.ChunkManager.TryRemoveChannelByGridPoint | Source/SimpleChunkSystem/Private/Manager/ChunkManager_DynamicData.cpp:253-269 | false without change for no system or a bad type; otherwise true exactly when the cell had the channel, which it then lacks |
| ChunkManagers.ChunkManager.TryRemoveChannelByGridPoints | Source/SimpleChunkSystem/Private/Manager/ChunkManager_DynamicData.cpp:295-318 | false without change for no system, a bad type or no points; otherwise true exactly when some point had the channel, and then none has it |
| ChunkManagers.ChunkManager.HasChannelByGridPoint | Source/SimpleChunkSystem/Private/Manager/ChunkManager_DynamicData.cpp:338-354 | false for no system or a bad type; otherwise whether the cell has the channel |
| ChunkManagers.ChunkManager.HasChannelByGridPoints | Source/SimpleChunkSystem/Private/Manager/ChunkManager_DynamicData.cpp:380-402 | false for no system, a bad type or no points; otherwise whether every point has the channel |
| ChunkManagers.ChunkManager.IsEmpty | Source/SimpleChunkSystem/Private/Manager/ChunkManager_DynamicData.cpp:404-413 | false without a system; otherwise whether the system has no chunk |
| ChunkManagers.ChunkManager.Num | Source/SimpleChunkSystem/Private/Manager/ChunkManager_DynamicData.cpp:448-457 | INDEX_NONE (-1) without a system; otherwise the number of chunks |
| ChunkManagers.ChunkManager.Empty | Source/SimpleChunkSystem/Private/Manager/ChunkManager_DynamicData.cpp:415-424 | nothing without a system; otherwise every chunk goes and the chunk size stays |
| ChunkSubsystems.ChunkSubsystem.GetChunkManager | Source/SimpleChunkSystem/Private/Subsystem/ChunkSubsystem.cpp:49-65 | null for the None name or an unregistered name, otherwise the registered manager; the registry is only read |
| ChunkSubsystems.ChunkSubsystem.CreateChunkManager | Source/SimpleChunkSystem/Private/Subsystem/ChunkSubsystem.cpp:9-41 | null, with the registry unchanged, for the None name, a null class or a taken name; otherwise exactly one new name, mapped to a new initialised manager |
| ChunkSubsystems.ChunkSubsystem.FindOrCreateChunkManager | Source/SimpleChunkSystem/Private/Subsystem/ChunkSubsystem.cpp:43-47 | the registered manager, with the registry unchanged, when there is one; otherwise what CreateChunkManager does |
| ChunkSubsystems.ChunkSubsystem.RemoveChunkManager | Source/SimpleChunkSystem/Private/Subsystem/ChunkSubsystem.cpp:67-92 | false, with the registry unchanged, for the None name or an unregistered name; otherwise true, with exactly that name removed |

## Left out

- Archive: `FArchive` is not part of this model. It is a token stream in the `ArchiveIO` module, and a read past the end sets a sticky error flag.
- Type resolution: `FindObject`/`LoadObject` are not part of this model. They are a resolver parameter.
- Payloads: the payload types are the closed set of unit-test records. Other `FCellBaseInfo` children and `FChunkData_ObjectInfo` are out of scope.
- World positions: the `FVector` overloads, `ConvertWorldToGrid`/`ConvertGlobalLocationToGrid` and the world context are left out because they use floating point and engine state. Only the grid-point overloads are modelled.
- Integer width: integers are unbounded. int32 overflow is not modelled, including `DivFloor(INT_MIN, d)`, `(c+1)*s` in `GetChunkBounds` and the `MAX_int32` index end() passes. `Clamp` brings that index back to the number of ranges anyway.
- Capacity hints: `Reserve`/`Shrink` have no observable effect beyond capacity. They are left out at every level.
- Rendering and diagnostics: `DrawDebug`, logging and profiling scopes are left out.
- Thread-safe pointer modes: they are not modelled because nothing here is concurrent.
- Shared pointers and references: returned pointers and references are modelled as the values they designate.
  - An assignment through a returned reference is `WriteChannel`/`WriteAt`.
  - The iterator yields copies of the stored entries.
- Manager's system pointer: the manager's header declares a unique pointer, while its implementation shares the system with `MakeShared` and pointer assignment. The model follows the implementation, with one `ChunkSystem` object referred to by both managers.
- ChunkSystems.ChunkSystem.HasChannelInChunk: requires the chunk to exist, because the source indexes the chunk map without a check.
- Chunk cell delegations: the chunk-level delegations require the cell to exist, because the source indexes the cell map without a check.
- Per-chunk `IterateChannel` and `ChannelIndex`: they are used by the system's iterator but are not declared in Chunk_DynamicData.h (the header declares no chunk index). `ChunkEntries` models the per-chunk range as a walk over the chunk's index for the key.
- ChunkState.FindOrAdd: chunk-level registration, and its condition that the cell is registered exactly when the key was absent, are inferred from `RegisterChannelLocation` (Chunk_DynamicData.cpp:246-255), the per-chunk iteration tests (ChunkSystem_UnitTest.h:294-346) and the system's own `if (!HasChannel) Register` (ChunkSystem_DynamicData.h:146-151). `Chunk_DynamicData.h:165-168` only adds the channel to the cell. `ChunkState.PlaceholderEscapesIndex` depends on that condition.
- ChunkState.TryRemove: chunk-level unregistration is inferred in the same way. `Chunk_DynamicData.h:176-179` only removes the channel from the cell.
- DynamicChunks.Chunk.FindOrAddChannel: it carries the inferred registration of `ChunkState.FindOrAdd`.
- DynamicChunks.Chunk.TryRemoveChannel: it carries the inferred unregistration of `ChunkState.TryRemove`.
- CellCodec.SerializeCell: saving requires `Saveable`, which excludes a set value holding no struct (as `InitializeAs` with a null type gives). The source dereferences that null type at Chunk_DynamicData.cpp:87.
- ChunkCodec.ChunkSaveable: it lifts `Saveable` to every cell of a chunk, with the same exclusion.
- DynamicChunks.Chunk.Serialize: saving requires `ChunkSaveable`, with the same exclusion.
- ChunkSystems.ChunkSystem.Serialize: saving requires every chunk to be saveable, with the same exclusion. Loading models the corrected load, which clamps the chunk size to at least 1 (see Findings).
- Null-type logs: the add and remove logs at Chunk_DynamicData.h:87-88 and 118-119 dereference a null `Key.Type` when logging is compiled in. Logging is left out, so the model accepts a null type there.
- SystemCodec.DecodeSystem: it models the corrected load, with the chunk size clamped to at least 1. ChunkSystem.h:67 reads the size unclamped; `SystemCodec.DecodeSystemAsWritten` models that (see Findings).
- ChunkSystems.ReadSystem: it models the corrected, clamped load, as `DecodeSystem` does.
- ChunkSystems.ChunkSystem.LoadSystem: it models the corrected, clamped load, as `DecodeSystem` does.
- Older duplicates in `ChunkBase.h`: the older key, cell and chunk classes in `ChunkBase.h` are not modelled beyond the shared corner normalisation. The newer `Chunk_DynamicData` files are followed instead; the older cell serialiser also lacks the negative-count guard.
- Template overloads: the template `TStruct` overloads of Get/FindOrAdd/TryRemove/Has are the typed overloads with `TStruct::StaticStruct()` as the type. Only the typed overloads are modelled, except the template `HasChannel`, which does not check the chunk (`HasChannelInChunk`).
- SystemState.FindOrAddAtKeeps: index consistency is stated only for systems without placeholders, because the source neither registers nor unregisters an unset entry consistently.
- SystemState.TryRemoveAtKeeps: stated only for systems without placeholders, for the same reason.
- SystemState.AddAllKeeps: stated only for systems without placeholders, for the same reason.
- SystemState.RemoveAllKeeps: stated only for systems without placeholders, for the same reason.
- CellCodec.CellRoundTrip: requires every record type to resolve. An unresolved record leaves its fields unread and derails the rest of the load (`UnresolvedRecordDerailsNextEntry`).
- ChunkCodec.ChunkRoundTrip: requires every record type to resolve, for the same reason.
- SystemCodec.SystemRoundTrip: requires every record type to resolve, for the same reason.
- Manager lifecycle:
  - The manager's own `Serialize` is not modelled; `GetInitialParameters`, which it uses, is not part of this model.
  - The empty `OnInitialized` hook is not modelled.
  - The base class defines `Intitialize` while its header declares `Initialize`; the model has one `Initialize`.
- ChunkManagers.ChunkManager.GetChannelDataByGridPoints: the source declares it `const` although `FindOrAddChannels` adds missing channels. The model states the change to the system.
- Manager constraints: the wrapper struct's type check (`IsChildOf(FCellBaseInfo)`) is the predicate `IsCellRecordType` over the closed type set.
- Subsystem: `NewObject` failure, `ConditionalBeginDestroy` of a removed manager, the subsystem events and the world context are left out. The removal branch at ChunkSubsystem.cpp:84-91 cannot be reached after a successful find.

## Findings

| source | as written | input that shows it | evidently intended | confidence | as-written member | corrected member |
|---|---|---|---|---|---|---|
| Source/SimpleChunkSystem/Public/System/ChunkSystem.h:67 | loading reads `ChunkSize` straight from the archive, without the clamp the constructor applies | an archive whose chunk size token is 0: the system loads with chunk size 0, and every later `DivFloor` divides by zero | a loaded chunk size is clamped to at least 1, as the constructor does at ChunkSystem.h:42 | not executed | SystemCodec.AsWrittenLoadsZeroSize | SystemCodec.ClampedLoadsMinimumSize |
