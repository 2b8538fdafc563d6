/**
 * TChunkSystem_DynamicData (with the parts of TChunkSystemBase it uses) as
 * an object: the chunk size, the chunk map and the system channel index are
 * fields its methods update in place. Each method is proved against the
 * function of `SystemState` or `SystemCodec` that states what it does to the
 * system's value, and the properties of those functions are proved there.
 */
module ChunkSystems {
  import opened ChunkTypes
  import opened ArchiveIO
  import opened GridMath
  import opened CellInfo
  import opened CellCodec
  import opened ChunkState
  import opened ChunkCodec
  import opened DynamicChunks
  import opened SystemState
  import opened SystemCodec

  /** The chunk size TChunkSystem_DynamicData is given when the caller names none. */
  const DefaultDynamicChunkSize := 15

  class ChunkSystem {
    /** bIsSerialize: whether Serialize reads and writes anything. */
    const serializable: bool
    var chunkSize: int
    var chunks: Chunks
    var channelIndex: SystemIndex

    /** The system as a value. */
    function Value(): SystemValue
      reads this
    {
      SystemValue(chunkSize, chunks, channelIndex)
    }

    /** The constructor stores the given chunk size, raised to the minimum when below it. */
    constructor (inChunkSize: int, isSerialize: bool)
      ensures Value() == SystemValue(ClampChunkSize(inChunkSize), map[], map[]) && serializable == isSerialize
    {
      serializable := isSerialize;
      chunkSize := if inChunkSize < DefaultChunkSize then DefaultChunkSize else inChunkSize;
      chunks := map[];
      channelIndex := map[];
    }

    /** The constructor with its default chunk size. */
    constructor Default(isSerialize: bool)
      ensures Value() == SystemValue(DefaultDynamicChunkSize, map[], map[]) && serializable == isSerialize
    {
      serializable := isSerialize;
      chunkSize := DefaultDynamicChunkSize;
      chunks := map[];
      channelIndex := map[];
    }

    // ---------------------------------------------------------- chunks

    /** TryMakeChunk: false when the chunk exists; otherwise a chunk over its bounds is added. */
    method TryMakeChunk(c: Point) returns (made: bool)
      requires chunkSize >= 1
      modifies this
      ensures (Value(), made) == MakeChunk(old(Value()), c)
    {
      if c in chunks {
        return false;
      }
      var (tl, br) := ChunkBounds(c, chunkSize);
      var chunk := new Chunk(tl, br);
      chunks := chunks[c := chunk.Value()];
      made := true;
    }

    /** TryMakeChunkByGrid: TryMakeChunk for the chunk the grid point lies in. */
    method TryMakeChunkByGrid(p: Point) returns (made: bool)
      requires chunkSize >= 1
      modifies this
      ensures (Value(), made) == MakeChunk(old(Value()), ChunkOf(p, old(chunkSize)))
    {
      made := TryMakeChunk(ChunkOf(p, chunkSize));
    }

    /** TryRemoveChunk of the base system: false when the chunk is missing; otherwise only that chunk goes. */
    method TryRemoveChunk(c: Point) returns (removed: bool)
      modifies this
      ensures removed <==> c in old(chunks)
      ensures chunks == old(chunks) - {c}
      ensures chunkSize == old(chunkSize) && channelIndex == old(channelIndex)
    {
      if c !in chunks {
        return false;
      }
      chunks := chunks - {c};
      removed := true;
    }

    /**
     * TryRemoveChunkInternal: the listings of the chunk's index are taken out
     * of the system index, each unregistering the chunk its cell lies in, then
     * the chunk is removed. An index rebuilt from the chunks stays rebuilt
     * from those left; in a consistent system the result is RemoveChunk.
     */
    method TryRemoveChunkInternal(c: Point) returns (removed: bool)
      requires chunkSize >= 1
      modifies this
      ensures removed <==> c in old(chunks)
      ensures chunks == old(chunks) - {c} && chunkSize == old(chunkSize)
      ensures !removed ==> channelIndex == old(channelIndex)
      ensures removed ==> Unregistered(channelIndex, old(channelIndex), Lift(c, Pairs(old(chunks)[c].index)), chunkSize)
      ensures Tidy(old(channelIndex)) ==> Tidy(channelIndex)
      ensures Rebuilt(old(channelIndex), old(chunks), chunkSize) ==> Rebuilt(channelIndex, chunks, chunkSize)
      ensures Consistent(old(Value())) ==> (Value(), removed) == RemoveChunk(old(Value()), c)
    {
      if c !in chunks {
        return false;
      }
      ghost var sv := Value();
      RemoveChunkFromChannelIndex(chunks[c], c);
      if Rebuilt(sv.index, sv.chunks, chunkSize) {
        UnregisteredKeepsRebuilt(sv.index, channelIndex, sv.chunks, c, chunkSize);
      }
      if Consistent(sv) {
        PurgedIsDropped(sv, c, channelIndex);
      }
      removed := TryRemoveChunk(c);
    }

    /** TryRemoveChunkByGrid: TryRemoveChunkInternal for the chunk the grid point lies in. */
    method TryRemoveChunkByGrid(p: Point) returns (removed: bool)
      requires chunkSize >= 1
      modifies this
      ensures removed <==> ChunkOf(p, old(chunkSize)) in old(chunks)
      ensures chunks == old(chunks) - {ChunkOf(p, old(chunkSize))} && chunkSize == old(chunkSize)
      ensures !removed ==> channelIndex == old(channelIndex)
      ensures removed ==>
        Unregistered(channelIndex, old(channelIndex), Lift(ChunkOf(p, chunkSize), Pairs(old(chunks)[ChunkOf(p, chunkSize)].index)), chunkSize)
      ensures Tidy(old(channelIndex)) ==> Tidy(channelIndex)
      ensures Rebuilt(old(channelIndex), old(chunks), chunkSize) ==> Rebuilt(channelIndex, chunks, chunkSize)
      ensures Consistent(old(Value())) ==> (Value(), removed) == RemoveChunk(old(Value()), ChunkOf(p, old(chunkSize)))
    {
      removed := TryRemoveChunkInternal(ChunkOf(p, chunkSize));
    }

    /** Num: the number of chunks. */
    function Num(): (n: nat)
      reads this
      ensures n == |chunks.Keys|
    {
      |chunks|
    }

    /** IsEmpty: whether there is no chunk. */
    predicate IsEmpty()
      reads this
      ensures IsEmpty() <==> chunks == map[]
    {
      |chunks| == 0
    }

    /** Empty: every chunk goes, and the rebuilt index is empty. */
    method Empty()
      requires chunkSize >= 1
      modifies this
      ensures Value() == SystemValue(old(chunkSize), map[], map[])
    {
      chunks := map[];
      RebuildChannelIndex();
      NoChunksEmptyIndex(channelIndex);
    }

    // ---------------------------------------------------------- the system index

    /** RegisterChannelLocation: a null type is ignored; otherwise one more occurrence of the chunk under the key. */
    method RegisterChannelLocation(k: ChannelKey, c: Point)
      modifies this
      ensures channelIndex == SysRegister(old(channelIndex), k, c)
      ensures chunkSize == old(chunkSize) && chunks == old(chunks)
    {
      if k.typ.None? {
        return;
      }
      var locs := if k in channelIndex then channelIndex[k] else multiset{};
      channelIndex := channelIndex[k := locs + multiset{c}];
    }

    /**
     * UnregisterChannelLocation: a null type or a chunk not listed under the
     * key is ignored; removing the last occurrence drops the key, any other
     * removes one occurrence.
     */
    method UnregisterChannelLocation(k: ChannelKey, c: Point)
      modifies this
      ensures channelIndex == SysUnregister(old(channelIndex), k, c)
      ensures chunkSize == old(chunkSize) && chunks == old(chunks)
    {
      if k.typ.None? {
        return;
      }
      var locs := FindChannelLocations(k);
      if c in locs {
        if |locs| - 1 == 0 {
          SingleOccurrence(channelIndex[k], c);
          channelIndex := channelIndex - {k};
        } else {
          channelIndex := channelIndex[k := channelIndex[k] - multiset{c}];
        }
      }
    }

    /**
     * FindChannelLocations: every chunk listed under the key, as often as it
     * is listed; in a consistent system, once per cell of the chunk holding
     * the key.
     */
    method FindChannelLocations(k: ChannelKey) returns (locs: multiset<Point>)
      ensures forall c :: locs[c] == Mult(channelIndex, k, c)
      ensures k in channelIndex ==> locs == channelIndex[k]
      ensures Consistent(Value()) ==> forall c :: locs[c] == Size(chunks, c, k)
    {
      locs := if k in channelIndex then channelIndex[k] else multiset{};
    }

    /**
     * RemoveChunkFromChannelIndex: for every (key, cell) pair of the chunk's
     * index, the chunk the cell lies in is unregistered once under the key.
     */
    method RemoveChunkFromChannelIndex(cv: ChunkValue, ghost c: Point)
      requires chunkSize >= 1
      modifies this
      ensures chunks == old(chunks) && chunkSize == old(chunkSize)
      ensures Unregistered(channelIndex, old(channelIndex), Lift(c, Pairs(cv.index)), chunkSize)
      ensures Tidy(old(channelIndex)) ==> Tidy(channelIndex)
    {
      ghost var walked: set<(ChannelKey, Point)> := {};
      AllPairs(cv.index);
      NothingListed(channelIndex, c, chunkSize);
      var keys := cv.index.Keys;
      while keys != {}
        invariant keys <= cv.index.Keys && chunks == old(chunks) && chunkSize == old(chunkSize)
        invariant walked == Pairs(cv.index) - PairsOf(cv.index, keys)
        invariant Unregistered(channelIndex, old(channelIndex), Lift(c, walked), chunkSize)
        invariant Tidy(old(channelIndex)) ==> Tidy(channelIndex)
        decreases keys
      {
        var k :| k in keys;
        EnterKey(cv.index, keys, k);
        keys := keys - {k};
        var cells := cv.index[k];
        while cells != {}
          invariant cells <= cv.index[k] && chunks == old(chunks) && chunkSize == old(chunkSize)
          invariant walked == Pairs(cv.index) - (PairsOf(cv.index, keys) + KeyPairs(k, cells))
          invariant Unregistered(channelIndex, old(channelIndex), Lift(c, walked), chunkSize)
          invariant Tidy(old(channelIndex)) ==> Tidy(channelIndex)
          decreases cells
        {
          var q :| q in cells;
          WalkCell(cv.index, keys, k, cells, q, walked);
          LiftAdd(c, walked, (k, q));
          UnregisteredStep(channelIndex, old(channelIndex), Lift(c, walked), (c, k, q), chunkSize);
          UnregisterChannelLocation(k, ChunkOf(q, chunkSize));
          walked := walked + {(k, q)};
          cells := cells - {q};
        }
        assert KeyPairs(k, cells) == {};
      }
      assert walked == Pairs(cv.index);
    }

    /**
     * The loops of RebuildChannelIndex over one chunk's index: for every
     * (key, cell) pair, the chunk the cell lies in is registered once under
     * the key.
     */
    method RegisterChunkCells(cv: ChunkValue, ghost c: Point)
      requires chunkSize >= 1
      modifies this
      ensures chunks == old(chunks) && chunkSize == old(chunkSize)
      ensures Registered(channelIndex, old(channelIndex), Lift(c, Pairs(cv.index)), chunkSize)
      ensures Tidy(old(channelIndex)) ==> Tidy(channelIndex)
    {
      ghost var walked: set<(ChannelKey, Point)> := {};
      AllPairs(cv.index);
      NothingListed(channelIndex, c, chunkSize);
      var keys := cv.index.Keys;
      while keys != {}
        invariant keys <= cv.index.Keys && chunks == old(chunks) && chunkSize == old(chunkSize)
        invariant walked == Pairs(cv.index) - PairsOf(cv.index, keys)
        invariant Registered(channelIndex, old(channelIndex), Lift(c, walked), chunkSize)
        invariant Tidy(old(channelIndex)) ==> Tidy(channelIndex)
        decreases keys
      {
        var k :| k in keys;
        EnterKey(cv.index, keys, k);
        keys := keys - {k};
        var cells := cv.index[k];
        while cells != {}
          invariant cells <= cv.index[k] && chunks == old(chunks) && chunkSize == old(chunkSize)
          invariant walked == Pairs(cv.index) - (PairsOf(cv.index, keys) + KeyPairs(k, cells))
          invariant Registered(channelIndex, old(channelIndex), Lift(c, walked), chunkSize)
          invariant Tidy(old(channelIndex)) ==> Tidy(channelIndex)
          decreases cells
        {
          var q :| q in cells;
          WalkCell(cv.index, keys, k, cells, q, walked);
          LiftAdd(c, walked, (k, q));
          RegisteredStep(channelIndex, old(channelIndex), Lift(c, walked), (c, k, q), chunkSize);
          RegisterChannelLocation(k, ChunkOf(q, chunkSize));
          walked := walked + {(k, q)};
          cells := cells - {q};
        }
        assert KeyPairs(k, cells) == {};
      }
      assert walked == Pairs(cv.index);
    }

    /**
     * RebuildChannelIndex: the index is emptied, then every chunk's index
     * registers the chunks its cells lie in. The result is the index rebuilt
     * from the chunks; when every chunk's index lies inside the chunk, it is
     * the index matching the chunks.
     */
    method RebuildChannelIndex()
      requires chunkSize >= 1
      modifies this
      ensures chunks == old(chunks) && chunkSize == old(chunkSize)
      ensures Rebuilt(channelIndex, chunks, chunkSize)
      ensures (forall c | c in chunks :: IndexPlaced(chunks[c], c, chunkSize)) ==> SysMatches(channelIndex, chunks)
    {
      channelIndex := map[];
      ghost var done: set<Point> := {};
      NothingListed(map[], Point(0, 0), chunkSize);
      assert Listings(chunks, done) == {};
      var todo := chunks.Keys;
      while todo != {}
        invariant todo <= chunks.Keys && chunks == old(chunks) && chunkSize == old(chunkSize)
        invariant done == chunks.Keys - todo
        invariant Tidy(channelIndex) && Registered(channelIndex, map[], Listings(chunks, done), chunkSize)
        decreases todo
      {
        var c :| c in todo;
        ghost var before := channelIndex;
        RegisterChunkCells(chunks[c], c);
        ListingsStep(chunks, done, c);
        RegisteredJoin(channelIndex, before, map[], Listings(chunks, done), Lift(c, Pairs(chunks[c].index)), chunkSize);
        done := done + {c};
        todo := todo - {c};
      }
      assert done == chunks.Keys;
      if forall c | c in chunks :: IndexPlaced(chunks[c], c, chunkSize) {
        RebuiltIffMatches(channelIndex, chunks, chunkSize);
      }
    }

    // ---------------------------------------------------------- single points

    /** HasChannel with a type handle: false when the chunk is missing, otherwise whether the cell has the key. */
    method HasChannel(k: ChannelKey, p: Point) returns (b: bool)
      requires chunkSize >= 1 && CellExists(Value(), p)
      ensures b == HasAt(Value(), k, p)
    {
      var c := ChunkOf(p, chunkSize);
      if c !in chunks {
        return false;
      }
      b := HasChannelAt(chunks[c], k, p);
    }

    /** HasChannel<TStruct>: the chunk is looked up without checking that it exists. */
    method HasChannelInChunk(k: ChannelKey, p: Point) returns (b: bool)
      requires chunkSize >= 1 && ChunkOf(p, chunkSize) in chunks && p in chunks[ChunkOf(p, chunkSize)].cells
      ensures b == HasAt(Value(), k, p)
    {
      b := HasChannelAt(chunks[ChunkOf(p, chunkSize)], k, p);
    }

    /**
     * The tail of FindOrAddChannel in a chunk that exists: the chunk is
     * registered once more when the cell lacks the key, then the chunk finds
     * or adds the value.
     */
    method AddToChunk(k: ChannelKey, c: Point, p: Point) returns (v: InstancedStruct)
      requires chunkSize >= 1 && c == ChunkOf(p, chunkSize) && c in chunks && p in chunks[c].cells
      modifies this
      ensures (Value(), v) == AddInChunk(old(Value()), c, k, p)
    {
      var has := HasChannel(k, p);
      if !has {
        RegisterChannelLocation(k, c);
      }
      var (cv, w) := FindOrAdd(chunks[c], k, p);
      chunks := chunks[c := cv];
      v := w;
    }

    /** FindOrAddChannel: the chunk is made when missing, then the value is found or added in it. */
    method FindOrAddChannel(k: ChannelKey, p: Point) returns (v: InstancedStruct)
      requires chunkSize >= 1 && CellExists(Value(), p)
      modifies this
      ensures (Value(), v) == FindOrAddAt(old(Value()), k, p)
    {
      var c := ChunkOf(p, chunkSize);
      var _ := TryMakeChunk(c);
      assert p in chunks[c].cells;
      v := AddToChunk(k, c, p);
    }

    /** TryRemoveChannel in a chunk that exists: the chunk removes the key, and on success the chunk is unregistered once. */
    method RemoveInChunk(k: ChannelKey, c: Point, p: Point) returns (removed: bool)
      requires chunkSize >= 1 && c == ChunkOf(p, chunkSize) && c in chunks && p in chunks[c].cells
      modifies this
      ensures (Value(), removed) == TryRemoveAt(old(Value()), k, p)
    {
      var (cv, r) := TryRemove(chunks[c], k, p);
      if r {
        chunks := chunks[c := cv];
        UnregisterChannelLocation(k, c);
      }
      removed := r;
    }

    /** TryRemoveChannel: false when the chunk is missing; otherwise the chunk removes the key. */
    method TryRemoveChannel(k: ChannelKey, p: Point) returns (removed: bool)
      requires chunkSize >= 1 && CellExists(Value(), p)
      modifies this
      ensures (Value(), removed) == TryRemoveAt(old(Value()), k, p)
    {
      var c := ChunkOf(p, chunkSize);
      if c !in chunks {
        return false;
      }
      removed := RemoveInChunk(k, c, p);
    }

    /**
     * GetChannel: nothing when the chunk is missing or the cell lacks the key;
     * otherwise the chunk's FindOrAddChannel, which fills an unset placeholder.
     */
    method GetChannel(k: ChannelKey, p: Point) returns (v: Option<InstancedStruct>)
      requires chunkSize >= 1 && CellExists(Value(), p)
      modifies this
      ensures (Value(), v) == GetAt(old(Value()), k, p)
    {
      var c := ChunkOf(p, chunkSize);
      if c !in chunks {
        return None;
      }
      var has := HasChannel(k, p);
      if !has {
        return None;
      }
      var (cv, w) := FindOrAdd(chunks[c], k, p);
      chunks := chunks[c := cv];
      v := Some(w);
    }

    /**
     * An assignment through the reference FindOrAddChannel returned for k at
     * p: the cell's entry for k is set to v.
     */
    method WriteChannel(k: ChannelKey, p: Point, v: InstancedStruct)
      requires chunkSize >= 1 && CellExists(Value(), p) && HasAt(Value(), k, p)
      modifies this
      ensures Value() == WriteAt(old(Value()), k, p, v)
    {
      var c := ChunkOf(p, chunkSize);
      var cv := chunks[c];
      var cell := cv.cells[p];
      chunks := chunks[c := cv.(cells := cv.cells[p := Cell(cell.channels[k := Some(v)])])];
    }

    // ---------------------------------------------------------- sets of points

    /**
     * FindOrAddChannels: for each chunk the points fall into, the chunk is
     * made when missing, then the value is found or added at each of its
     * points. The points are visited once each, and the result is that of
     * FindOrAddChannel applied point by point in the visiting order.
     */
    method FindOrAddChannels(k: ChannelKey, locs: set<Point>) returns (vals: seq<InstancedStruct>, ghost order: seq<Point>)
      requires chunkSize >= 1 && forall q | q in locs :: CellExists(Value(), q)
      modifies this
      ensures IsEnumeration(order, locs) && CellsExist(old(Value()), order)
      ensures (Value(), vals) == AddAll(old(Value()), k, order)
      ensures |vals| == |locs|
    {
      ghost var sv0 := Value();
      ghost var walked: set<Point> := {};
      vals, order := [], [];
      var groups := SplitGridLocationsToChunks(locs, chunkSize);
      var todo := groups.Keys;
      AddWalkStart(sv0, k, locs, groups);
      while todo != {}
        invariant chunkSize == sv0.chunkSize
        invariant AddWalk(sv0, k, locs, groups, todo, walked, order, Value(), vals)
        decreases todo
      {
        var c :| c in todo;
        var group := groups[c];
        AddWalkGroup(sv0, k, locs, groups, todo, walked, order, Value(), vals, c);
        var _ := TryMakeChunk(c);
        ghost var g;
        ghost var vals0 := vals;
        vals, g := AddGroup(k, c, group, sv0, order, vals);
        AddWalkStep(sv0, k, locs, groups, todo, walked, order, vals0, c, g, Value(), vals);
        order := order + g;
        walked := walked + {c};
        todo := todo - {c};
      }
      AddWalkEnd(sv0, k, locs, groups, walked, order, Value(), vals);
    }

    /** The inner loop of FindOrAddChannels: the points of one chunk's group, each visited once. */
    method AddGroup(k: ChannelKey, c: Point, group: set<Point>, ghost sv0: SystemValue, ghost order0: seq<Point>,
                    vals0: seq<InstancedStruct>) returns (vals: seq<InstancedStruct>, ghost g: seq<Point>)
      requires chunkSize >= 1 && chunkSize == sv0.chunkSize && group != {}
      requires forall q | q in group :: CellExists(sv0, q) && ChunkOf(q, sv0.chunkSize) == c
      requires AddedIn(sv0, k, order0, Value(), vals0, c, false)
      modifies this
      ensures chunkSize == old(chunkSize) && IsEnumeration(g, group)
      ensures Added(sv0, k, order0 + g, Value(), vals)
    {
      vals, g := vals0, [];
      assert order0 + g == order0;
      var cells := group;
      while cells != {}
        invariant cells <= group && chunkSize == sv0.chunkSize && IsEnumeration(g, group - cells)
        invariant AddedIn(sv0, k, order0 + g, Value(), vals, c, cells != group)
        decreases cells
      {
        var q :| q in cells;
        AddedStep(sv0, k, order0 + g, Value(), vals, c, q);
        var v := AddToChunk(k, c, q);
        GroupStep(g, group, cells, q);
        SnocAssoc(order0, g, q);
        vals, g := vals + [v], g + [q];
        cells := cells - {q};
      }
      assert group - cells == group;
      LeaveGroup(sv0, k, order0 + g, Value(), vals, c);
    }

    /**
     * TryRemoveChannels: the chunks that are missing are skipped; in the
     * others the key is removed at each point. The points of existing chunks
     * are visited once each, the result is that of TryRemoveChannel applied
     * point by point in the visiting order, and it is true when any removal
     * succeeded.
     */
    method TryRemoveChannels(k: ChannelKey, locs: set<Point>) returns (removed: bool, ghost order: seq<Point>)
      requires chunkSize >= 1 && forall q | q in locs :: CellExists(Value(), q)
      modifies this
      ensures IsEnumeration(order, Present(locs, old(chunks).Keys, old(chunkSize))) && CellsExist(old(Value()), order)
      ensures (Value(), removed) == RemoveAll(old(Value()), k, order)
    {
      ghost var sv0 := Value();
      ghost var walked: set<Point> := {};
      removed, order := false, [];
      var groups := SplitGridLocationsToChunks(locs, chunkSize);
      var todo := groups.Keys;
      RemoveWalkStart(sv0, k, locs, groups);
      while todo != {}
        invariant chunkSize == sv0.chunkSize
        invariant RemoveWalk(sv0, k, locs, groups, todo, walked, order, Value(), removed)
        decreases todo
      {
        var c :| c in todo;
        var group := groups[c];
        if c in chunks {
          RemoveWalkGroup(sv0, k, locs, groups, todo, walked, order, Value(), removed, c);
          ghost var g;
          removed, g := RemoveGroup(k, c, group, sv0, order, removed);
          RemoveWalkStep(sv0, k, locs, groups, todo, walked, order, c, g, Value(), removed);
          order := order + g;
          walked := walked + {c};
        } else {
          RemoveWalkSkip(sv0, k, locs, groups, todo, walked, order, Value(), removed, c);
        }
        todo := todo - {c};
      }
      RemoveWalkEnd(sv0, k, locs, groups, walked, order, Value(), removed);
    }

    /** The inner loop of TryRemoveChannels: the points of one existing chunk's group, each visited once. */
    method RemoveGroup(k: ChannelKey, c: Point, group: set<Point>, ghost sv0: SystemValue, ghost order0: seq<Point>,
                       removed0: bool) returns (removed: bool, ghost g: seq<Point>)
      requires chunkSize >= 1 && chunkSize == sv0.chunkSize && c in chunks
      requires forall q | q in group :: CellExists(sv0, q) && ChunkOf(q, sv0.chunkSize) == c
      requires Removed(sv0, k, order0, Value(), removed0)
      modifies this
      ensures chunkSize == old(chunkSize) && IsEnumeration(g, group)
      ensures Removed(sv0, k, order0 + g, Value(), removed)
    {
      removed, g := removed0, [];
      assert order0 + g == order0;
      var cells := group;
      while cells != {}
        invariant cells <= group && chunkSize == sv0.chunkSize && IsEnumeration(g, group - cells)
        invariant Removed(sv0, k, order0 + g, Value(), removed)
        decreases cells
      {
        var q :| q in cells;
        RemovedStep(sv0, k, order0 + g, Value(), removed, q, c);
        var r := RemoveInChunk(k, c, q);
        GroupStep(g, group, cells, q);
        SnocAssoc(order0, g, q);
        removed, g := removed || r, g + [q];
        cells := cells - {q};
      }
      assert group - cells == group;
    }

    /**
     * HasChannels: false as soon as a chunk the points fall into is missing
     * or a point lacks the key; true when every point has it.
     */
    method HasChannels(k: ChannelKey, locs: set<Point>) returns (b: bool)
      requires chunkSize >= 1 && forall q | q in locs :: CellExists(Value(), q)
      ensures b == HasAll(Value(), k, locs)
    {
      ghost var walked: set<Point> := {};
      var groups := SplitGridLocationsToChunks(locs, chunkSize);
      SplitIsPartition(locs, chunkSize);
      var todo := groups.Keys;
      while todo != {}
        invariant todo <= groups.Keys && walked == groups.Keys - todo
        invariant forall q | q in Present(locs, walked, chunkSize) :: HasAt(Value(), k, q)
        decreases todo
      {
        var c :| c in todo;
        var group := groups[c];
        if c !in chunks {
          ghost var w :| w in group;
          assert !HasAt(Value(), k, w);
          return false;
        }
        var cells := group;
        while cells != {}
          invariant cells <= group
          invariant forall q | q in Present(locs, walked, chunkSize) + (group - cells) :: HasAt(Value(), k, q)
          decreases cells
        {
          var q :| q in cells;
          if !HasChannelAt(chunks[c], k, q) {
            return false;
          }
          cells := cells - {q};
        }
        PresentStep(locs, walked, c, chunkSize);
        walked := walked + {c};
        todo := todo - {c};
      }
      PresentAll(locs, groups.Keys, chunkSize);
      b := true;
    }

    // ---------------------------------------------------------- archives

    /**
     * Serialize: nothing when the system is not serialisable. Saving writes
     * the chunk size, the chunk count and every (coordinate, chunk) pair, each
     * chunk rebuilding its own index as it saves. Loading reads them back in
     * the same layout, with the chunk size clamped as the constructor clamps
     * it, then rebuilds the system index from the loaded chunks.
     */
    method Serialize(ar: Archive, r: Resolver) returns (ghost order: seq<Point>, ghost cos: ChunkOrders)
      requires chunkSize >= 1
      requires !ar.loading ==> forall c | c in chunks :: ChunkSaveable(chunks[c].cells)
      modifies this, ar
      ensures chunkSize >= 1
      ensures !serializable ==>
        Value() == old(Value()) && ar.data == old(ar.data) && ar.pos == old(ar.pos) && ar.error == old(ar.error)
      ensures serializable && !ar.loading ==>
        IsEnumeration(order, old(chunks).Keys) && ChunksOrder(old(chunks), order, cos) &&
        ar.data == old(ar.data) + EncodeSystem(old(Value()), order, cos) && ar.error == old(ar.error) &&
        Value() == old(Value()).(chunks := ReloadedAll(old(chunks)))
      ensures serializable && ar.loading ==> ar.data == old(ar.data)
      ensures serializable && ar.loading ==> Rebuilt(channelIndex, chunks, chunkSize)
      ensures serializable && ar.loading ==>
        (forall c | c in chunks :: IndexPlaced(chunks[c], c, chunkSize)) ==> SysMatches(channelIndex, chunks)
      ensures serializable && ar.loading && !old(ar.error) ==>
        SystemLoadedAs(ar.data, old(ar.pos), r, chunkSize, chunks, ar.pos, ar.error)
      ensures serializable && ar.loading && old(ar.error) ==> ar.error
    {
      order, cos := [], map[];
      if !serializable {
        return;
      }
      if !ar.loading {
        var reloaded;
        reloaded, order, cos := WriteSystem(ar, Value());
        chunks := reloaded;
        return;
      }
      LoadSystem(ar, r);
    }

    /** The loading half of Serialize. */
    method LoadSystem(ar: Archive, r: Resolver)
      requires ar.loading
      modifies this, ar
      ensures chunkSize >= 1 && ar.data == old(ar.data)
      ensures Rebuilt(channelIndex, chunks, chunkSize)
      ensures (forall c | c in chunks :: IndexPlaced(chunks[c], c, chunkSize)) ==> SysMatches(channelIndex, chunks)
      ensures !old(ar.error) ==> SystemLoadedAs(ar.data, old(ar.pos), r, chunkSize, chunks, ar.pos, ar.error)
      ensures old(ar.error) ==> ar.error
    {
      var size, loaded := ReadSystem(ar, chunkSize, |chunks|, r);
      chunkSize, chunks := size, loaded;
      RebuildChannelIndex();
    }
  }

  // ------------------------------------------------------------ bulk bookkeeping

  /** The points of locs whose chunk is among the given ones. */
  function Present(locs: set<Point>, within: set<Point>, s: int): set<Point>
    requires s >= 1
  {
    set q | q in locs && ChunkOf(q, s) in within
  }

  lemma PresentStep(locs: set<Point>, walked: set<Point>, c: Point, s: int)
    requires s >= 1 && c !in walked
    ensures Present(locs, walked + {c}, s) == Present(locs, walked, s) + PointsIn(locs, c, s)
    ensures Present(locs, walked, s) * PointsIn(locs, c, s) == {}
  {
  }

  lemma PresentAll(locs: set<Point>, chunks: set<Point>, s: int)
    requires s >= 1 && forall q | q in locs :: ChunkOf(q, s) in chunks
    ensures Present(locs, chunks, s) == locs
  {
  }

  lemma PresentWithin(locs: set<Point>, chunks: set<Point>, within: set<Point>, s: int)
    requires s >= 1 && forall q | q in locs :: ChunkOf(q, s) in chunks
    ensures Present(locs, chunks * within, s) == Present(locs, within, s)
  {
  }

  lemma HeadThenChunks(pre: seq<Token>, a: Token, b: Token, rest: seq<Token>)
    ensures pre + [a] + [b] + rest == pre + ([a, b] + rest)
  {
  }

  lemma GroupStep<K>(g: seq<K>, group: set<K>, cells: set<K>, q: K)
    requires IsEnumeration(g, group - cells) && q in cells && cells <= group
    ensures IsEnumeration(g + [q], group - (cells - {q}))
  {
    EnumerationSnoc(g, group - cells, q);
    assert (group - cells) + {q} == group - (cells - {q});
  }

  lemma SnocAssoc<K>(a: seq<K>, b: seq<K>, x: K)
    ensures a + b + [x] == a + (b + [x])
  {
  }

  /** Between two groups of FindOrAddChannels: the state is FindOrAddChannel applied along the order. */
  ghost predicate Added(sv0: SystemValue, k: ChannelKey, order: seq<Point>, cur: SystemValue, vals: seq<InstancedStruct>)
  {
    sv0.chunkSize >= 1 && CellsExist(sv0, order) && (cur, vals) == AddAll(sv0, k, order)
  }

  /**
   * Inside the group of chunk c: the same, with chunk c made first; once a
   * point of the group is done the chunk exists already.
   */
  ghost predicate AddedIn(sv0: SystemValue, k: ChannelKey, order: seq<Point>, cur: SystemValue,
                          vals: seq<InstancedStruct>, c: Point, started: bool)
  {
    sv0.chunkSize >= 1 && CellsExist(sv0, order) &&
    cur == MakeChunk(AddAll(sv0, k, order).0, c).0 && vals == AddAll(sv0, k, order).1 &&
    (started ==> c in AddAll(sv0, k, order).0.chunks)
  }

  lemma AddedStep(sv0: SystemValue, k: ChannelKey, order: seq<Point>, cur: SystemValue,
                  vals: seq<InstancedStruct>, c: Point, q: Point)
    requires AddedIn(sv0, k, order, cur, vals, c, false) && CellExists(sv0, q) && ChunkOf(q, sv0.chunkSize) == c
    ensures cur.chunkSize == sv0.chunkSize && c in cur.chunks && q in cur.chunks[c].cells
    ensures AddedIn(sv0, k, order + [q], AddInChunk(cur, c, k, q).0, vals + [AddInChunk(cur, c, k, q).1], c, true)
  {
    var a := AddAll(sv0, k, order).0;
    assert CellExists(a, q);
    assert CellsExist(sv0, order + [q]) by {
      forall i | 0 <= i < |order + [q]| ensures CellExists(sv0, (order + [q])[i]) {
        if i < |order| {
          assert (order + [q])[i] == order[i];
        }
      }
    }
    AddAllSnoc(sv0, k, order, q);
    AddInChunkHolds(cur, c, k, q);
  }

  lemma EnterGroup(sv0: SystemValue, k: ChannelKey, order: seq<Point>, cur: SystemValue,
                   vals: seq<InstancedStruct>, c: Point)
    requires Added(sv0, k, order, cur, vals)
    ensures cur.chunkSize >= 1 && AddedIn(sv0, k, order, MakeChunk(cur, c).0, vals, c, false)
  {
  }

  lemma LeaveGroup(sv0: SystemValue, k: ChannelKey, order: seq<Point>, cur: SystemValue,
                   vals: seq<InstancedStruct>, c: Point)
    requires AddedIn(sv0, k, order, cur, vals, c, true)
    ensures Added(sv0, k, order, cur, vals)
  {
  }

  /** Every point of locs lies in its chunk's cells wherever that chunk exists. */
  ghost predicate AllExist(sv: SystemValue, locs: set<Point>)
  {
    sv.chunkSize >= 1 && forall q | q in locs :: CellExists(sv, q)
  }

  /**
   * Between two groups of FindOrAddChannels: the groups of the chunks no
   * longer to do have been walked, their points enumerated by the order.
   */
  ghost predicate AddWalk(sv0: SystemValue, k: ChannelKey, locs: set<Point>, groups: map<Point, set<Point>>,
                          todo: set<Point>, walked: set<Point>, order: seq<Point>, cur: SystemValue, vals: seq<InstancedStruct>)
  {
    AllExist(sv0, locs) && groups == Split(locs, sv0.chunkSize) &&
    todo <= groups.Keys && walked == groups.Keys - todo &&
    IsEnumeration(order, Present(locs, walked, sv0.chunkSize)) && Added(sv0, k, order, cur, vals)
  }

  lemma AddWalkStart(sv0: SystemValue, k: ChannelKey, locs: set<Point>, groups: map<Point, set<Point>>)
    requires sv0.chunkSize >= 1 && (forall q | q in locs :: CellExists(sv0, q)) && groups == Split(locs, sv0.chunkSize)
    ensures AddWalk(sv0, k, locs, groups, groups.Keys, {}, [], sv0, [])
  {
  }

  /** The points of one group, and the state once its chunk is made. */
  lemma GroupFacts(sv0: SystemValue, locs: set<Point>, groups: map<Point, set<Point>>, c: Point)
    requires AllExist(sv0, locs) && groups == Split(locs, sv0.chunkSize) && c in groups
    ensures groups[c] != {} && forall q | q in groups[c] :: CellExists(sv0, q) && ChunkOf(q, sv0.chunkSize) == c
  {
    SplitIsPartition(locs, sv0.chunkSize);
  }

  lemma AddWalkGroup(sv0: SystemValue, k: ChannelKey, locs: set<Point>, groups: map<Point, set<Point>>,
                     todo: set<Point>, walked: set<Point>, order: seq<Point>, cur: SystemValue, vals: seq<InstancedStruct>, c: Point)
    requires AddWalk(sv0, k, locs, groups, todo, walked, order, cur, vals) && c in todo
    ensures cur.chunkSize == sv0.chunkSize && cur.chunkSize >= 1
    ensures groups[c] != {} && forall q | q in groups[c] :: CellExists(sv0, q) && ChunkOf(q, sv0.chunkSize) == c
    ensures AddedIn(sv0, k, order, MakeChunk(cur, c).0, vals, c, false)
  {
    GroupFacts(sv0, locs, groups, c);
    EnterGroup(sv0, k, order, cur, vals, c);
  }

  lemma AddWalkStep(sv0: SystemValue, k: ChannelKey, locs: set<Point>, groups: map<Point, set<Point>>,
                    todo: set<Point>, walked: set<Point>, order: seq<Point>, vals: seq<InstancedStruct>, c: Point,
                    g: seq<Point>, cur': SystemValue, vals': seq<InstancedStruct>)
    requires AllExist(sv0, locs) && groups == Split(locs, sv0.chunkSize) && todo <= groups.Keys && walked == groups.Keys - todo
    requires IsEnumeration(order, Present(locs, walked, sv0.chunkSize)) && c in todo
    requires IsEnumeration(g, groups[c]) && Added(sv0, k, order + g, cur', vals')
    ensures AddWalk(sv0, k, locs, groups, todo - {c}, walked + {c}, order + g, cur', vals')
  {
    PresentStep(locs, walked, c, sv0.chunkSize);
    EnumerationAppend(order, Present(locs, walked, sv0.chunkSize), g, groups[c]);
  }

  lemma AddWalkEnd(sv0: SystemValue, k: ChannelKey, locs: set<Point>, groups: map<Point, set<Point>>,
                   walked: set<Point>, order: seq<Point>, cur: SystemValue, vals: seq<InstancedStruct>)
    requires AddWalk(sv0, k, locs, groups, {}, walked, order, cur, vals)
    ensures IsEnumeration(order, locs) && CellsExist(sv0, order)
    ensures (cur, vals) == AddAll(sv0, k, order) && |vals| == |locs|
  {
    SplitIsPartition(locs, sv0.chunkSize);
    PresentAll(locs, groups.Keys, sv0.chunkSize);
    EnumerationLength(order, locs);
  }

  /**
   * Between two groups of TryRemoveChannels: the groups of the existing
   * chunks no longer to do have been walked, their points enumerated by the
   * order.
   */
  ghost predicate RemoveWalk(sv0: SystemValue, k: ChannelKey, locs: set<Point>, groups: map<Point, set<Point>>,
                             todo: set<Point>, walked: set<Point>, order: seq<Point>, cur: SystemValue, removed: bool)
  {
    AllExist(sv0, locs) && groups == Split(locs, sv0.chunkSize) &&
    todo <= groups.Keys && walked == (groups.Keys - todo) * sv0.chunks.Keys &&
    IsEnumeration(order, Present(locs, walked, sv0.chunkSize)) && Removed(sv0, k, order, cur, removed)
  }

  lemma RemoveWalkStart(sv0: SystemValue, k: ChannelKey, locs: set<Point>, groups: map<Point, set<Point>>)
    requires sv0.chunkSize >= 1 && (forall q | q in locs :: CellExists(sv0, q)) && groups == Split(locs, sv0.chunkSize)
    ensures RemoveWalk(sv0, k, locs, groups, groups.Keys, {}, [], sv0, false)
  {
  }

  lemma RemoveWalkGroup(sv0: SystemValue, k: ChannelKey, locs: set<Point>, groups: map<Point, set<Point>>,
                        todo: set<Point>, walked: set<Point>, order: seq<Point>, cur: SystemValue, removed: bool, c: Point)
    requires RemoveWalk(sv0, k, locs, groups, todo, walked, order, cur, removed) && c in todo && c in cur.chunks
    ensures cur.chunkSize == sv0.chunkSize && cur.chunkSize >= 1 && c in sv0.chunks
    ensures forall q | q in groups[c] :: CellExists(sv0, q) && ChunkOf(q, sv0.chunkSize) == c
  {
    GroupFacts(sv0, locs, groups, c);
    RemovedKeys(sv0, k, order, cur, removed);
  }

  lemma RemoveWalkStep(sv0: SystemValue, k: ChannelKey, locs: set<Point>, groups: map<Point, set<Point>>,
                       todo: set<Point>, walked: set<Point>, order: seq<Point>, c: Point,
                       g: seq<Point>, cur': SystemValue, removed': bool)
    requires AllExist(sv0, locs) && groups == Split(locs, sv0.chunkSize) && todo <= groups.Keys
    requires walked == (groups.Keys - todo) * sv0.chunks.Keys
    requires IsEnumeration(order, Present(locs, walked, sv0.chunkSize)) && c in todo && c in sv0.chunks
    requires IsEnumeration(g, groups[c]) && Removed(sv0, k, order + g, cur', removed')
    ensures RemoveWalk(sv0, k, locs, groups, todo - {c}, walked + {c}, order + g, cur', removed')
  {
    assert (groups.Keys - (todo - {c})) * sv0.chunks.Keys == walked + {c};
    PresentStep(locs, walked, c, sv0.chunkSize);
    EnumerationAppend(order, Present(locs, walked, sv0.chunkSize), g, groups[c]);
  }

  lemma RemoveWalkSkip(sv0: SystemValue, k: ChannelKey, locs: set<Point>, groups: map<Point, set<Point>>,
                       todo: set<Point>, walked: set<Point>, order: seq<Point>, cur: SystemValue, removed: bool, c: Point)
    requires RemoveWalk(sv0, k, locs, groups, todo, walked, order, cur, removed) && c in todo && c !in cur.chunks
    ensures RemoveWalk(sv0, k, locs, groups, todo - {c}, walked, order, cur, removed)
  {
    RemovedKeys(sv0, k, order, cur, removed);
  }

  lemma RemoveWalkEnd(sv0: SystemValue, k: ChannelKey, locs: set<Point>, groups: map<Point, set<Point>>,
                      walked: set<Point>, order: seq<Point>, cur: SystemValue, removed: bool)
    requires RemoveWalk(sv0, k, locs, groups, {}, walked, order, cur, removed)
    ensures IsEnumeration(order, Present(locs, sv0.chunks.Keys, sv0.chunkSize)) && CellsExist(sv0, order)
    ensures (cur, removed) == RemoveAll(sv0, k, order)
  {
    SplitIsPartition(locs, sv0.chunkSize);
    PresentWithin(locs, groups.Keys, sv0.chunks.Keys, sv0.chunkSize);
  }

  /** Between removals of TryRemoveChannels: the state is TryRemoveChannel applied along the order. */
  ghost predicate Removed(sv0: SystemValue, k: ChannelKey, order: seq<Point>, cur: SystemValue, removed: bool)
  {
    sv0.chunkSize >= 1 && CellsExist(sv0, order) && (cur, removed) == RemoveAll(sv0, k, order)
  }

  lemma RemovedStep(sv0: SystemValue, k: ChannelKey, order: seq<Point>, cur: SystemValue, removed: bool, q: Point, c: Point)
    requires Removed(sv0, k, order, cur, removed) && CellExists(sv0, q) && ChunkOf(q, sv0.chunkSize) == c && c in cur.chunks
    ensures cur.chunkSize == sv0.chunkSize && CellExists(cur, q) && q in cur.chunks[c].cells
    ensures Removed(sv0, k, order + [q], TryRemoveAt(cur, k, q).0, removed || TryRemoveAt(cur, k, q).1)
  {
    assert CellsExist(sv0, order + [q]) by {
      forall i | 0 <= i < |order + [q]| ensures CellExists(sv0, (order + [q])[i]) {
        if i < |order| {
          assert (order + [q])[i] == order[i];
        }
      }
    }
    RemoveAllSnoc(sv0, k, order, q);
  }

  lemma RemovedKeys(sv0: SystemValue, k: ChannelKey, order: seq<Point>, cur: SystemValue, removed: bool)
    requires Removed(sv0, k, order, cur, removed)
    ensures cur.chunks.Keys == sv0.chunks.Keys
  {
  }

  /** What saving writes: the chunk size, the chunk count, then the chunks. */
  method WriteSystem(ar: Archive, sv: SystemValue) returns (reloaded: Chunks, ghost order: seq<Point>, ghost cos: ChunkOrders)
    requires !ar.loading && forall c | c in sv.chunks :: ChunkSaveable(sv.chunks[c].cells)
    modifies ar
    ensures IsEnumeration(order, sv.chunks.Keys) && ChunksOrder(sv.chunks, order, cos)
    ensures ar.data == old(ar.data) + EncodeSystem(sv, order, cos) && ar.error == old(ar.error)
    ensures reloaded == ReloadedAll(sv.chunks)
  {
    var size := ar.SerializeInt(sv.chunkSize);
    var count := ar.SerializeInt(|sv.chunks|);
    reloaded, order, cos := SaveChunkMap(ar, sv.chunks);
    HeadThenChunks(old(ar.data), IntTok(sv.chunkSize), IntTok(|sv.chunks|), EncodeChunks(sv.chunks, order, cos));
  }

  /**
   * What loading reads: the chunk size, clamped as the constructor clamps
   * it, the chunk count, then that many chunks; a count that is not positive
   * leaves no chunk.
   */
  method ReadSystem(ar: Archive, size0: int, count0: int, r: Resolver) returns (size: int, loaded: Chunks)
    requires ar.loading
    modifies ar
    ensures size >= 1 && ar.data == old(ar.data)
    ensures !old(ar.error) ==> SystemLoadedAs(ar.data, old(ar.pos), r, size, loaded, ar.pos, ar.error)
    ensures old(ar.error) ==> ar.error
  {
    var s := ar.SerializeInt(size0);
    size := ClampChunkSize(s);
    var count := ar.SerializeInt(count0);
    if count <= 0 {
      loaded := map[];
    } else {
      loaded := LoadChunkMap(ar, count, r);
    }
  }

  /**
   * The saving loop of Serialize: each chunk's coordinate, then the chunk,
   * which rebuilds its own index as it saves.
   */
  method SaveChunkMap(ar: Archive, saved: Chunks) returns (reloaded: Chunks, ghost order: seq<Point>, ghost cos: ChunkOrders)
    requires !ar.loading && forall c | c in saved :: ChunkSaveable(saved[c].cells)
    modifies ar
    ensures IsEnumeration(order, saved.Keys) && ChunksOrder(saved, order, cos)
    ensures ar.data == old(ar.data) + EncodeChunks(saved, order, cos) && ar.error == old(ar.error)
    ensures reloaded == ReloadedAll(saved)
  {
    reloaded := saved;
    order, cos := [], map[];
    var remaining := saved.Keys;
    SavingStart(saved, ar.data);
    while remaining != {}
      invariant SavingChunks(saved, remaining, order, cos, old(ar.data), ar.data)
      invariant RebuiltUpTo(saved, remaining, reloaded)
      invariant ar.error == old(ar.error)
      decreases remaining
    {
      var c :| c in remaining;
      ghost var d0 := ar.data;
      var c' := ar.SerializePoint(c);
      SavingPick(saved, remaining, reloaded, c);
      ghost var o, co := SaveChunk(ar, reloaded[c]);
      SavingStep(saved, remaining, order, cos, old(ar.data), d0, c, o, co, ar.data);
      reloaded := reloaded[c := Reloaded(reloaded[c])];
      order, cos := order + [c], cos[c := (o, co)];
      remaining := remaining - {c};
    }
    SavingEnd(saved, order, cos, old(ar.data), ar.data, reloaded);
  }

  /** During the saving loop: the chunks not remaining are saved once each, in order, after pre. */
  ghost predicate SavingChunks(saved: Chunks, remaining: set<Point>, order: seq<Point>, cos: ChunkOrders,
                               pre: seq<Token>, data: seq<Token>)
  {
    remaining <= saved.Keys && IsEnumeration(order, saved.Keys - remaining) &&
    ChunksOrder(saved, order, cos) && data == pre + EncodeChunks(saved, order, cos)
  }

  /** During the saving loop: the chunks already saved have their index rebuilt, the others are as they were. */
  ghost predicate RebuiltUpTo(saved: Chunks, remaining: set<Point>, chunks: Chunks)
  {
    chunks.Keys == saved.Keys &&
    forall c | c in saved :: chunks[c] == if c in remaining then saved[c] else Reloaded(saved[c])
  }

  lemma SavingStart(saved: Chunks, pre: seq<Token>)
    ensures SavingChunks(saved, saved.Keys, [], map[], pre, pre) && RebuiltUpTo(saved, saved.Keys, saved)
  {
    assert saved.Keys - saved.Keys == {};
  }

  lemma SavingPick(saved: Chunks, remaining: set<Point>, chunks: Chunks, c: Point)
    requires RebuiltUpTo(saved, remaining, chunks) && c in remaining && remaining <= saved.Keys
    ensures c in chunks && chunks[c] == saved[c]
    ensures RebuiltUpTo(saved, remaining - {c}, chunks[c := Reloaded(chunks[c])])
  {
  }

  lemma SavingStep(saved: Chunks, remaining: set<Point>, order: seq<Point>, cos: ChunkOrders,
                   pre: seq<Token>, data: seq<Token>, c: Point, o: seq<Point>, co: CellOrders, data': seq<Token>)
    requires SavingChunks(saved, remaining, order, cos, pre, data) && c in remaining
    requires IsEnumeration(o, saved[c].cells.Keys) && CellsOrder(saved[c].cells, o, co)
    requires data' == data + EncodePoint(c) + EncodeChunk(saved[c], o, co)
    ensures SavingChunks(saved, remaining - {c}, order + [c], cos[c := (o, co)], pre, data')
  {
    EnumerationSnoc(order, saved.Keys - remaining, c);
    assert (saved.Keys - remaining) + {c} == saved.Keys - (remaining - {c});
    SaveChunksStep(pre, saved, order, cos, c, (o, co));
  }

  lemma SavingEnd(saved: Chunks, order: seq<Point>, cos: ChunkOrders, pre: seq<Token>, data: seq<Token>, chunks: Chunks)
    requires SavingChunks(saved, {}, order, cos, pre, data) && RebuiltUpTo(saved, {}, chunks)
    ensures IsEnumeration(order, saved.Keys) && chunks == ReloadedAll(saved)
  {
    assert saved.Keys - {} == saved.Keys;
  }

  /**
   * Partway through the loading loop: i pairs read into m, the rest still to
   * read from pos; an error set before the loop stays set.
   */
  ghost predicate LoadingChunks(t: seq<Token>, p0: nat, n: nat, i: nat, r: Resolver, m: Chunks, pos: nat,
                                error: bool, error0: bool)
  {
    i <= n && (error0 ==> error) &&
    (!error0 && !error ==> DecodeChunks(t, pos, n - i, r, m) == DecodeChunks(t, p0, n, r, map[])) &&
    (!error0 && error ==> DecodeChunks(t, p0, n, r, map[]).None?)
  }

  /** What the loading loop leaves: the n pairs decoded, or the error flag set. */
  ghost predicate ChunksLoaded(t: seq<Token>, p: nat, n: nat, r: Resolver, m: Chunks, pos: nat, error: bool)
  {
    match DecodeChunks(t, p, n, r, map[])
    case Some((d, next)) => m == d && pos == next && !error
    case None => error
  }

  lemma LoadingDone(t: seq<Token>, p0: nat, n: nat, r: Resolver, m: Chunks, pos: nat, error: bool, error0: bool)
    requires LoadingChunks(t, p0, n, n, r, m, pos, error, error0)
    ensures error0 ==> error
    ensures !error0 ==> ChunksLoaded(t, p0, n, r, m, pos, error)
  {
  }

  /** One turn of the loading loop: a coordinate read, then a chunk read into a fresh chunk. */
  lemma LoadChunksStep(t: seq<Token>, p0: nat, n: nat, i: nat, r: Resolver, m: Chunks, pos: nat, error: bool, error0: bool,
                       key: Point, pos1: nat, error1: bool, cv: ChunkValue, pos2: nat, error2: bool)
    requires LoadingChunks(t, p0, n, i, r, m, pos, error, error0) && i < n
    requires !error ==>
      match DecodePoint(t, pos)
      case Some((v, next)) => key == v && pos1 == next && !error1
      case None => error1
    requires error ==> error1
    requires !error1 ==> LoadedAs(t, pos1, r, LoadTarget(), cv, pos2, error2)
    requires error1 ==> error2
    ensures LoadingChunks(t, p0, n, i + 1, r, m[key := cv], pos2, error2, error0)
  {
  }

  /** One chunk of the loading loop: a fresh chunk with both corners at the origin reads itself. */
  method LoadOneChunk(ar: Archive, r: Resolver) returns (cv: ChunkValue)
    requires ar.loading
    modifies ar
    ensures ar.data == old(ar.data)
    ensures !old(ar.error) ==> LoadedAs(ar.data, old(ar.pos), r, LoadTarget(), cv, ar.pos, ar.error)
    ensures old(ar.error) ==> ar.error
  {
    var chunk := new Chunk(Point(0, 0), Point(0, 0));
    ghost var order, cos := chunk.Serialize(ar, r);
    cv := chunk.Value();
  }

  /**
   * The loading loop of Serialize: count (coordinate, chunk) pairs, each
   * chunk read into a fresh chunk with both corners at the origin.
   */
  method LoadChunkMap(ar: Archive, count: int, r: Resolver) returns (m: Chunks)
    requires ar.loading && count > 0
    modifies ar
    ensures ar.data == old(ar.data)
    ensures !old(ar.error) ==> ChunksLoaded(ar.data, old(ar.pos), count, r, m, ar.pos, ar.error)
    ensures old(ar.error) ==> ar.error
  {
    ghost var n: nat := count;
    ghost var t, p0, error0 := ar.data, ar.pos, ar.error;
    m := map[];
    var i := 0;
    while i < count
      invariant 0 <= i && ar.data == t
      invariant LoadingChunks(t, p0, n, i, r, m, ar.pos, ar.error, error0)
      decreases count - i
    {
      ghost var pos, error := ar.pos, ar.error;
      var key := ar.SerializePoint(Point(0, 0));
      ghost var pos1, error1 := ar.pos, ar.error;
      var cv := LoadOneChunk(ar, r);
      LoadChunksStep(t, p0, n, i, r, m, pos, error, error0, key, pos1, error1, cv, ar.pos, ar.error);
      m := m[key := cv];
      i := i + 1;
    }
    LoadingDone(t, p0, n, r, m, ar.pos, ar.error, error0);
  }

}
