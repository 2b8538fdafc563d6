/**
 * The state of the dynamic-data chunk system, as a value: the chunk size, the
 * chunks by chunk coordinate, and the system-wide channel index. The index is
 * a multimap from channel key to chunk coordinate, kept here as a multiset per
 * key: a chunk coordinate occurs once for every cell of that chunk that holds
 * the key with a set value. The single-point operations are functions from the
 * state before to the state after; the class in `ChunkSystems` performs them
 * and is proved against them.
 */
module SystemState {
  import opened ChunkTypes
  import opened GridMath
  import opened ChunkBase
  import opened CellInfo
  import opened ChunkState

  type Chunks = map<Point, ChunkValue>
  type SystemIndex = map<ChannelKey, multiset<Point>>

  datatype SystemValue = SystemValue(chunkSize: int, chunks: Chunks, index: SystemIndex)

  /** The chunk size the constructor stores: the given size, raised to the minimum when below it. */
  function ClampChunkSize(size: int): (s: int)
    ensures s >= DefaultChunkSize
    ensures size >= DefaultChunkSize ==> s == size
    ensures size < DefaultChunkSize ==> s == DefaultChunkSize
  {
    Max(size, DefaultChunkSize)
  }

  // ------------------------------------------------------------ the index

  /** How often chunk c is registered for key k. */
  function Mult(index: SystemIndex, k: ChannelKey, c: Point): nat
  {
    if k in index then index[k][c] else 0
  }

  /** How many cells of chunk c the chunk's own index lists for key k. */
  function Size(chunks: Chunks, c: Point, k: ChannelKey): nat
  {
    if c in chunks && k in chunks[c].index then |chunks[c].index[k]| else 0
  }

  /**
   * The system index agrees with the chunks' own indexes: it holds typed keys
   * and no empty multiset, and registers every chunk for every key exactly as
   * often as that chunk's index lists cells for the key.
   */
  ghost predicate SysMatches(index: SystemIndex, chunks: Chunks)
  {
    (forall k | k in index :: k.typ.Some? && index[k] != multiset{}) &&
    (forall k, c :: Mult(index, k, c) == Size(chunks, c, k))
  }

  /** RegisterChannelLocation of the system: a null type is ignored; otherwise one more occurrence of c. */
  function SysRegister(index: SystemIndex, k: ChannelKey, c: Point): (r: SystemIndex)
    ensures k.typ.Some? ==> Mult(r, k, c) == Mult(index, k, c) + 1
    ensures k.typ.None? ==> r == index
    ensures forall k', c' | k' != k || c' != c :: Mult(r, k', c') == Mult(index, k', c')
    ensures (forall k' | k' in index :: k'.typ.Some? && index[k'] != multiset{}) ==>
      (forall k' | k' in r :: k'.typ.Some? && r[k'] != multiset{})
  {
    if k.typ.None? then index
    else index[k := (if k in index then index[k] else multiset{}) + multiset{c}]
  }

  /**
   * UnregisterChannelLocation of the system: a null type or an unregistered
   * chunk is ignored; the last occurrence of a key drops the key, any other
   * removes one occurrence of c.
   */
  function SysUnregister(index: SystemIndex, k: ChannelKey, c: Point): (r: SystemIndex)
    ensures k.typ.Some? && Mult(index, k, c) > 0 ==> Mult(r, k, c) == Mult(index, k, c) - 1
    ensures k.typ.None? || Mult(index, k, c) == 0 ==> r == index
    ensures forall k', c' | k' != k || c' != c :: Mult(r, k', c') == Mult(index, k', c')
    ensures (forall k' | k' in index :: k'.typ.Some? && index[k'] != multiset{}) ==>
      (forall k' | k' in r :: k'.typ.Some? && r[k'] != multiset{})
  {
    if k.typ.None? || k !in index || c !in index[k] then index
    else if |index[k]| - 1 == 0 then
      SingleOccurrence(index[k], c);
      index - {k}
    else index[k := index[k] - multiset{c}]
  }

  lemma SingleOccurrence(m: multiset<Point>, c: Point)
    requires c in m && |m| == 1
    ensures m == multiset{c}
  {
    var rest := m - multiset{c};
    assert m == rest + multiset{c};
    assert |rest| == 0;
  }

  /** Changing a chunk without changing its index keeps the system index matching. */
  lemma SameIndexKeepsSys(index: SystemIndex, chunks: Chunks, c: Point, cv: ChunkValue)
    requires SysMatches(index, chunks) && c in chunks && cv.index == chunks[c].index
    ensures SysMatches(index, chunks[c := cv])
  {
    forall k, c' ensures Size(chunks[c := cv], c', k) == Size(chunks, c', k) {
    }
  }

  /** A chunk's new cell registered in its own index is registered once more for the chunk in the system index. */
  lemma RegisterKeepsSys(index: SystemIndex, chunks: Chunks, c: Point, k: ChannelKey, p: Point, cv: ChunkValue)
    requires SysMatches(index, chunks) && c in chunks
    requires k in chunks[c].index ==> p !in chunks[c].index[k]
    requires cv.index == Register(chunks[c].index, k, p)
    ensures SysMatches(SysRegister(index, k, c), chunks[c := cv])
  {
    var chunks' := chunks[c := cv];
    if k.typ.Some? {
      var before := if k in chunks[c].index then chunks[c].index[k] else {};
      assert cv.index[k] == before + {p};
      assert Size(chunks', c, k) == Size(chunks, c, k) + 1;
    }
    forall k', c' | k' != k || c' != c ensures Size(chunks', c', k') == Size(chunks, c', k') {
    }
  }

  /** A cell dropped from its chunk's index is dropped once for the chunk from the system index. */
  lemma UnregisterKeepsSys(index: SystemIndex, chunks: Chunks, c: Point, k: ChannelKey, p: Point, cv: ChunkValue)
    requires SysMatches(index, chunks) && c in chunks
    requires k in chunks[c].index && p in chunks[c].index[k]
    requires cv.index == Unregister(chunks[c].index, k, p)
    ensures SysMatches(SysUnregister(index, k, c), chunks[c := cv])
  {
    var chunks' := chunks[c := cv];
    assert k.typ.Some? by {
      assert Size(chunks, c, k) > 0;
    }
    assert Size(chunks', c, k) == Size(chunks, c, k) - 1 by {
      var s := chunks[c].index[k];
      assert |s - {p}| == |s| - 1;
    }
    forall k', c' | k' != k || c' != c ensures Size(chunks', c', k') == Size(chunks, c', k') {
    }
  }

  /** A chunk with an empty index contributes nothing, so adding or dropping one keeps the system index matching. */
  lemma EmptyIndexChunk(index: SystemIndex, chunks: Chunks, c: Point, cv: ChunkValue)
    requires cv.index == map[] && (c in chunks ==> chunks[c].index == map[])
    ensures SysMatches(index, chunks) <==> SysMatches(index, chunks[c := cv])
    ensures SysMatches(index, chunks) <==> SysMatches(index, chunks - {c})
  {
    forall k, c' ensures Size(chunks[c := cv], c', k) == Size(chunks, c', k) == Size(chunks - {c}, c', k) {
    }
  }

  // ------------------------------------------------------------ consistency

  /** The chunk's cells are exactly the grid points of its bounds. */
  ghost predicate CellsPlaced(cv: ChunkValue, c: Point, s: int)
    requires s >= 1
  {
    forall p :: p in cv.cells <==> ChunkOf(p, s) == c
  }

  /** A chunk as every operation but loading leaves it: placed, its index matching its cells, no placeholder. */
  ghost predicate ChunkOk(cv: ChunkValue, c: Point, s: int)
    requires s >= 1
  {
    CellsPlaced(cv, c, s) && IndexMatches(cv.index, cv.cells) && NoPlaceholders(cv.cells)
  }

  /** The system invariant: a valid chunk size, every chunk consistent, and the system index matching them. */
  ghost predicate Consistent(sv: SystemValue)
  {
    sv.chunkSize >= 1 &&
    (forall c | c in sv.chunks :: ChunkOk(sv.chunks[c], c, sv.chunkSize)) &&
    SysMatches(sv.index, sv.chunks)
  }

  /** The cell of grid point p exists whenever the chunk p belongs to does. */
  predicate CellExists(sv: SystemValue, p: Point)
    requires sv.chunkSize >= 1
  {
    ChunkOf(p, sv.chunkSize) in sv.chunks ==> p in sv.chunks[ChunkOf(p, sv.chunkSize)].cells
  }

  /** Every cell the chunk's index lists lies in the chunk's bounds, and the index is well formed. */
  ghost predicate IndexPlaced(cv: ChunkValue, c: Point, s: int)
    requires s >= 1
  {
    WellFormed(cv.index) && forall k, p | k in cv.index && p in cv.index[k] :: ChunkOf(p, s) == c
  }

  lemma OkIsIndexPlaced(cv: ChunkValue, c: Point, s: int)
    requires s >= 1 && ChunkOk(cv, c, s)
    ensures IndexPlaced(cv, c, s)
  {
    forall k, p | k in cv.index && p in cv.index[k] ensures ChunkOf(p, s) == c {
      assert p in Holders(cv.cells, k);
    }
  }

  // ------------------------------------------------------------ chunks

  /** The chunk TryMakeChunk creates for chunk coordinate c: one empty cell per point of its bounds. */
  function ChunkFor(c: Point, s: int): (cv: ChunkValue)
    requires s >= 1
    ensures cv.index == map[]
    ensures forall p :: p in cv.cells <==> ChunkOf(p, s) == c
    ensures forall p | p in cv.cells :: cv.cells[p] == EmptyCell
  {
    var (tl, br) := ChunkBounds(c, s);
    var cv := NewChunk(tl, br);
    assert (cv.topLeft, cv.bottomRight) == (tl, br);
    forall p ensures p in cv.cells <==> ChunkOf(p, s) == c {
      ChunkOfIffInBounds(p, c, s);
    }
    cv
  }

  /** TryMakeChunk: nothing when the chunk exists; otherwise exactly that chunk is added. */
  function MakeChunk(sv: SystemValue, c: Point): (r: (SystemValue, bool))
    requires sv.chunkSize >= 1
    ensures c in r.0.chunks && r.0.chunkSize == sv.chunkSize && r.0.index == sv.index
    ensures r.1 <==> c !in sv.chunks
    ensures !r.1 ==> r.0 == sv
    ensures r.1 ==> r.0 == sv.(chunks := sv.chunks[c := ChunkFor(c, sv.chunkSize)])
  {
    if c in sv.chunks then (sv, false)
    else (sv.(chunks := sv.chunks[c := ChunkFor(c, sv.chunkSize)]), true)
  }

  /** A new chunk is consistent and adds nothing to the system index. */
  lemma MakeChunkKeeps(sv: SystemValue, c: Point)
    requires Consistent(sv)
    ensures Consistent(MakeChunk(sv, c).0)
    ensures forall p | ChunkOf(p, sv.chunkSize) == c :: CellExists(MakeChunk(sv, c).0, p)
  {
    if c !in sv.chunks {
      var s := sv.chunkSize;
      var cv := ChunkFor(c, s);
      assert IndexMatches(cv.index, cv.cells) by {
        forall p, k | p in cv.cells && HoldsValue(cv.cells[p], k) ensures false {
        }
      }
      EmptyIndexChunk(sv.index, sv.chunks, c, cv);
    }
  }

  // ------------------------------------------------------------ single-point operations

  /** HasChannel of the system: the chunk exists and the cell contains the key. */
  predicate HasAt(sv: SystemValue, k: ChannelKey, p: Point)
    requires sv.chunkSize >= 1 && CellExists(sv, p)
  {
    var c := ChunkOf(p, sv.chunkSize);
    c in sv.chunks && HasChannelAt(sv.chunks[c], k, p)
  }

  /**
   * FindOrAddChannel of the system: makes the chunk if missing, then adds
   * in that chunk.
   */
  function FindOrAddAt(sv: SystemValue, k: ChannelKey, p: Point): (r: (SystemValue, InstancedStruct))
    requires sv.chunkSize >= 1 && CellExists(sv, p)
  {
    var c := ChunkOf(p, sv.chunkSize);
    var made := MakeChunk(sv, c).0;
    assert p in made.chunks[c].cells;
    AddInChunk(made, c, k, p)
  }

  /**
   * The chunk is registered once more when the cell lacked the key, then
   * FindOrAddChannel on the chunk.
   */
  function AddInChunk(sv: SystemValue, c: Point, k: ChannelKey, p: Point): (r: (SystemValue, InstancedStruct))
    requires c in sv.chunks && p in sv.chunks[c].cells
  {
    var index := if HasChannelAt(sv.chunks[c], k, p) then sv.index else SysRegister(sv.index, k, c);
    var (cv, v) := FindOrAdd(sv.chunks[c], k, p);
    (sv.(chunks := sv.chunks[c := cv], index := index), v)
  }

  /**
   * TryRemoveChannel of the system: false when the chunk is missing;
   * otherwise TryRemoveChannel on the chunk, and one occurrence of the chunk
   * unregistered when something was removed.
   */
  function TryRemoveAt(sv: SystemValue, k: ChannelKey, p: Point): (r: (SystemValue, bool))
    requires sv.chunkSize >= 1 && CellExists(sv, p)
    ensures r.1 <==> HasAt(sv, k, p)
    ensures !r.1 ==> r.0 == sv
    ensures r.0.chunkSize == sv.chunkSize && r.0.chunks.Keys == sv.chunks.Keys
  {
    var c := ChunkOf(p, sv.chunkSize);
    if c !in sv.chunks then (sv, false)
    else
      var (cv, removed) := TryRemove(sv.chunks[c], k, p);
      if removed then (sv.(chunks := sv.chunks[c := cv], index := SysUnregister(sv.index, k, c)), true)
      else (sv, false)
  }

  /**
   * GetChannel of the system: nothing when the chunk is missing or the cell
   * lacks the key; otherwise FindOrAddChannel on the chunk, which fills an
   * unset placeholder with a default value.
   */
  function GetAt(sv: SystemValue, k: ChannelKey, p: Point): (r: (SystemValue, Option<InstancedStruct>))
    requires sv.chunkSize >= 1 && CellExists(sv, p)
    ensures r.1.None? <==> !HasAt(sv, k, p)
    ensures r.1.None? ==> r.0 == sv
  {
    var c := ChunkOf(p, sv.chunkSize);
    if c !in sv.chunks || !HasChannelAt(sv.chunks[c], k, p) then (sv, None)
    else
      var (cv, v) := FindOrAdd(sv.chunks[c], k, p);
      (sv.(chunks := sv.chunks[c := cv]), Some(v))
  }

  // ------------------------------------------------------------ properties of the operations

  /** Replacing one chunk by a consistent one, with an index matching the result, keeps the system consistent. */
  lemma ReplaceChunkKeeps(sv: SystemValue, c: Point, cv: ChunkValue, index: SystemIndex)
    requires Consistent(sv) && ChunkOk(cv, c, sv.chunkSize)
    requires SysMatches(index, sv.chunks[c := cv])
    ensures Consistent(sv.(chunks := sv.chunks[c := cv], index := index))
  {
  }

  /** FindOrAddChannel on a chunk keeps the chunk consistent. */
  lemma FindOrAddChunkOk(cv: ChunkValue, c: Point, s: int, k: ChannelKey, p: Point)
    requires s >= 1 && ChunkOk(cv, c, s) && p in cv.cells
    ensures ChunkOk(FindOrAdd(cv, k, p).0, c, s)
  {
    assert !PlaceholderAt(cv.cells, k, p);
    FindOrAddKeepsIndex(cv, k, p);
    FindOrAddNoPlaceholders(cv, k, p);
  }

  /** TryRemoveChannel on a chunk keeps the chunk consistent. */
  lemma TryRemoveChunkOk(cv: ChunkValue, c: Point, s: int, k: ChannelKey, p: Point)
    requires s >= 1 && ChunkOk(cv, c, s) && p in cv.cells
    ensures ChunkOk(TryRemove(cv, k, p).0, c, s)
  {
    assert !PlaceholderAt(cv.cells, k, p);
    TryRemoveKeepsIndex(cv, k, p);
    TryRemoveNoPlaceholders(cv, k, p);
  }

  /** The system index FindOrAddChannel computes matches the chunks it leaves. */
  lemma FindOrAddSys(index: SystemIndex, chunks: Chunks, c: Point, k: ChannelKey, p: Point)
    requires SysMatches(index, chunks) && c in chunks && p in chunks[c].cells
    requires IndexMatches(chunks[c].index, chunks[c].cells)
    ensures SysMatches(if HasChannelAt(chunks[c], k, p) then index else SysRegister(index, k, c),
                       chunks[c := FindOrAdd(chunks[c], k, p).0])
  {
    var old_ := chunks[c];
    var cv := FindOrAdd(old_, k, p).0;
    if HasChannelAt(old_, k, p) {
      SameIndexKeepsSys(index, chunks, c, cv);
    } else {
      assert p !in Holders(old_.cells, k);
      assert k in old_.index ==> old_.index[k] == Holders(old_.cells, k);
      RegisterKeepsSys(index, chunks, c, k, p, cv);
    }
  }

  /** The system index TryRemoveChannel computes matches the chunks it leaves. */
  lemma TryRemoveSys(index: SystemIndex, chunks: Chunks, c: Point, k: ChannelKey, p: Point)
    requires SysMatches(index, chunks) && c in chunks && p in chunks[c].cells
    requires IndexMatches(chunks[c].index, chunks[c].cells)
    requires HasChannelAt(chunks[c], k, p) && !PlaceholderAt(chunks[c].cells, k, p)
    ensures SysMatches(SysUnregister(index, k, c), chunks[c := TryRemove(chunks[c], k, p).0])
  {
    var old_ := chunks[c];
    var cv := TryRemove(old_, k, p).0;
    if k.typ.Some? {
      assert p in Holders(old_.cells, k);
      UnregisterKeepsSys(index, chunks, c, k, p, cv);
    } else {
      assert k !in old_.index;
      assert cv.index == old_.index;
      SameIndexKeepsSys(index, chunks, c, cv);
    }
  }

  /** FindOrAddChannel keeps the system consistent. */
  lemma FindOrAddAtKeeps(sv: SystemValue, k: ChannelKey, p: Point)
    requires Consistent(sv) && CellExists(sv, p)
    ensures Consistent(FindOrAddAt(sv, k, p).0)
  {
    var s := sv.chunkSize;
    var c := ChunkOf(p, s);
    MakeChunkKeeps(sv, c);
    var made := MakeChunk(sv, c).0;
    assert ChunkOk(made.chunks[c], c, s);
    assert p in made.chunks[c].cells;
    FindOrAddChunkOk(made.chunks[c], c, s, k, p);
    FindOrAddSys(made.index, made.chunks, c, k, p);
    var index := if HasChannelAt(made.chunks[c], k, p) then made.index else SysRegister(made.index, k, c);
    ReplaceChunkKeeps(made, c, FindOrAdd(made.chunks[c], k, p).0, index);
  }

  /** FindOrAddChannel leaves no placeholder where there was none. */
  lemma FindOrAddNoPlaceholders(cv: ChunkValue, k: ChannelKey, p: Point)
    requires p in cv.cells && NoPlaceholders(cv.cells)
    ensures NoPlaceholders(FindOrAdd(cv, k, p).0.cells)
  {
    var cells' := FindOrAdd(cv, k, p).0.cells;
    forall q, k' | q in cells' && k' in cells'[q].channels ensures cells'[q].channels[k'].Some? {
      if q != p || k' != k {
        assert k' in cv.cells[q].channels;
      }
    }
  }

  /** TryRemoveChannel leaves no placeholder where there was none. */
  lemma TryRemoveNoPlaceholders(cv: ChunkValue, k: ChannelKey, p: Point)
    requires p in cv.cells && NoPlaceholders(cv.cells)
    ensures NoPlaceholders(TryRemove(cv, k, p).0.cells)
  {
    var cells' := TryRemove(cv, k, p).0.cells;
    forall q, k' | q in cells' && k' in cells'[q].channels ensures cells'[q].channels[k'].Some? {
      assert k' in cv.cells[q].channels;
    }
  }

  /** After FindOrAddChannel the cell holds the key with the value returned, and only the chunk of p may be new. */
  lemma FindOrAddAtHolds(sv: SystemValue, k: ChannelKey, p: Point)
    requires sv.chunkSize >= 1 && CellExists(sv, p)
    ensures var (r, v) := FindOrAddAt(sv, k, p);
      var c := ChunkOf(p, sv.chunkSize);
      r.chunkSize == sv.chunkSize && r.chunks.Keys == sv.chunks.Keys + {c} &&
      CellExists(r, p) && HasAt(r, k, p) && r.chunks[c].cells[p].channels[k] == Some(v)
  {
    var c := ChunkOf(p, sv.chunkSize);
    var made := MakeChunk(sv, c).0;
    assert made.chunks.Keys == sv.chunks.Keys + {c};
    assert p in made.chunks[c].cells;
    AddInChunkHolds(made, c, k, p);
  }

  /** Adding in an existing chunk keeps the chunks and leaves the cell holding the value returned. */
  lemma AddInChunkHolds(sv: SystemValue, c: Point, k: ChannelKey, p: Point)
    requires c in sv.chunks && p in sv.chunks[c].cells
    ensures var (r, v) := AddInChunk(sv, c, k, p);
      r.chunkSize == sv.chunkSize && r.chunks.Keys == sv.chunks.Keys &&
      p in r.chunks[c].cells && HasChannelAt(r.chunks[c], k, p) && r.chunks[c].cells[p].channels[k] == Some(v)
  {
  }

  /**
   * FindOrAddChannel registers the chunk of p once more exactly when the cell
   * lacked the key and the type is not null; every other count is unchanged.
   */
  lemma FindOrAddAtRegisters(sv: SystemValue, k: ChannelKey, p: Point)
    requires sv.chunkSize >= 1 && CellExists(sv, p)
    ensures var r := FindOrAddAt(sv, k, p).0;
      var c := ChunkOf(p, sv.chunkSize);
      Mult(r.index, k, c) == Mult(sv.index, k, c) + (if k.typ.Some? && !HasAt(sv, k, p) then 1 else 0) &&
      (forall k', c' | k' != k || c' != c :: Mult(r.index, k', c') == Mult(sv.index, k', c'))
  {
    var c := ChunkOf(p, sv.chunkSize);
    var made := MakeChunk(sv, c).0;
    assert p in made.chunks[c].cells;
    assert HasChannelAt(made.chunks[c], k, p) == HasAt(sv, k, p);
  }

  /** FindOrAddChannel leaves every other cell of every chunk as it was. */
  lemma FindOrAddAtFrame(sv: SystemValue, k: ChannelKey, p: Point)
    requires sv.chunkSize >= 1 && CellExists(sv, p)
    ensures var r := FindOrAddAt(sv, k, p).0;
      var c := ChunkOf(p, sv.chunkSize);
      forall c', q | c' in sv.chunks && q in sv.chunks[c'].cells && (c' != c || q != p) ::
        c' in r.chunks && q in r.chunks[c'].cells && r.chunks[c'].cells[q] == sv.chunks[c'].cells[q]
  {
    var c := ChunkOf(p, sv.chunkSize);
    var made := MakeChunk(sv, c).0;
    assert p in made.chunks[c].cells;
  }

  /** A second FindOrAddChannel at the same cell finds what the first left: nothing changes and the index does not grow. */
  lemma FindOrAddAtIdempotent(sv: SystemValue, k: ChannelKey, p: Point)
    requires sv.chunkSize >= 1 && CellExists(sv, p)
    ensures var (r, v) := FindOrAddAt(sv, k, p);
      CellExists(r, p) && FindOrAddAt(r, k, p) == (r, v)
  {
    var c := ChunkOf(p, sv.chunkSize);
    var (r, v) := FindOrAddAt(sv, k, p);
    FindOrAddAtHolds(sv, k, p);
    assert MakeChunk(r, c).0 == r;
    AddInChunkFinds(r, c, k, p);
  }

  /** Adding in a chunk keeps every chunk and the cells of each. */
  lemma AddInChunkKeepsCells(sv: SystemValue, c: Point, k: ChannelKey, p: Point)
    requires c in sv.chunks && p in sv.chunks[c].cells
    ensures var r := AddInChunk(sv, c, k, p).0;
      r.chunkSize == sv.chunkSize && r.chunks.Keys == sv.chunks.Keys &&
      forall c' | c' in sv.chunks :: r.chunks[c'].cells.Keys == sv.chunks[c'].cells.Keys
  {
  }

  /** Adding in a chunk whose cell already holds a value returns that value and changes nothing. */
  lemma AddInChunkFinds(sv: SystemValue, c: Point, k: ChannelKey, p: Point)
    requires c in sv.chunks && p in sv.chunks[c].cells && HoldsValue(sv.chunks[c].cells[p], k)
    ensures AddInChunk(sv, c, k, p) == (sv, sv.chunks[c].cells[p].channels[k].value)
  {
    var cv := sv.chunks[c];
    assert sv.chunks[c := cv] == sv.chunks;
  }

  /** TryRemoveChannel keeps the system consistent. */
  lemma TryRemoveAtKeeps(sv: SystemValue, k: ChannelKey, p: Point)
    requires Consistent(sv) && CellExists(sv, p)
    ensures Consistent(TryRemoveAt(sv, k, p).0)
  {
    var s := sv.chunkSize;
    var c := ChunkOf(p, s);
    if c in sv.chunks && HasChannelAt(sv.chunks[c], k, p) {
      assert ChunkOk(sv.chunks[c], c, s);
      TryRemoveChunkOk(sv.chunks[c], c, s, k, p);
      assert !PlaceholderAt(sv.chunks[c].cells, k, p);
      TryRemoveSys(sv.index, sv.chunks, c, k, p);
      ReplaceChunkKeeps(sv, c, TryRemove(sv.chunks[c], k, p).0, SysUnregister(sv.index, k, c));
    }
  }

  /**
   * After TryRemoveChannel the cell lacks the key; when something was removed
   * and the type is not null, the chunk is registered once less.
   */
  lemma TryRemoveAtEffect(sv: SystemValue, k: ChannelKey, p: Point)
    requires Consistent(sv) && CellExists(sv, p)
    ensures var (r, removed) := TryRemoveAt(sv, k, p);
      var c := ChunkOf(p, sv.chunkSize);
      CellExists(r, p) && !HasAt(r, k, p) &&
      Mult(r.index, k, c) == Mult(sv.index, k, c) - (if removed && k.typ.Some? then 1 else 0) &&
      (forall k', c' | k' != k || c' != c :: Mult(r.index, k', c') == Mult(sv.index, k', c'))
  {
    var c := ChunkOf(p, sv.chunkSize);
    if c in sv.chunks && HasAt(sv, k, p) && k.typ.Some? {
      var old_ := sv.chunks[c];
      assert HoldsValue(old_.cells[p], k);
      assert p in Holders(old_.cells, k);
      assert Mult(sv.index, k, c) == Size(sv.chunks, c, k) > 0;
    }
  }

  /** In a consistent system every grid point's cell exists once its chunk does. */
  lemma ConsistentCellExists(sv: SystemValue, p: Point)
    requires Consistent(sv)
    ensures CellExists(sv, p)
  {
    var c := ChunkOf(p, sv.chunkSize);
    if c in sv.chunks {
      assert CellsPlaced(sv.chunks[c], c, sv.chunkSize);
    }
  }

  /** In a consistent system GetChannel changes nothing and gives the value held, exactly when HasChannel holds. */
  lemma GetAtReads(sv: SystemValue, k: ChannelKey, p: Point)
    requires Consistent(sv) && CellExists(sv, p)
    ensures var (r, v) := GetAt(sv, k, p);
      r == sv && (v.Some? <==> HasAt(sv, k, p)) &&
      (v.Some? ==> sv.chunks[ChunkOf(p, sv.chunkSize)].cells[p].channels[k] == Some(v.value))
  {
    var c := ChunkOf(p, sv.chunkSize);
    if c in sv.chunks && HasChannelAt(sv.chunks[c], k, p) {
      assert HoldsValue(sv.chunks[c].cells[p], k);
    }
  }

  /** In a consistent system, a chunk that does not exist is registered for no key. */
  lemma MissingChunkUnregistered(sv: SystemValue, k: ChannelKey, c: Point)
    requires Consistent(sv) && c !in sv.chunks
    ensures Mult(sv.index, k, c) == 0
  {
  }

  /** In a consistent system the index counts, for every key and chunk, the cells of that chunk holding the key with a set value. */
  lemma IndexCountsHolders(sv: SystemValue, k: ChannelKey, c: Point)
    requires Consistent(sv) && c in sv.chunks && k.typ.Some?
    ensures Mult(sv.index, k, c) == |Holders(sv.chunks[c].cells, k)|
  {
    var cv := sv.chunks[c];
    if k !in cv.index {
      forall q | q in cv.cells ensures !HoldsValue(cv.cells[q], k) {
      }
      assert Holders(cv.cells, k) == {};
    }
  }

  // ------------------------------------------------------------ construction and uniqueness

  /** A freshly constructed system, with no chunks and an empty index, is consistent. */
  lemma NewSystemConsistent(size: int)
    ensures Consistent(SystemValue(ClampChunkSize(size), map[], map[]))
  {
  }

  /** The chunks determine the system index: two indexes that both match them are equal. */
  lemma SysMatchesUnique(a: SystemIndex, b: SystemIndex, chunks: Chunks)
    requires SysMatches(a, chunks) && SysMatches(b, chunks)
    ensures a == b
  {
    forall k | k in a ensures k in b && a[k] == b[k] {
      var c :| c in a[k];
      assert Mult(b, k, c) == Mult(a, k, c) > 0;
      forall c' ensures a[k][c'] == b[k][c'] {
        assert Mult(a, k, c') == Mult(b, k, c');
      }
    }
    forall k | k in b ensures k in a {
      var c :| c in b[k];
      assert Mult(a, k, c) == Mult(b, k, c) > 0;
    }
  }

  /** With no chunks the only matching index is the empty one. */
  lemma NoChunksEmptyIndex(index: SystemIndex)
    requires SysMatches(index, map[])
    ensures index == map[]
  {
    SysMatchesUnique(index, map[], map[]);
  }

  // ------------------------------------------------------------ walking a chunk's index

  /** The (key, cell) pairs a chunk's index lists. */
  function Pairs(index: ChunkIndex): set<(ChannelKey, Point)>
  {
    set k, q | k in index && q in index[k] :: (k, q)
  }

  /** The pairs the index lists under the given keys. */
  function PairsOf(index: ChunkIndex, keys: set<ChannelKey>): set<(ChannelKey, Point)>
  {
    set k, q | k in keys && k in index && q in index[k] :: (k, q)
  }

  /** The pairs of one key with the given cells. */
  function KeyPairs(k: ChannelKey, cells: set<Point>): set<(ChannelKey, Point)>
  {
    set q | q in cells :: (k, q)
  }

  lemma AllPairs(index: ChunkIndex)
    ensures PairsOf(index, index.Keys) == Pairs(index)
    ensures PairsOf(index, {}) == {}
  {
  }

  /** Taking one key out of the keys still to walk moves its pairs to the cells still to walk. */
  lemma EnterKey(index: ChunkIndex, keys: set<ChannelKey>, k: ChannelKey)
    requires k in keys && k in index
    ensures PairsOf(index, keys) == PairsOf(index, keys - {k}) + KeyPairs(k, index[k])
  {
  }

  /** Taking one cell out of the cells still to walk takes its pair out. */
  lemma NextCell(index: ChunkIndex, keys: set<ChannelKey>, k: ChannelKey, cells: set<Point>, q: Point)
    requires k !in keys && q in cells
    ensures PairsOf(index, keys) + KeyPairs(k, cells) - {(k, q)} == PairsOf(index, keys) + KeyPairs(k, cells - {q})
    ensures (k, q) in PairsOf(index, keys) + KeyPairs(k, cells)
  {
  }

  /** Walking one more cell of key k: its pair leaves those still to walk and joins those walked. */
  lemma WalkCell(index: ChunkIndex, keys: set<ChannelKey>, k: ChannelKey, cells: set<Point>, q: Point,
                 walked: set<(ChannelKey, Point)>)
    requires k in index && cells <= index[k] && k !in keys && q in cells
    requires walked == Pairs(index) - (PairsOf(index, keys) + KeyPairs(k, cells))
    ensures (k, q) !in walked
    ensures walked + {(k, q)} == Pairs(index) - (PairsOf(index, keys) + KeyPairs(k, cells - {q}))
  {
    NextCell(index, keys, k, cells, q);
    assert PairsOf(index, keys) + KeyPairs(k, cells) <= Pairs(index);
  }

  // ------------------------------------------------------------ the index the chunks' indexes give

  /** A listing of a chunk's index: the chunk's coordinate, a key, and a cell listed under that key. */
  type Listing = (Point, ChannelKey, Point)

  /** The listings of chunk c for the given (key, cell) pairs of its index. */
  ghost function Lift(c: Point, pairs: set<(ChannelKey, Point)>): set<Listing>
  {
    set pr | pr in pairs :: (c, pr.0, pr.1)
  }

  /** The listings of the indexes of the chunks at the given coordinates. */
  ghost function Listings(chunks: Chunks, within: set<Point>): set<Listing>
  {
    set c, k, q | c in within && c in chunks && k in chunks[c].index && q in chunks[c].index[k] :: (c, k, q)
  }

  /** How many listings name key k for a cell lying in chunk c'. */
  ghost function Tally(ls: set<Listing>, k: ChannelKey, c': Point, s: int): nat
    requires s >= 1
  {
    |set l | l in ls && l.1 == k && ChunkOf(l.2, s) == c'|
  }

  /** How often registering the listings' chunks adds chunk c' under key k: a null type adds nothing. */
  ghost function Due(ls: set<Listing>, k: ChannelKey, c': Point, s: int): nat
    requires s >= 1
  {
    if k.typ.Some? then Tally(ls, k, c', s) else 0
  }

  /** The system index holds typed keys only, and no empty multiset. */
  ghost predicate Tidy(index: SystemIndex)
  {
    forall k | k in index :: k.typ.Some? && index[k] != multiset{}
  }

  /** `now` is `before` with the chunk of every listed cell registered once under the listing's key. */
  ghost predicate Registered(now: SystemIndex, before: SystemIndex, ls: set<Listing>, s: int)
    requires s >= 1
  {
    forall k, c' :: Mult(now, k, c') == Mult(before, k, c') + Due(ls, k, c', s)
  }

  /**
   * `now` is `before` with the chunk of every listed cell unregistered once
   * under the listing's key; unregistering a chunk not listed changes nothing,
   * so a count stops at zero.
   */
  ghost predicate Unregistered(now: SystemIndex, before: SystemIndex, ls: set<Listing>, s: int)
    requires s >= 1
  {
    forall k, c' :: Mult(now, k, c') ==
      if Mult(before, k, c') >= Due(ls, k, c', s) then Mult(before, k, c') - Due(ls, k, c', s) else 0
  }

  /**
   * The index RebuildChannelIndex builds from the chunks, whatever their
   * indexes hold: every listed cell registers the chunk it lies in, which need
   * not be the chunk whose index lists it.
   */
  ghost predicate Rebuilt(index: SystemIndex, chunks: Chunks, s: int)
    requires s >= 1
  {
    Tidy(index) && Registered(index, map[], Listings(chunks, chunks.Keys), s)
  }

  lemma TallyNone(s: int, k: ChannelKey, c': Point)
    requires s >= 1
    ensures Tally({}, k, c', s) == 0
  {
  }

  /** Nothing listed, nothing added or taken. */
  lemma NothingListed(index: SystemIndex, c: Point, s: int)
    requires s >= 1
    ensures Lift(c, {}) == {} && Registered(index, index, {}, s) && Unregistered(index, index, {}, s)
  {
    forall k, c' ensures Due({}, k, c', s) == 0 {
      TallyNone(s, k, c');
    }
  }

  /** One more listing adds one to the tally of its key and the chunk of its cell, and nothing elsewhere. */
  lemma TallyAdd(ls: set<Listing>, l: Listing, s: int, k: ChannelKey, c': Point)
    requires s >= 1 && l !in ls
    ensures Tally(ls + {l}, k, c', s) == Tally(ls, k, c', s) + (if l.1 == k && ChunkOf(l.2, s) == c' then 1 else 0)
  {
    var a := set x | x in ls + {l} && x.1 == k && ChunkOf(x.2, s) == c';
    var b := set x | x in ls && x.1 == k && ChunkOf(x.2, s) == c';
    if l.1 == k && ChunkOf(l.2, s) == c' {
      assert a == b + {l};
    } else {
      assert a == b;
    }
  }

  /** The tallies of two disjoint sets of listings add up. */
  lemma TallyUnion(x: set<Listing>, y: set<Listing>, s: int, k: ChannelKey, c': Point)
    requires s >= 1 && x * y == {}
    ensures Tally(x + y, k, c', s) == Tally(x, k, c', s) + Tally(y, k, c', s)
  {
    var a := set l | l in x + y && l.1 == k && ChunkOf(l.2, s) == c';
    var b := set l | l in x && l.1 == k && ChunkOf(l.2, s) == c';
    var d := set l | l in y && l.1 == k && ChunkOf(l.2, s) == c';
    assert a == b + d;
    assert b * d == {};
  }

  /** One step of RebuildChannelIndex: registering the chunk of one more listed cell. */
  lemma RegisteredStep(now: SystemIndex, before: SystemIndex, ls: set<Listing>, l: Listing, s: int)
    requires s >= 1 && Registered(now, before, ls, s) && l !in ls
    ensures Registered(SysRegister(now, l.1, ChunkOf(l.2, s)), before, ls + {l}, s)
  {
    var r := SysRegister(now, l.1, ChunkOf(l.2, s));
    forall k, c' ensures Mult(r, k, c') == Mult(before, k, c') + Due(ls + {l}, k, c', s) {
      TallyAdd(ls, l, s, k, c');
    }
  }

  /** One step of RemoveChunkFromChannelIndex: unregistering the chunk of one more listed cell. */
  lemma UnregisteredStep(now: SystemIndex, before: SystemIndex, ls: set<Listing>, l: Listing, s: int)
    requires s >= 1 && Unregistered(now, before, ls, s) && l !in ls
    ensures Unregistered(SysUnregister(now, l.1, ChunkOf(l.2, s)), before, ls + {l}, s)
  {
    var r := SysUnregister(now, l.1, ChunkOf(l.2, s));
    forall k, c' ensures Mult(r, k, c') ==
      if Mult(before, k, c') >= Due(ls + {l}, k, c', s) then Mult(before, k, c') - Due(ls + {l}, k, c', s) else 0
    {
      TallyAdd(ls, l, s, k, c');
    }
  }

  /** Registering two disjoint sets of listings one after the other registers their union. */
  lemma RegisteredJoin(a: SystemIndex, b: SystemIndex, z: SystemIndex, x: set<Listing>, y: set<Listing>, s: int)
    requires s >= 1 && Registered(b, z, x, s) && Registered(a, b, y, s) && x * y == {}
    ensures Registered(a, z, x + y, s)
  {
    forall k, c' ensures Mult(a, k, c') == Mult(z, k, c') + Due(x + y, k, c', s) {
      TallyUnion(x, y, s, k, c');
    }
  }

  /** Lifting one more pair of chunk c gives one more listing, not lifted before. */
  lemma LiftAdd(c: Point, pairs: set<(ChannelKey, Point)>, pr: (ChannelKey, Point))
    requires pr !in pairs
    ensures Lift(c, pairs + {pr}) == Lift(c, pairs) + {(c, pr.0, pr.1)}
    ensures (c, pr.0, pr.1) !in Lift(c, pairs)
  {
  }

  /** Walking one more chunk adds the listings of its index, which no other chunk lists. */
  lemma ListingsStep(chunks: Chunks, done: set<Point>, c: Point)
    requires c in chunks && c !in done
    ensures Listings(chunks, done + {c}) == Listings(chunks, done) + Lift(c, Pairs(chunks[c].index))
    ensures Listings(chunks, done) * Lift(c, Pairs(chunks[c].index)) == {}
  {
    var whole := Listings(chunks, done + {c});
    var part := Listings(chunks, done);
    var own := Lift(c, Pairs(chunks[c].index));
    forall l ensures l in whole <==> l in part + own {
      assert l in whole <==> l.0 in done + {c} && l.0 in chunks && l.1 in chunks[l.0].index && l.2 in chunks[l.0].index[l.1];
      assert l in own <==> l.0 == c && (l.1, l.2) in Pairs(chunks[c].index);
    }
  }

  /** The chunks at the given coordinates list the same cells without chunk c, when c is not among them. */
  lemma ListingsWithout(chunks: Chunks, within: set<Point>, c: Point)
    requires c !in within
    ensures Listings(chunks - {c}, within) == Listings(chunks, within)
  {
  }

  /** The listings naming key k for chunk c' of the cells of one key of one chunk. */
  lemma TagCount(c: Point, k: ChannelKey, cells: set<Point>)
    ensures |set q | q in cells :: (c, k, q)| == |cells|
    decreases |cells|
  {
    if cells != {} {
      var x :| x in cells;
      TagCount(c, k, cells - {x});
      assert (set q | q in cells :: (c, k, q)) == (set q | q in cells - {x} :: (c, k, q)) + {(c, k, x)};
    }
  }

  /** When every chunk's index lies inside the chunk, the listings for chunk c' are those of c' itself. */
  lemma PlacedTally(chunks: Chunks, s: int, k: ChannelKey, c': Point)
    requires s >= 1 && forall c | c in chunks :: IndexPlaced(chunks[c], c, s)
    ensures Due(Listings(chunks, chunks.Keys), k, c', s) == Size(chunks, c', k)
  {
    var ls := Listings(chunks, chunks.Keys);
    var f := set l | l in ls && l.1 == k && ChunkOf(l.2, s) == c';
    if c' in chunks && k in chunks[c'].index {
      var own := set q | q in chunks[c'].index[k] :: (c', k, q);
      forall l ensures l in f <==> l in own {
        if l in f {
          assert l.0 in chunks && l.1 in chunks[l.0].index && l.2 in chunks[l.0].index[l.1];
          assert ChunkOf(l.2, s) == l.0;
        }
      }
      assert f == own;
      TagCount(c', k, chunks[c'].index[k]);
      assert k.typ.Some? by {
        assert WellFormed(chunks[c'].index);
      }
    } else {
      assert f == {};
    }
  }

  /**
   * When every chunk's index lies inside the chunk, the rebuilt index is the
   * one matching the chunks, and conversely.
   */
  lemma RebuiltIffMatches(index: SystemIndex, chunks: Chunks, s: int)
    requires s >= 1 && forall c | c in chunks :: IndexPlaced(chunks[c], c, s)
    ensures Rebuilt(index, chunks, s) <==> SysMatches(index, chunks)
  {
    forall k, c' ensures Due(Listings(chunks, chunks.Keys), k, c', s) == Size(chunks, c', k) {
      PlacedTally(chunks, s, k, c');
    }
  }

  /** Two tidy indexes that register every chunk equally often under every key are equal. */
  lemma TidyUnique(a: SystemIndex, b: SystemIndex)
    requires Tidy(a) && Tidy(b) && forall k, c :: Mult(a, k, c) == Mult(b, k, c)
    ensures a == b
  {
    forall k | k in a ensures k in b && a[k] == b[k] {
      var c :| c in a[k];
      assert Mult(b, k, c) == Mult(a, k, c) > 0;
      forall c' ensures a[k][c'] == b[k][c'] {
        assert Mult(a, k, c') == Mult(b, k, c');
      }
    }
    forall k | k in b ensures k in a {
      var c :| c in b[k];
      assert Mult(a, k, c) == Mult(b, k, c) > 0;
    }
  }

  /** The chunks determine the rebuilt index. */
  lemma RebuiltUnique(a: SystemIndex, b: SystemIndex, chunks: Chunks, s: int)
    requires s >= 1 && Rebuilt(a, chunks, s) && Rebuilt(b, chunks, s)
    ensures a == b
  {
    TidyUnique(a, b);
  }

  /**
   * Taking a chunk's listings out of the index rebuilt from all chunks leaves
   * the index rebuilt from the other chunks.
   */
  lemma UnregisteredKeepsRebuilt(before: SystemIndex, after: SystemIndex, chunks: Chunks, c: Point, s: int)
    requires s >= 1 && c in chunks && Rebuilt(before, chunks, s) && Tidy(after)
    requires Unregistered(after, before, Lift(c, Pairs(chunks[c].index)), s)
    ensures Rebuilt(after, chunks - {c}, s)
  {
    var others := chunks.Keys - {c};
    ListingsStep(chunks, others, c);
    assert others + {c} == chunks.Keys;
    ListingsWithout(chunks, others, c);
    assert (chunks - {c}).Keys == others;
    forall k, c' ensures Mult(after, k, c') == Due(Listings(chunks - {c}, others), k, c', s) {
      TallyUnion(Listings(chunks, others), Lift(c, Pairs(chunks[c].index)), s, k, c');
    }
  }

  // ------------------------------------------------------------ cells seen from the system

  /** The cell of grid point p, when its chunk exists. */
  function CellOf(sv: SystemValue, p: Point): Option<Cell>
    requires sv.chunkSize >= 1 && CellExists(sv, p)
  {
    var c := ChunkOf(p, sv.chunkSize);
    if c in sv.chunks then Some(sv.chunks[c].cells[p]) else None
  }

  lemma HasAtIsCellOf(sv: SystemValue, k: ChannelKey, p: Point)
    requires sv.chunkSize >= 1 && CellExists(sv, p)
    ensures HasAt(sv, k, p) <==> CellOf(sv, p).Some? && HasChannel(CellOf(sv, p).value, k)
  {
  }

  /** FindOrAddChannel keeps every existing cell existing, including the ones of a chunk it creates. */
  lemma FindOrAddAtKeepsCells(sv: SystemValue, k: ChannelKey, p: Point)
    requires sv.chunkSize >= 1 && CellExists(sv, p)
    ensures forall q | CellExists(sv, q) :: CellExists(FindOrAddAt(sv, k, p).0, q)
  {
    var c := ChunkOf(p, sv.chunkSize);
    var made := MakeChunk(sv, c).0;
    MakeChunkKeepsCells(sv, c);
    assert p in made.chunks[c].cells;
    AddInChunkKeepsCells(made, c, k, p);
    SameShapeKeepsCells(made, AddInChunk(made, c, k, p).0);
  }

  /** Making a chunk keeps every existing cell existing. */
  lemma MakeChunkKeepsCells(sv: SystemValue, c: Point)
    requires sv.chunkSize >= 1
    ensures forall q | CellExists(sv, q) :: CellExists(MakeChunk(sv, c).0, q)
  {
    var made := MakeChunk(sv, c).0;
    forall q | CellExists(sv, q) ensures CellExists(made, q) {
      var c' := ChunkOf(q, sv.chunkSize);
      if c' in made.chunks {
        assert q in made.chunks[c'].cells;
      }
    }
  }

  /** Two systems with the same chunks and the same cells in each have the same existing cells. */
  lemma SameShapeKeepsCells(a: SystemValue, b: SystemValue)
    requires a.chunkSize >= 1 && b.chunkSize == a.chunkSize && b.chunks.Keys == a.chunks.Keys
    requires forall c' | c' in a.chunks :: b.chunks[c'].cells.Keys == a.chunks[c'].cells.Keys
    ensures forall q | CellExists(a, q) :: CellExists(b, q)
  {
  }

  /** TryRemoveChannel keeps every existing cell existing. */
  lemma TryRemoveAtKeepsCells(sv: SystemValue, k: ChannelKey, p: Point)
    requires sv.chunkSize >= 1 && CellExists(sv, p)
    ensures forall q | CellExists(sv, q) :: CellExists(TryRemoveAt(sv, k, p).0, q)
  {
  }

  /** After TryRemoveChannel the cell lacks the key. */
  lemma TryRemoveAtClears(sv: SystemValue, k: ChannelKey, p: Point)
    requires sv.chunkSize >= 1 && CellExists(sv, p)
    ensures CellExists(TryRemoveAt(sv, k, p).0, p) && !HasAt(TryRemoveAt(sv, k, p).0, k, p)
  {
  }

  /** TryRemoveChannel leaves the cell of every other grid point as it was. */
  lemma TryRemoveAtFrame(sv: SystemValue, k: ChannelKey, p: Point, q: Point)
    requires sv.chunkSize >= 1 && CellExists(sv, p) && CellExists(sv, q) && q != p
    ensures CellExists(TryRemoveAt(sv, k, p).0, q) && CellOf(TryRemoveAt(sv, k, p).0, q) == CellOf(sv, q)
  {
  }

  /** FindOrAddChannel leaves every other existing cell as it was. */
  lemma FindOrAddAtCellFrame(sv: SystemValue, k: ChannelKey, p: Point, q: Point)
    requires sv.chunkSize >= 1 && CellExists(sv, p) && CellExists(sv, q) && q != p
    ensures CellExists(FindOrAddAt(sv, k, p).0, q)
    ensures CellOf(sv, q).Some? ==> CellOf(FindOrAddAt(sv, k, p).0, q) == CellOf(sv, q)
  {
    FindOrAddAtKeepsCells(sv, k, p);
    FindOrAddAtFrame(sv, k, p);
  }

  /** The cell of p holds k with the value v. */
  predicate HoldsAt(sv: SystemValue, k: ChannelKey, p: Point, v: InstancedStruct)
    requires sv.chunkSize >= 1 && CellExists(sv, p)
  {
    CellOf(sv, p).Some? && k in CellOf(sv, p).value.channels && CellOf(sv, p).value.channels[k] == Some(v)
  }

  /**
   * Assigning v through the reference FindOrAddChannel returned for k at p:
   * the cell of p holds v under k; every other entry of that cell, every
   * other cell, the chunk indexes and the system index are as they were.
   */
  function WriteAt(sv: SystemValue, k: ChannelKey, p: Point, v: InstancedStruct): (r: SystemValue)
    requires sv.chunkSize >= 1 && CellExists(sv, p) && HasAt(sv, k, p)
    ensures r.chunkSize == sv.chunkSize && r.index == sv.index && r.chunks.Keys == sv.chunks.Keys
    ensures CellExists(r, p) && HoldsAt(r, k, p, v)
    ensures CellOf(r, p).value.channels == CellOf(sv, p).value.channels[k := Some(v)]
    ensures forall c | c in sv.chunks :: r.chunks[c].index == sv.chunks[c].index
    ensures forall q | q != p && CellExists(sv, q) :: CellExists(r, q) && CellOf(r, q) == CellOf(sv, q)
  {
    var c := ChunkOf(p, sv.chunkSize);
    var cv := sv.chunks[c];
    var cell := cv.cells[p];
    sv.(chunks := sv.chunks[c := cv.(cells := cv.cells[p := Cell(cell.channels[k := Some(v)])])])
  }

  /** Giving a key a cell already holds with a set value another set value keeps the index matching. */
  lemma SetEntryKeepsIndex(index: ChunkIndex, cells: Cells, p: Point, k: ChannelKey, v: InstancedStruct)
    requires IndexMatches(index, cells) && p in cells && HoldsValue(cells[p], k)
    ensures IndexMatches(index, cells[p := Cell(cells[p].channels[k := Some(v)])])
  {
    var cells' := cells[p := Cell(cells[p].channels[k := Some(v)])];
    forall k' ensures Holders(cells', k') == Holders(cells, k') {
      forall q ensures q in Holders(cells', k') <==> q in Holders(cells, k') {
        if q == p {
          assert HoldsValue(cells'[p], k') == HoldsValue(cells[p], k');
        }
      }
    }
  }

  /** In a consistent system, assigning a value to a channel the cell holds keeps the system consistent. */
  lemma WriteAtKeeps(sv: SystemValue, k: ChannelKey, p: Point, v: InstancedStruct)
    requires Consistent(sv) && CellExists(sv, p) && HasAt(sv, k, p)
    ensures Consistent(WriteAt(sv, k, p, v))
  {
    var s := sv.chunkSize;
    var c := ChunkOf(p, s);
    var cv := sv.chunks[c];
    assert ChunkOk(cv, c, s);
    assert HoldsValue(cv.cells[p], k);
    SetEntryKeepsIndex(cv.index, cv.cells, p, k, v);
    var r := WriteAt(sv, k, p, v);
    assert ChunkOk(r.chunks[c], c, s);
    forall k', c' ensures Mult(r.index, k', c') == Size(r.chunks, c', k') {
      assert Size(r.chunks, c', k') == Size(sv.chunks, c', k');
    }
  }

  // ------------------------------------------------------------ bulk operations

  /** Every grid point of the sequence has its cell wherever its chunk exists. */
  ghost predicate CellsExist(sv: SystemValue, order: seq<Point>)
    requires sv.chunkSize >= 1
  {
    forall i | 0 <= i < |order| :: CellExists(sv, order[i])
  }

  /** No grid point occurs twice. */
  ghost predicate NoRepeats(order: seq<Point>)
  {
    forall i, j | 0 <= i < j < |order| :: order[i] != order[j]
  }

  /**
   * FindOrAddChannels: FindOrAddChannel applied to each point in the order
   * the points are visited, with the value found or added at each.
   */
  function AddAll(sv: SystemValue, k: ChannelKey, order: seq<Point>): (r: (SystemValue, seq<InstancedStruct>))
    requires sv.chunkSize >= 1 && CellsExist(sv, order)
    ensures r.0.chunkSize == sv.chunkSize && |r.1| == |order|
    ensures forall q | CellExists(sv, q) :: CellExists(r.0, q)
    decreases |order|
  {
    if order == [] then (sv, [])
    else
      var n := |order| - 1;
      var (a, vs) := AddAll(sv, k, order[..n]);
      FindOrAddAtKeepsCells(a, k, order[n]);
      var (b, v) := FindOrAddAt(a, k, order[n]);
      (b, vs + [v])
  }

  lemma AddAllSnoc(sv: SystemValue, k: ChannelKey, order: seq<Point>, q: Point)
    requires sv.chunkSize >= 1 && CellsExist(sv, order + [q])
    ensures CellsExist(sv, order) && CellExists(AddAll(sv, k, order).0, q)
    ensures var (a, vs) := AddAll(sv, k, order);
      AddAll(sv, k, order + [q]) == (FindOrAddAt(a, k, q).0, vs + [FindOrAddAt(a, k, q).1])
  {
    assert (order + [q])[..|order|] == order;
    assert CellExists(sv, (order + [q])[|order|]);
  }

  /**
   * TryRemoveChannels: TryRemoveChannel applied to each point in the order the
   * points are visited, and whether any of them removed something.
   */
  function RemoveAll(sv: SystemValue, k: ChannelKey, order: seq<Point>): (r: (SystemValue, bool))
    requires sv.chunkSize >= 1 && CellsExist(sv, order)
    ensures r.0.chunkSize == sv.chunkSize && r.0.chunks.Keys == sv.chunks.Keys
    ensures forall q | CellExists(sv, q) :: CellExists(r.0, q)
    decreases |order|
  {
    if order == [] then (sv, false)
    else
      var n := |order| - 1;
      var (a, removed) := RemoveAll(sv, k, order[..n]);
      TryRemoveAtKeepsCells(a, k, order[n]);
      var (b, removedHere) := TryRemoveAt(a, k, order[n]);
      (b, removed || removedHere)
  }

  lemma RemoveAllSnoc(sv: SystemValue, k: ChannelKey, order: seq<Point>, q: Point)
    requires sv.chunkSize >= 1 && CellsExist(sv, order + [q])
    ensures CellsExist(sv, order) && CellExists(RemoveAll(sv, k, order).0, q)
    ensures var (a, removed) := RemoveAll(sv, k, order);
      RemoveAll(sv, k, order + [q]) == (TryRemoveAt(a, k, q).0, removed || TryRemoveAt(a, k, q).1)
  {
    assert (order + [q])[..|order|] == order;
    assert CellExists(sv, (order + [q])[|order|]);
  }

  /** FindOrAddChannels keeps the system consistent. */
  lemma {:induction false} AddAllKeeps(sv: SystemValue, k: ChannelKey, order: seq<Point>)
    requires Consistent(sv) && CellsExist(sv, order)
    ensures Consistent(AddAll(sv, k, order).0)
    decreases |order|
  {
    if order != [] {
      var n := |order| - 1;
      assert order == order[..n] + [order[n]];
      AddAllSnoc(sv, k, order[..n], order[n]);
      AddAllKeeps(sv, k, order[..n]);
      FindOrAddAtKeeps(AddAll(sv, k, order[..n]).0, k, order[n]);
    }
  }

  /** TryRemoveChannels keeps the system consistent. */
  lemma {:induction false} RemoveAllKeeps(sv: SystemValue, k: ChannelKey, order: seq<Point>)
    requires Consistent(sv) && CellsExist(sv, order)
    ensures Consistent(RemoveAll(sv, k, order).0)
    decreases |order|
  {
    if order != [] {
      var n := |order| - 1;
      assert order == order[..n] + [order[n]];
      RemoveAllSnoc(sv, k, order[..n], order[n]);
      RemoveAllKeeps(sv, k, order[..n]);
      TryRemoveAtKeeps(RemoveAll(sv, k, order[..n]).0, k, order[n]);
    }
  }

  /** Every point of the sequence holds the key with the value at the same position. */
  ghost predicate AllHeld(sv: SystemValue, k: ChannelKey, order: seq<Point>, vals: seq<InstancedStruct>)
    requires sv.chunkSize >= 1
  {
    |vals| == |order| &&
    forall i | 0 <= i < |order| :: CellExists(sv, order[i]) && HoldsAt(sv, k, order[i], vals[i])
  }

  /** Adding at a point not yet visited keeps what the visited points hold, and adds the new one. */
  lemma AllHeldStep(a: SystemValue, k: ChannelKey, order: seq<Point>, vs: seq<InstancedStruct>, q: Point)
    requires a.chunkSize >= 1 && CellExists(a, q) && q !in order && AllHeld(a, k, order, vs)
    ensures AllHeld(FindOrAddAt(a, k, q).0, k, order + [q], vs + [FindOrAddAt(a, k, q).1])
  {
    var (b, v) := FindOrAddAt(a, k, q);
    FindOrAddAtHolds(a, k, q);
    forall i | 0 <= i < |order|
      ensures CellExists(b, order[i]) && (CellOf(a, order[i]).Some? ==> CellOf(b, order[i]) == CellOf(a, order[i]))
    {
      FindOrAddAtCellFrame(a, k, q, order[i]);
    }
    AllHeldFrame(a, b, k, order, vs);
    AllHeldSnoc(b, k, order, vs, q, v);
  }

  /** What the visited points hold survives a step that keeps every cell they had. */
  lemma AllHeldFrame(a: SystemValue, b: SystemValue, k: ChannelKey, order: seq<Point>, vs: seq<InstancedStruct>)
    requires a.chunkSize >= 1 && b.chunkSize == a.chunkSize && AllHeld(a, k, order, vs)
    requires forall i | 0 <= i < |order| ::
      CellExists(b, order[i]) && (CellOf(a, order[i]).Some? ==> CellOf(b, order[i]) == CellOf(a, order[i]))
    ensures AllHeld(b, k, order, vs)
  {
  }

  lemma AllHeldSnoc(b: SystemValue, k: ChannelKey, order: seq<Point>, vs: seq<InstancedStruct>, q: Point, v: InstancedStruct)
    requires b.chunkSize >= 1 && AllHeld(b, k, order, vs) && CellExists(b, q) && HoldsAt(b, k, q, v)
    ensures AllHeld(b, k, order + [q], vs + [v])
  {
  }

  /** What FindOrAddChannels leaves: every visited point holds the key with the value returned for it. */
  ghost predicate AddAllHeld(sv: SystemValue, k: ChannelKey, order: seq<Point>)
    requires sv.chunkSize >= 1 && CellsExist(sv, order)
  {
    AllHeld(AddAll(sv, k, order).0, k, order, AddAll(sv, k, order).1)
  }

  /** One more point, not visited before, keeps AddAllHeld. */
  lemma AddAllHeldSnoc(sv: SystemValue, k: ChannelKey, prefix: seq<Point>, q: Point)
    requires sv.chunkSize >= 1 && CellsExist(sv, prefix + [q]) && CellsExist(sv, prefix)
    requires q !in prefix && AddAllHeld(sv, k, prefix)
    ensures AddAllHeld(sv, k, prefix + [q])
  {
    AddAllSnoc(sv, k, prefix, q);
    AllHeldStep(AddAll(sv, k, prefix).0, k, prefix, AddAll(sv, k, prefix).1, q);
  }

  /** After FindOrAddChannels every visited point holds the key with the value returned for it. */
  lemma {:induction false} AddAllHolds(sv: SystemValue, k: ChannelKey, order: seq<Point>)
    requires sv.chunkSize >= 1 && CellsExist(sv, order) && NoRepeats(order)
    ensures AddAllHeld(sv, k, order)
    decreases |order|
  {
    if order != [] {
      var n := |order| - 1;
      var q := order[n];
      var prefix := order[..n];
      assert order == prefix + [q];
      assert CellsExist(sv, prefix);
      assert NoRepeats(prefix);
      AddAllHolds(sv, k, prefix);
      assert q !in prefix;
      AddAllHeldSnoc(sv, k, prefix, q);
    }
  }

  /** TryRemoveChannels leaves every cell it does not visit as it was. */
  lemma {:induction false} RemoveAllFrame(sv: SystemValue, k: ChannelKey, order: seq<Point>, q: Point)
    requires sv.chunkSize >= 1 && CellsExist(sv, order) && CellExists(sv, q) && q !in order
    ensures CellExists(RemoveAll(sv, k, order).0, q) && CellOf(RemoveAll(sv, k, order).0, q) == CellOf(sv, q)
    decreases |order|
  {
    if order != [] {
      var n := |order| - 1;
      assert order == order[..n] + [order[n]];
      RemoveAllSnoc(sv, k, order[..n], order[n]);
      RemoveAllFrame(sv, k, order[..n], q);
      TryRemoveAtFrame(RemoveAll(sv, k, order[..n]).0, k, order[n], q);
    }
  }

  /**
   * TryRemoveChannels reports a removal exactly when some visited point had
   * the key, and afterwards no visited point has it.
   */
  lemma {:induction false} RemoveAllEffect(sv: SystemValue, k: ChannelKey, order: seq<Point>)
    requires sv.chunkSize >= 1 && CellsExist(sv, order) && NoRepeats(order)
    ensures var (r, removed) := RemoveAll(sv, k, order);
      (removed <==> exists i | 0 <= i < |order| :: HasAt(sv, k, order[i])) &&
      forall i | 0 <= i < |order| :: CellExists(r, order[i]) && !HasAt(r, k, order[i])
    decreases |order|
  {
    if order != [] {
      var n := |order| - 1;
      var q := order[n];
      assert order == order[..n] + [q];
      RemoveAllSnoc(sv, k, order[..n], q);
      RemoveAllEffect(sv, k, order[..n]);
      var (a, removed) := RemoveAll(sv, k, order[..n]);
      RemoveAllFrame(sv, k, order[..n], q);
      HasAtIsCellOf(sv, k, q);
      HasAtIsCellOf(a, k, q);
      TryRemoveAtClears(a, k, q);
      forall i | 0 <= i < n
        ensures CellExists(TryRemoveAt(a, k, q).0, order[i]) && !HasAt(TryRemoveAt(a, k, q).0, k, order[i])
      {
        assert order[..n][i] == order[i] != q;
        TryRemoveAtFrame(a, k, q, order[i]);
        HasAtIsCellOf(a, k, order[i]);
        HasAtIsCellOf(TryRemoveAt(a, k, q).0, k, order[i]);
      }
      assert (exists i | 0 <= i < n :: HasAt(sv, k, order[i])) <==> (exists i | 0 <= i < n :: HasAt(sv, k, order[..n][i]));
    }
  }

  /** HasChannels: every point of the set has the key. */
  predicate HasAll(sv: SystemValue, k: ChannelKey, locs: set<Point>)
    requires sv.chunkSize >= 1 && forall q | q in locs :: CellExists(sv, q)
  {
    forall q | q in locs :: HasAt(sv, k, q)
  }

  // ------------------------------------------------------------ removing a chunk

  /** The system index with every occurrence of chunk c taken out. */
  function DropChunk(index: SystemIndex, c: Point): (r: SystemIndex)
    ensures forall k :: Mult(r, k, c) == 0
    ensures forall k, c' | c' != c :: Mult(r, k, c') == Mult(index, k, c')
    ensures (forall k | k in index :: k.typ.Some?) ==> forall k | k in r :: k.typ.Some? && r[k] != multiset{}
  {
    var r := map k | k in index && index[k][c := 0] != multiset{} :: index[k][c := 0];
    assert forall k, c' | c' != c :: Mult(r, k, c') == Mult(index, k, c') by {
      forall k, c' | c' != c ensures Mult(r, k, c') == Mult(index, k, c') {
        if k in index && k !in r {
          assert index[k][c := 0][c'] == 0;
        }
      }
    }
    r
  }

  /**
   * TryRemoveChunk of the dynamic-data system: false and nothing changed when
   * the chunk is missing; otherwise the chunk is gone and so is every
   * occurrence of it in the system index.
   */
  function RemoveChunk(sv: SystemValue, c: Point): (r: (SystemValue, bool))
    ensures r.1 <==> c in sv.chunks
    ensures r.0.chunkSize == sv.chunkSize && r.0.chunks == sv.chunks - {c}
    ensures !r.1 ==> r.0 == sv
  {
    if c in sv.chunks then (SystemValue(sv.chunkSize, sv.chunks - {c}, DropChunk(sv.index, c)), true)
    else
      assert sv.chunks - {c} == sv.chunks;
      (sv, false)
  }

  /** Removing a chunk keeps the system consistent, and afterwards the index lists that chunk for no key. */
  lemma RemoveChunkKeeps(sv: SystemValue, c: Point)
    requires Consistent(sv)
    ensures Consistent(RemoveChunk(sv, c).0)
    ensures forall k :: Mult(RemoveChunk(sv, c).0.index, k, c) == 0
  {
    var chunks := sv.chunks - {c};
    if c in sv.chunks {
      var index := DropChunk(sv.index, c);
      forall k, c' ensures Mult(index, k, c') == Size(chunks, c', k) {
      }
    } else {
      forall k ensures Mult(sv.index, k, c) == 0 {
        MissingChunkUnregistered(sv, k, c);
      }
    }
  }

  /**
   * In a consistent system, taking the listings of chunk c out of the index
   * gives the index RemoveChunk leaves.
   */
  lemma PurgedIsDropped(sv: SystemValue, c: Point, index: SystemIndex)
    requires Consistent(sv) && c in sv.chunks && Tidy(index)
    requires Unregistered(index, sv.index, Lift(c, Pairs(sv.chunks[c].index)), sv.chunkSize)
    ensures RemoveChunk(sv, c) == (SystemValue(sv.chunkSize, sv.chunks - {c}, index), true)
  {
    var s := sv.chunkSize;
    forall c' | c' in sv.chunks ensures IndexPlaced(sv.chunks[c'], c', s) {
      OkIsIndexPlaced(sv.chunks[c'], c', s);
    }
    RebuiltIffMatches(sv.index, sv.chunks, s);
    UnregisteredKeepsRebuilt(sv.index, index, sv.chunks, c, s);
    RebuiltIffMatches(index, sv.chunks - {c}, s);
    RemoveChunkKeeps(sv, c);
    SysMatchesUnique(index, DropChunk(sv.index, c), sv.chunks - {c});
  }
}
