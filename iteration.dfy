/**
 * The chained channel iterator of the chunk system: a range object built
 * from the distinct chunks the system index lists for one key, and an
 * iterator that walks each of those chunks' own ranges one after the other.
 * The iterator keeps one range and one position per chunk and a current
 * chunk index, which it advances in place.
 */
module ChannelIteration {
  import opened ChunkTypes
  import opened CellCodec
  import opened ChunkState
  import opened SystemState
  import opened ChannelVisits
  import opened ChunkSystems

  /** MAX_int32: the index end() asks for. */
  const MaxInt32: int := 0x7fff_ffff

  /** FMath::Clamp(v, lo, hi) for lo <= hi. */
  function Clamp(v: int, lo: int, hi: int): (r: int)
    requires lo <= hi
    ensures lo <= r <= hi
    ensures lo <= v <= hi ==> r == v
    ensures v < lo ==> r == lo
    ensures v > hi ==> r == hi
  {
    if v < lo then lo else if v > hi then hi else v
  }

  /** Per-chunk positions: one per range, the first range read up to `positions[index]`, the later ones untouched. */
  ghost predicate Shaped(ranges: seq<seq<Entry>>, positions: seq<nat>, index: int)
  {
    |positions| == |ranges| && 0 <= index <= |ranges| &&
    (index < |ranges| ==> positions[index] <= |ranges[index]|) &&
    (forall j | index < j < |ranges| :: positions[j] == 0)
  }

  /** What is still to be visited: the rest of the current range, then every later range whole. */
  ghost function PendingOf(ranges: seq<seq<Entry>>, positions: seq<nat>, index: int): seq<Entry>
    requires Shaped(ranges, positions, index)
  {
    if index < |ranges| then ranges[index][positions[index]..] + Flatten(ranges[index + 1..]) else []
  }

  lemma FlattenFrom(ranges: seq<seq<Entry>>, i: int)
    requires 0 <= i < |ranges|
    ensures Flatten(ranges[i..]) == ranges[i] + Flatten(ranges[i + 1..])
  {
    assert ranges[i..][1..] == ranges[i + 1..];
  }

  /** Leaving a finished range for the next one, whose position is still at its start, skips nothing. */
  lemma PendingSkip(ranges: seq<seq<Entry>>, positions: seq<nat>, index: int)
    requires Shaped(ranges, positions, index) && index < |ranges| && positions[index] == |ranges[index]|
    ensures Shaped(ranges, positions, index + 1)
    ensures PendingOf(ranges, positions, index + 1) == PendingOf(ranges, positions, index)
  {
    assert ranges[index][positions[index]..] == [];
    if index + 1 < |ranges| {
      FlattenFrom(ranges, index + 1);
      assert ranges[index + 1][positions[index + 1]..] == ranges[index + 1];
    } else {
      assert ranges[index + 1..] == [];
    }
  }

  /** Moving the current range one position on drops exactly the first pending entry. */
  lemma PendingAdvance(ranges: seq<seq<Entry>>, positions: seq<nat>, index: int)
    requires Shaped(ranges, positions, index) && index < |ranges| && positions[index] < |ranges[index]|
    ensures Shaped(ranges, positions[index := positions[index] + 1], index)
    ensures PendingOf(ranges, positions, index) != []
    ensures PendingOf(ranges, positions[index := positions[index] + 1], index) == PendingOf(ranges, positions, index)[1..]
  {
    var r := ranges[index];
    var p := positions[index];
    assert r[p..][1..] == r[p + 1..];
  }

  /** With every position at its start, what is pending from a range on is every range from there on. */
  lemma PendingFromStart(ranges: seq<seq<Entry>>, positions: seq<nat>, index: int)
    requires 0 <= index <= |ranges| && |positions| == |ranges| && forall j | 0 <= j < |ranges| :: positions[j] == 0
    ensures Shaped(ranges, positions, index)
    ensures PendingOf(ranges, positions, index) == Flatten(ranges[index..])
  {
    if index < |ranges| {
      FlattenFrom(ranges, index);
      assert ranges[index][0..] == ranges[index];
    } else {
      assert ranges[index..] == [];
    }
  }

  /** The per-chunk range of chunk cv for key k: the cells its index lists for k, walked once each. */
  method ChunkEntries(cv: ChunkValue, k: ChannelKey) returns (es: seq<Entry>)
    ensures ChunkRange(cv, k, es)
  {
    es := [];
    var all := IndexedCells(cv, k);
    var todo := all;
    while todo != {}
      invariant todo <= all
      invariant IsEnumeration(Points(es), all - todo)
      invariant forall i | 0 <= i < |es| :: es[i].1 == ValueAt(cv, k, es[i].0)
      decreases todo
    {
      var p :| p in todo;
      PointsAppend(es, [(p, ValueAt(cv, k, p))]);
      assert Points([(p, ValueAt(cv, k, p))]) == [p];
      EnumerationSnoc(Points(es), all - todo, p);
      assert all - todo + {p} == all - (todo - {p});
      es := es + [(p, ValueAt(cv, k, p))];
      todo := todo - {p};
    }
  }

  lemma RangesSnoc(chunks: Chunks, k: ChannelKey, order: seq<Point>, ranges: seq<seq<Entry>>, c: Point, es: seq<Entry>)
    requires RangesOf(chunks, k, order, ranges) && c in chunks && ChunkRange(chunks[c], k, es)
    ensures RangesOf(chunks, k, order + [c], ranges + [es])
  {
    assert forall j | 0 <= j < |order| :: (order + [c])[j] == order[j] && (ranges + [es])[j] == ranges[j];
  }

  /**
   * The constructor's loop over the distinct chunk points: each point whose
   * chunk exists contributes that chunk's range; a point without a chunk is
   * skipped; the chunk points are returned in the order they were visited.
   */
  method BuildRanges(chunks: Chunks, k: ChannelKey, points: seq<Point>) returns (ranges: seq<seq<Entry>>, order: seq<Point>)
    ensures IsEnumeration(order, (set q | q in points) * chunks.Keys)
    ensures RangesOf(chunks, k, order, ranges)
  {
    ranges, order := [], [];
    var unique := set q | q in points;
    var todo := unique;
    while todo != {}
      invariant todo <= unique
      invariant IsEnumeration(order, (unique - todo) * chunks.Keys)
      invariant RangesOf(chunks, k, order, ranges)
      decreases todo
    {
      var c :| c in todo;
      if c in chunks {
        var es := ChunkEntries(chunks[c], k);
        EnumerationSnoc(order, (unique - todo) * chunks.Keys, c);
        RangesSnoc(chunks, k, order, ranges, c, es);
        assert (unique - todo) * chunks.Keys + {c} == (unique - (todo - {c})) * chunks.Keys;
        ranges := ranges + [es];
        order := order + [c];
      } else {
        assert (unique - todo) * chunks.Keys == (unique - (todo - {c})) * chunks.Keys;
      }
      todo := todo - {c};
    }
  }

  /** The range's Locations: the distinct points of what FindChannelLocations found, each once. */
  method UniquePoints(found: multiset<Point>) returns (pts: seq<Point>)
    ensures IsEnumeration(pts, set c | c in found)
  {
    pts := [];
    var all := set c | c in found;
    var todo := all;
    while todo != {}
      invariant todo <= all
      invariant IsEnumeration(pts, all - todo)
      decreases todo
    {
      var c :| c in todo;
      EnumerationSnoc(pts, all - todo, c);
      assert all - todo + {c} == all - (todo - {c});
      pts := pts + [c];
      todo := todo - {c};
    }
  }

  /**
   * FIterator: one range and one position per chunk, and the index of the
   * chunk being walked. The iterator refers to the key of the range that made
   * it, and equality looks at the owner, that range and the index.
   */
  class ChannelIterator {
    const owner: ChunkSystem?
    /** The range whose key the iterator points at. */
    const range: ChannelRange
    const key: ChannelKey
    var ranges: seq<seq<Entry>>
    var positions: seq<nat>
    var index: int
    /** The chunk each range belongs to. */
    ghost var order: seq<Point>

    /** Between operations the current position, if any, is at an entry. */
    ghost predicate Valid()
      reads this
    {
      Shaped(ranges, positions, index) && (index < |ranges| ==> positions[index] < |ranges[index]|) && key == range.key
    }

    /** The entries still to be visited, in order. */
    ghost function Pending(): seq<Entry>
      reads this
      requires Shaped(ranges, positions, index)
    {
      PendingOf(ranges, positions, index)
    }

    /**
     * A null owner leaves the iterator empty. Otherwise every distinct point
     * of `points` whose chunk exists contributes its chunk's range, every
     * position starts at its range's beginning, the index is clamped to
     * [0, number of ranges], and the ranges from there on are pending.
     */
    constructor (owner: ChunkSystem?, range: ChannelRange, points: seq<Point>, inIndex: int)
      ensures this.owner == owner && this.range == range && key == range.key && Valid()
      ensures owner == null ==> ranges == [] && order == []
      ensures owner != null ==>
        IsEnumeration(order, (set q | q in points) * owner.chunks.Keys) && RangesOf(owner.chunks, key, order, ranges)
      ensures Pending() == Flatten(ranges[Clamp(inIndex, 0, |ranges|)..])
    {
      this.owner := owner;
      this.range := range;
      this.key := range.key;
      if owner == null {
        ranges, positions, index, order := [], [], 0, [];
      } else {
        var rs;
        ghost var o;
        rs, o := BuildRanges(owner.chunks, range.key, points);
        ranges, order := rs, o;
        positions := seq(|rs|, _ => 0);
        index := Clamp(inIndex, 0, |rs|);
      }
      new;
      PendingFromStart(ranges, positions, index);
      if owner != null {
        SkipToValid();
      }
    }

    /** Moves past finished ranges; nothing pending is skipped. */
    method SkipToValid()
      requires Shaped(ranges, positions, index) && key == range.key
      modifies this
      ensures Valid() && ranges == old(ranges) && positions == old(positions) && order == old(order)
      ensures old(index) <= index
      ensures Pending() == old(Pending())
    {
      while index < |ranges| && positions[index] >= |ranges[index]|
        invariant Shaped(ranges, positions, index) && ranges == old(ranges) && positions == old(positions)
        invariant order == old(order) && old(index) <= index
        invariant Pending() == old(Pending())
        decreases |ranges| - index
      {
        PendingSkip(ranges, positions, index);
        index := index + 1;
      }
    }

    /** operator++: the first pending entry is consumed; at the end nothing changes. */
    method Next()
      requires Valid()
      modifies this
      ensures Valid() && ranges == old(ranges) && order == old(order)
      ensures old(Pending()) != [] ==> Pending() == old(Pending())[1..]
      ensures old(Pending()) == [] ==> index == old(index) && positions == old(positions)
    {
      if index >= |positions| {
        return;
      }
      PendingAdvance(ranges, positions, index);
      positions := positions[index := positions[index] + 1];
      if positions[index] >= |ranges[index]| {
        PendingSkip(ranges, positions, index);
        index := index + 1;
        SkipToValid();
      }
    }

    /** IsValid: there is an entry to read exactly when something is pending. */
    function IsValid(): (b: bool)
      reads this
      requires Valid()
      ensures b <==> Pending() != []
    {
      index < |ranges| && positions[index] < |ranges[index]|
    }

    /** operator*: the grid point and value of the first pending entry. */
    function Current(): (e: Entry)
      reads this
      requires Valid() && IsValid()
      ensures e == Pending()[0]
    {
      ranges[index][positions[index]]
    }

    /**
     * operator==: same owner, same range key (by address, so iterators of two
     * ranges over the same key differ) and same chunk index. Equal iterators
     * walk the same key.
     */
    predicate Equals(other: ChannelIterator): (b: bool)
      reads this, other
      requires Valid() && other.Valid()
      ensures b ==> key == other.key
    {
      owner == other.owner && range == other.range && index == other.index
    }
  }

  /**
   * TChannelIteratorRangeImpl: the distinct chunk points the system index
   * listed for the key when the range was made.
   */
  class ChannelRange {
    const owner: ChunkSystem?
    const key: ChannelKey
    const locations: seq<Point>
    /** The chunk points the system index listed for the key, as a set. */
    ghost const indexed: set<Point>

    /** The locations list every indexed chunk point once. */
    ghost predicate Valid()
    {
      IsEnumeration(locations, indexed)
    }

    /**
     * A null owner gives an empty range; otherwise the locations enumerate
     * the distinct chunks the index lists for the key, which in a consistent
     * system are the chunks some cell of which holds the key.
     */
    constructor (owner: ChunkSystem?, key: ChannelKey)
      ensures this.owner == owner && this.key == key && Valid()
      ensures owner == null ==> indexed == {}
      ensures owner != null ==> indexed == IndexedChunks(owner.channelIndex, key)
      ensures owner != null && Consistent(owner.Value()) ==>
        indexed == set c | c in owner.chunks && Holders(owner.chunks[c].cells, key) != {} && key.typ.Some?
    {
      this.owner := owner;
      this.key := key;
      if owner == null {
        locations, indexed := [], {};
      } else {
        var found := owner.FindChannelLocations(key);
        var pts: seq<Point> := [];
        if found != multiset{} {
          pts := UniquePoints(found);
        }
        assert (set c | c in found) == IndexedChunks(owner.channelIndex, key);
        locations, indexed := pts, IndexedChunks(owner.channelIndex, key);
        if Consistent(owner.Value()) {
          IndexedChunksHold(owner.Value(), key);
        }
      }
    }

    /** Num: how many distinct chunks the range covers. */
    function Num(): (n: int)
      requires Valid()
      ensures n == |indexed|
    {
      EnumerationLength(locations, indexed);
      |locations|
    }

    /** IsEmpty: the range covers no chunk. */
    function IsEmpty(): (b: bool)
      requires Valid()
      ensures b <==> indexed == {}
    {
      EnumerationLength(locations, indexed);
      |locations| == 0
    }

    /** begin(): an iterator with everything pending. */
    method Begin() returns (it: ChannelIterator)
      ensures fresh(it) && it.owner == owner && it.range == this && it.key == key && it.Valid()
      ensures owner == null ==> it.ranges == []
      ensures owner != null ==>
        IsEnumeration(it.order, (set q | q in locations) * owner.chunks.Keys) && RangesOf(owner.chunks, key, it.order, it.ranges)
      ensures it.Pending() == Flatten(it.ranges)
    {
      it := new ChannelIterator(owner, this, locations, 0);
    }

    /** end(): an iterator past the last range, with nothing pending. */
    method End() returns (it: ChannelIterator)
      ensures fresh(it) && it.owner == owner && it.range == this && it.key == key && it.Valid()
      ensures owner == null ==> it.ranges == []
      ensures owner != null ==>
        IsEnumeration(it.order, (set q | q in locations) * owner.chunks.Keys) && RangesOf(owner.chunks, key, it.order, it.ranges)
      ensures |it.ranges| <= MaxInt32 ==> it.index == |it.ranges| && it.Pending() == []
    {
      it := new ChannelIterator(owner, this, locations, MaxInt32);
      if |it.ranges| <= MaxInt32 {
        assert it.ranges[|it.ranges|..] == [];
      }
    }
  }

  /**
   * Iterators of the same range compare equal to end() exactly when
   * nothing is pending: `it != end` is the loop condition of a walk.
   */
  lemma EqualsEndIffDone(it: ChannelIterator, end: ChannelIterator)
    requires it.Valid() && end.Valid()
    requires it.owner == end.owner && it.range == end.range && |it.ranges| == |end.ranges|
    requires end.index == |end.ranges|
    ensures it.Equals(end) <==> it.Pending() == []
  {
  }

  /**
   * Walking the range of a consistent system visits every grid point whose
   * cell holds the key with a set value exactly once, with its stored value;
   * the number of steps is the number of such points.
   */
  lemma BeginVisitsHolding(sv: SystemValue, k: ChannelKey, locations: seq<Point>, order: seq<Point>, ranges: seq<seq<Entry>>)
    requires Consistent(sv) && IsEnumeration(locations, IndexedChunks(sv.index, k))
    requires IsEnumeration(order, (set q | q in locations) * sv.chunks.Keys) && RangesOf(sv.chunks, k, order, ranges)
    ensures IsEnumeration(Points(Flatten(ranges)), SystemHolders(sv, k))
    ensures forall e | e in Flatten(ranges) :: StoredAt(sv, k, e.0, e.1)
    ensures |Flatten(ranges)| == |SystemHolders(sv, k)|
  {
    assert (set q | q in locations) == IndexedChunks(sv.index, k);
    VisitsHolding(sv, k, order, ranges);
    EnumerationLength(Points(Flatten(ranges)), SystemHolders(sv, k));
  }

  /**
   * The iterator a range of a consistent system starts with, before either
   * changes: everything its walk will visit is every holder of the key once.
   */
  lemma RangeWalkVisitsHolding(r: ChannelRange, it: ChannelIterator)
    requires r.owner != null && Consistent(r.owner.Value())
    requires r.Valid() && r.indexed == IndexedChunks(r.owner.channelIndex, r.key)
    requires it.Valid() && it.Pending() == Flatten(it.ranges)
    requires IsEnumeration(it.order, (set q | q in r.locations) * r.owner.chunks.Keys)
    requires RangesOf(r.owner.chunks, r.key, it.order, it.ranges)
    ensures IsEnumeration(Points(it.Pending()), SystemHolders(r.owner.Value(), r.key))
    ensures forall e | e in it.Pending() :: StoredAt(r.owner.Value(), r.key, e.0, e.1)
  {
    assert IsEnumeration(r.locations, IndexedChunks(r.owner.Value().index, r.key));
    BeginVisitsHolding(r.owner.Value(), r.key, r.locations, it.order, it.ranges);
  }
}
