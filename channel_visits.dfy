/**
 * What iterating one channel over the whole chunk system yields, as values:
 * every chunk the system index lists for the key contributes the range of
 * its own index for that key, one chunk after another. The iterator classes
 * that walk these ranges step by step are in module ChannelIteration.
 */
module ChannelVisits {
  import opened ChunkTypes
  import opened GridMath
  import opened CellInfo
  import opened CellCodec
  import opened ChunkState
  import opened SystemState

  /** What the iterator dereferences to: a grid point and the value stored there. */
  type Entry = (Point, InstancedStruct)

  /** The cells chunk cv indexes for key k. */
  function IndexedCells(cv: ChunkValue, k: ChannelKey): set<Point>
  {
    if k in cv.index then cv.index[k] else {}
  }

  /** The value a chunk's own range yields at cell p: the stored value, an empty struct where none is stored. */
  function ValueAt(cv: ChunkValue, k: ChannelKey, p: Point): InstancedStruct
  {
    if p in cv.cells && HoldsValue(cv.cells[p], k) then cv.cells[p].channels[k].value else EmptyStruct
  }

  /** The distinct chunk points the system index lists for k: a chunk is listed iff it occurs at least once. */
  function IndexedChunks(index: SystemIndex, k: ChannelKey): (u: set<Point>)
    ensures forall c :: c in u <==> Mult(index, k, c) > 0
  {
    if k in index then set c | c in index[k] else {}
  }

  function Points(es: seq<Entry>): (ps: seq<Point>)
    ensures |ps| == |es| && forall i | 0 <= i < |es| :: ps[i] == es[i].0
  {
    seq(|es|, i requires 0 <= i < |es| => es[i].0)
  }

  /** The range of chunk cv for key k: every cell its index lists for k once, each with its value. */
  ghost predicate ChunkRange(cv: ChunkValue, k: ChannelKey, es: seq<Entry>)
  {
    IsEnumeration(Points(es), IndexedCells(cv, k)) &&
    forall i | 0 <= i < |es| :: es[i].1 == ValueAt(cv, k, es[i].0)
  }

  /** One range per chunk of the order, in the same order. */
  ghost predicate RangesOf(chunks: Chunks, k: ChannelKey, order: seq<Point>, ranges: seq<seq<Entry>>)
  {
    |ranges| == |order| &&
    forall j | 0 <= j < |order| :: order[j] in chunks && ChunkRange(chunks[order[j]], k, ranges[j])
  }

  /** The chained range: each per-chunk range after the one before it. */
  function Flatten(ranges: seq<seq<Entry>>): seq<Entry>
  {
    if ranges == [] then [] else ranges[0] + Flatten(ranges[1..])
  }

  /** The cells that the chunks of the order index for k. */
  ghost function CellsOfChunks(chunks: Chunks, k: ChannelKey, order: seq<Point>): set<Point>
  {
    if order == [] then {}
    else (if order[0] in chunks then IndexedCells(chunks[order[0]], k) else {}) + CellsOfChunks(chunks, k, order[1..])
  }

  /** The grid points whose cell holds key k with a set value, over all chunks; none for a null type. */
  ghost function SystemHolders(sv: SystemValue, k: ChannelKey): set<Point>
  {
    set c, p | c in sv.chunks && p in sv.chunks[c].cells && HoldsValue(sv.chunks[c].cells[p], k) && k.typ.Some? :: p
  }

  /** Grid point p's cell, in the chunk p belongs to, holds v under key k. */
  ghost predicate StoredAt(sv: SystemValue, k: ChannelKey, p: Point, v: InstancedStruct)
  {
    sv.chunkSize >= 1 && ChunkOf(p, sv.chunkSize) in sv.chunks &&
    var cv := sv.chunks[ChunkOf(p, sv.chunkSize)];
    p in cv.cells && HoldsValue(cv.cells[p], k) && cv.cells[p].channels[k] == Some(v)
  }

  lemma PointsAppend(a: seq<Entry>, b: seq<Entry>)
    ensures Points(a + b) == Points(a) + Points(b)
  {
    assert forall i | 0 <= i < |a| :: (a + b)[i] == a[i];
    assert forall i | |a| <= i < |a + b| :: (a + b)[i] == b[i - |a|];
  }

  lemma CellsOfChunksMember(chunks: Chunks, k: ChannelKey, order: seq<Point>, p: Point)
    ensures p in CellsOfChunks(chunks, k, order) <==>
      exists j | 0 <= j < |order| :: order[j] in chunks && p in IndexedCells(chunks[order[j]], k)
    decreases |order|
  {
    if order != [] {
      CellsOfChunksMember(chunks, k, order[1..], p);
      if p in CellsOfChunks(chunks, k, order[1..]) {
        var j :| 0 <= j < |order[1..]| && order[1..][j] in chunks && p in IndexedCells(chunks[order[1..][j]], k);
        assert order[j + 1] == order[1..][j];
      }
      if exists j | 0 <= j < |order| :: order[j] in chunks && p in IndexedCells(chunks[order[j]], k) {
        var j :| 0 <= j < |order| && order[j] in chunks && p in IndexedCells(chunks[order[j]], k);
        if j > 0 {
          assert order[1..][j - 1] == order[j];
        }
      }
    }
  }

  /**
   * The chained range of distinct chunks whose indexes lie inside their own
   * chunks lists every cell those indexes hold exactly once, each with the
   * value stored there.
   */
  lemma {:induction false} FlattenEnumerates(chunks: Chunks, s: int, k: ChannelKey, order: seq<Point>, ranges: seq<seq<Entry>>)
    requires s >= 1 && RangesOf(chunks, k, order, ranges)
    requires forall i, j | 0 <= i < j < |order| :: order[i] != order[j]
    requires forall j | 0 <= j < |order| :: IndexPlaced(chunks[order[j]], order[j], s)
    ensures IsEnumeration(Points(Flatten(ranges)), CellsOfChunks(chunks, k, order))
    ensures forall p | p in CellsOfChunks(chunks, k, order) :: ChunkOf(p, s) in order
    ensures forall e | e in Flatten(ranges) :: ChunkOf(e.0, s) in chunks && e.1 == ValueAt(chunks[ChunkOf(e.0, s)], k, e.0)
    decreases |order|
  {
    if order != [] {
      var c := order[0];
      var first := IndexedCells(chunks[c], k);
      var rest := CellsOfChunks(chunks, k, order[1..]);
      assert RangesOf(chunks, k, order[1..], ranges[1..]) by {
        forall j | 0 <= j < |order[1..]| ensures order[1..][j] in chunks && ChunkRange(chunks[order[1..][j]], k, ranges[1..][j]) {
          assert order[1..][j] == order[j + 1] && ranges[1..][j] == ranges[j + 1];
        }
      }
      FlattenEnumerates(chunks, s, k, order[1..], ranges[1..]);
      assert ChunkRange(chunks[c], k, ranges[0]);
      assert forall p | p in first :: ChunkOf(p, s) == c;
      forall p | p in rest ensures ChunkOf(p, s) != c {
        var j :| 0 <= j < |order[1..]| && order[1..][j] == ChunkOf(p, s);
        assert order[0] != order[j + 1];
      }
      assert first * rest == {};
      PointsAppend(ranges[0], Flatten(ranges[1..]));
      EnumerationAppend(Points(ranges[0]), first, Points(Flatten(ranges[1..])), rest);
      forall e | e in Flatten(ranges)
        ensures ChunkOf(e.0, s) in chunks && e.1 == ValueAt(chunks[ChunkOf(e.0, s)], k, e.0)
      {
        if e in ranges[0] {
          var i :| 0 <= i < |ranges[0]| && ranges[0][i] == e;
          assert Points(ranges[0])[i] == e.0;
        }
      }
    }
  }

  /**
   * In a consistent system the chunks the index lists for k are exactly the
   * chunks some cell of which holds k with a set value (and k has a type):
   * this is what the range's Num counts.
   */
  lemma IndexedChunksHold(sv: SystemValue, k: ChannelKey)
    requires Consistent(sv)
    ensures IndexedChunks(sv.index, k) ==
      set c | c in sv.chunks && Holders(sv.chunks[c].cells, k) != {} && k.typ.Some?
  {
    forall c ensures c in IndexedChunks(sv.index, k) <==>
      c in sv.chunks && Holders(sv.chunks[c].cells, k) != {} && k.typ.Some?
    {
      assert Mult(sv.index, k, c) == Size(sv.chunks, c, k);
      if c in sv.chunks && Holders(sv.chunks[c].cells, k) != {} && k.typ.Some? {
        var p :| p in Holders(sv.chunks[c].cells, k);
        assert ChunkOk(sv.chunks[c], c, sv.chunkSize);
        assert k in sv.chunks[c].index;
      }
    }
  }

  /** A cell the index of an indexed chunk lists holds the key, and every holder is listed this way. */
  lemma IndexedCellsAreHolding(sv: SystemValue, k: ChannelKey, order: seq<Point>)
    requires Consistent(sv)
    requires IsEnumeration(order, IndexedChunks(sv.index, k) * sv.chunks.Keys)
    ensures CellsOfChunks(sv.chunks, k, order) == SystemHolders(sv, k)
  {
    forall p | p in CellsOfChunks(sv.chunks, k, order) ensures p in SystemHolders(sv, k) {
      IndexedCellHolds(sv, k, order, p);
    }
    forall p | p in SystemHolders(sv, k) ensures p in CellsOfChunks(sv.chunks, k, order) {
      HolderIsIndexed(sv, k, order, p);
    }
  }

  lemma IndexedCellHolds(sv: SystemValue, k: ChannelKey, order: seq<Point>, p: Point)
    requires Consistent(sv) && p in CellsOfChunks(sv.chunks, k, order)
    ensures p in SystemHolders(sv, k)
  {
    CellsOfChunksMember(sv.chunks, k, order, p);
    var j :| 0 <= j < |order| && order[j] in sv.chunks && p in IndexedCells(sv.chunks[order[j]], k);
    HolderOfIndexed(sv, k, order[j], p);
  }

  lemma HolderIsIndexed(sv: SystemValue, k: ChannelKey, order: seq<Point>, p: Point)
    requires Consistent(sv) && p in SystemHolders(sv, k)
    requires IsEnumeration(order, IndexedChunks(sv.index, k) * sv.chunks.Keys)
    ensures p in CellsOfChunks(sv.chunks, k, order)
  {
    var c :| c in sv.chunks && p in sv.chunks[c].cells && HoldsValue(sv.chunks[c].cells[p], k) && k.typ.Some?;
    IndexedOfHolder(sv, k, c, p);
    assert c in order;
    var j :| 0 <= j < |order| && order[j] == c;
    CellsOfChunksMember(sv.chunks, k, order, p);
  }

  lemma HolderOfIndexed(sv: SystemValue, k: ChannelKey, c: Point, p: Point)
    requires Consistent(sv) && c in sv.chunks && p in IndexedCells(sv.chunks[c], k)
    ensures p in sv.chunks[c].cells && HoldsValue(sv.chunks[c].cells[p], k) && k.typ.Some?
    ensures p in SystemHolders(sv, k)
  {
    assert ChunkOk(sv.chunks[c], c, sv.chunkSize);
  }

  lemma IndexedOfHolder(sv: SystemValue, k: ChannelKey, c: Point, p: Point)
    requires Consistent(sv) && c in sv.chunks && p in sv.chunks[c].cells
    requires HoldsValue(sv.chunks[c].cells[p], k) && k.typ.Some?
    ensures p in IndexedCells(sv.chunks[c], k) && c in IndexedChunks(sv.index, k)
  {
    assert ChunkOk(sv.chunks[c], c, sv.chunkSize);
    assert p in Holders(sv.chunks[c].cells, k);
    assert Mult(sv.index, k, c) == Size(sv.chunks, c, k);
  }

  /**
   * The chained range over the indexed chunks of a consistent system lists
   * every grid point whose cell holds k with a set value exactly once, each
   * with the value stored there.
   */
  lemma VisitsHolding(sv: SystemValue, k: ChannelKey, order: seq<Point>, ranges: seq<seq<Entry>>)
    requires Consistent(sv)
    requires IsEnumeration(order, IndexedChunks(sv.index, k) * sv.chunks.Keys)
    requires RangesOf(sv.chunks, k, order, ranges)
    ensures IsEnumeration(Points(Flatten(ranges)), SystemHolders(sv, k))
    ensures forall e | e in Flatten(ranges) :: StoredAt(sv, k, e.0, e.1)
  {
    var s := sv.chunkSize;
    forall j | 0 <= j < |order| ensures IndexPlaced(sv.chunks[order[j]], order[j], s) {
      OkIsIndexPlaced(sv.chunks[order[j]], order[j], s);
    }
    FlattenEnumerates(sv.chunks, s, k, order, ranges);
    IndexedCellsAreHolding(sv, k, order);
    forall e | e in Flatten(ranges) ensures StoredAt(sv, k, e.0, e.1) {
      var c := ChunkOf(e.0, s);
      var i :| 0 <= i < |Flatten(ranges)| && Flatten(ranges)[i] == e;
      assert Points(Flatten(ranges))[i] == e.0;
      HolderOfIndexed(sv, k, c, e.0);
    }
  }

  /** In a consistent system the only chunk that can hold grid point p's cell is the chunk p belongs to. */
  lemma HoldingAt(sv: SystemValue, k: ChannelKey, p: Point)
    requires Consistent(sv)
    ensures p in SystemHolders(sv, k) <==>
      k.typ.Some? && ChunkOf(p, sv.chunkSize) in sv.chunks &&
      p in sv.chunks[ChunkOf(p, sv.chunkSize)].cells && HoldsValue(sv.chunks[ChunkOf(p, sv.chunkSize)].cells[p], k)
  {
    var c := ChunkOf(p, sv.chunkSize);
    if p in SystemHolders(sv, k) {
      var c' :| c' in sv.chunks && p in sv.chunks[c'].cells && HoldsValue(sv.chunks[c'].cells[p], k) && k.typ.Some?;
      assert ChunkOk(sv.chunks[c'], c', sv.chunkSize);
    }
  }

  /**
   * After a chunk is removed from a consistent system, the grid points
   * holding k are those that held it before outside that chunk: no walk
   * over the channel reaches the removed chunk's cells.
   */
  lemma RemovedChunkNotVisited(sv: SystemValue, c: Point, k: ChannelKey)
    requires Consistent(sv)
    ensures forall p :: p in SystemHolders(RemoveChunk(sv, c).0, k) <==>
      p in SystemHolders(sv, k) && ChunkOf(p, sv.chunkSize) != c
  {
    var after := RemoveChunk(sv, c).0;
    RemoveChunkKeeps(sv, c);
    forall p ensures p in SystemHolders(after, k) <==> p in SystemHolders(sv, k) && ChunkOf(p, sv.chunkSize) != c {
      HoldingAt(sv, k, p);
      HoldingAt(after, k, p);
    }
  }
}
