/**
 * The archive format of the chunk system: the chunk size, the number of
 * chunks, then for every chunk its coordinate followed by the chunk as the
 * chunk codec writes it. Loading reads each chunk into a chunk made with both
 * corners at the origin, and a later pair with the same coordinate replaces
 * an earlier one.
 */
module SystemCodec {
  import opened ChunkTypes
  import opened ArchiveIO
  import opened GridMath
  import opened CellCodec
  import opened ChunkState
  import opened ChunkCodec
  import opened SystemState

  /** For every chunk, the order its cells were saved in and the orders of their channels. */
  type ChunkOrders = map<Point, (seq<Point>, CellOrders)>

  /** The chunk's cells are saved once each, in an order that reloads to them. */
  ghost predicate ChunkOrderFits(cv: ChunkValue, o: (seq<Point>, CellOrders))
  {
    IsEnumeration(o.0, cv.cells.Keys) && CellsOrder(cv.cells, o.0, o.1)
  }

  /** Every listed coordinate is a chunk of the map, saved in an order that fits it. */
  ghost predicate ChunksOrder(chunks: Chunks, order: seq<Point>, cos: ChunkOrders)
    decreases |order|
  {
    order == [] ||
    (order[0] in chunks && order[0] in cos && ChunkOrderFits(chunks[order[0]], cos[order[0]]) &&
     ChunksOrder(chunks, order[1..], cos))
  }

  /** One saved pair: the chunk coordinate, then the chunk. */
  function EncodeChunkPair(c: Point, cv: ChunkValue, o: (seq<Point>, CellOrders)): seq<Token>
    requires CellsOrder(cv.cells, o.0, o.1)
  {
    EncodePoint(c) + EncodeChunk(cv, o.0, o.1)
  }

  function EncodeChunks(chunks: Chunks, order: seq<Point>, cos: ChunkOrders): seq<Token>
    requires ChunksOrder(chunks, order, cos)
    decreases |order|
  {
    if order == [] then []
    else EncodeChunkPair(order[0], chunks[order[0]], cos[order[0]]) + EncodeChunks(chunks, order[1..], cos)
  }

  /** Saving: the chunk size, the chunk count, then every chunk in the order the map is walked. */
  function EncodeSystem(sv: SystemValue, order: seq<Point>, cos: ChunkOrders): seq<Token>
    requires ChunksOrder(sv.chunks, order, cos)
  {
    [IntTok(sv.chunkSize), IntTok(|sv.chunks|)] + EncodeChunks(sv.chunks, order, cos)
  }

  /** The chunk every saved chunk is loaded into: one made with both corners at the origin. */
  function LoadTarget(): ChunkValue
  {
    NewChunk(Point(0, 0), Point(0, 0))
  }

  /** Reading n (coordinate, chunk) pairs into acc. */
  function DecodeChunks(t: seq<Token>, p: nat, n: nat, r: Resolver, acc: Chunks): Option<(Chunks, nat)>
    decreases n
  {
    if n == 0 then Some((acc, p))
    else
      match DecodePoint(t, p)
      case None => None
      case Some((c, q)) =>
        match DecodeChunk(t, q, r, LoadTarget())
        case None => None
        case Some((cv, q2)) => DecodeChunks(t, q2, n - 1, r, acc[c := cv])
  }

  /**
   * Loading as the source does it: the chunk size is taken as read, without
   * the clamp the constructor applies; a count that is not positive leaves no
   * chunk.
   */
  function DecodeSystemAsWritten(t: seq<Token>, p: nat, r: Resolver): Option<(int, Chunks, nat)>
  {
    match ReadInt(t, p)
    case None => None
    case Some(size) =>
      match ReadInt(t, p + 1)
      case None => None
      case Some(n) =>
        if n <= 0 then Some((size, map[], p + 2))
        else
          match DecodeChunks(t, p + 2, n as nat, r, map[])
          case None => None
          case Some((m, next)) => Some((size, m, next))
  }

  /** Loading with the chunk size clamped as the constructor clamps it: the size read is never below the minimum. */
  function DecodeSystem(t: seq<Token>, p: nat, r: Resolver): (d: Option<(int, Chunks, nat)>)
    ensures d.Some? <==> DecodeSystemAsWritten(t, p, r).Some?
    ensures d.Some? ==> d.value.0 >= DefaultChunkSize
    ensures d.Some? ==> d.value.1 == DecodeSystemAsWritten(t, p, r).value.1 && d.value.2 == DecodeSystemAsWritten(t, p, r).value.2
    ensures d.Some? && DecodeSystemAsWritten(t, p, r).value.0 >= DefaultChunkSize ==> d == DecodeSystemAsWritten(t, p, r)
  {
    match DecodeSystemAsWritten(t, p, r)
    case None => None
    case Some((size, m, next)) => Some((ClampChunkSize(size), m, next))
  }

  /** As written, an archive holding a zero chunk size loads a system whose chunk size is zero, below the minimum. */
  lemma AsWrittenLoadsZeroSize(r: Resolver)
    ensures DecodeSystemAsWritten([IntTok(0), IntTok(0)], 0, r) == Some((0, map[], 2))
    ensures DecodeSystemAsWritten([IntTok(0), IntTok(0)], 0, r).value.0 < DefaultChunkSize
  {
  }

  /** With the clamp, the same archive loads a system with the minimum chunk size. */
  lemma ClampedLoadsMinimumSize(r: Resolver)
    ensures DecodeSystem([IntTok(0), IntTok(0)], 0, r) == Some((DefaultChunkSize, map[], 2))
  {
  }

  // ------------------------------------------------------------ saving order

  lemma EncodeChunksCons(chunks: Chunks, order: seq<Point>, cos: ChunkOrders)
    requires order != [] && ChunksOrder(chunks, order, cos)
    ensures EncodeChunks(chunks, order, cos) ==
      EncodeChunkPair(order[0], chunks[order[0]], cos[order[0]]) + EncodeChunks(chunks, order[1..], cos)
  {
  }

  /** Appending c, saved in order o, to the saving order appends its pair to the encoding. */
  ghost predicate SnocEncodesChunk(chunks: Chunks, order: seq<Point>, cos: ChunkOrders, c: Point, o: (seq<Point>, CellOrders))
    requires ChunksOrder(chunks, order, cos) && c in chunks && CellsOrder(chunks[c].cells, o.0, o.1)
  {
    ChunksOrder(chunks, order + [c], cos[c := o]) &&
    EncodeChunks(chunks, order + [c], cos[c := o]) == EncodeChunks(chunks, order, cos) + EncodeChunkPair(c, chunks[c], o)
  }

  lemma {:induction false} EncodeChunksSnoc(chunks: Chunks, order: seq<Point>, cos: ChunkOrders, c: Point, o: (seq<Point>, CellOrders))
    requires ChunksOrder(chunks, order, cos) && c in chunks && c !in order && ChunkOrderFits(chunks[c], o)
    ensures SnocEncodesChunk(chunks, order, cos, c, o)
    decreases |order|
  {
    if order == [] {
      assert order + [c] == [c];
      assert [c][1..] == [];
    } else {
      EncodeChunksSnoc(chunks, order[1..], cos, c, o);
      ChunkSnocBehindHead(chunks, order, cos, c, o);
    }
  }

  /** The snoc property of the tail of the order gives the one of the whole order. */
  lemma ChunkSnocBehindHead(chunks: Chunks, order: seq<Point>, cos: ChunkOrders, c: Point, o: (seq<Point>, CellOrders))
    requires order != [] && ChunksOrder(chunks, order, cos) && c in chunks && c != order[0]
    requires CellsOrder(chunks[c].cells, o.0, o.1)
    requires SnocEncodesChunk(chunks, order[1..], cos, c, o)
    ensures SnocEncodesChunk(chunks, order, cos, c, o)
  {
    var cos' := cos[c := o];
    assert (order + [c])[1..] == order[1..] + [c];
    assert cos'[order[0]] == cos[order[0]];
    EncodeChunksCons(chunks, order, cos);
    EncodeChunksCons(chunks, order + [c], cos');
    Associate(EncodeChunkPair(order[0], chunks[order[0]], cos[order[0]]), EncodeChunks(chunks, order[1..], cos),
              EncodeChunkPair(c, chunks[c], o));
  }

  lemma Associate(a: seq<Token>, b: seq<Token>, c: seq<Token>)
    ensures a + (b + c) == a + b + c
  {
  }

  /** The coordinate and the chunk written by one turn of the saving loop extend the encoding by one pair. */
  lemma SaveChunksStep(pre: seq<Token>, chunks: Chunks, order: seq<Point>, cos: ChunkOrders, c: Point, o: (seq<Point>, CellOrders))
    requires ChunksOrder(chunks, order, cos) && c in chunks && c !in order && ChunkOrderFits(chunks[c], o)
    ensures ChunksOrder(chunks, order + [c], cos[c := o])
    ensures pre + EncodeChunks(chunks, order, cos) + EncodePoint(c) + EncodeChunk(chunks[c], o.0, o.1) ==
      pre + EncodeChunks(chunks, order + [c], cos[c := o])
  {
    EncodeChunksSnoc(chunks, order, cos, c, o);
    assert SnocEncodesChunk(chunks, order, cos, c, o);
  }

  // ------------------------------------------------------------ loading what was saved

  /** Every chunk of the map as loading gives it back, with its index rebuilt from its cells. */
  function ReloadedAll(chunks: Chunks): (m: Chunks)
    ensures m.Keys == chunks.Keys
    ensures forall c | c in m :: m[c] == Reloaded(chunks[c])
  {
    map c | c in chunks :: Reloaded(chunks[c])
  }

  /** A system whose chunks all have the index their cells give is what reloading gives back. */
  lemma ReloadedAllKeeps(chunks: Chunks)
    requires forall c | c in chunks :: IndexMatches(chunks[c].index, chunks[c].cells)
    ensures ReloadedAll(chunks) == chunks
  {
    forall c | c in chunks ensures Reloaded(chunks[c]) == chunks[c] {
      IndexUnique(chunks[c].index, IndexOf(chunks[c].cells), chunks[c].cells);
    }
  }

  /** The chunk map after the listed chunks, as reloaded, are added to acc one after the other. */
  function LoadChunks(acc: Chunks, chunks: Chunks, order: seq<Point>): Chunks
    decreases |order|
  {
    if order == [] then acc
    else LoadChunks(if order[0] in chunks then acc[order[0] := Reloaded(chunks[order[0]])] else acc, chunks, order[1..])
  }

  lemma {:induction false} LoadChunksAt(acc: Chunks, chunks: Chunks, order: seq<Point>, c: Point)
    requires forall i | 0 <= i < |order| :: order[i] in chunks
    ensures c in LoadChunks(acc, chunks, order) <==> c in acc || c in order
    ensures c in order ==> LoadChunks(acc, chunks, order)[c] == Reloaded(chunks[c])
    ensures c !in order && c in acc ==> LoadChunks(acc, chunks, order)[c] == acc[c]
    decreases |order|
  {
    if order != [] {
      assert order[0] in chunks;
      assert forall i | 0 <= i < |order[1..]| :: order[1..][i] in chunks by {
        assert forall i | 0 <= i < |order[1..]| :: order[1..][i] == order[i + 1];
      }
      LoadChunksAt(acc[order[0] := Reloaded(chunks[order[0]])], chunks, order[1..], c);
      assert c in order <==> c == order[0] || c in order[1..];
    }
  }

  /** Adding every chunk, as reloaded, to an empty map gives every chunk as reloaded. */
  lemma LoadChunksRebuilds(chunks: Chunks, order: seq<Point>)
    requires IsEnumeration(order, chunks.Keys)
    ensures LoadChunks(map[], chunks, order) == ReloadedAll(chunks)
  {
    var m := LoadChunks(map[], chunks, order);
    forall c ensures (c in m <==> c in chunks) && (c in m ==> m[c] == Reloaded(chunks[c])) {
      LoadChunksAt(map[], chunks, order, c);
    }
    assert m.Keys == chunks.Keys;
  }

  /** At p, one (coordinate, chunk) pair reads as c and cv, and reading stops at q. */
  ghost predicate ChunkPairReadAt(t: seq<Token>, p: nat, r: Resolver, c: Point, cv: ChunkValue, q: nat)
  {
    DecodePoint(t, p) == Some((c, (p + 2) as nat)) && DecodeChunk(t, p + 2, r, LoadTarget()) == Some((cv, q))
  }

  /** Reading |order| pairs at p adds the listed chunks, as reloaded, to acc and stops at next. */
  ghost predicate ChunksReadBack(t: seq<Token>, p: nat, chunks: Chunks, order: seq<Point>, r: Resolver, acc: Chunks, next: nat)
  {
    DecodeChunks(t, p, |order|, r, acc) == Some((LoadChunks(acc, chunks, order), next))
  }

  /** The saved chunks start at p. */
  ghost predicate ChunksSavedAt(t: seq<Token>, p: nat, chunks: Chunks, order: seq<Point>, cos: ChunkOrders)
    requires ChunksOrder(chunks, order, cos)
  {
    StartsWith(t, p, EncodeChunks(chunks, order, cos))
  }

  /** The position right after the saved chunks, when they start at p. */
  ghost function SavedChunksEnd(p: nat, chunks: Chunks, order: seq<Point>, cos: ChunkOrders): nat
    requires ChunksOrder(chunks, order, cos)
  {
    p + |EncodeChunks(chunks, order, cos)|
  }

  /** A saved (coordinate, chunk) pair reads back, the chunk as reloaded, and what was saved after it follows. */
  lemma ChunkPairAt(t: seq<Token>, p: nat, c: Point, cv: ChunkValue, o: (seq<Point>, CellOrders), tail: seq<Token>, r: Resolver)
    returns (q: nat)
    requires ChunkOrderFits(cv, o) && ResolvesAll(r)
    requires StartsWith(t, p, EncodeChunkPair(c, cv, o) + tail)
    ensures ChunkPairReadAt(t, p, r, c, Reloaded(cv), q)
    ensures StartsWith(t, q, tail) && q == p + |EncodeChunkPair(c, cv, o)|
  {
    PairPieces(t, p, c, cv, o, tail);
    ReadPair(t, p, c, cv, o, r);
    q := p + 2 + |EncodeChunk(cv, o.0, o.1)|;
  }

  lemma ReadPair(t: seq<Token>, p: nat, c: Point, cv: ChunkValue, o: (seq<Point>, CellOrders), r: Resolver)
    requires ChunkOrderFits(cv, o) && ResolvesAll(r)
    requires StartsWith(t, p, EncodePoint(c)) && StartsWith(t, p + 2, EncodeChunk(cv, o.0, o.1))
    ensures ChunkPairReadAt(t, p, r, c, Reloaded(cv), p + 2 + |EncodeChunk(cv, o.0, o.1)|)
  {
    PointAt(t, p, c);
    ChunkAt(t, p + 2, cv, o.0, o.1, r, LoadTarget());
  }

  lemma PairPieces(t: seq<Token>, p: nat, c: Point, cv: ChunkValue, o: (seq<Point>, CellOrders), tail: seq<Token>)
    requires CellsOrder(cv.cells, o.0, o.1)
    requires StartsWith(t, p, EncodeChunkPair(c, cv, o) + tail)
    ensures StartsWith(t, p, EncodePoint(c)) && StartsWith(t, p + 2, EncodeChunk(cv, o.0, o.1))
    ensures |EncodeChunkPair(c, cv, o)| == 2 + |EncodeChunk(cv, o.0, o.1)|
    ensures StartsWith(t, p + 2 + |EncodeChunk(cv, o.0, o.1)|, tail)
  {
    ThreePieces(t, p, EncodePoint(c), EncodeChunk(cv, o.0, o.1), tail);
  }

  /** Tokens starting with a + b + c start with each of the three in turn. */
  lemma ThreePieces(t: seq<Token>, p: nat, a: seq<Token>, b: seq<Token>, c: seq<Token>)
    requires StartsWith(t, p, a + b + c)
    ensures StartsWith(t, p, a) && StartsWith(t, p + |a|, b) && StartsWith(t, p + |a| + |b|, c)
  {
    StartsWithSplit(t, p, a + b, c);
    StartsWithSplit(t, p, a, b);
  }

  /** The first saved pair reads back, and the others follow it. */
  lemma ChunksStep(t: seq<Token>, p: nat, chunks: Chunks, order: seq<Point>, cos: ChunkOrders, r: Resolver) returns (q: nat)
    requires order != [] && ChunksOrder(chunks, order, cos) && ResolvesAll(r)
    requires ChunksSavedAt(t, p, chunks, order, cos)
    ensures ChunkPairReadAt(t, p, r, order[0], Reloaded(chunks[order[0]]), q)
    ensures ChunksSavedAt(t, q, chunks, order[1..], cos)
    ensures SavedChunksEnd(p, chunks, order, cos) == SavedChunksEnd(q, chunks, order[1..], cos)
  {
    EncodeChunksCons(chunks, order, cos);
    q := ChunkPairAt(t, p, order[0], chunks[order[0]], cos[order[0]], EncodeChunks(chunks, order[1..], cos), r);
  }

  /** A pair read at p followed by the other pairs read at q is all the pairs read at p. */
  lemma ChunksCons(t: seq<Token>, p: nat, chunks: Chunks, order: seq<Point>, r: Resolver, acc: Chunks, q: nat, next: nat)
    requires order != [] && order[0] in chunks
    requires ChunkPairReadAt(t, p, r, order[0], Reloaded(chunks[order[0]]), q)
    requires ChunksReadBack(t, q, chunks, order[1..], r, acc[order[0] := Reloaded(chunks[order[0]])], next)
    ensures ChunksReadBack(t, p, chunks, order, r, acc, next)
  {
  }

  /** Reading saved chunks adds each of them, as reloaded, to the map being filled. */
  lemma {:induction false} ChunksAt(t: seq<Token>, p: nat, chunks: Chunks, order: seq<Point>, cos: ChunkOrders,
                                    r: Resolver, acc: Chunks)
    requires ChunksOrder(chunks, order, cos) && ResolvesAll(r)
    requires ChunksSavedAt(t, p, chunks, order, cos)
    ensures ChunksReadBack(t, p, chunks, order, r, acc, SavedChunksEnd(p, chunks, order, cos))
    decreases |order|
  {
    if order != [] {
      var q := ChunksStep(t, p, chunks, order, cos, r);
      ChunksAt(t, q, chunks, order[1..], cos, r, acc[order[0] := Reloaded(chunks[order[0]])]);
      ChunksCons(t, p, chunks, order, r, acc, q, SavedChunksEnd(q, chunks, order[1..], cos));
    }
  }

  /** Every listed coordinate of a fitting order is a chunk of the map. */
  lemma {:induction false} OrderedAreChunks(chunks: Chunks, order: seq<Point>, cos: ChunkOrders)
    requires ChunksOrder(chunks, order, cos)
    ensures forall i | 0 <= i < |order| :: order[i] in chunks
    decreases |order|
  {
    if order != [] {
      OrderedAreChunks(chunks, order[1..], cos);
      assert forall i | 1 <= i < |order| :: order[i] == order[1..][i - 1];
    }
  }

  /** A saved system starts with its chunk size and its chunk count, and its chunks follow. */
  lemma SystemHeadAt(t: seq<Token>, sv: SystemValue, order: seq<Point>, cos: ChunkOrders)
    requires ChunksOrder(sv.chunks, order, cos) && t == EncodeSystem(sv, order, cos)
    ensures ReadInt(t, 0) == Some(sv.chunkSize) && ReadInt(t, 1) == Some(|sv.chunks|)
    ensures ChunksSavedAt(t, 2, sv.chunks, order, cos) && |t| == SavedChunksEnd(2, sv.chunks, order, cos)
  {
    var body := EncodeChunks(sv.chunks, order, cos);
    assert t == [IntTok(sv.chunkSize), IntTok(|sv.chunks|)] + body + [];
    StartsWithInside([IntTok(sv.chunkSize), IntTok(|sv.chunks|)], body, []);
  }

  /**
   * Round trip: loading what was saved gives back the chunk size and every
   * chunk, each with its index rebuilt from its cells.
   */
  lemma SystemRoundTrip(sv: SystemValue, order: seq<Point>, cos: ChunkOrders, r: Resolver)
    requires sv.chunkSize >= DefaultChunkSize && ResolvesAll(r)
    requires IsEnumeration(order, sv.chunks.Keys) && ChunksOrder(sv.chunks, order, cos)
    ensures DecodeSystem(EncodeSystem(sv, order, cos), 0, r) ==
      Some((sv.chunkSize, ReloadedAll(sv.chunks), |EncodeSystem(sv, order, cos)|))
  {
    var t := EncodeSystem(sv, order, cos);
    SystemHeadAt(t, sv, order, cos);
    EnumerationLength(order, sv.chunks.Keys);
    LoadChunksRebuilds(sv.chunks, order);
    if |sv.chunks| == 0 {
      assert sv.chunks == map[];
      assert ReloadedAll(sv.chunks) == map[];
    } else {
      ChunksAt(t, 2, sv.chunks, order, cos, r, map[]);
    }
  }

  /**
   * For a consistent system the round trip gives back the chunks themselves,
   * each chunk's index already lies inside the chunk, and only the system's
   * own index matches them, so rebuilding the index after loading restores
   * the whole system.
   */
  lemma ConsistentSystemRoundTrip(sv: SystemValue, order: seq<Point>, cos: ChunkOrders, r: Resolver)
    requires Consistent(sv) && ResolvesAll(r)
    requires IsEnumeration(order, sv.chunks.Keys) && ChunksOrder(sv.chunks, order, cos)
    ensures DecodeSystem(EncodeSystem(sv, order, cos), 0, r) ==
      Some((sv.chunkSize, sv.chunks, |EncodeSystem(sv, order, cos)|))
    ensures forall c | c in sv.chunks :: IndexPlaced(sv.chunks[c], c, sv.chunkSize)
    ensures forall index | SysMatches(index, sv.chunks) :: index == sv.index
  {
    SystemRoundTrip(sv, order, cos, r);
    ReloadedAllKeeps(sv.chunks);
    forall c | c in sv.chunks ensures IndexPlaced(sv.chunks[c], c, sv.chunkSize) {
      OkIsIndexPlaced(sv.chunks[c], c, sv.chunkSize);
    }
    forall index | SysMatches(index, sv.chunks) ensures index == sv.index {
      SysMatchesUnique(index, sv.index, sv.chunks);
    }
  }

  /** What loading a system from position p leaves: the decoded size, chunks and position, or the error flag set. */
  ghost predicate SystemLoadedAs(t: seq<Token>, p: nat, r: Resolver, size: int, chunks: Chunks, pos: nat, error: bool)
  {
    match DecodeSystem(t, p, r)
    case Some((s, m, next)) => size == s && chunks == m && pos == next && !error
    case None => error
  }

  /**
   * Saving a consistent system, loading the tokens back and rebuilding the
   * index so that it matches the loaded chunks restores the system exactly,
   * without error and with every token consumed.
   */
  lemma SaveLoadRestores(sv: SystemValue, order: seq<Point>, cos: ChunkOrders, r: Resolver,
                         loaded: SystemValue, pos: nat, error: bool)
    requires Consistent(sv) && ResolvesAll(r)
    requires IsEnumeration(order, sv.chunks.Keys) && ChunksOrder(sv.chunks, order, cos)
    requires SystemLoadedAs(EncodeSystem(sv, order, cos), 0, r, loaded.chunkSize, loaded.chunks, pos, error)
    requires loaded.chunkSize >= 1
    requires (forall c | c in loaded.chunks :: IndexPlaced(loaded.chunks[c], c, loaded.chunkSize)) ==>
      SysMatches(loaded.index, loaded.chunks)
    ensures loaded == sv && !error && pos == |EncodeSystem(sv, order, cos)|
  {
    ConsistentSystemRoundTrip(sv, order, cos, r);
  }
}

