/**
 * The archive format of one dynamic-data chunk: its two corners, the number of
 * cells, then each cell's point followed by the cell. Loading reads each cell
 * into a fresh empty cell and adds it under its point, replacing a cell read
 * earlier for the same point; the index is rebuilt from the cells at the end.
 * The saving order of the cells is the map's iteration order, which is not
 * observable: the saving method reports it as a ghost result.
 */
module ChunkCodec {
  import opened ChunkTypes
  import opened ArchiveIO
  import opened ChunkBase
  import opened CellInfo
  import opened CellCodec
  import opened ChunkState

  /** The order in which each cell's channels were saved. */
  type CellOrders = map<Point, seq<ChannelKey>>

  /** Every cell of the chunk holds records only where it holds a set value. */
  ghost predicate ChunkSaveable(cells: Cells)
  {
    forall p | p in cells :: CellSaveable(cells[p])
  }

  /** The order lists every channel of the cell once and reloads to it. */
  ghost predicate CellOrderFits(c: Cell, o: seq<ChannelKey>)
  {
    SaveableOrder(c.channels, o) && |o| == |c.channels| && LoadAll(map[], c.channels, o) == c.channels
  }

  /** Every listed point is a cell of the chunk, saved in an order that fits it. */
  ghost predicate CellsOrder(cells: Cells, order: seq<Point>, cos: CellOrders)
    decreases |order|
  {
    order == [] ||
    (order[0] in cells && order[0] in cos && CellOrderFits(cells[order[0]], cos[order[0]]) &&
     CellsOrder(cells, order[1..], cos))
  }

  function EncodeCells(cells: Cells, order: seq<Point>, cos: CellOrders): seq<Token>
    requires CellsOrder(cells, order, cos)
    decreases |order|
  {
    if order == [] then []
    else EncodePoint(order[0]) + EncodeCell(cells[order[0]], cos[order[0]]) + EncodeCells(cells, order[1..], cos)
  }

  function EncodeChunk(cv: ChunkValue, order: seq<Point>, cos: CellOrders): seq<Token>
    requires CellsOrder(cv.cells, order, cos)
  {
    EncodeCorners(cv.topLeft, cv.bottomRight) + [IntTok(|cv.cells|)] + EncodeCells(cv.cells, order, cos)
  }

  /** Reading n (point, cell) pairs into acc; each cell is read into a fresh empty cell. */
  function DecodeCells(t: seq<Token>, p: nat, n: nat, r: Resolver, acc: Cells): Option<(Cells, nat)>
    decreases n
  {
    if n == 0 then Some((acc, p))
    else
      match DecodePoint(t, p)
      case None => None
      case Some((pt, q)) =>
        match DecodeCell(t, q, r, EmptyCell)
        case None => None
        case Some((c, q2)) => DecodeCells(t, q2, n - 1, r, acc[pt := c])
  }

  /**
   * Loading a chunk over prior: the corners are read and kept whatever follows;
   * a negative count stops there with the cells and the index of prior; a zero
   * count empties both; a positive count replaces the cells by those read and
   * the index by the one rebuilt from them.
   */
  function DecodeChunk(t: seq<Token>, p: nat, r: Resolver, prior: ChunkValue): Option<(ChunkValue, nat)>
  {
    match DecodeCorners(t, p)
    case None => None
    case Some((tl, br, q)) =>
      match ReadInt(t, q)
      case None => None
      case Some(n) =>
        if n < 0 then Some((prior.(topLeft := tl, bottomRight := br), q + 1))
        else if n == 0 then Some((ChunkValue(tl, br, map[], map[]), q + 1))
        else
          match DecodeCells(t, q + 1, n as nat, r, map[])
          case None => None
          case Some((m, next)) => Some((ChunkValue(tl, br, m, IndexOf(m)), next))
  }

  // ------------------------------------------------------------ saving order

  /** Appending p, saved in order o, to the saving order appends its point and its cell to the encoding. */
  ghost predicate SnocEncodes(cells: Cells, order: seq<Point>, cos: CellOrders, p: Point, o: seq<ChannelKey>)
    requires CellsOrder(cells, order, cos) && p in cells && SaveableOrder(cells[p].channels, o)
  {
    CellsOrder(cells, order + [p], cos[p := o]) &&
    EncodeCells(cells, order + [p], cos[p := o]) == EncodeCells(cells, order, cos) + EncodePoint(p) + EncodeCell(cells[p], o)
  }

  lemma EncodeCellsCons(cells: Cells, order: seq<Point>, cos: CellOrders)
    requires order != [] && CellsOrder(cells, order, cos)
    ensures EncodeCells(cells, order, cos) ==
      EncodePoint(order[0]) + EncodeCell(cells[order[0]], cos[order[0]]) + EncodeCells(cells, order[1..], cos)
  {
  }

  lemma {:induction false} EncodeCellsSnoc(cells: Cells, order: seq<Point>, cos: CellOrders, p: Point, o: seq<ChannelKey>)
    requires CellsOrder(cells, order, cos) && p in cells && p !in order && CellOrderFits(cells[p], o)
    ensures SnocEncodes(cells, order, cos, p, o)
    decreases |order|
  {
    if order == [] {
      assert order + [p] == [p];
      assert [p][1..] == [];
    } else {
      EncodeCellsSnoc(cells, order[1..], cos, p, o);
      SnocBehindHead(cells, order, cos, p, o);
    }
  }

  /** The snoc property of the tail of the order gives the one of the whole order. */
  lemma SnocBehindHead(cells: Cells, order: seq<Point>, cos: CellOrders, p: Point, o: seq<ChannelKey>)
    requires order != [] && CellsOrder(cells, order, cos) && p in cells && p != order[0]
    requires SaveableOrder(cells[p].channels, o)
    requires SnocEncodes(cells, order[1..], cos, p, o)
    ensures SnocEncodes(cells, order, cos, p, o)
  {
    var cos' := cos[p := o];
    assert (order + [p])[1..] == order[1..] + [p];
    assert cos'[order[0]] == cos[order[0]];
    EncodeCellsCons(cells, order, cos);
    EncodeCellsCons(cells, order + [p], cos');
    Regroup(EncodePoint(order[0]) + EncodeCell(cells[order[0]], cos[order[0]]), EncodeCells(cells, order[1..], cos),
            EncodePoint(p), EncodeCell(cells[p], o));
  }

  lemma Regroup(a: seq<Token>, b: seq<Token>, c: seq<Token>, d: seq<Token>)
    ensures a + (b + c + d) == a + b + c + d
  {
  }

  /** The point and the cell written by one turn of the saving loop extend the encoding by one cell. */
  lemma SaveCellsStep(pre: seq<Token>, cells: Cells, order: seq<Point>, cos: CellOrders, p: Point, o: seq<ChannelKey>)
    requires CellsOrder(cells, order, cos) && p in cells && p !in order && CellOrderFits(cells[p], o)
    ensures CellsOrder(cells, order + [p], cos[p := o])
    ensures pre + EncodeCells(cells, order, cos) + EncodePoint(p) + EncodeCell(cells[p], o) ==
      pre + EncodeCells(cells, order + [p], cos[p := o])
  {
    EncodeCellsSnoc(cells, order, cos, p, o);
    assert SnocEncodes(cells, order, cos, p, o);
  }

  // ------------------------------------------------------------ loading what was saved

  /** The cell map after the listed cells are added to acc one after the other. */
  function LoadCells(acc: Cells, cells: Cells, order: seq<Point>): Cells
    decreases |order|
  {
    if order == [] then acc
    else LoadCells(if order[0] in cells then acc[order[0] := cells[order[0]]] else acc, cells, order[1..])
  }

  lemma {:induction false} LoadCellsAt(acc: Cells, cells: Cells, order: seq<Point>, p: Point)
    requires forall i | 0 <= i < |order| :: order[i] in cells
    ensures p in LoadCells(acc, cells, order) <==> p in acc || p in order
    ensures p in order ==> LoadCells(acc, cells, order)[p] == cells[p]
    ensures p !in order && p in acc ==> LoadCells(acc, cells, order)[p] == acc[p]
    decreases |order|
  {
    if order != [] {
      assert order[0] in cells;
      assert forall i | 0 <= i < |order[1..]| :: order[1..][i] in cells by {
        assert forall i | 0 <= i < |order[1..]| :: order[1..][i] == order[i + 1];
      }
      LoadCellsAt(acc[order[0] := cells[order[0]]], cells, order[1..], p);
      assert p in order <==> p == order[0] || p in order[1..];
    }
  }

  /** Adding every cell of the chunk to an empty map rebuilds the chunk's cells. */
  lemma LoadCellsRebuilds(cells: Cells, order: seq<Point>)
    requires IsEnumeration(order, cells.Keys)
    ensures LoadCells(map[], cells, order) == cells
  {
    var m := LoadCells(map[], cells, order);
    forall p ensures (p in m <==> p in cells) && (p in m ==> m[p] == cells[p]) {
      LoadCellsAt(map[], cells, order, p);
    }
    assert m.Keys == cells.Keys;
  }

  /** A cell whose channel map is empty is the empty cell. */
  lemma NoChannelsIsEmptyCell(c: Cell)
    requires |c.channels| == 0
    ensures c == EmptyCell
  {
    assert c.channels == map[];
  }

  /** At p, one (point, cell) pair reads as pt and c, and reading stops at q. */
  ghost predicate PairReadAt(t: seq<Token>, p: nat, r: Resolver, pt: Point, c: Cell, q: nat)
  {
    DecodePoint(t, p) == Some((pt, (p + 2) as nat)) && DecodeCell(t, p + 2, r, EmptyCell) == Some((c, q))
  }

  /** Reading |order| pairs at p adds the listed cells to acc and stops at next. */
  ghost predicate CellsReadBack(t: seq<Token>, p: nat, cells: Cells, order: seq<Point>, r: Resolver, acc: Cells, next: nat)
  {
    DecodeCells(t, p, |order|, r, acc) == Some((LoadCells(acc, cells, order), next))
  }

  /** The saved cells start at p. */
  ghost predicate CellsSavedAt(t: seq<Token>, p: nat, cells: Cells, order: seq<Point>, cos: CellOrders)
    requires CellsOrder(cells, order, cos)
  {
    StartsWith(t, p, EncodeCells(cells, order, cos))
  }

  /** The position right after the saved cells, when they start at p. */
  ghost function SavedCellsEnd(p: nat, cells: Cells, order: seq<Point>, cos: CellOrders): nat
    requires CellsOrder(cells, order, cos)
  {
    p + |EncodeCells(cells, order, cos)|
  }

  /** The first saved (point, cell) pair reads back as it was, and the others follow it. */
  lemma CellsStep(t: seq<Token>, p: nat, cells: Cells, order: seq<Point>, cos: CellOrders, r: Resolver) returns (q: nat)
    requires order != [] && CellsOrder(cells, order, cos) && ResolvesAll(r)
    requires CellsSavedAt(t, p, cells, order, cos)
    ensures PairReadAt(t, p, r, order[0], cells[order[0]], q)
    ensures CellsSavedAt(t, q, cells, order[1..], cos)
    ensures SavedCellsEnd(p, cells, order, cos) == SavedCellsEnd(q, cells, order[1..], cos)
  {
    EncodeCellsCons(cells, order, cos);
    q := PairAt(t, p, order[0], cells[order[0]], cos[order[0]], EncodeCells(cells, order[1..], cos), r);
  }

  /** A saved (point, cell) pair reads back as it was, and what was saved after it follows. */
  lemma PairAt(t: seq<Token>, p: nat, pt: Point, c: Cell, o: seq<ChannelKey>, tail: seq<Token>, r: Resolver) returns (q: nat)
    requires CellOrderFits(c, o) && ResolvesAll(r)
    requires StartsWith(t, p, EncodePoint(pt) + EncodeCell(c, o) + tail)
    ensures PairReadAt(t, p, r, pt, c, q)
    ensures StartsWith(t, q, tail) && q == p + |EncodePoint(pt) + EncodeCell(c, o)|
  {
    var ep, ec := EncodePoint(pt), EncodeCell(c, o);
    StartsWithSplit(t, p, ep + ec, tail);
    StartsWithSplit(t, p, ep, ec);
    PointAt(t, p, pt);
    FreshCellAt(t, p + 2, c, o, r);
    q := p + 2 + |ec|;
  }

  lemma PointAt(t: seq<Token>, p: nat, pt: Point)
    requires StartsWith(t, p, EncodePoint(pt))
    ensures DecodePoint(t, p) == Some((pt, (p + 2) as nat))
  {
    StartsWithIffSlice(t, p, EncodePoint(pt));
    assert t[p] == IntTok(pt.x) && t[p + 1] == IntTok(pt.y);
  }

  /** A saved cell read into a fresh empty cell comes back as it was, also when it has no channels. */
  lemma FreshCellAt(t: seq<Token>, p: nat, c: Cell, o: seq<ChannelKey>, r: Resolver)
    requires CellOrderFits(c, o) && ResolvesAll(r)
    requires StartsWith(t, p, EncodeCell(c, o))
    ensures DecodeCell(t, p, r, EmptyCell) == Some((c, p + |EncodeCell(c, o)|))
  {
    CellAt(t, p, c, o, r, EmptyCell);
    if |c.channels| == 0 {
      NoChannelsIsEmptyCell(c);
    }
  }

  /** A pair read at p followed by the other pairs read at q is all the pairs read at p. */
  lemma CellsCons(t: seq<Token>, p: nat, cells: Cells, order: seq<Point>, r: Resolver, acc: Cells, q: nat, next: nat)
    requires order != [] && order[0] in cells
    requires PairReadAt(t, p, r, order[0], cells[order[0]], q)
    requires CellsReadBack(t, q, cells, order[1..], r, acc[order[0] := cells[order[0]]], next)
    ensures CellsReadBack(t, p, cells, order, r, acc, next)
  {
  }

  /** Reading saved cells adds each of them, as it was, to the map being filled. */
  lemma {:induction false} CellsAt(t: seq<Token>, p: nat, cells: Cells, order: seq<Point>, cos: CellOrders,
                                   r: Resolver, acc: Cells)
    requires CellsOrder(cells, order, cos) && ResolvesAll(r)
    requires CellsSavedAt(t, p, cells, order, cos)
    ensures CellsReadBack(t, p, cells, order, r, acc, SavedCellsEnd(p, cells, order, cos))
    decreases |order|
  {
    if order != [] {
      var q := CellsStep(t, p, cells, order, cos, r);
      CellsAt(t, q, cells, order[1..], cos, r, acc[order[0] := cells[order[0]]]);
      CellsCons(t, p, cells, order, r, acc, q, SavedCellsEnd(q, cells, order[1..], cos));
    }
  }

  /** A saved chunk starts with its corners and its cell count, and its cells follow. */
  lemma ChunkHeadAt(t: seq<Token>, p: nat, cv: ChunkValue, order: seq<Point>, cos: CellOrders)
    requires CellsOrder(cv.cells, order, cos)
    requires StartsWith(t, p, EncodeChunk(cv, order, cos))
    ensures DecodeCorners(t, p) == Some((cv.topLeft, cv.bottomRight, p + 4))
    ensures ReadInt(t, p + 4) == Some(|cv.cells|)
    ensures StartsWith(t, p + 5, EncodeCells(cv.cells, order, cos))
    ensures p + |EncodeChunk(cv, order, cos)| == SavedCellsEnd(p + 5, cv.cells, order, cos)
  {
    var ec := EncodeCorners(cv.topLeft, cv.bottomRight);
    var n := |cv.cells|;
    var cs := EncodeCells(cv.cells, order, cos);
    StartsWithSplit(t, p, ec + [IntTok(n)], cs);
    StartsWithSplit(t, p, ec, [IntTok(n)]);
    StartsWithIffSlice(t, p, ec);
    assert t == t[..p] + ec + t[p + 4..];
    CornersRoundTrip(t[..p], cv.topLeft, cv.bottomRight, t[p + 4..]);
    IntAt(t, p + 4, n);
  }

  lemma ChunkFromCells(t: seq<Token>, p: nat, r: Resolver, prior: ChunkValue, tl: Point, br: Point, n: int, m: Cells, next: nat)
    requires DecodeCorners(t, p) == Some((tl, br, p + 4)) && ReadInt(t, p + 4) == Some(n) && n > 0
    requires DecodeCells(t, p + 5, n as nat, r, map[]) == Some((m, next))
    ensures DecodeChunk(t, p, r, prior) == Some((ChunkValue(tl, br, m, IndexOf(m)), next))
  {
  }

  lemma ChunkFromNoCells(t: seq<Token>, p: nat, r: Resolver, prior: ChunkValue, tl: Point, br: Point)
    requires DecodeCorners(t, p) == Some((tl, br, p + 4)) && ReadInt(t, p + 4) == Some(0)
    ensures DecodeChunk(t, p, r, prior) == Some((ChunkValue(tl, br, map[], map[]), p + 5))
  {
  }

  lemma ChunkFromNegative(t: seq<Token>, p: nat, r: Resolver, prior: ChunkValue, tl: Point, br: Point, n: int)
    requires DecodeCorners(t, p) == Some((tl, br, p + 4)) && ReadInt(t, p + 4) == Some(n) && n < 0
    ensures DecodeChunk(t, p, r, prior) == Some((prior.(topLeft := tl, bottomRight := br), p + 5))
  {
  }

  lemma ChunkCellsFail(t: seq<Token>, p: nat, r: Resolver, prior: ChunkValue, tl: Point, br: Point, n: int)
    requires DecodeCorners(t, p) == Some((tl, br, p + 4)) && ReadInt(t, p + 4) == Some(n) && n > 0
    requires DecodeCells(t, p + 5, n as nat, r, map[]).None?
    ensures DecodeChunk(t, p, r, prior).None?
  {
  }

  lemma ChunkHeadFails(t: seq<Token>, p: nat, r: Resolver, prior: ChunkValue)
    requires DecodeCorners(t, p).None? || ReadInt(t, p + 4).None?
    ensures DecodeChunk(t, p, r, prior).None?
  {
  }

  /**
   * What loading a chunk over prior from position p leaves: the decoded chunk
   * and the position after it, or the archive's error flag set when the
   * tokens do not decode.
   */
  ghost predicate LoadedAs(t: seq<Token>, p: nat, r: Resolver, prior: ChunkValue, cv: ChunkValue, pos: nat, error: bool)
  {
    match DecodeChunk(t, p, r, prior)
    case Some((d, next)) => cv == d && pos == next && !error
    case None => error
  }

  /** A chunk as loading gives it back: the same corners and cells, the index rebuilt from the cells. */
  function Reloaded(cv: ChunkValue): ChunkValue
  {
    cv.(index := IndexOf(cv.cells))
  }

  /** Reading a saved chunk gives back its corners and cells, with the index rebuilt from the cells. */
  lemma ChunkAt(t: seq<Token>, p: nat, cv: ChunkValue, order: seq<Point>, cos: CellOrders, r: Resolver, prior: ChunkValue)
    requires IsEnumeration(order, cv.cells.Keys) && CellsOrder(cv.cells, order, cos) && ResolvesAll(r)
    requires StartsWith(t, p, EncodeChunk(cv, order, cos))
    ensures DecodeChunk(t, p, r, prior) == Some((Reloaded(cv), p + |EncodeChunk(cv, order, cos)|))
  {
    ChunkHeadAt(t, p, cv, order, cos);
    EnumerationLength(order, cv.cells.Keys);
    if |cv.cells| == 0 {
      assert cv.cells == map[];
      EmptyCellsEmptyIndex(IndexOf(cv.cells));
      ChunkFromNoCells(t, p, r, prior, cv.topLeft, cv.bottomRight);
    } else {
      CellsAt(t, p + 5, cv.cells, order, cos, r, map[]);
      LoadCellsRebuilds(cv.cells, order);
      ChunkFromCells(t, p, r, prior, cv.topLeft, cv.bottomRight, |cv.cells|, cv.cells, SavedCellsEnd(p + 5, cv.cells, order, cos));
    }
  }

  /**
   * Loading what was saved gives back the chunk's corners and cells when every
   * record type resolves, with the index rebuilt; whatever the chunk loaded
   * into held before does not matter.
   */
  lemma ChunkRoundTrip(cv: ChunkValue, order: seq<Point>, cos: CellOrders, r: Resolver, prior: ChunkValue)
    requires IsEnumeration(order, cv.cells.Keys) && CellsOrder(cv.cells, order, cos) && ResolvesAll(r)
    ensures DecodeChunk(EncodeChunk(cv, order, cos), 0, r, prior) ==
      Some((Reloaded(cv), |EncodeChunk(cv, order, cos)|))
  {
    StartsWithWhole(EncodeChunk(cv, order, cos));
    ChunkAt(EncodeChunk(cv, order, cos), 0, cv, order, cos, r, prior);
  }

  /** For a chunk whose index matches its cells, the round trip gives back the chunk itself. */
  lemma ConsistentChunkRoundTrip(cv: ChunkValue, order: seq<Point>, cos: CellOrders, r: Resolver, prior: ChunkValue)
    requires IsEnumeration(order, cv.cells.Keys) && CellsOrder(cv.cells, order, cos) && ResolvesAll(r)
    requires IndexMatches(cv.index, cv.cells)
    ensures DecodeChunk(EncodeChunk(cv, order, cos), 0, r, prior) == Some((cv, |EncodeChunk(cv, order, cos)|))
  {
    ChunkRoundTrip(cv, order, cos, r, prior);
    IndexUnique(cv.index, IndexOf(cv.cells), cv.cells);
  }

  /** A negative count keeps the cells and the index of the chunk loaded into, but not its corners. */
  lemma NegativeCountKeepsCells(t: seq<Token>, p: nat, r: Resolver, prior: ChunkValue, tl: Point, br: Point)
    requires StartsWith(t, p, EncodeCorners(tl, br)) && p + 4 < |t| && t[p + 4].IntTok? && t[p + 4].i < 0
    ensures DecodeChunk(t, p, r, prior) == Some((prior.(topLeft := tl, bottomRight := br), p + 5))
  {
    var ec := EncodeCorners(tl, br);
    StartsWithIffSlice(t, p, ec);
    assert t == t[..p] + ec + t[p + 4..];
    CornersRoundTrip(t[..p], tl, br, t[p + 4..]);
  }

  // ------------------------------------------------------------ methods

  /**
   * The saving direction of FChunk_DynamicData::Serialize: the corners, the
   * count, and unless it is zero every (point, cell) pair.
   */
  method SaveChunk(ar: Archive, cv: ChunkValue) returns (ghost order: seq<Point>, ghost cos: CellOrders)
    requires !ar.loading && ChunkSaveable(cv.cells)
    modifies ar
    ensures IsEnumeration(order, cv.cells.Keys) && CellsOrder(cv.cells, order, cos)
    ensures ar.data == old(ar.data) + EncodeChunk(cv, order, cos) && ar.error == old(ar.error)
  {
    var tl, br := SerializeCorners(ar, cv.topLeft, cv.bottomRight);
    var count := ar.SerializeInt(|cv.cells|);
    ghost var head := old(ar.data) + EncodeCorners(cv.topLeft, cv.bottomRight) + [IntTok(|cv.cells|)];
    order, cos := [], map[];
    if count == 0 {
      assert cv.cells.Keys == {};
      assert ar.data == head + EncodeCells(cv.cells, order, cos);
    } else {
      order, cos := SaveCellMap(ar, cv.cells);
    }
    Regroup(old(ar.data), EncodeCorners(cv.topLeft, cv.bottomRight), [IntTok(|cv.cells|)], EncodeCells(cv.cells, order, cos));
  }

  /** The saving loop over the cells. */
  method SaveCellMap(ar: Archive, cells: Cells) returns (ghost order: seq<Point>, ghost cos: CellOrders)
    requires !ar.loading && ChunkSaveable(cells)
    modifies ar
    ensures IsEnumeration(order, cells.Keys) && CellsOrder(cells, order, cos)
    ensures ar.data == old(ar.data) + EncodeCells(cells, order, cos) && ar.error == old(ar.error)
  {
    order, cos := [], map[];
    var remaining := cells.Keys;
    while remaining != {}
      invariant SavedSoFar(order, cells, remaining)
      invariant CellsOrder(cells, order, cos)
      invariant ar.data == old(ar.data) + EncodeCells(cells, order, cos) && ar.error == old(ar.error)
      decreases |remaining|
    {
      var p :| p in remaining;
      var p' := ar.SerializePoint(p);
      ghost var o := SaveCell(ar, cells[p]);
      EnumerationLoads(cells[p], o);
      SavedSoFarStep(order, cells, remaining, p);
      SaveCellsStep(old(ar.data), cells, order, cos, p, o);
      order, cos := order + [p], cos[p := o];
      remaining := remaining - {p};
    }
    assert cells.Keys - remaining == cells.Keys;
  }

  /** The points saved so far are, once each, the cells not left to save. */
  ghost predicate SavedSoFar(order: seq<Point>, cells: Cells, remaining: set<Point>)
  {
    remaining <= cells.Keys && IsEnumeration(order, cells.Keys - remaining)
  }

  lemma SavedSoFarStep(order: seq<Point>, cells: Cells, remaining: set<Point>, p: Point)
    requires SavedSoFar(order, cells, remaining) && p in remaining
    ensures p in cells && p !in order && SavedSoFar(order + [p], cells, remaining - {p})
  {
    var order' := order + [p];
    assert forall i | 0 <= i < |order| :: order'[i] == order[i];
    assert order'[|order|] == p;
  }

  /** The loading loop: count (point, cell) pairs, each cell read into a fresh empty cell. */
  method LoadCellMap(ar: Archive, count: int, r: Resolver) returns (m: Cells)
    requires ar.loading && count > 0
    modifies ar
    ensures ar.data == old(ar.data)
    ensures !old(ar.error) ==>
      match DecodeCells(ar.data, old(ar.pos), count as nat, r, map[])
      case Some((d, next)) => m == d && ar.pos == next && !ar.error
      case None => ar.error
    ensures old(ar.error) ==> ar.error
  {
    ghost var n: nat := count;
    m := map[];
    var i := 0;
    while i < count
      invariant 0 <= i <= n
      decreases count - i
      invariant ar.data == old(ar.data)
      invariant old(ar.error) ==> ar.error
      invariant !old(ar.error) && !ar.error ==>
        DecodeCells(ar.data, ar.pos, n - i, r, m) == DecodeCells(ar.data, old(ar.pos), n, r, map[])
      invariant !old(ar.error) && ar.error ==> DecodeCells(ar.data, old(ar.pos), n, r, map[]).None?
    {
      var pt := ar.SerializePoint(Point(0, 0));
      var c := LoadCell(ar, EmptyCell, r);
      m := m[pt := c];
      i := i + 1;
    }
  }
}
