/**
 * FChunk_DynamicData as an object: the corners, the cells and the channel
 * index are fields its methods update in place. Each method is proved against
 * the function of `ChunkState` or `ChunkCodec` that states what it does to the
 * chunk's value, and the properties of those functions are proved there.
 */
module DynamicChunks {
  import opened ChunkTypes
  import opened ArchiveIO
  import opened GridMath
  import opened ChunkBase
  import opened CellInfo
  import opened CellCodec
  import opened ChunkState
  import opened ChunkCodec

  class Chunk {
    var topLeft: Point
    var bottomRight: Point
    var cells: Cells
    var channelIndex: ChunkIndex

    /** The chunk as a value. */
    function Value(): ChunkValue
      reads this
    {
      ChunkValue(topLeft, bottomRight, cells, channelIndex)
    }

    /**
     * The corners are normalised, then an empty cell is emplaced for every
     * point of the rectangle, column by column.
     */
    constructor (inTopLeft: Point, inBottomRight: Point)
      ensures Value() == NewChunk(inTopLeft, inBottomRight)
      ensures IsGrid(cells, topLeft, bottomRight) && channelIndex == map[]
    {
      var (tl, br) := NormalizeCorners(inTopLeft, inBottomRight);
      var grid: map<Point, Cell> := map[];
      var x := tl.x;
      while x <= br.x
        invariant tl.x <= x <= br.x + 1
        invariant FilledUpTo(grid, tl, br, x, tl.y)
      {
        var y := tl.y;
        while y <= br.y
          invariant tl.y <= y <= br.y + 1
          invariant FilledUpTo(grid, tl, br, x, y)
        {
          grid := grid[Point(x, y) := EmptyCell];
          y := y + 1;
        }
        NextColumn(grid, tl, br, x);
        x := x + 1;
      }
      FilledIsGrid(grid, tl, br);
      topLeft, bottomRight := tl, br;
      cells, channelIndex := grid, map[];
      GridUnique(grid, NewChunk(inTopLeft, inBottomRight).cells, tl, br);
    }

    /** HasChannel: whether the cell at p contains the key. */
    predicate HasChannel(k: ChannelKey, p: Point)
      requires p in cells
      reads this
    {
      CellInfo.HasChannel(cells[p], k)
    }

    /**
     * FindOrAddChannel: registers the cell when the key is absent from it,
     * then GetOrAddChannel on the cell; gives the value the returned
     * reference designates.
     */
    method FindOrAddChannel(k: ChannelKey, p: Point) returns (v: InstancedStruct)
      requires p in cells
      modifies this
      ensures (Value(), v) == FindOrAdd(old(Value()), k, p)
    {
      if !HasChannel(k, p) {
        RegisterChannelLocation(k, p);
      }
      var (c, value) := GetOrAddChannel(cells[p], k);
      cells := cells[p := c];
      v := value;
    }

    /** TryRemoveChannel: RemoveChannel on the cell, and the cell unregistered when something was removed. */
    method TryRemoveChannel(k: ChannelKey, p: Point) returns (removed: bool)
      requires p in cells
      modifies this
      ensures (Value(), removed) == TryRemove(old(Value()), k, p)
    {
      var (c, r) := RemoveChannel(cells[p], k);
      removed := r;
      if removed {
        cells := cells[p := c];
        UnregisterChannelLocation(k, p);
      }
    }

    method RegisterChannelLocation(k: ChannelKey, p: Point)
      modifies this
      ensures channelIndex == Register(old(channelIndex), k, p)
      ensures topLeft == old(topLeft) && bottomRight == old(bottomRight) && cells == old(cells)
    {
      if k.typ.None? {
        return;
      }
      var locations := if k in channelIndex then channelIndex[k] else {};
      channelIndex := channelIndex[k := locations + {p}];
    }

    method UnregisterChannelLocation(k: ChannelKey, p: Point)
      modifies this
      ensures channelIndex == Unregister(old(channelIndex), k, p)
      ensures topLeft == old(topLeft) && bottomRight == old(bottomRight) && cells == old(cells)
    {
      if k in channelIndex {
        var locations := channelIndex[k] - {p};
        if |locations| == 0 {
          channelIndex := channelIndex - {k};
        } else {
          channelIndex := channelIndex[k := locations];
        }
      }
    }

    /**
     * FindChannelLocations: the key's set, if indexed. When the index matches
     * the cells, that is exactly the cells holding the key with a set value,
     * and nothing is found for a null type or a key no cell holds.
     */
    method FindChannelLocations(k: ChannelKey) returns (r: Option<set<Point>>)
      ensures r.Some? <==> k in channelIndex
      ensures r.Some? ==> r.value == channelIndex[k]
      ensures IndexMatches(channelIndex, cells) ==>
        (r.Some? <==> k.typ.Some? && Holders(cells, k) != {}) &&
        (r.Some? ==> r.value == Holders(cells, k))
    {
      if k in channelIndex {
        r := Some(channelIndex[k]);
      } else {
        r := None;
      }
    }

    /** RebuildChannelIndex: empties the index, then registers every set entry of every cell. */
    method RebuildChannelIndex()
      modifies this
      ensures channelIndex == IndexOf(cells)
      ensures topLeft == old(topLeft) && bottomRight == old(bottomRight) && cells == old(cells)
    {
      channelIndex := map[];
      ghost var built: Cells := map[];
      var todo := cells.Keys;
      while todo != {}
        invariant topLeft == old(topLeft) && bottomRight == old(bottomRight) && cells == old(cells)
        invariant Copied(built, cells, todo)
        invariant IndexMatches(channelIndex, built)
        decreases |todo|
      {
        var p :| p in todo;
        IndexAddCell(channelIndex, built, p);
        CopiedStart(built, cells, todo, p);
        built := built[p := EmptyCell];
        todo := todo - {p};
        var channels := cells[p].channels;
        var keys := channels.Keys;
        while keys != {}
          invariant topLeft == old(topLeft) && bottomRight == old(bottomRight) && cells == old(cells)
          invariant CopiedBut(built, cells, todo, p, keys)
          invariant IndexMatches(channelIndex, built)
          decreases |keys|
        {
          var k :| k in keys;
          CopiedEntry(built, cells, todo, p, keys, k);
          IndexAddEntry(channelIndex, built, p, k, channels[k]);
          if channels[k].Some? {
            RegisterChannelLocation(k, p);
          }
          built := built[p := Cell(built[p].channels[k := channels[k]])];
          keys := keys - {k};
        }
        CopiedEnd(built, cells, todo, p);
      }
      CopiedAll(built, cells);
      IndexUnique(channelIndex, IndexOf(cells), cells);
    }

    /**
     * Serialize: the corners, then the count. Saving writes every (point,
     * cell) pair; loading reads count pairs into fresh cells. A negative count
     * read back stops after the corners; a zero count empties the cells and
     * the index; otherwise the index is rebuilt from the cells at the end,
     * in both directions.
     */
    method Serialize(ar: Archive, r: Resolver) returns (ghost order: seq<Point>, ghost cos: CellOrders)
      requires !ar.loading ==> ChunkSaveable(cells)
      modifies this, ar
      ensures !ar.loading ==>
        IsEnumeration(order, old(cells).Keys) && CellsOrder(old(cells), order, cos) &&
        ar.data == old(ar.data) + EncodeChunk(old(Value()), order, cos) && ar.error == old(ar.error) &&
        Value() == Reloaded(old(Value()))
      ensures ar.loading ==> ar.data == old(ar.data)
      ensures ar.loading && !old(ar.error) ==> LoadedAs(ar.data, old(ar.pos), r, old(Value()), Value(), ar.pos, ar.error)
      ensures ar.loading && old(ar.error) ==> ar.error
    {
      order, cos := [], map[];
      if !ar.loading {
        order, cos := SaveChunk(ar, Value());
        if |cells| == 0 {
          channelIndex := map[];
          EmptyCellsEmptyIndex(IndexOf(cells));
        } else {
          RebuildChannelIndex();
        }
        return;
      }
      ghost var t, p, prior := ar.data, ar.pos, Value();
      var tl, br := SerializeCorners(ar, topLeft, bottomRight);
      topLeft, bottomRight := tl, br;
      var count := ar.SerializeInt(|cells|);
      ghost var clean := !old(ar.error) && !ar.error;
      if !old(ar.error) && ar.error {
        ChunkHeadFails(t, p, r, prior);
      }
      if count < 0 {
        if clean {
          ChunkFromNegative(t, p, r, prior, tl, br, count);
        }
        return;
      }
      if count == 0 {
        cells, channelIndex := map[], map[];
        if clean {
          ChunkFromNoCells(t, p, r, prior, tl, br);
        }
        return;
      }
      cells := LoadCellMap(ar, count, r);
      RebuildChannelIndex();
      if clean {
        match DecodeCells(t, p + 5, count as nat, r, map[])
        case Some((m, next)) => ChunkFromCells(t, p, r, prior, tl, br, count, m, next);
        case None => ChunkCellsFail(t, p, r, prior, tl, br, count);
      }
    }
  }

  // ------------------------------------------------------------ construction bookkeeping

  /** The cells emplaced so far: every column before x, and column x below y. */
  ghost predicate FilledUpTo(cells: Cells, tl: Point, br: Point, x: int, y: int)
  {
    (forall p :: p in cells <==> InRect(p, tl, br) && (p.x < x || (p.x == x && p.y < y))) &&
    (forall p | p in cells :: cells[p] == EmptyCell)
  }

  lemma NextColumn(cells: Cells, tl: Point, br: Point, x: int)
    requires tl.y <= br.y + 1 && FilledUpTo(cells, tl, br, x, br.y + 1)
    ensures FilledUpTo(cells, tl, br, x + 1, tl.y)
  {
  }

  lemma FilledIsGrid(cells: Cells, tl: Point, br: Point)
    requires FilledUpTo(cells, tl, br, br.x + 1, tl.y)
    ensures IsGrid(cells, tl, br)
  {
  }

  /** The rectangle determines the grid of empty cells. */
  lemma GridUnique(a: Cells, b: Cells, tl: Point, br: Point)
    requires IsGrid(a, tl, br) && IsGrid(b, tl, br)
    ensures a == b
  {
    assert a.Keys == b.Keys;
  }

  // ------------------------------------------------------------ rebuild bookkeeping

  /** built holds exactly the cells not left to visit, as they are. */
  ghost predicate Copied(built: Cells, cells: Cells, todo: set<Point>)
  {
    todo <= cells.Keys && built.Keys == cells.Keys - todo &&
    forall q | q in built :: built[q] == cells[q]
  }

  /** As Copied, except that the cell at p has only its entries outside keys so far. */
  ghost predicate CopiedBut(built: Cells, cells: Cells, todo: set<Point>, p: Point, keys: set<ChannelKey>)
  {
    p in cells && p !in todo && todo <= cells.Keys && built.Keys == cells.Keys - todo &&
    keys <= cells[p].channels.Keys &&
    (forall q | q in built && q != p :: built[q] == cells[q]) &&
    built[p].channels.Keys == cells[p].channels.Keys - keys &&
    (forall k | k in built[p].channels :: built[p].channels[k] == cells[p].channels[k])
  }

  lemma CopiedStart(built: Cells, cells: Cells, todo: set<Point>, p: Point)
    requires Copied(built, cells, todo) && p in todo
    ensures p !in built
    ensures CopiedBut(built[p := EmptyCell], cells, todo - {p}, p, cells[p].channels.Keys)
  {
  }

  lemma CopiedEntry(built: Cells, cells: Cells, todo: set<Point>, p: Point, keys: set<ChannelKey>, k: ChannelKey)
    requires CopiedBut(built, cells, todo, p, keys) && k in keys
    ensures p in built && k !in built[p].channels
    ensures CopiedBut(built[p := Cell(built[p].channels[k := cells[p].channels[k]])], cells, todo, p, keys - {k})
  {
  }

  lemma CopiedEnd(built: Cells, cells: Cells, todo: set<Point>, p: Point)
    requires CopiedBut(built, cells, todo, p, {})
    ensures Copied(built, cells, todo)
  {
    assert built[p].channels == cells[p].channels;
  }

  lemma CopiedAll(built: Cells, cells: Cells)
    requires Copied(built, cells, {})
    ensures built == cells
  {
  }
}
