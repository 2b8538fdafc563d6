/**
 * The state of one dynamic-data chunk (its corners, its cells and its channel
 * index) and the chunk's operations as functions from the state before to the
 * state after. The class in `Chunks` performs them step by step and is proved
 * against these functions; the store keeps its chunks as these values.
 *
 * The channel index maps each typed channel key to the cells that hold it with
 * a set value. `IndexMatches` says an index is exactly the one
 * RebuildChannelIndex computes from the cells.
 */
module ChunkState {
  import opened ChunkTypes
  import opened GridMath
  import opened ChunkBase
  import opened CellInfo

  type Cells = map<Point, Cell>
  type ChunkIndex = map<ChannelKey, set<Point>>

  datatype ChunkValue = ChunkValue(topLeft: Point, bottomRight: Point, cells: Cells, index: ChunkIndex)

  // ------------------------------------------------------------ construction

  /** One empty cell for every point of the rectangle and for no other point. */
  ghost predicate IsGrid(cells: Cells, topLeft: Point, bottomRight: Point)
  {
    (forall p :: p in cells <==> InRect(p, topLeft, bottomRight)) &&
    (forall p | p in cells :: cells[p] == EmptyCell)
  }

  function RectPoints(topLeft: Point, bottomRight: Point): set<Point>
  {
    set x, y | topLeft.x <= x <= bottomRight.x && topLeft.y <= y <= bottomRight.y :: Point(x, y)
  }

  /** The chunk the constructor makes from two corners: normalised corners, an empty cell per point, no index. */
  function NewChunk(topLeft: Point, bottomRight: Point): (r: ChunkValue)
    ensures (r.topLeft, r.bottomRight) == NormalizeCorners(topLeft, bottomRight)
    ensures IsGrid(r.cells, r.topLeft, r.bottomRight) && r.index == map[]
  {
    var (tl, br) := NormalizeCorners(topLeft, bottomRight);
    var cells := map p | p in RectPoints(tl, br) :: EmptyCell;
    assert forall p | InRect(p, tl, br) :: p in RectPoints(tl, br) by {
      forall p | InRect(p, tl, br) ensures p in RectPoints(tl, br) {
        assert p == Point(p.x, p.y);
      }
    }
    ChunkValue(tl, br, cells, map[])
  }

  // ------------------------------------------------------------ the index

  /** The cells holding key k with a set value. */
  function Holders(cells: Cells, k: ChannelKey): set<Point>
  {
    set p | p in cells && HoldsValue(cells[p], k)
  }

  /**
   * The index is the one rebuilt from the cells: a key is present iff its type
   * is not null and some cell holds it with a set value, and then its set is
   * exactly the cells holding it.
   */
  ghost predicate IndexMatches(index: ChunkIndex, cells: Cells)
  {
    (forall k | k in index :: k.typ.Some? && index[k] != {} && index[k] == Holders(cells, k)) &&
    (forall p, k | p in cells && HoldsValue(cells[p], k) && k.typ.Some? :: k in index)
  }

  /** The typed keys some cell holds with a set value. */
  function HeldKeys(cells: Cells): set<ChannelKey>
  {
    set p, k | p in cells && k in cells[p].channels && cells[p].channels[k].Some? && k.typ.Some? :: k
  }

  /** The index RebuildChannelIndex computes. */
  function IndexOf(cells: Cells): (index: ChunkIndex)
    ensures IndexMatches(index, cells)
  {
    var index := map k | k in HeldKeys(cells) :: Holders(cells, k);
    forall k | k in index ensures index[k] != {} {
      var p, k' :| p in cells && k' in cells[p].channels && cells[p].channels[k'].Some? && k'.typ.Some? && k' == k;
      assert p in Holders(cells, k);
    }
    index
  }

  /** The cells determine the index: two indexes that both match them are equal. */
  lemma IndexUnique(a: ChunkIndex, b: ChunkIndex, cells: Cells)
    requires IndexMatches(a, cells) && IndexMatches(b, cells)
    ensures a == b
  {
    forall k | k in a ensures k in b {
      var p :| p in a[k];
      assert HoldsValue(cells[p], k);
    }
    forall k | k in b ensures k in a {
      var p :| p in b[k];
      assert HoldsValue(cells[p], k);
    }
  }

  /** A chunk with no cells has the empty index. */
  lemma EmptyCellsEmptyIndex(index: ChunkIndex)
    requires IndexMatches(index, map[])
    ensures index == map[]
  {
    IndexUnique(index, map[], map[]);
  }

  /** The index holds typed keys only and never an empty set. */
  ghost predicate WellFormed(index: ChunkIndex)
  {
    forall k | k in index :: k.typ.Some? && index[k] != {}
  }

  /** RegisterChannelLocation: a null type is ignored; otherwise the cell joins the key's set. */
  function Register(index: ChunkIndex, k: ChannelKey, p: Point): (r: ChunkIndex)
    ensures WellFormed(index) ==> WellFormed(r)
    ensures k.typ.Some? ==> k in r && p in r[k]
    ensures forall k' | k' != k || k.typ.None? :: (k' in r <==> k' in index) && (k' in r ==> r[k'] == index[k'])
  {
    if k.typ.None? then index
    else index[k := (if k in index then index[k] else {}) + {p}]
  }

  /** UnregisterChannelLocation: the cell leaves the key's set, and a set left empty is dropped. */
  function Unregister(index: ChunkIndex, k: ChannelKey, p: Point): (r: ChunkIndex)
    ensures WellFormed(index) ==> WellFormed(r)
    ensures k in r ==> k in index && r[k] == index[k] - {p}
    ensures k in index && index[k] - {p} != {} ==> k in r
    ensures forall k' | k' != k :: (k' in r <==> k' in index) && (k' in r ==> r[k'] == index[k'])
  {
    if k !in index then index
    else if index[k] - {p} == {} then index - {k}
    else index[k := index[k] - {p}]
  }

  /** Unregistering a cell that was just registered for a typed key restores a well-formed index. */
  lemma UnregisterUndoesRegister(index: ChunkIndex, k: ChannelKey, p: Point)
    requires WellFormed(index) && k.typ.Some?
    requires k in index ==> p !in index[k]
    ensures Unregister(Register(index, k, p), k, p) == index
  {
    var r := Unregister(Register(index, k, p), k, p);
    if k in index {
      assert index[k] + {p} - {p} == index[k];
    }
  }

  // ------------------------------------------------------------ cell operations

  /** HasChannel of the chunk: containment of the key in the cell at p. */
  predicate HasChannelAt(cv: ChunkValue, k: ChannelKey, p: Point)
    requires p in cv.cells
  {
    HasChannel(cv.cells[p], k)
  }

  /**
   * FindOrAddChannel of the chunk: GetOrAddChannel on the cell at p, and the
   * cell registered in the index when the key was absent there.
   */
  function FindOrAdd(cv: ChunkValue, k: ChannelKey, p: Point): (r: (ChunkValue, InstancedStruct))
    requires p in cv.cells
    ensures r.0.topLeft == cv.topLeft && r.0.bottomRight == cv.bottomRight
    ensures r.0.cells.Keys == cv.cells.Keys
    ensures HoldsValue(r.0.cells[p], k) && r.0.cells[p].channels[k] == Some(r.1)
    ensures SameExcept(cv.cells[p], r.0.cells[p], k)
    ensures forall q | q in cv.cells && q != p :: r.0.cells[q] == cv.cells[q]
    ensures HoldsValue(cv.cells[p], k) ==> r.0 == cv && r.1 == cv.cells[p].channels[k].value
  {
    var index := if HasChannel(cv.cells[p], k) then cv.index else Register(cv.index, k, p);
    var (c, v) := GetOrAddChannel(cv.cells[p], k);
    (cv.(cells := cv.cells[p := c], index := index), v)
  }

  /**
   * TryRemoveChannel of the chunk: RemoveChannel on the cell at p, and the
   * cell unregistered from the index when something was removed.
   */
  function TryRemove(cv: ChunkValue, k: ChannelKey, p: Point): (r: (ChunkValue, bool))
    requires p in cv.cells
    ensures r.1 <==> HasChannel(cv.cells[p], k)
    ensures r.0.topLeft == cv.topLeft && r.0.bottomRight == cv.bottomRight
    ensures r.0.cells.Keys == cv.cells.Keys && !HasChannel(r.0.cells[p], k)
    ensures SameExcept(cv.cells[p], r.0.cells[p], k)
    ensures forall q | q in cv.cells && q != p :: r.0.cells[q] == cv.cells[q]
    ensures !r.1 ==> r.0 == cv
  {
    var (c, removed) := RemoveChannel(cv.cells[p], k);
    if removed then (cv.(cells := cv.cells[p := c], index := Unregister(cv.index, k, p)), true)
    else (cv, false)
  }

  /** The cell at p holds k as an unset placeholder. */
  predicate PlaceholderAt(cells: Cells, k: ChannelKey, p: Point)
  {
    p in cells && k in cells[p].channels && cells[p].channels[k].None?
  }

  /** No cell holds an unset placeholder. */
  ghost predicate NoPlaceholders(cells: Cells)
  {
    forall p, k | p in cells && k in cells[p].channels :: cells[p].channels[k].Some?
  }

  /** Adding an entry for a key the cell lacks keeps the index matching, when the value is registered iff set. */
  lemma IndexAddEntry(index: ChunkIndex, cells: Cells, p: Point, k: ChannelKey, v: Option<InstancedStruct>)
    requires IndexMatches(index, cells) && p in cells && k !in cells[p].channels
    ensures IndexMatches(if v.Some? then Register(index, k, p) else index,
                         cells[p := Cell(cells[p].channels[k := v])])
  {
    var c := Cell(cells[p].channels[k := v]);
    var cells' := cells[p := c];
    forall k' | k' != k ensures Holders(cells', k') == Holders(cells, k') {
      HoldersElsewhere(cells, p, c, k, k');
    }
    if v.None? {
      HoldersSame(cells, p, c, k);
    } else {
      HoldersGain(cells, p, c, k);
    }
  }

  /** Changing one cell only in key k leaves the holders of every other key as they were. */
  lemma HoldersElsewhere(cells: Cells, p: Point, c: Cell, k: ChannelKey, k': ChannelKey)
    requires p in cells && k' != k && SameExcept(cells[p], c, k)
    ensures Holders(cells[p := c], k') == Holders(cells, k')
  {
    assert HoldsValue(c, k') <==> HoldsValue(cells[p], k');
    HoldersSame(cells, p, c, k');
  }

  /** Replacing a cell by one that holds k exactly when the old one did leaves the holders of k as they were. */
  lemma HoldersSame(cells: Cells, p: Point, c: Cell, k: ChannelKey)
    requires p in cells && (HoldsValue(c, k) <==> HoldsValue(cells[p], k))
    ensures Holders(cells[p := c], k) == Holders(cells, k)
  {
    assert forall q | q in cells :: (HoldsValue(cells[p := c][q], k) <==> HoldsValue(cells[q], k));
  }

  /** Replacing a cell by one that holds k makes the cell a holder of k. */
  lemma HoldersGain(cells: Cells, p: Point, c: Cell, k: ChannelKey)
    requires p in cells && HoldsValue(c, k)
    ensures Holders(cells[p := c], k) == Holders(cells, k) + {p}
  {
    assert forall q | q in cells && q != p :: (HoldsValue(cells[p := c][q], k) <==> HoldsValue(cells[q], k));
  }

  /** Removing a key's entry from a cell keeps the index matching, when the cell is unregistered. */
  lemma IndexRemoveEntry(index: ChunkIndex, cells: Cells, p: Point, k: ChannelKey)
    requires IndexMatches(index, cells) && p in cells && k in cells[p].channels
    ensures IndexMatches(Unregister(index, k, p), cells[p := Cell(cells[p].channels - {k})])
  {
    var c := Cell(cells[p].channels - {k});
    var cells' := cells[p := c];
    forall k' | k' != k ensures Holders(cells', k') == Holders(cells, k') {
      HoldersElsewhere(cells, p, c, k, k');
    }
    assert Holders(cells', k) == Holders(cells, k) - {p};
    var index' := Unregister(index, k, p);
    forall q, k' | q in cells' && HoldsValue(cells'[q], k') && k'.typ.Some? ensures k' in index' {
      if k' == k {
        assert q != p && cells'[q] == cells[q];
        assert q in Holders(cells, k);
        assert q in index[k] - {p};
      } else {
        assert HoldsValue(cells[q], k');
      }
    }
  }

  /** A new empty cell adds nothing to the index. */
  lemma IndexAddCell(index: ChunkIndex, cells: Cells, p: Point)
    requires IndexMatches(index, cells) && p !in cells
    ensures IndexMatches(index, cells[p := EmptyCell])
  {
    forall k ensures Holders(cells[p := EmptyCell], k) == Holders(cells, k) {
      assert forall q | q in cells :: cells[p := EmptyCell][q] == cells[q];
    }
  }

  /** FindOrAddChannel keeps the index matching the cells, unless the cell held the key as a placeholder. */
  lemma FindOrAddKeepsIndex(cv: ChunkValue, k: ChannelKey, p: Point)
    requires p in cv.cells && IndexMatches(cv.index, cv.cells) && !PlaceholderAt(cv.cells, k, p)
    ensures IndexMatches(FindOrAdd(cv, k, p).0.index, FindOrAdd(cv, k, p).0.cells)
  {
    if !HasChannel(cv.cells[p], k) {
      IndexAddEntry(cv.index, cv.cells, p, k, Some(InitializeAs(k.typ)));
    }
  }

  /** TryRemoveChannel keeps the index matching the cells when no placeholder is removed. */
  lemma TryRemoveKeepsIndex(cv: ChunkValue, k: ChannelKey, p: Point)
    requires p in cv.cells && IndexMatches(cv.index, cv.cells) && !PlaceholderAt(cv.cells, k, p)
    ensures IndexMatches(TryRemove(cv, k, p).0.index, TryRemove(cv, k, p).0.cells)
  {
    if HasChannel(cv.cells[p], k) {
      IndexRemoveEntry(cv.index, cv.cells, p, k);
    }
  }

  /**
   * A placeholder is registered nowhere, and FindOrAddChannel sees it as
   * present and so does not register it either: afterwards the cell holds a
   * value the index does not list.
   */
  lemma PlaceholderEscapesIndex(cv: ChunkValue, k: ChannelKey, p: Point)
    requires p in cv.cells && IndexMatches(cv.index, cv.cells) && PlaceholderAt(cv.cells, k, p)
    requires k.typ.Some?
    ensures var r := FindOrAdd(cv, k, p).0;
      HoldsValue(r.cells[p], k) && (k in r.index ==> p !in r.index[k]) && !IndexMatches(r.index, r.cells)
  {
    var r := FindOrAdd(cv, k, p).0;
    assert !HoldsValue(cv.cells[p], k);
    assert k in r.index ==> p !in r.index[k];
    assert p in Holders(r.cells, k);
  }

  /** A second FindOrAddChannel finds what the first left and changes nothing. */
  lemma FindOrAddIdempotent(cv: ChunkValue, k: ChannelKey, p: Point)
    requires p in cv.cells
    ensures var (c1, v1) := FindOrAdd(cv, k, p);
      FindOrAdd(c1, k, p) == (c1, v1)
  {
  }

  /** Removing right after adding removes the entry and leaves the cell without it. */
  lemma TryRemoveAfterFindOrAdd(cv: ChunkValue, k: ChannelKey, p: Point)
    requires p in cv.cells
    ensures var c1 := FindOrAdd(cv, k, p).0;
      TryRemove(c1, k, p).1 && !HasChannelAt(TryRemove(c1, k, p).0, k, p)
  {
  }
}
