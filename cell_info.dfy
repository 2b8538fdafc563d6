/**
 * The record of one grid cell: a map from channel key to an optional value.
 * An entry whose value is unset is a placeholder; it only arises from
 * loading. The cell is held by value inside its chunk, so each operation is a
 * function from the cell before to the cell after.
 */
module CellInfo {
  import opened ChunkTypes

  type Channels = map<ChannelKey, Option<InstancedStruct>>

  datatype Cell = Cell(channels: Channels)

  const EmptyCell: Cell := Cell(map[])

  /** HasChannel: containment of the key, so also true for an unset placeholder. */
  predicate HasChannel(c: Cell, k: ChannelKey)
  {
    k in c.channels
  }

  /** The key is present with a set value. */
  predicate HoldsValue(c: Cell, k: ChannelKey)
  {
    k in c.channels && c.channels[k].Some?
  }

  /** All entries other than k are the same in both cells. */
  ghost predicate SameExcept(a: Cell, b: Cell, k: ChannelKey)
  {
    forall k' | k' != k :: (k' in a.channels <==> k' in b.channels) &&
      (k' in a.channels ==> a.channels[k'] == b.channels[k'])
  }

  /**
   * GetOrAddChannel: the cell after the call, and the value the returned
   * reference designates.
   */
  function GetOrAddChannel(c: Cell, k: ChannelKey): (r: (Cell, InstancedStruct))
    ensures HoldsValue(r.0, k) && r.0.channels[k] == Some(r.1)
    ensures HoldsValue(c, k) ==> r.0 == c && r.1 == c.channels[k].value
    ensures !HoldsValue(c, k) ==> r.1 == InitializeAs(k.typ)
    ensures SameExcept(c, r.0, k)
  {
    if HoldsValue(c, k) then (c, c.channels[k].value)
    else
      var v := InitializeAs(k.typ);
      (Cell(c.channels[k := Some(v)]), v)
  }

  /** RemoveChannel: the cell after the call, and whether the key was there. */
  function RemoveChannel(c: Cell, k: ChannelKey): (r: (Cell, bool))
    ensures r.1 <==> HasChannel(c, k)
    ensures !HasChannel(r.0, k)
    ensures !r.1 ==> r.0 == c
    ensures SameExcept(c, r.0, k)
  {
    if k in c.channels then (Cell(c.channels - {k}), true) else (c, false)
  }

  /** A second GetOrAddChannel finds what the first one left and changes nothing. */
  lemma GetOrAddIdempotent(c: Cell, k: ChannelKey)
    ensures var (c1, v1) := GetOrAddChannel(c, k);
      GetOrAddChannel(c1, k) == (c1, v1)
  {
  }

  /**
   * Keys with the same name and different types are different entries: adding
   * one leaves the other's presence and value as they were.
   */
  lemma SameNameDistinctTypes(c: Cell, name: Name, t1: Option<StructType>, t2: Option<StructType>)
    requires t1 != t2
    ensures var k1, k2 := ChannelKey(name, t1), ChannelKey(name, t2);
      var c1 := GetOrAddChannel(c, k1).0;
      var c2 := GetOrAddChannel(c1, k2).0;
      HoldsValue(c2, k1) && HoldsValue(c2, k2) && c2.channels[k1] == c1.channels[k1]
  {
    var k1, k2 := ChannelKey(name, t1), ChannelKey(name, t2);
    assert k1 != k2;
  }

  /** Removing a key after adding it leaves no entry for that key. */
  lemma RemoveAfterAdd(c: Cell, k: ChannelKey)
    ensures var c1 := GetOrAddChannel(c, k).0;
      RemoveChannel(c1, k).1 && !HasChannel(RemoveChannel(c1, k).0, k)
  {
  }
}
