/**
 * UChunkManager_DynamicData: the object game code and blueprints talk to.
 * It holds a shared reference to a dynamic-data chunk system, which it
 * creates from its stored parameters or adopts from another manager, and
 * wraps the system's operations by grid point in the checks the blueprint
 * interface needs: an uninitialised manager, an empty value, a struct type
 * that is not a cell record or an empty set of points turns the call into a
 * no-op with a default result.
 */
module ChunkManagers {
  import opened ChunkTypes
  import opened GridMath
  import opened CellInfo
  import opened CellCodec
  import opened ChunkState
  import opened SystemState
  import opened ChunkSystems

  /** The chunk size FChunkInitParameters carries by default. */
  const DefaultInitChunkSize := 15

  /** INDEX_NONE, what Num answers for a manager without a system. */
  const IndexNone := -1

  /** A script struct handed over by reflection: one of the cell record types, or some other struct. */
  datatype ScriptStruct = RecordStruct(t: StructType) | OtherStruct(name: Name)

  /** The type guard of every wrapper: the struct is not null and is a child of FCellBaseInfo. */
  predicate IsCellRecordType(s: Option<ScriptStruct>)
  {
    s.Some? && s.value.RecordStruct?
  }

  /** An FInstancedStruct as a caller passes it: empty, holding a cell record, or holding another struct. */
  datatype AnyStruct = NoValue | RecordValue(data: CellData) | OtherValue(name: Name)

  /** GetScriptStruct: null for an empty value, otherwise the type of what it holds. */
  function StructOf(v: AnyStruct): (s: Option<ScriptStruct>)
    ensures s.None? <==> v.NoValue?
    ensures IsCellRecordType(s) <==> v.RecordValue?
    ensures v.RecordValue? ==> s.value.t == TypeOf(v.data)
  {
    match v
    case NoValue => None
    case RecordValue(d) => Some(RecordStruct(TypeOf(d)))
    case OtherValue(n) => Some(OtherStruct(n))
  }

  /** The channel a wrapper addresses: the given name with the record type as its type handle. */
  function KeyOf(name: Name, s: Option<ScriptStruct>): (k: ChannelKey)
    requires IsCellRecordType(s)
    ensures k.name == name && k.typ == Some(s.value.t)
  {
    ChannelKey(name, Some(s.value.t))
  }

  /** The copy a caller receives of a value the system stores. */
  function Copy(v: InstancedStruct): (a: AnyStruct)
    ensures a.NoValue? <==> v.EmptyStruct?
    ensures v.Holding? ==> a == RecordValue(v.data)
  {
    match v
    case EmptyStruct => NoValue
    case Holding(d) => RecordValue(d)
  }

  /** The copies of a sequence of stored values, position by position. */
  function Copies(vs: seq<InstancedStruct>): (r: seq<AnyStruct>)
    ensures |r| == |vs| && forall i | 0 <= i < |vs| :: r[i] == Copy(vs[i])
  {
    seq(|vs|, i requires 0 <= i < |vs| => Copy(vs[i]))
  }

  // ------------------------------------------------------------ the system a manager holds

  /** A consistent system in which the cell of every grid point exists wherever its chunk does. */
  ghost predicate Usable(sv: SystemValue)
  {
    Consistent(sv) && forall p :: CellExists(sv, p)
  }

  lemma ConsistentUsable(sv: SystemValue)
    requires Consistent(sv)
    ensures Usable(sv)
  {
    forall p ensures CellExists(sv, p) {
      ConsistentCellExists(sv, p);
    }
  }

  /**
   * SetChannelData on a system: FindOrAddChannel for the key at p, then the
   * entry it found or added is overwritten with v.
   */
  function SetAt(sv: SystemValue, k: ChannelKey, p: Point, v: InstancedStruct): (r: SystemValue)
    requires sv.chunkSize >= 1 && CellExists(sv, p)
    ensures r.chunkSize == sv.chunkSize && r.chunks.Keys == sv.chunks.Keys + {ChunkOf(p, sv.chunkSize)}
    ensures CellExists(r, p) && HoldsAt(r, k, p, v)
  {
    FindOrAddAtHolds(sv, k, p);
    WriteAt(FindOrAddAt(sv, k, p).0, k, p, v)
  }

  /** Setting a channel keeps a consistent system consistent. */
  lemma SetAtKeeps(sv: SystemValue, k: ChannelKey, p: Point, v: InstancedStruct)
    requires Consistent(sv) && CellExists(sv, p)
    ensures Consistent(SetAt(sv, k, p, v))
  {
    FindOrAddAtKeeps(sv, k, p);
    FindOrAddAtHolds(sv, k, p);
    WriteAtKeeps(FindOrAddAt(sv, k, p).0, k, p, v);
  }

  /** Setting a channel leaves the cell of every other grid point as it was. */
  lemma SetAtFrame(sv: SystemValue, k: ChannelKey, p: Point, v: InstancedStruct, q: Point)
    requires sv.chunkSize >= 1 && CellExists(sv, p) && CellExists(sv, q) && q != p
    ensures CellExists(SetAt(sv, k, p, v), q)
    ensures CellOf(sv, q).Some? ==> CellOf(SetAt(sv, k, p, v), q) == CellOf(sv, q)
  {
    FindOrAddAtCellFrame(sv, k, p, q);
    FindOrAddAtHolds(sv, k, p);
  }

  /** Setting a channel leaves every other channel of the same cell as it was. */
  lemma SetAtOtherChannels(sv: SystemValue, k: ChannelKey, p: Point, v: InstancedStruct, k': ChannelKey)
    requires sv.chunkSize >= 1 && CellExists(sv, p) && k' != k
    requires CellOf(sv, p).Some? && k' in CellOf(sv, p).value.channels
    ensures CellOf(SetAt(sv, k, p, v), p).value.channels[k'] == CellOf(sv, p).value.channels[k']
  {
    FindOrAddAtHolds(sv, k, p);
    var c := ChunkOf(p, sv.chunkSize);
    assert CellOf(FindOrAddAt(sv, k, p).0, p).value == FindOrAdd(sv.chunks[c], k, p).0.cells[p];
  }

  /** FindOrAddChannel where the cell already holds v under the key changes nothing and finds v. */
  lemma FindOrAddAtHeld(sv: SystemValue, k: ChannelKey, p: Point, v: InstancedStruct)
    requires sv.chunkSize >= 1 && CellExists(sv, p) && HoldsAt(sv, k, p, v)
    ensures FindOrAddAt(sv, k, p) == (sv, v)
  {
    var c := ChunkOf(p, sv.chunkSize);
    assert MakeChunk(sv, c).0 == sv;
    assert HoldsValue(sv.chunks[c].cells[p], k);
    assert sv.chunks[c := sv.chunks[c]] == sv.chunks;
  }

  /** Writing the value a cell already holds under the key changes nothing. */
  lemma WriteAtHeld(sv: SystemValue, k: ChannelKey, p: Point, v: InstancedStruct)
    requires sv.chunkSize >= 1 && CellExists(sv, p) && HoldsAt(sv, k, p, v)
    ensures HasAt(sv, k, p) && WriteAt(sv, k, p, v) == sv
  {
    var c := ChunkOf(p, sv.chunkSize);
    var cv := sv.chunks[c];
    var cell := cv.cells[p];
    assert Cell(cell.channels[k := Some(v)]) == cell;
    assert cv.cells[p := cell] == cv.cells;
    assert cv.(cells := cv.cells) == cv;
    assert sv.chunks[c := cv] == sv.chunks;
  }

  /** Setting the same value twice is the same as setting it once. */
  lemma SetAtIdempotent(sv: SystemValue, k: ChannelKey, p: Point, v: InstancedStruct)
    requires sv.chunkSize >= 1 && CellExists(sv, p)
    ensures SetAt(SetAt(sv, k, p, v), k, p, v) == SetAt(sv, k, p, v)
  {
    var r := SetAt(sv, k, p, v);
    FindOrAddAtHeld(r, k, p, v);
    WriteAtHeld(r, k, p, v);
  }

  /** What a usable system stores under k at p: nothing when the cell lacks the key. */
  ghost function Lookup(sv: SystemValue, k: ChannelKey, p: Point): (r: Option<InstancedStruct>)
    requires Usable(sv)
    ensures r.Some? <==> HasAt(sv, k, p)
    ensures r.Some? ==> HoldsAt(sv, k, p, r.value)
  {
    GetAtReads(sv, k, p);
    GetAt(sv, k, p).1
  }

  /** A value set under a key is what a later lookup of that key finds. */
  lemma SetThenLookup(sv: SystemValue, k: ChannelKey, p: Point, v: InstancedStruct)
    requires Usable(sv)
    ensures Usable(SetAt(sv, k, p, v)) && Lookup(SetAt(sv, k, p, v), k, p) == Some(v)
  {
    SetAtKeeps(sv, k, p, v);
    var r := SetAt(sv, k, p, v);
    ConsistentUsable(r);
    HasAtIsCellOf(r, k, p);
  }

  /**
   * The effect of TryRemoveChannels over a set of points, walked in the order
   * of the points whose chunk exists: it reports a removal exactly when some
   * point of the set had the key, and afterwards no point of the set has it.
   */
  lemma RemoveAllOverPoints(sv: SystemValue, k: ChannelKey, locs: set<Point>, order: seq<Point>)
    requires Usable(sv) && IsEnumeration(order, Present(locs, sv.chunks.Keys, sv.chunkSize))
    ensures CellsExist(sv, order)
    ensures var (r, removed) := RemoveAll(sv, k, order);
      (removed <==> exists q | q in locs :: HasAt(sv, k, q)) &&
      forall q | q in locs :: !HasAt(r, k, q)
  {
    assert NoRepeats(order);
    RemoveAllEffect(sv, k, order);
    var (r, removed) := RemoveAll(sv, k, order);
    forall q | q in locs ensures !HasAt(r, k, q) && (HasAt(sv, k, q) ==> removed) {
      if ChunkOf(q, sv.chunkSize) in sv.chunks {
        assert q in Present(locs, sv.chunks.Keys, sv.chunkSize);
        var i :| 0 <= i < |order| && order[i] == q;
      }
    }
    if removed {
      var i :| 0 <= i < |order| && HasAt(sv, k, order[i]);
      assert order[i] in locs;
    }
  }

  class ChunkManager {
    /** ChunkSystem_DynamicData: a reference other managers may share, null until initialised. */
    var system: ChunkSystem?
    /** StoredParams.ChunkSize. */
    var storedChunkSize: int

    /** The system, when there is one, is usable. */
    ghost predicate Ready()
      reads this, system
    {
      system != null ==> Usable(system.Value())
    }

    /** A manager starts without a system and with the default parameters. */
    constructor ()
      ensures system == null && storedChunkSize == DefaultInitChunkSize && Ready()
    {
      system := null;
      storedChunkSize := DefaultInitChunkSize;
    }

    /** Initialize: the parameters are stored, then a new system is created from them. */
    method Initialize(chunkSize: int)
      modifies this
      ensures storedChunkSize == chunkSize && system != null && fresh(system)
      ensures system.Value() == SystemValue(ClampChunkSize(chunkSize), map[], map[]) && system.serializable
      ensures Ready()
    {
      storedChunkSize := chunkSize;
      CreateChunkSystem();
    }

    /** CreateChunkSystem: the reference is replaced by a new, empty, serialising system of the stored chunk size. */
    method CreateChunkSystem()
      modifies this
      ensures storedChunkSize == old(storedChunkSize) && system != null && fresh(system)
      ensures system.Value() == SystemValue(ClampChunkSize(storedChunkSize), map[], map[]) && system.serializable
      ensures Ready()
    {
      system := new ChunkSystem(storedChunkSize, true);
      NewSystemConsistent(storedChunkSize);
      ConsistentUsable(system.Value());
    }

    /**
     * InitializeWithSharedContext: nothing for a null source or a system
     * already shared; otherwise the manager adopts the source's system, so
     * that both managers work on the same one.
     */
    method InitializeWithSharedContext(source: ChunkManager?)
      requires Ready() && (source != null ==> source.Ready())
      modifies this
      ensures storedChunkSize == old(storedChunkSize)
      ensures system == (if source == null then old(system) else source.system)
      ensures Ready()
    {
      if source == null {
        return;
      }
      if system == source.system {
        return;
      }
      system := source.system;
    }

    /**
     * SetChannelDataByGridPoint: nothing without a system, for an empty value
     * or for a value that is not a cell record; otherwise the channel named
     * by the name and the value's type is found or added at p and set to the
     * value.
     */
    method SetChannelDataByGridPoint(name: Name, p: Point, data: AnyStruct)
      requires Ready()
      modifies system
      ensures Ready()
      ensures system != null && !data.RecordValue? ==> system.Value() == old(system.Value())
      ensures system != null && data.RecordValue? ==>
        system.Value() == SetAt(old(system.Value()), KeyOf(name, StructOf(data)), p, Holding(data.data))
    {
      if system == null {
        return;
      }
      if data.NoValue? {
        return;
      }
      var t := StructOf(data);
      if !IsCellRecordType(t) {
        return;
      }
      var k := KeyOf(name, t);
      ghost var sv := system.Value();
      var _ := system.FindOrAddChannel(k, p);
      FindOrAddAtHolds(sv, k, p);
      system.WriteChannel(k, p, Holding(data.data));
      SetAtKeeps(sv, k, p, Holding(data.data));
      ConsistentUsable(system.Value());
    }

    /**
     * GetChannelDataByGridPoint: found exactly when there is a system, the
     * expected type is a cell record type and the cell has the channel; then
     * a copy of the stored value, otherwise an empty value. The system is
     * left as it was.
     */
    method GetChannelDataByGridPoint(name: Name, p: Point, expected: Option<ScriptStruct>) returns (v: AnyStruct, found: bool)
      requires Ready()
      modifies system
      ensures Ready()
      ensures system != null ==> system.Value() == old(system.Value())
      ensures found <==> system != null && IsCellRecordType(expected) && HasAt(system.Value(), KeyOf(name, expected), p)
      ensures found ==> v == Copy(Lookup(system.Value(), KeyOf(name, expected), p).value)
      ensures !found ==> v == NoValue
    {
      found := false;
      if system == null {
        return NoValue, false;
      }
      if !IsCellRecordType(expected) {
        return NoValue, false;
      }
      var k := KeyOf(name, expected);
      ghost var sv := system.Value();
      GetAtReads(sv, k, p);
      var ptr := system.GetChannel(k, p);
      if ptr.None? {
        return NoValue, false;
      }
      found := true;
      v := Copy(ptr.value);
    }

    /**
     * GetChannelDataByGridPoints: empty without a system, for a type that is
     * not a cell record type, or for an empty set of points; otherwise
     * FindOrAddChannels, so that every point ends up holding the channel,
     * and one copy per point of the value it holds.
     */
    method GetChannelDataByGridPoints(name: Name, pts: set<Point>, expected: Option<ScriptStruct>)
      returns (vals: seq<AnyStruct>, ghost order: seq<Point>)
      requires Ready()
      modifies system
      ensures Ready()
      ensures !(system != null && IsCellRecordType(expected) && pts != {}) ==>
        vals == [] && order == [] && (system != null ==> system.Value() == old(system.Value()))
      ensures system != null && IsCellRecordType(expected) && pts != {} ==>
        IsEnumeration(order, pts) && CellsExist(old(system.Value()), order) && |vals| == |pts| &&
        var (sv', stored) := AddAll(old(system.Value()), KeyOf(name, expected), order);
        system.Value() == sv' && vals == Copies(stored) && AllHeld(sv', KeyOf(name, expected), order, stored)
    {
      if system == null || !IsCellRecordType(expected) || pts == {} {
        return [], [];
      }
      var k := KeyOf(name, expected);
      ghost var sv := system.Value();
      var stored;
      stored, order := system.FindOrAddChannels(k, pts);
      assert NoRepeats(order);
      AddAllHolds(sv, k, order);
      AddAllKeeps(sv, k, order);
      ConsistentUsable(system.Value());
      vals := Copies(stored);
    }

    /**
     * TryRemoveChannelByGridPoint: false without a system or for a type that
     * is not a cell record type; otherwise TryRemoveChannel, true exactly when
     * the cell had the channel, which it no longer has.
     */
    method TryRemoveChannelByGridPoint(name: Name, p: Point, expected: Option<ScriptStruct>) returns (removed: bool)
      requires Ready()
      modifies system
      ensures Ready()
      ensures !(system != null && IsCellRecordType(expected)) ==>
        !removed && (system != null ==> system.Value() == old(system.Value()))
      ensures system != null && IsCellRecordType(expected) ==>
        (system.Value(), removed) == TryRemoveAt(old(system.Value()), KeyOf(name, expected), p) &&
        (removed <==> HasAt(old(system.Value()), KeyOf(name, expected), p)) &&
        !HasAt(system.Value(), KeyOf(name, expected), p)
    {
      if system == null || !IsCellRecordType(expected) {
        return false;
      }
      var k := KeyOf(name, expected);
      ghost var sv := system.Value();
      removed := system.TryRemoveChannel(k, p);
      TryRemoveAtKeeps(sv, k, p);
      TryRemoveAtClears(sv, k, p);
      ConsistentUsable(system.Value());
    }

    /**
     * TryRemoveChannelByGridPoints: false without a system, for a type that
     * is not a cell record type or for an empty set; otherwise
     * TryRemoveChannels, true exactly when some point had the channel, and
     * afterwards no point of the set has it.
     */
    method TryRemoveChannelByGridPoints(name: Name, pts: set<Point>, expected: Option<ScriptStruct>)
      returns (removed: bool, ghost order: seq<Point>)
      requires Ready()
      modifies system
      ensures Ready()
      ensures !(system != null && IsCellRecordType(expected) && pts != {}) ==>
        !removed && (system != null ==> system.Value() == old(system.Value()))
      ensures system != null && IsCellRecordType(expected) && pts != {} ==>
        IsEnumeration(order, Present(pts, old(system.chunks).Keys, old(system.chunkSize))) &&
        CellsExist(old(system.Value()), order) &&
        (system.Value(), removed) == RemoveAll(old(system.Value()), KeyOf(name, expected), order) &&
        (removed <==> exists q | q in pts :: HasAt(old(system.Value()), KeyOf(name, expected), q)) &&
        forall q | q in pts :: !HasAt(system.Value(), KeyOf(name, expected), q)
    {
      if system == null || !IsCellRecordType(expected) || pts == {} {
        return false, [];
      }
      var k := KeyOf(name, expected);
      ghost var sv := system.Value();
      removed, order := system.TryRemoveChannels(k, pts);
      RemoveAllOverPoints(sv, k, pts, order);
      RemoveAllKeeps(sv, k, order);
      ConsistentUsable(system.Value());
    }

    /**
     * HasChannelByGridPoint: false without a system or for a type that is not
     * a cell record type; otherwise whether the cell has the channel.
     */
    method HasChannelByGridPoint(name: Name, p: Point, expected: Option<ScriptStruct>) returns (b: bool)
      requires Ready()
      ensures b <==> system != null && IsCellRecordType(expected) && HasAt(system.Value(), KeyOf(name, expected), p)
    {
      if system == null || !IsCellRecordType(expected) {
        return false;
      }
      b := system.HasChannel(KeyOf(name, expected), p);
    }

    /**
     * HasChannelByGridPoints: false without a system, for a type that is not a
     * cell record type or for an empty set; otherwise whether every point has
     * the channel.
     */
    method HasChannelByGridPoints(name: Name, pts: set<Point>, expected: Option<ScriptStruct>) returns (b: bool)
      requires Ready()
      ensures b <==> system != null && IsCellRecordType(expected) && pts != {} &&
                     HasAll(system.Value(), KeyOf(name, expected), pts)
    {
      if system == null || !IsCellRecordType(expected) || pts == {} {
        return false;
      }
      b := system.HasChannels(KeyOf(name, expected), pts);
    }

    /** IsEmpty: false without a system; otherwise whether the system has no chunk. */
    method IsEmpty() returns (b: bool)
      ensures b <==> system != null && system.chunks == map[]
    {
      if system == null {
        return false;
      }
      b := system.IsEmpty();
    }

    /** Num: INDEX_NONE without a system; otherwise the number of chunks. */
    method Num() returns (n: int)
      ensures system == null ==> n == IndexNone
      ensures system != null ==> n == |system.chunks.Keys| && n >= 0
    {
      if system == null {
        return IndexNone;
      }
      n := system.Num();
    }

    /** Empty: nothing without a system; otherwise every chunk goes, the chunk size stays. */
    method Empty(expectedNumElements: int)
      requires Ready()
      modifies system
      ensures Ready()
      ensures system != null ==> system.Value() == SystemValue(old(system.chunkSize), map[], map[])
    {
      if system == null {
        return;
      }
      system.Empty();
      NewSystemConsistent(system.chunkSize);
      ConsistentUsable(system.Value());
    }
  }
}
