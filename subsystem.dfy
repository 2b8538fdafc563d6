/**
 * UChunkSubsystem: a registry of chunk managers under names. Its map is
 * changed in place by CreateChunkManager and RemoveChunkManager; a None name,
 * a null manager class, a name already taken or a name not registered turns
 * a call into a no-op with a null or false result.
 */
module ChunkSubsystems {
  import opened ChunkTypes
  import opened SystemState
  import opened ChunkManagers

  /** The manager classes a caller can name: UChunkManager_DynamicData is the one concrete manager. */
  datatype ManagerClass = DynamicDataManager

  class ChunkSubsystem {
    /** ChunkManagers: the registered managers by name. */
    var managers: map<Name, ChunkManager>

    /** The None name is never registered. */
    predicate Valid()
      reads this
    {
      NoName !in managers
    }

    constructor ()
      ensures managers == map[] && Valid()
    {
      managers := map[];
    }

    /** GetChunkManager: null for the None name or a name not registered, otherwise the manager registered under it. */
    function GetChunkManager(key: Name): (r: ChunkManager?)
      reads this
      ensures r == null <==> key == NoName || key !in managers
      ensures r != null ==> key in managers && managers[key] == r
    {
      if key == NoName then null
      else if key !in managers then null
      else managers[key]
    }

    /**
     * CreateChunkManager: null, with the registry unchanged, for the None
     * name, a null class or a name already registered; otherwise a new
     * manager, initialised with the given chunk size, is registered under the
     * name and returned.
     */
    method CreateChunkManager(key: Name, cls: Option<ManagerClass>, chunkSize: int) returns (r: ChunkManager?)
      modifies this
      ensures r == null <==> key == NoName || cls.None? || key in old(managers)
      ensures r == null ==> managers == old(managers)
      ensures r != null ==> fresh(r) && managers == old(managers)[key := r] && GetChunkManager(key) == r
      ensures r != null ==>
        r.storedChunkSize == chunkSize && r.system != null && fresh(r.system) && r.Ready() &&
        r.system.Value() == SystemValue(ClampChunkSize(chunkSize), map[], map[])
      ensures old(Valid()) ==> Valid()
    {
      if key == NoName {
        return null;
      }
      if cls.None? {
        return null;
      }
      if key in managers {
        return null;
      }
      var m := new ChunkManager();
      m.Initialize(chunkSize);
      managers := managers[key := m];
      r := m;
    }

    /**
     * FindOrCreateChunkManager: the manager registered under the name when
     * there is one, the registry unchanged; otherwise CreateChunkManager.
     */
    method FindOrCreateChunkManager(key: Name, cls: Option<ManagerClass>, chunkSize: int) returns (r: ChunkManager?)
      modifies this
      ensures key != NoName && key in old(managers) ==> r == old(managers)[key] && managers == old(managers)
      ensures key == NoName || key !in old(managers) ==>
        (r == null <==> key == NoName || cls.None?) &&
        (r == null ==> managers == old(managers)) &&
        (r != null ==> fresh(r) && managers == old(managers)[key := r] && r.Ready() &&
                       r.system != null && r.system.Value() == SystemValue(ClampChunkSize(chunkSize), map[], map[]))
      ensures r != null ==> GetChunkManager(key) == r
      ensures old(Valid()) ==> Valid()
    {
      var existing := GetChunkManager(key);
      if existing != null {
        return existing;
      }
      r := CreateChunkManager(key, cls, chunkSize);
    }

    /**
     * RemoveChunkManager: false, with the registry unchanged, for the None
     * name or a name not registered; otherwise the name is unregistered and
     * the answer is true.
     */
    method RemoveChunkManager(key: Name) returns (removed: bool)
      modifies this
      ensures removed <==> key != NoName && key in old(managers)
      ensures removed ==> managers == old(managers) - {key}
      ensures !removed ==> managers == old(managers)
      ensures key != NoName ==> GetChunkManager(key) == null
      ensures old(Valid()) ==> Valid()
    {
      if key == NoName {
        return false;
      }
      if key !in managers {
        return false;
      }
      managers := managers - {key};
      removed := true;
    }
  }
}
