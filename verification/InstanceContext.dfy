/**
  Instance records (internal/instance/context.go): objects that callers may keep and
  change, with a metadata map and a quota behind references of their own.
 */
module InstanceContext {
  import opened Options

  datatype Status = Active | Inactive | Migrating | Deleting | Paused

  datatype Quota = Quota(maxMemoryMB: int, maxStorageGB: int, maxCPUCores: int, maxConcurrent: int)

  /** The content of a record, as it is serialised; `metadata` None is the nil map. */
  datatype Record = Record(instanceID: string, gameType: string, region: string, createdAt: int, lastActive: int,
                           status: Status, metadata: Option<map<string, string>>, quota: Option<Quota>,
                           isPermanent: bool)

  /** Cloning replaces a nil metadata map by an empty one and keeps everything else. */
  function Normalize(r: Record): Record {
    if r.metadata.None? then r.(metadata := Some(map[])) else r
  }

  const DEFAULT_QUOTA: Quota := Quota(8192, 100, 4, 10000)

  function NewRecord(id: string, now: int): Record {
    Record(id, "default", "default", now, now, Active, Some(map[]), Some(DEFAULT_QUOTA), false)
  }

  /** A Go map of strings: a reference, so two holders see the same entries. */
  class Metadata {
    var entries: map<string, string>

    constructor (entries: map<string, string>)
      ensures this.entries == entries
    {
      this.entries := entries;
    }
  }

  class ResourceQuota {
    var limits: Quota

    constructor (limits: Quota)
      ensures this.limits == limits
    {
      this.limits := limits;
    }
  }

  class Context {
    var instanceID: string
    var gameType: string
    var region: string
    var createdAt: int
    var lastActive: int
    var status: Status
    var metadata: Metadata?
    var quota: ResourceQuota?
    var isPermanent: bool

    /** The objects that make up this record. */
    function Parts(): set<object>
      reads this
    {
      {this} + (if metadata == null then {} else {metadata}) + (if quota == null then {} else {quota})
    }

    function Value(): Record
      reads this, Parts()
    {
      Record(instanceID, gameType, region, createdAt, lastActive, status,
             if metadata == null then None else Some(metadata.entries),
             if quota == null then None else Some(quota.limits), isPermanent)
    }

    /** Deserialises a record into objects of its own. */
    constructor (r: Record)
      ensures Value() == r && fresh(Parts())
    {
      instanceID, gameType, region := r.instanceID, r.gameType, r.region;
      createdAt, lastActive := r.createdAt, r.lastActive;
      status, isPermanent := r.status, r.isPermanent;
      if r.metadata.Some? {
        var m := new Metadata(r.metadata.value);
        metadata := m;
      } else {
        metadata := null;
      }
      if r.quota.Some? {
        var q := new ResourceQuota(r.quota.value);
        quota := q;
      } else {
        quota := null;
      }
    }

    method UpdateLastActive(now: int)
      modifies this`lastActive
      ensures lastActive == now && Value() == old(Value()).(lastActive := now)
    {
      lastActive := now;
    }

    /** A deep copy: new objects throughout, the same content up to the nil metadata map. */
    method Clone() returns (clone: Context)
      ensures fresh(clone.Parts())
      ensures clone.Value() == Normalize(Value())
    {
      var copied := new Metadata(map[]);
      if metadata != null {
        var left := metadata.entries.Keys;
        while left != {}
          invariant fresh(copied) && left <= metadata.entries.Keys
          invariant copied.entries == map k | k in metadata.entries && k !in left :: metadata.entries[k]
          modifies copied
          decreases left
        {
          var k :| k in left;
          copied.entries := copied.entries[k := metadata.entries[k]];
          left := left - {k};
        }
        assert copied.entries == metadata.entries;
      }
      clone := new Context(Record(instanceID, gameType, region, createdAt, lastActive, status, None,
                                  if quota == null then None else Some(quota.limits), isPermanent));
      assert clone.Value().quota == Value().quota;
      clone.metadata := copied;
    }
  }
}
