/**
  The registry as an object: `memCache` holds clones that no caller can reach, so changing
  a record that was handed in or handed out never changes what is remembered.
 */
module Registry {
  import opened Options
  import opened InstanceContext
  import Spec = RegistryState

  class CacheEntry {
    const context: Context
    const expiration: int

    constructor (context: Context, expiration: int)
      ensures this.context == context && this.expiration == expiration
    {
      this.context, this.expiration := context, expiration;
    }
  }

  class Registry {
    var store: map<string, Spec.Stamped>
    var memCache: map<string, CacheEntry>
    var lastActivity: map<string, int>
    /** Every object a remembered record is made of. */
    ghost var cached: set<object>
    /** What is remembered, on values. */
    ghost var remembered: map<string, Spec.Stamped>

    ghost predicate Holds(id: string)
      reads this`memCache, this`remembered, this`cached, cached
      requires id in memCache && id in remembered
    {
      var entry := memCache[id];
      entry.context in cached && entry.context.Parts() <= cached &&
      remembered[id] == Spec.Stamped(entry.context.Value(), entry.expiration) &&
      Normalize(remembered[id].value) == remembered[id].value
    }

    /** No part of this record is one of the remembered objects. */
    ghost predicate Apart(c: Context)
      reads this`cached, c
    {
      c !in cached && (c.metadata != null ==> c.metadata !in cached) && (c.quota != null ==> c.quota !in cached)
    }

    ghost predicate Valid()
      reads this`memCache, this`remembered, this`cached, cached
    {
      this !in cached && memCache.Keys == remembered.Keys && forall id | id in memCache :: Holds(id)
    }

    ghost function Contents(): Spec.State
      reads this
    {
      Spec.State(store, remembered, lastActivity)
    }

    constructor (store: map<string, Spec.Stamped>)
      ensures Valid() && fresh(cached)
      ensures Contents() == Spec.State(store, map[], map[])
    {
      this.store, memCache, lastActivity, cached, remembered := store, map[], map[], {}, map[];
    }

    method GetFromMemCache(id: string, now: int) returns (found: Context?)
      requires Valid()
      ensures found == null <==> Spec.Remembered(Contents(), id, now).None?
      ensures found != null ==> fresh(found.Parts()) && found.Value() == Spec.Remembered(Contents(), id, now).value
    {
      if id !in memCache || memCache[id].expiration < now {
        return null;
      }
      assert Holds(id);
      found := memCache[id].context.Clone();
    }

    /** An entry no step touches stays valid when other records change. */
    twostate lemma Keeps(id: string)
      requires id in old(memCache) && id in old(remembered) && old(Holds(id))
      requires id in memCache && memCache[id] == old(memCache[id])
      requires id in remembered && remembered[id] == old(remembered[id])
      requires old(cached) <= cached
      requires unchanged(old(memCache[id].context.Parts()))
      ensures Holds(id)
    {
    }

    method UpdateMemCache(instCtx: Context, now: int)
      requires Valid()
      modifies this`memCache, this`cached, this`remembered
      ensures Valid() && fresh(cached - old(cached))
      ensures Contents() == Spec.Remember(old(Contents()), old(instCtx.Value()), now)
    {
      ghost var record := instCtx.Value();
      assert record.instanceID == instCtx.instanceID;
      var clone := instCtx.Clone();
      Insert(instCtx.instanceID, clone, now + Spec.CACHE_TTL);
    }

    /** Adding one entry keeps the others. */
    twostate lemma KeepsOthers(id: string)
      requires old(Valid()) && unchanged(old(cached)) && old(cached) <= cached && this !in cached
      requires memCache.Keys == remembered.Keys == old(memCache.Keys) + {id} && Holds(id)
      requires forall other | other in old(memCache) && other != id ::
                 memCache[other] == old(memCache[other]) && remembered[other] == old(remembered[other])
      ensures Valid()
    {
      forall other | other in memCache && other != id
        ensures Holds(other)
      {
        assert old(Holds(other));
        Keeps(other);
      }
    }

    /** Puts a record that only the registry knows into the memory cache. */
    method Insert(id: string, clone: Context, expiration: int)
      requires Valid() && this !in clone.Parts() && Normalize(clone.Value()) == clone.Value()
      modifies this`memCache, this`cached, this`remembered
      ensures Valid() && cached == old(cached) + clone.Parts()
      ensures remembered == old(remembered)[id := Spec.Stamped(clone.Value(), expiration)]
    {
      var entry := new CacheEntry(clone, expiration);
      memCache := memCache[id := entry];
      cached := cached + clone.Parts();
      remembered := remembered[id := Spec.Stamped(clone.Value(), expiration)];
      KeepsOthers(id);
    }

    /** A found record is made of the caller's own objects. */
    method Get(id: string, now: int, f: Spec.Faults) returns (instCtx: Context?, err: Option<Spec.Error>)
      requires Valid()
      modifies this
      ensures Valid() && fresh(cached - old(cached))
      ensures instCtx != null <==> err.None?
      ensures instCtx != null ==> fresh(instCtx.Parts()) && Apart(instCtx)
      ensures (Contents(), if instCtx != null then Ok(instCtx.Value()) else Err(err.value))
                == Spec.Get(old(Contents()), id, now, f)
    {
      instCtx, err := null, None;
      if id == "" {
        return null, Some(Spec.EmptyInstanceID);
      }
      instCtx := GetFromMemCache(id, now);
      if instCtx != null {
        return;
      }
      if f.read.Fails? {
        return null, Some(if f.read.looksAbsent then Spec.InstanceNotFound else Spec.Unavailable);
      }
      if id !in store || store[id].expires <= now {
        return null, Some(Spec.InstanceNotFound);
      }
      instCtx := Fetch(id, now, f.refresh);
    }

    /** The part of Get that decodes, refreshes and remembers what the store returned. */
    method Fetch(id: string, now: int, refresh: bool) returns (instCtx: Context)
      requires Valid() && id in store
      modifies this
      ensures Valid() && fresh(cached - old(cached))
      ensures fresh(instCtx.Parts()) && Apart(instCtx) && instCtx.Value() == old(store)[id].value
      ensures var s := old(Contents());
              var extended := s.store[id := Spec.Stamped(s.store[id].value, now + Spec.DEFAULT_TTL)];
              var kept := if refresh then extended else s.store;
              Contents() == Spec.Remember(s.(store := kept), s.store[id].value, now)
    {
      ghost var record := store[id].value;
      instCtx := new Context(store[id].value);
      if refresh {
        store := store[id := Spec.Stamped(store[id].value, now + Spec.DEFAULT_TTL)];
      }
      assert Apart(instCtx) && instCtx.Value() == record;
      UpdateMemCache(instCtx, now);
    }

    method Register(instCtx: Context, now: int, f: Spec.Faults) returns (err: Option<Spec.Error>)
      requires Valid() && instCtx !in cached
      modifies this, instCtx`lastActive
      ensures Valid() && fresh(cached - old(cached))
      ensures (Contents(), err) == Spec.Register(old(Contents()), old(instCtx.Value()), now, f)
      ensures instCtx.lastActive == (if instCtx.instanceID == "" then old(instCtx.lastActive) else now)
      ensures err.None? ==> instCtx.instanceID in store && store[instCtx.instanceID].value == instCtx.Value()
    {
      if instCtx.instanceID == "" {
        return Some(Spec.EmptyInstanceID);
      }
      ghost var active := instCtx.Value().(lastActive := now);
      instCtx.UpdateLastActive(now);
      assert instCtx.Value() == active && Valid();
      if !f.write {
        return Some(Spec.Unavailable);
      }
      store := store[instCtx.instanceID := Spec.Stamped(instCtx.Value(), now + Spec.DEFAULT_TTL)];
      UpdateMemCache(instCtx, now);
      assert instCtx.Value() == active;
      err := None;
    }

    method GetOrCreate(id: string, now: int, f: Spec.Faults) returns (instCtx: Context?, err: Option<Spec.Error>)
      requires Valid()
      modifies this
      ensures Valid() && fresh(cached - old(cached))
      ensures instCtx != null <==> err.None?
      ensures instCtx != null ==> fresh(instCtx.Parts()) && Apart(instCtx)
      ensures (Contents(), if instCtx != null then Ok(instCtx.Value()) else Err(err.value))
                == Spec.GetOrCreate(old(Contents()), id, now, f)
    {
      if id == "" {
        return null, Some(Spec.EmptyInstanceID);
      }
      instCtx, err := Get(id, now, f);
      if err == Some(Spec.InstanceNotFound) {
        var created := new Context(NewRecord(id, now));
        err := Register(created, now, f);
        instCtx := if err.None? then created else null;
      }
    }

    method Update(instCtx: Context, now: int, f: Spec.Faults) returns (err: Option<Spec.Error>)
      requires Valid() && instCtx !in cached
      modifies this, instCtx`createdAt, instCtx`lastActive
      ensures Valid() && fresh(cached - old(cached))
      ensures (Contents(), err) == Spec.Update(old(Contents()), old(instCtx.Value()), now, f)
      ensures instCtx.Value() == old(instCtx.Value()).(createdAt := instCtx.createdAt, lastActive := instCtx.lastActive)
      ensures err.None? ==> instCtx.instanceID in store && store[instCtx.instanceID].value == instCtx.Value()
    {
      if instCtx.instanceID == "" {
        return Some(Spec.EmptyInstanceID);
      }
      ghost var record := instCtx.Value();
      var existing, failed := Get(instCtx.instanceID, now, f);
      assert instCtx.Value() == record;
      if failed.Some? {
        return failed;
      }
      instCtx.createdAt := existing.createdAt;
      assert instCtx.Value() == record.(createdAt := existing.Value().createdAt);
      err := Register(instCtx, now, f);
    }

    method Delete(id: string, now: int, f: Spec.Faults) returns (err: Option<Spec.Error>)
      requires Valid()
      modifies this
      ensures Valid() && cached == old(cached)
      ensures (Contents(), err) == Spec.Delete(old(Contents()), id, now, f)
    {
      if id == "" {
        return Some(Spec.EmptyInstanceID);
      }
      if !f.write || id !in store || store[id].expires <= now {
        return Some(Spec.Unavailable);
      }
      store := store - {id};
      memCache := memCache - {id};
      remembered := remembered - {id};
      lastActivity := lastActivity - {id};
      forall other | other in memCache
        ensures Holds(other)
      {
        assert old(Holds(other));
        Keeps(other);
      }
      err := None;
    }

    method UpdateLastActive(id: string, now: int, f: Spec.Faults) returns (err: Option<Spec.Error>)
      requires Valid()
      modifies this
      ensures Valid() && fresh(cached - old(cached))
      ensures (Contents(), err) == Spec.UpdateLastActive(old(Contents()), id, now, f)
    {
      if id in lastActivity && now - lastActivity[id] < Spec.ACTIVITY_UPDATE_INTERVAL {
        return None;
      }
      lastActivity := lastActivity[id := now];
      var instCtx, failed := Get(id, now, f);
      if failed.Some? {
        return failed;
      }
      instCtx.UpdateLastActive(now);
      err := Register(instCtx, now, f);
    }

    method ClearMemoryCache()
      requires Valid()
      modifies this
      ensures Valid() && cached == {}
      ensures Contents() == old(Contents()).(mem := map[])
    {
      memCache, remembered, cached := map[], map[], {};
    }

    /**
      Whatever a caller does to objects of its own, the registry and its later answers stay
      the same; a record that Get or GetOrCreate handed out is such an object.
     */
    twostate lemma Isolated()
      requires old(Valid()) && unchanged(this) && unchanged(old(cached))
      ensures Valid() && Contents() == old(Contents())
    {
    }
  }

  /**
    Reads a record, lets the caller overwrite everything it was given, and reads again: the
    second answer is the one the registry would have given without the caller's changes.
   */
  method CallersCannotReachIn(registry: Registry, id: string, now: int, later: int, f: Spec.Faults)
    returns (second: Context?, err: Option<Spec.Error>)
    requires registry.Valid() && now <= later
    modifies registry
    ensures registry.Valid()
    ensures err.None? <==> second != null
    ensures (registry.Contents(), if second != null then Ok(second.Value()) else Err(err.value))
         == Spec.Get(Spec.Get(old(registry.Contents()), id, now, f).0, id, later, f)
  {
    var first, missing := registry.Get(id, now, f);
    if first != null {
      label Theirs:
      modify first.Parts();
      registry.Isolated@Theirs();
    }
    second, err := registry.Get(id, later, f);
  }

  /** Registers a record, lets the caller overwrite all of it, and reads: what was registered is found. */
  method RegisteredIsOutOfReach(registry: Registry, c: Context, now: int, later: int, f: Spec.Faults, g: Spec.Faults)
    returns (found: Context?, err: Option<Spec.Error>)
    requires registry.Valid() && registry.Apart(c) && registry !in c.Parts() && now <= later
    modifies registry, c.Parts()
    ensures registry.Valid()
    ensures err.None? <==> found != null
    ensures (registry.Contents(), if found != null then Ok(found.Value()) else Err(err.value))
         == Spec.Get(Spec.Register(old(registry.Contents()), old(c.Value()), now, f).0, old(c.instanceID), later, g)
  {
    var id := c.instanceID;
    var rejected := registry.Register(c, now, f);
    label Theirs:
    modify c.Parts();
    registry.Isolated@Theirs();
    found, err := registry.Get(id, later, g);
  }
}
