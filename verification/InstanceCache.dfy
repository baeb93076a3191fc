/**
  Many instances over one flat store (internal/cache/instance_cache.go).

  The store is the Redis client of internal/cache/redis.go seen as a map that may be
  unreachable.  Every operation of an instance goes through its prefixed keys; the proofs
  show that each instance sees a map of its own.
 */
module InstanceCache {
  import opened Options
  import opened Keys

  type Value = string

  datatype CacheError = KeyNotFound | Unavailable

  // ----- the flat store -----

  class Store {
    var entries: map<string, Value>
    var reachable: bool

    constructor ()
      ensures entries == map[] && reachable
    {
      entries, reachable := map[], true;
    }

    method Get(key: string) returns (r: Result<Value, CacheError>)
      ensures r == if !reachable then Err(Unavailable)
                   else if key in entries then Ok(entries[key]) else Err(KeyNotFound)
    {
      if !reachable { return Err(Unavailable); }
      if key !in entries { return Err(KeyNotFound); }
      return Ok(entries[key]);
    }

    method Set(key: string, value: Value) returns (r: Result<(), CacheError>)
      modifies this`entries
      ensures if !reachable then r == Err(Unavailable) && entries == old(entries)
              else r == Ok(()) && entries == old(entries)[key := value]
    {
      if !reachable { return Err(Unavailable); }
      entries := entries[key := value];
      return Ok(());
    }

    /** Deleting a key that is not there is reported. */
    method Delete(key: string) returns (r: Result<(), CacheError>)
      modifies this`entries
      ensures if !reachable then r == Err(Unavailable) && entries == old(entries)
              else r == (if key in old(entries) then Ok(()) else Err(KeyNotFound)) && entries == old(entries) - {key}
    {
      if !reachable { return Err(Unavailable); }
      if key !in entries { return Err(KeyNotFound); }
      entries := entries - {key};
      return Ok(());
    }

    method Exists(key: string) returns (r: Result<bool, CacheError>)
      ensures r == if !reachable then Err(Unavailable) else Ok(key in entries)
    {
      if !reachable { return Err(Unavailable); }
      return Ok(key in entries);
    }

    /** One value per key that is there; a repeated key is answered once. */
    method GetMultiple(keys: seq<string>) returns (r: Result<map<string, Value>, CacheError>)
      ensures r == if !reachable && keys != [] then Err(Unavailable)
                   else Ok(map k | k in keys && k in entries :: entries[k])
    {
      if keys == [] { return Ok(map[]); }
      if !reachable { return Err(Unavailable); }
      var found: map<string, Value> := map[];
      for i := 0 to |keys|
        invariant found == map k | k in keys[..i] && k in entries :: entries[k]
      {
        if keys[i] in entries {
          found := found[keys[i] := entries[keys[i]]];
        }
      }
      assert keys[..|keys|] == keys;
      return Ok(found);
    }

    method SetMultiple(items: map<string, Value>) returns (r: Result<(), CacheError>)
      modifies this`entries
      ensures if !reachable && items != map[] then r == Err(Unavailable) && entries == old(entries)
              else r == Ok(()) && entries == old(entries) + items
    {
      if items == map[] { return Ok(()); }
      if !reachable { return Err(Unavailable); }
      entries := entries + items;
      return Ok(());
    }

    method DeleteMultiple(keys: seq<string>) returns (r: Result<(), CacheError>)
      modifies this`entries
      ensures if !reachable && keys != [] then r == Err(Unavailable) && entries == old(entries)
              else r == Ok(()) && entries == old(entries) - (set k | k in keys)
    {
      if keys == [] { return Ok(()); }
      if !reachable { return Err(Unavailable); }
      entries := entries - (set k | k in keys);
      return Ok(());
    }
  }

  // ----- what one operation does to the flat store -----

  datatype Operation =
    | Get(key: string)
    | Set(key: string, value: Value)
    | Delete(key: string)
    | Exists(key: string)
    | GetMultiple(keys: seq<string>)
    | SetMultiple(items: map<string, Value>)
    | DeleteMultiple(keys: seq<string>)

  datatype Answer =
    | Found(value: Value)
    | Missing
    | Unreached
    | Done
    | Present(there: bool)
    | Values(values: map<string, Value>)

  /** The items under the keys the store sees. */
  function Prefixed(kb: KeyBuilder, items: map<string, Value>): map<string, Value> {
    map f | f in (set k | k in items :: kb.CacheKey(k)) :: items[Original(kb, items.Keys, f)]
  }

  /** The key of the set whose cache key is f. */
  function Original(kb: KeyBuilder, keys: set<string>, f: string): string
    requires exists k :: k in keys && kb.CacheKey(k) == f
  {
    CacheKeyIsInjectiveInKey(kb);
    var k :| k in keys && kb.CacheKey(k) == f;
    k
  }

  lemma CacheKeyIsInjectiveInKey(kb: KeyBuilder)
    ensures forall k, l :: kb.CacheKey(k) == kb.CacheKey(l) ==> k == l
  {
    forall k, l | kb.CacheKey(k) == kb.CacheKey(l) ensures k == l {
      CacheKeyText(kb, k);
      CacheKeyText(kb, l);
      assert k == kb.CacheKey(k)[|Namespace(kb)|..] && l == kb.CacheKey(l)[|Namespace(kb)|..];
    }
  }

  /** The store and the answer after one operation of one instance, the store being reachable. */
  function FlatStep(entries: map<string, Value>, kb: KeyBuilder, op: Operation): (map<string, Value>, Answer) {
    match op
    case Get(k) => (entries, if kb.CacheKey(k) in entries then Found(entries[kb.CacheKey(k)]) else Missing)
    case Set(k, v) => (entries[kb.CacheKey(k) := v], Done)
    case Delete(k) => (entries - {kb.CacheKey(k)}, if kb.CacheKey(k) in entries then Done else Missing)
    case Exists(k) => (entries, Present(kb.CacheKey(k) in entries))
    case GetMultiple(ks) =>
      (entries, Values(map k | k in ks && kb.CacheKey(k) in entries :: entries[kb.CacheKey(k)]))
    case SetMultiple(items) => (entries + Prefixed(kb, items), Done)
    case DeleteMultiple(ks) => (entries - (set k | k in ks :: kb.CacheKey(k)), Done)
  }

  /** Turns a Go-style result into the answer of the operation. */
  function ValueAnswer(r: Result<Value, CacheError>): Answer {
    match r case Ok(v) => Found(v) case Err(KeyNotFound) => Missing case Err(Unavailable) => Unreached
  }

  function DoneAnswer(r: Result<(), CacheError>): Answer {
    match r case Ok(_) => Done case Err(KeyNotFound) => Missing case Err(Unavailable) => Unreached
  }

  /** The keys and the map from cache keys back to them, as the multi-key methods build them. */
  ghost predicate Transformed(encode: string -> string, keys: seq<string>, instanceKeys: seq<string>,
                              keyMap: map<string, string>) {
    && |instanceKeys| == |keys| && (forall j :: 0 <= j < |keys| ==> instanceKeys[j] == encode(keys[j]))
    && (forall f :: f in keyMap <==> f in instanceKeys)
    && (forall f :: f in keyMap ==> keyMap[f] in keys && encode(keyMap[f]) == f)
  }

  lemma RequestedBack(encode: string -> string, keys: seq<string>, instanceKeys: seq<string>,
                      keyMap: map<string, string>, k: string)
    requires forall l :: encode(k) == encode(l) ==> k == l
    requires Transformed(encode, keys, instanceKeys, keyMap)
    ensures k in keys <==> encode(k) in instanceKeys
    ensures k in keys ==> keyMap[encode(k)] == k
  {
    if encode(k) in instanceKeys {
      assert encode(keyMap[encode(k)]) == encode(k);
    }
    if k in keys {
      var j :| 0 <= j < |keys| && keys[j] == k;
      assert instanceKeys[j] in instanceKeys;
    }
  }

  /** Reading through transformed keys and back yields the requested keys that are there. */
  lemma RequestedValues(entries: map<string, Value>, encode: string -> string, keys: seq<string>,
                        instanceKeys: seq<string>,
                        keyMap: map<string, string>, transformed: map<string, Value>)
    requires forall k, l :: encode(k) == encode(l) ==> k == l
    requires Transformed(encode, keys, instanceKeys, keyMap)
    requires forall k :: k in transformed ==>
               encode(k) in instanceKeys && encode(k) in entries && transformed[k] == entries[encode(k)]
    requires forall f :: f in instanceKeys && f in entries ==> keyMap[f] in transformed
    ensures transformed == map k | k in keys && encode(k) in entries :: entries[encode(k)]
  {
    forall k ensures k in transformed <==> k in keys && encode(k) in entries {
      RequestedBack(encode, keys, instanceKeys, keyMap, k);
    }
  }

  lemma MultiGetAnswer(entries: map<string, Value>, kb: KeyBuilder, keys: seq<string>, instanceKeys: seq<string>,
                       keyMap: map<string, string>, results: map<string, Value>, transformed: map<string, Value>,
                       encode: string -> string)
    requires forall k :: encode(k) == kb.CacheKey(k)
    requires Transformed(encode, keys, instanceKeys, keyMap)
    requires results == map f | f in instanceKeys && f in entries :: entries[f]
    requires forall k :: k in transformed ==> encode(k) in results && transformed[k] == results[encode(k)]
    requires forall f :: f in results && f in keyMap ==> keyMap[f] in transformed
    ensures transformed == map k | k in keys && kb.CacheKey(k) in entries :: entries[kb.CacheKey(k)]
  {
    forall k, l | encode(k) == encode(l) ensures k == l {
      assert kb.CacheKey(k) == kb.CacheKey(l);
      CacheKeyIsInjectiveInKey(kb);
    }
    RequestedValues(entries, encode, keys, instanceKeys, keyMap, transformed);
  }

  /** An instance's window on the shared store; ContextCache picks the instance per call. */
  class InstanceCache {
    const client: Store
    const keyBuilder: KeyBuilder

    constructor (client: Store, instanceID: string)
      ensures this.client == client && keyBuilder == NewKeyBuilder(instanceID)
    {
      this.client := client;
      keyBuilder := NewKeyBuilder(instanceID);
    }

    method Get(key: string) returns (r: Result<Value, CacheError>)
      ensures client.reachable ==> ValueAnswer(r) == FlatStep(client.entries, keyBuilder, Operation.Get(key)).1
      ensures !client.reachable ==> r == Err(Unavailable)
    {
      r := client.Get(keyBuilder.CacheKey(key));
    }

    method Set(key: string, value: Value) returns (r: Result<(), CacheError>)
      modifies client`entries
      ensures client.reachable ==>
                (client.entries, DoneAnswer(r)) == FlatStep(old(client.entries), keyBuilder, Operation.Set(key, value))
      ensures !client.reachable ==> r == Err(Unavailable) && client.entries == old(client.entries)
    {
      r := client.Set(keyBuilder.CacheKey(key), value);
    }

    method Delete(key: string) returns (r: Result<(), CacheError>)
      modifies client`entries
      ensures client.reachable ==>
                (client.entries, DoneAnswer(r)) == FlatStep(old(client.entries), keyBuilder, Operation.Delete(key))
      ensures !client.reachable ==> r == Err(Unavailable) && client.entries == old(client.entries)
    {
      r := client.Delete(keyBuilder.CacheKey(key));
    }

    method Exists(key: string) returns (r: Result<bool, CacheError>)
      ensures client.reachable ==>
                r.Ok? && Present(r.value) == FlatStep(client.entries, keyBuilder, Operation.Exists(key)).1
      ensures !client.reachable ==> r == Err(Unavailable)
    {
      r := client.Exists(keyBuilder.CacheKey(key));
    }

    /** The keys the store sees, and the way back from each of them. */
    method TransformKeys(keys: seq<string>) returns (instanceKeys: seq<string>, keyMap: map<string, string>)
      ensures Transformed((k: string) => keyBuilder.CacheKey(k), keys, instanceKeys, keyMap)
    {
      instanceKeys, keyMap := [], map[];
      for i := 0 to |keys|
        invariant |instanceKeys| == i && forall j :: 0 <= j < i ==> instanceKeys[j] == keyBuilder.CacheKey(keys[j])
        invariant forall f :: f in keyMap <==> f in instanceKeys
        invariant forall f :: f in keyMap ==> keyMap[f] in keys && keyBuilder.CacheKey(keyMap[f]) == f
      {
        var instanceKey := keyBuilder.CacheKey(keys[i]);
        instanceKeys := instanceKeys + [instanceKey];
        keyMap := keyMap[instanceKey := keys[i]];
      }
    }

    /** The results under the keys the caller asked for. */
    method TransformBack(results: map<string, Value>, keyMap: map<string, string>)
      returns (transformed: map<string, Value>)
      requires forall f :: f in keyMap ==> keyBuilder.CacheKey(keyMap[f]) == f
      ensures forall k :: k in transformed ==>
                keyBuilder.CacheKey(k) in results && transformed[k] == results[keyBuilder.CacheKey(k)]
      ensures forall f :: f in results && f in keyMap ==> keyMap[f] in transformed
    {
      transformed := map[];
      var left := results.Keys;
      while left != {}
        invariant left <= results.Keys
        invariant forall k :: k in transformed ==>
                    keyBuilder.CacheKey(k) in results && transformed[k] == results[keyBuilder.CacheKey(k)]
        invariant forall f :: f in results.Keys - left && f in keyMap ==> keyMap[f] in transformed
        decreases left
      {
        var instanceKey :| instanceKey in left;
        left := left - {instanceKey};
        if instanceKey in keyMap {
          transformed := transformed[keyMap[instanceKey] := results[instanceKey]];
        }
      }
    }

    method GetMultiple(keys: seq<string>) returns (r: Result<map<string, Value>, CacheError>)
      ensures client.reachable || keys == [] ==>
                r.Ok? && Values(r.value) == FlatStep(client.entries, keyBuilder, Operation.GetMultiple(keys)).1
      ensures !client.reachable && keys != [] ==> r == Err(Unavailable)
    {
      var instanceKeys, keyMap := TransformKeys(keys);
      var results := client.GetMultiple(instanceKeys);
      if results.Err? {
        return Err(results.error);
      }
      var transformed := TransformBack(results.value, keyMap);
      MultiGetAnswer(client.entries, keyBuilder, keys, instanceKeys, keyMap, results.value, transformed,
                     (k: string) => keyBuilder.CacheKey(k));
      return Ok(transformed);
    }

    method TransformItems(items: map<string, Value>) returns (instanceItems: map<string, Value>)
      ensures instanceItems == Prefixed(keyBuilder, items)
    {
      instanceItems := map[];
      var left := items.Keys;
      ghost var done: map<string, Value> := map[];
      PrefixedEmpty(keyBuilder, done);
      while left != {}
        invariant done.Keys == items.Keys - left && left <= items.Keys
        invariant forall k :: k in done ==> done[k] == items[k]
        invariant instanceItems == Prefixed(keyBuilder, done)
        decreases left
      {
        var key :| key in left;
        PrefixedAdd(keyBuilder, done, key, items[key]);
        instanceItems := instanceItems[keyBuilder.CacheKey(key) := items[key]];
        done := done[key := items[key]];
        left := left - {key};
      }
      assert done == items;
    }

    method SetMultiple(items: map<string, Value>) returns (r: Result<(), CacheError>)
      modifies client`entries
      ensures client.reachable ==>
                (client.entries, DoneAnswer(r))
                == FlatStep(old(client.entries), keyBuilder, Operation.SetMultiple(items))
      ensures !client.reachable && items != map[] ==> r == Err(Unavailable) && client.entries == old(client.entries)
    {
      var instanceItems := TransformItems(items);
      PrefixedEmpty(keyBuilder, items);
      r := client.SetMultiple(instanceItems);
    }

    method DeleteMultiple(keys: seq<string>) returns (r: Result<(), CacheError>)
      modifies client`entries
      ensures client.reachable ==>
                (client.entries, DoneAnswer(r))
                == FlatStep(old(client.entries), keyBuilder, Operation.DeleteMultiple(keys))
      ensures !client.reachable && keys != [] ==> r == Err(Unavailable) && client.entries == old(client.entries)
    {
      var instanceKeys: seq<string> := [];
      for i := 0 to |keys|
        invariant |instanceKeys| == i && forall j :: 0 <= j < i ==> instanceKeys[j] == keyBuilder.CacheKey(keys[j])
      {
        instanceKeys := instanceKeys + [keyBuilder.CacheKey(keys[i])];
      }
      assert (set f | f in instanceKeys) == (set k | k in keys :: keyBuilder.CacheKey(k)) by {
        forall k | k in keys ensures keyBuilder.CacheKey(k) in instanceKeys {
          var j :| 0 <= j < |keys| && keys[j] == k;
          assert instanceKeys[j] == keyBuilder.CacheKey(k);
        }
      }
      r := client.DeleteMultiple(instanceKeys);
    }
  }

  // ----- each instance has a map of its own -----

  /** The keys of one instance, without their namespace. */
  function OwnKeys(entries: map<string, Value>, kb: KeyBuilder): set<string> {
    set f | f in entries && Namespace(kb) <= f :: f[|Namespace(kb)|..]
  }

  /** What one instance sees of the store. */
  function View(entries: map<string, Value>, kb: KeyBuilder): map<string, Value> {
    map k | k in OwnKeys(entries, kb) && kb.CacheKey(k) in entries :: entries[kb.CacheKey(k)]
  }

  /** The same operations on a plain map. */
  function TableStep(table: map<string, Value>, op: Operation): (map<string, Value>, Answer) {
    match op
    case Get(k) => (table, if k in table then Found(table[k]) else Missing)
    case Set(k, v) => (table[k := v], Done)
    case Delete(k) => (table - {k}, if k in table then Done else Missing)
    case Exists(k) => (table, Present(k in table))
    case GetMultiple(ks) => (table, Values(map k | k in ks && k in table :: table[k]))
    case SetMultiple(items) => (table + items, Done)
    case DeleteMultiple(ks) => (table - (set k | k in ks), Done)
  }

  lemma ViewMember(entries: map<string, Value>, kb: KeyBuilder, k: string)
    ensures k in View(entries, kb) <==> kb.CacheKey(k) in entries
    ensures k in View(entries, kb) ==> View(entries, kb)[k] == entries[kb.CacheKey(k)]
  {
    CacheKeyText(kb, k);
    if kb.CacheKey(k) in entries {
      assert (Namespace(kb) + k)[|Namespace(kb)|..] == k;
    }
    if k in OwnKeys(entries, kb) {
      var f :| f in entries && Namespace(kb) <= f && f[|Namespace(kb)|..] == k;
      assert f == Namespace(kb) + k;
    }
  }

  /** An instance's view is decided by what the store holds under its cache keys. */
  lemma ViewIs(entries: map<string, Value>, kb: KeyBuilder, table: map<string, Value>)
    requires forall k :: k in table <==> kb.CacheKey(k) in entries
    requires forall k :: k in table ==> table[k] == entries[kb.CacheKey(k)]
    ensures View(entries, kb) == table
  {
    forall k ensures k in View(entries, kb) <==> k in table {
      ViewMember(entries, kb, k);
    }
  }

  lemma ViewMembers(entries: map<string, Value>, kb: KeyBuilder)
    ensures forall k :: k in View(entries, kb) <==> kb.CacheKey(k) in entries
    ensures forall k :: k in View(entries, kb) ==> View(entries, kb)[k] == entries[kb.CacheKey(k)]
  {
    forall k ensures k in View(entries, kb) <==> kb.CacheKey(k) in entries {
      ViewMember(entries, kb, k);
    }
  }

  /** The part of a stored key after the namespace. */
  function Strip(kb: KeyBuilder, f: string): string {
    if |Namespace(kb)| <= |f| then f[|Namespace(kb)|..] else f
  }

  lemma CacheKeyStrips(kb: KeyBuilder)
    ensures forall k :: Strip(kb, kb.CacheKey(k)) == k
  {
    forall k ensures Strip(kb, kb.CacheKey(k)) == k {
      CacheKeyText(kb, k);
    }
  }

  /** One operation acts on the instance's own view as it would on a plain map, with the same answer. */
  lemma OwnStep(entries: map<string, Value>, kb: KeyBuilder, op: Operation)
    ensures View(FlatStep(entries, kb, op).0, kb) == TableStep(View(entries, kb), op).0
    ensures FlatStep(entries, kb, op).1 == TableStep(View(entries, kb), op).1
  {
    ViewMembers(entries, kb);
    CacheKeyIsInjectiveInKey(kb);
    match op
    case Set(_, _) => OwnWrite(entries, kb, op);
    case Delete(_) => OwnWrite(entries, kb, op);
    case SetMultiple(_) => OwnWrite(entries, kb, op);
    case DeleteMultiple(_) => OwnWrite(entries, kb, op);
    case _ =>
  }

  lemma OwnWrite(entries: map<string, Value>, kb: KeyBuilder, op: Operation)
    requires op.Set? || op.Delete? || op.SetMultiple? || op.DeleteMultiple?
    ensures View(FlatStep(entries, kb, op).0, kb) == TableStep(View(entries, kb), op).0
  {
    var after, table := FlatStep(entries, kb, op).0, TableStep(View(entries, kb), op).0;
    forall k
      ensures k in table <==> kb.CacheKey(k) in after
      ensures k in table ==> table[k] == after[kb.CacheKey(k)]
    {
      ViewMember(entries, kb, k);
      CacheKeyStrips(kb);
      if op.SetMultiple? {
        PrefixedMember(kb, op.items);
      }
    }
    ViewIs(after, kb, table);
  }

  lemma PrefixedMember(kb: KeyBuilder, items: map<string, Value>)
    ensures forall k :: kb.CacheKey(k) in Prefixed(kb, items) <==> k in items
    ensures forall k :: k in items ==> Prefixed(kb, items)[kb.CacheKey(k)] == items[k]
    ensures forall f :: f in Prefixed(kb, items) ==> exists k :: k in items && f == kb.CacheKey(k)
  {
    CacheKeyIsInjectiveInKey(kb);
  }

  lemma PrefixedAt(kb: KeyBuilder, items: map<string, Value>, f: string)
    ensures var k := Strip(kb, f);
            && (f in Prefixed(kb, items) <==> k in items && kb.CacheKey(k) == f)
            && (f in Prefixed(kb, items) ==> Prefixed(kb, items)[f] == items[k])
  {
    CacheKeyStrips(kb);
    PrefixedMember(kb, items);
  }

  lemma PrefixedEmpty(kb: KeyBuilder, items: map<string, Value>)
    ensures Prefixed(kb, items) == map[] <==> items == map[]
  {
    PrefixedMember(kb, items);
    if items != map[] {
      var k :| k in items;
      assert kb.CacheKey(k) in Prefixed(kb, items);
    }
  }

  lemma PrefixedAdd(kb: KeyBuilder, items: map<string, Value>, k: string, v: Value)
    ensures Prefixed(kb, items[k := v]) == Prefixed(kb, items)[kb.CacheKey(k) := v]
  {
    var before, after := Prefixed(kb, items), Prefixed(kb, items[k := v]);
    CacheKeyText(kb, k);
    forall f
      ensures f in after <==> f in before || f == kb.CacheKey(k)
      ensures f in after ==> after[f] == if f == kb.CacheKey(k) then v else before[f]
    {
      PrefixedAt(kb, items, f);
      PrefixedAt(kb, items[k := v], f);
    }
  }

  lemma ForeignKey(entries: map<string, Value>, kb: KeyBuilder, other: KeyBuilder, op: Operation, k: string)
    requires forall l :: other.CacheKey(l) != kb.CacheKey(k)
    ensures var f, after := kb.CacheKey(k), FlatStep(entries, other, op).0;
            (f in after <==> f in entries) && (f in after ==> after[f] == entries[f])
  {
    if op.SetMultiple? {
      PrefixedMember(other, op.items);
    }
  }

  /** Neither namespace begins with the other. */
  predicate Unrelated(a: KeyBuilder, b: KeyBuilder) {
    !(Namespace(a) <= Namespace(b)) && !(Namespace(b) <= Namespace(a))
  }

  /** Different colon-free IDs have unrelated namespaces. */
  lemma ColonFreeUnrelated(a: KeyBuilder, b: KeyBuilder)
    requires ColonFree(a.instanceID) && ColonFree(b.instanceID) && a != b
    ensures Unrelated(a, b)
  {
    CollideExactly(a, b);
    if k, l :| a.CacheKey(k) == b.CacheKey(l) {
      CacheKeyInjective(a, b, k, l);
    }
  }

  /** An operation of an instance with an unrelated namespace leaves the view alone. */
  lemma ForeignStep(entries: map<string, Value>, kb: KeyBuilder, other: KeyBuilder, op: Operation)
    requires Unrelated(kb, other)
    ensures View(FlatStep(entries, other, op).0, kb) == View(entries, kb)
  {
    CollideExactly(kb, other);
    var after, view := FlatStep(entries, other, op).0, View(entries, kb);
    forall k
      ensures k in view <==> kb.CacheKey(k) in after
      ensures k in view ==> view[k] == after[kb.CacheKey(k)]
    {
      ViewMember(entries, kb, k);
      forall l ensures other.CacheKey(l) != kb.CacheKey(k) { }
      ForeignKey(entries, kb, other, op, k);
    }
    ViewIs(after, kb, view);
  }

  /** Nothing the other instance does shows in the view. */
  ghost predicate LeavesAlone(other: KeyBuilder, kb: KeyBuilder) {
    forall entries: map<string, Value>, op: Operation :: View(FlatStep(entries, other, op).0, kb) == View(entries, kb)
  }

  /** Two instances are isolated from each other if and only if their namespaces are unrelated. */
  lemma IsolatedExactly(kb: KeyBuilder, other: KeyBuilder)
    ensures LeavesAlone(other, kb) <==> Unrelated(kb, other)
  {
    if Unrelated(kb, other) {
      forall entries: map<string, Value>, op: Operation
        ensures View(FlatStep(entries, other, op).0, kb) == View(entries, kb)
      {
        ForeignStep(entries, kb, other, op);
      }
    } else {
      CollideExactly(kb, other);
      var k, l :| kb.CacheKey(k) == other.CacheKey(l);
      var op := Operation.Set(l, "seen");
      ViewMember(map[], kb, k);
      ViewMember(FlatStep(map[], other, op).0, kb, k);
      assert View(FlatStep(map[], other, op).0, kb) != View(map[], kb);
    }
  }

  /**
    Caches constructed for two colon-free IDs are isolated exactly when the IDs differ once the
    white space around them is removed.
   */
  lemma InstancesIsolatedExactly(a: string, b: string, before: (string, string), after: (string, string))
    requires ColonFree(a) && ColonFree(b) && Bare(a) && Bare(b)
    requires AllSpace(before.0) && AllSpace(before.1) && AllSpace(after.0) && AllSpace(after.1)
    ensures LeavesAlone(NewKeyBuilder(before.1 + b + after.1), NewKeyBuilder(before.0 + a + after.0)) <==> a != b
  {
    NewKeepsId(before.0, a, after.0);
    NewKeepsId(before.1, b, after.1);
    var kb, other := KeyBuilder(a), KeyBuilder(b);
    IsolatedExactly(kb, other);
    if a != b {
      ColonFreeUnrelated(kb, other);
    }
  }

  // ----- any sequence of operations by any instances -----

  datatype Request = Request(kb: KeyBuilder, op: Operation)

  function FlatRun(entries: map<string, Value>, requests: seq<Request>): map<string, Value>
    decreases |requests|
  {
    if requests == [] then entries
    else FlatRun(FlatStep(entries, requests[0].kb, requests[0].op).0, requests[1..])
  }

  /** The answers one instance receives, in order. */
  function FlatAnswers(entries: map<string, Value>, requests: seq<Request>, kb: KeyBuilder): seq<Answer>
    decreases |requests|
  {
    if requests == [] then []
    else
      var (after, answer) := FlatStep(entries, requests[0].kb, requests[0].op);
      (if requests[0].kb == kb then [answer] else []) + FlatAnswers(after, requests[1..], kb)
  }

  /** A private map that runs only its own instance's operations. */
  function TableRun(table: map<string, Value>, requests: seq<Request>, kb: KeyBuilder): map<string, Value>
    decreases |requests|
  {
    if requests == [] then table
    else TableRun(if requests[0].kb == kb then TableStep(table, requests[0].op).0 else table, requests[1..], kb)
  }

  function TableAnswers(table: map<string, Value>, requests: seq<Request>, kb: KeyBuilder): seq<Answer>
    decreases |requests|
  {
    if requests == [] then []
    else if requests[0].kb == kb then
      var (after, answer) := TableStep(table, requests[0].op);
      [answer] + TableAnswers(after, requests[1..], kb)
    else TableAnswers(table, requests[1..], kb)
  }

  /**
    The flat store refines a map of maps: whatever the instances do, one whose namespace is
    unrelated to the others ends with the map it would have had alone, and receives the
    answers it would have received alone.
   */
  lemma {:induction false} MapOfMaps(entries: map<string, Value>, requests: seq<Request>, kb: KeyBuilder)
    requires forall r :: r in requests ==> r.kb == kb || Unrelated(kb, r.kb)
    ensures View(FlatRun(entries, requests), kb) == TableRun(View(entries, kb), requests, kb)
    ensures FlatAnswers(entries, requests, kb) == TableAnswers(View(entries, kb), requests, kb)
    decreases |requests|
  {
    if requests != [] {
      var r := requests[0];
      assert r in requests;
      if r.kb == kb {
        OwnStep(entries, kb, r.op);
      } else {
        ForeignStep(entries, kb, r.kb, r.op);
      }
      MapOfMaps(FlatStep(entries, r.kb, r.op).0, requests[1..], kb);
    }
  }

  /** Any colon-free instances are such instances. */
  lemma ColonFreeInstances(entries: map<string, Value>, requests: seq<Request>, kb: KeyBuilder)
    requires ColonFree(kb.instanceID) && forall r :: r in requests ==> ColonFree(r.kb.instanceID)
    ensures View(FlatRun(entries, requests), kb) == TableRun(View(entries, kb), requests, kb)
    ensures FlatAnswers(entries, requests, kb) == TableAnswers(View(entries, kb), requests, kb)
  {
    forall r | r in requests && r.kb != kb ensures Unrelated(kb, r.kb) {
      ColonFreeUnrelated(kb, r.kb);
    }
    MapOfMaps(entries, requests, kb);
  }

  // ----- the instance of a request -----

  /** ContextCache: the instance in the request's context, "global" when there is none. */
  function ContextInstance(contextID: string): KeyBuilder {
    NewKeyBuilder(if contextID == "" then "global" else contextID)
  }

  /** A cache that picks its instance from each request's context. */
  class ContextCache {
    const client: Store

    constructor (client: Store)
      ensures this.client == client
    {
      this.client := client;
    }

    method Get(contextID: string, key: string) returns (r: Result<Value, CacheError>)
      ensures client.reachable ==>
                ValueAnswer(r) == FlatStep(client.entries, ContextInstance(contextID), Operation.Get(key)).1
      ensures !client.reachable ==> r == Err(Unavailable)
    {
      var instanceID := contextID;
      if instanceID == "" {
        instanceID := "global";
      }
      var window := new InstanceCache(client, instanceID);
      r := window.Get(key);
    }

    method Set(contextID: string, key: string, value: Value) returns (r: Result<(), CacheError>)
      modifies client`entries
      ensures client.reachable ==>
                (client.entries, DoneAnswer(r))
                == FlatStep(old(client.entries), ContextInstance(contextID), Operation.Set(key, value))
      ensures !client.reachable ==> r == Err(Unavailable) && client.entries == old(client.entries)
    {
      var instanceID := contextID;
      if instanceID == "" {
        instanceID := "global";
      }
      var window := new InstanceCache(client, instanceID);
      r := window.Set(key, value);
    }

    method Delete(contextID: string, key: string) returns (r: Result<(), CacheError>)
      modifies client`entries
      ensures client.reachable ==>
                (client.entries, DoneAnswer(r))
                == FlatStep(old(client.entries), ContextInstance(contextID), Operation.Delete(key))
      ensures !client.reachable ==> r == Err(Unavailable) && client.entries == old(client.entries)
    {
      var instanceID := contextID;
      if instanceID == "" {
        instanceID := "global";
      }
      var window := new InstanceCache(client, instanceID);
      r := window.Delete(key);
    }

    method Exists(contextID: string, key: string) returns (r: Result<bool, CacheError>)
      ensures client.reachable ==>
                r.Ok? && Present(r.value)
                == FlatStep(client.entries, ContextInstance(contextID), Operation.Exists(key)).1
      ensures !client.reachable ==> r == Err(Unavailable)
    {
      var instanceID := contextID;
      if instanceID == "" {
        instanceID := "global";
      }
      var window := new InstanceCache(client, instanceID);
      r := window.Exists(key);
    }

    method GetMultiple(contextID: string, keys: seq<string>) returns (r: Result<map<string, Value>, CacheError>)
      ensures client.reachable || keys == [] ==>
                r.Ok? && Values(r.value)
                == FlatStep(client.entries, ContextInstance(contextID), Operation.GetMultiple(keys)).1
      ensures !client.reachable && keys != [] ==> r == Err(Unavailable)
    {
      var instanceID := contextID;
      if instanceID == "" {
        instanceID := "global";
      }
      var window := new InstanceCache(client, instanceID);
      r := window.GetMultiple(keys);
    }

    method SetMultiple(contextID: string, items: map<string, Value>) returns (r: Result<(), CacheError>)
      modifies client`entries
      ensures client.reachable ==>
                (client.entries, DoneAnswer(r))
                == FlatStep(old(client.entries), ContextInstance(contextID), Operation.SetMultiple(items))
      ensures !client.reachable && items != map[] ==> r == Err(Unavailable) && client.entries == old(client.entries)
    {
      var instanceID := contextID;
      if instanceID == "" {
        instanceID := "global";
      }
      var window := new InstanceCache(client, instanceID);
      r := window.SetMultiple(items);
    }

    method DeleteMultiple(contextID: string, keys: seq<string>) returns (r: Result<(), CacheError>)
      modifies client`entries
      ensures client.reachable ==>
                (client.entries, DoneAnswer(r))
                == FlatStep(old(client.entries), ContextInstance(contextID), Operation.DeleteMultiple(keys))
      ensures !client.reachable && keys != [] ==> r == Err(Unavailable) && client.entries == old(client.entries)
    {
      var instanceID := contextID;
      if instanceID == "" {
        instanceID := "global";
      }
      var window := new InstanceCache(client, instanceID);
      r := window.DeleteMultiple(keys);
    }
  }

  /** The ID a request works under: "global" without one, otherwise without the white space around it. */
  lemma ContextBuilder(pre: string, id: string, post: string)
    requires AllSpace(pre) && Bare(id) && AllSpace(post)
    ensures ContextInstance(pre + id + post) == KeyBuilder(if pre + id + post == "" then "global" else id)
  {
    if pre + id + post == "" {
      NewKeepsId("", "global", "");
      assert "" + "global" + "" == "global";
    } else {
      NewKeepsId(pre, id, post);
    }
  }

  /** Two requests of a context cache are isolated exactly when they work under different IDs. */
  lemma ContextsIsolatedExactly(a: string, b: string, before: (string, string), after: (string, string))
    requires ColonFree(a) && ColonFree(b) && Bare(a) && Bare(b)
    requires AllSpace(before.0) && AllSpace(before.1) && AllSpace(after.0) && AllSpace(after.1)
    ensures var x, y := before.0 + a + after.0, before.1 + b + after.1;
            LeavesAlone(ContextInstance(y), ContextInstance(x))
            <==> (if x == "" then "global" else a) != (if y == "" then "global" else b)
  {
    var x, y := before.0 + a + after.0, before.1 + b + after.1;
    ContextBuilder(before.0, a, after.0);
    ContextBuilder(before.1, b, after.1);
    var kb, other := ContextInstance(x), ContextInstance(y);
    IsolatedExactly(kb, other);
    if kb != other {
      ColonFreeUnrelated(kb, other);
    }
  }

  lemma GlobalContext(contextID: string)
    ensures ContextInstance(contextID) == KeyBuilder("global") <==> contextID == "" || TrimSpace(contextID) == "global"
  {
    assert TrimLeft("global") == "global" && TrimRight("global") == "global";
  }

  /**
    Requests without an instance and requests that name "global" work on one map, with the
    answers of that map; a request of any other colon-free instance leaves it alone.
   */
  lemma GlobalShared(entries: map<string, Value>, contextID: string, op: Operation)
    requires ColonFree(contextID)
    ensures var global := KeyBuilder("global");
            var (after, answer) := FlatStep(entries, ContextInstance(contextID), op);
            if contextID == "" || TrimSpace(contextID) == "global"
            then (View(after, global), answer) == TableStep(View(entries, global), op)
            else View(after, global) == View(entries, global)
  {
    var global := KeyBuilder("global");
    GlobalContext(contextID);
    if contextID == "" || TrimSpace(contextID) == "global" {
      OwnStep(entries, global, op);
    } else {
      TrimKeepsColonFree(contextID);
      ColonFreeUnrelated(global, ContextInstance(contextID));
      ForeignStep(entries, global, ContextInstance(contextID), op);
    }
  }
}
