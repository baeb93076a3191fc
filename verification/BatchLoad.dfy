/**
  Loading an instance's rows into the cache in batches (internal/operations/instance_ops.go:34-106).

  The query delivers rows until it stops; a row that cannot be scanned is None. A batch
  reaches the cache as a whole or not at all.
 */
module BatchLoad {
  import opened Options
  import opened Keys
  import opened InstanceContext
  import opened Counting
  import InstanceCache
  import Spec = RegistryState
  import Laws = RegistryLaws
  import Paths
  import opened Registry

  type Value = string

  datatype Row = Row(key: string, value: Value)

  const BATCH_SIZE: nat := 1000

  // ---------- What the loop sends ----------

  /** Batches sent so far, and the one being filled. */
  datatype Progress = Progress(sent: seq<map<string, Value>>, batch: map<string, Value>)

  function Loop(kb: KeyBuilder, rows: seq<Row>): Progress
    decreases |rows|
  {
    if rows == [] then Progress([], map[])
    else
      var before := Loop(kb, rows[..|rows| - 1]);
      var row := rows[|rows| - 1];
      var batch := before.batch[kb.CacheKey(row.key) := row.value];
      if |batch| >= BATCH_SIZE then Progress(before.sent + [batch], map[]) else Progress(before.sent, batch)
  }

  /** Every batch of a load whose rows can all be read. */
  function Batches(kb: KeyBuilder, rows: seq<Row>): seq<map<string, Value>> {
    var end := Loop(kb, rows);
    if end.batch == map[] then end.sent else end.sent + [end.batch]
  }

  /** The cache after these batches. */
  function Sent(entries: map<string, Value>, batches: seq<map<string, Value>>): map<string, Value> {
    if batches == [] then entries else Sent(entries, batches[..|batches| - 1]) + batches[|batches| - 1]
  }

  /** The cache after writing the rows one by one. */
  function OneByOne(kb: KeyBuilder, entries: map<string, Value>, rows: seq<Row>): map<string, Value> {
    if rows == [] then entries
    else OneByOne(kb, entries, rows[..|rows| - 1])[kb.CacheKey(rows[|rows| - 1].key) := rows[|rows| - 1].value]
  }

  lemma SentOne(entries: map<string, Value>, batches: seq<map<string, Value>>, batch: map<string, Value>)
    ensures Sent(entries, batches + [batch]) == Sent(entries, batches) + batch
  {
    assert (batches + [batch])[..|batches|] == batches;
  }

  lemma {:induction false} LoopIsOneByOne(kb: KeyBuilder, entries: map<string, Value>, rows: seq<Row>)
    decreases |rows|
    ensures Sent(entries, Loop(kb, rows).sent) + Loop(kb, rows).batch == OneByOne(kb, entries, rows)
  {
    if rows != [] {
      var init := rows[..|rows| - 1];
      var row := rows[|rows| - 1];
      LoopIsOneByOne(kb, entries, init);
      var before := Loop(kb, init);
      var batch := before.batch[kb.CacheKey(row.key) := row.value];
      SentOne(entries, before.sent, batch);
      AddLast(Sent(entries, before.sent + [batch]), map[], "", "");
      AddLast(Sent(entries, before.sent), before.batch, kb.CacheKey(row.key), row.value);
    }
  }

  lemma AddLast(m: map<string, Value>, batch: map<string, Value>, k: string, v: Value)
    ensures m + batch[k := v] == (m + batch)[k := v] && m + map[] == m
  {
    assert (m + batch[k := v]).Keys == (m + batch)[k := v].Keys;
  }

  /** Loading in batches leaves the cache that writing row by row would, repeated keys included. */
  lemma BatchedIsOneByOne(kb: KeyBuilder, entries: map<string, Value>, rows: seq<Row>)
    ensures Sent(entries, Batches(kb, rows)) == OneByOne(kb, entries, rows)
  {
    LoopIsOneByOne(kb, entries, rows);
    var end := Loop(kb, rows);
    SentOne(entries, end.sent, end.batch);
    assert end.batch == map[] ==> Sent(entries, end.sent) + end.batch == Sent(entries, end.sent);
  }

  lemma {:induction false} LoopSizes(kb: KeyBuilder, rows: seq<Row>)
    decreases |rows|
    ensures |Loop(kb, rows).batch| < 1000 && forall b | b in Loop(kb, rows).sent :: |b| == 1000
  {
    if rows != [] {
      LoopSizes(kb, rows[..|rows| - 1]);
      var before := Loop(kb, rows[..|rows| - 1]).batch;
      var row := rows[|rows| - 1];
      GrowsByOne(before, kb.CacheKey(row.key), row.value);
    }
  }

  lemma GrowsByOne(m: map<string, Value>, k: string, v: Value)
    ensures |m[k := v]| == if k in m then |m| else |m| + 1
  {
    if k in m {
      assert m[k := v].Keys == m.Keys;
    } else {
      assert m[k := v].Keys == m.Keys + {k};
    }
    assert |m.Keys| == |m| && |m[k := v].Keys| == |m[k := v]|;
  }

  /** Every batch but the last has exactly 1000 entries and the last between 1 and 1000. */
  lemma BatchSizes(kb: KeyBuilder, rows: seq<Row>)
    ensures var b := Batches(kb, rows);
            forall j | 0 <= j < |b| :: if j < |b| - 1 then |b[j]| == 1000 else 1 <= |b[j]| <= 1000
  {
    LoopSizes(kb, rows);
    var end := Loop(kb, rows);
    assert end.batch != map[] ==> |end.batch| != 0 by {
      if |end.batch| == 0 {
        assert end.batch.Keys == {};
      }
    }
  }

  // ---------- Rows with distinct keys ----------

  predicate DistinctKeys(rows: seq<Row>) {
    forall i, j | 0 <= i < j < |rows| :: rows[i].key != rows[j].key
  }

  lemma DistinctInit(rows: seq<Row>)
    requires rows != [] && DistinctKeys(rows)
    ensures DistinctKeys(rows[..|rows| - 1])
  {
  }

  /** Batches and rows that concern one cache key. */
  function Sending(f: string): map<string, Value> -> bool {
    (b: map<string, Value>) => f in b
  }

  function Holding(kb: KeyBuilder, f: string): Row -> bool {
    (r: Row) => kb.CacheKey(r.key) == f
  }

  lemma {:induction false} LoopSendsOnce(kb: KeyBuilder, rows: seq<Row>, f: string)
    requires DistinctKeys(rows)
    decreases |rows|
    ensures Count(Loop(kb, rows).sent, Sending(f)) + (if f in Loop(kb, rows).batch then 1 else 0)
              == Count(rows, Holding(kb, f))
  {
    if rows != [] {
      var init, row := rows[..|rows| - 1], rows[|rows| - 1];
      DistinctInit(rows);
      LoopSendsOnce(kb, init, f);
      if kb.CacheKey(row.key) == f {
        FirstOfItsKey(kb, rows, f);
      }
      var before := Loop(kb, init);
      CountAppend(before.sent, Sending(f), before.batch[kb.CacheKey(row.key) := row.value]);
    }
  }

  /** No earlier row has the last row's key. */
  lemma FirstOfItsKey(kb: KeyBuilder, rows: seq<Row>, f: string)
    requires rows != [] && DistinctKeys(rows) && kb.CacheKey(rows[|rows| - 1].key) == f
    ensures Count(rows[..|rows| - 1], Holding(kb, f)) == 0
  {
    var init := rows[..|rows| - 1];
    if Count(init, Holding(kb, f)) >= 1 {
      var i := CountFinds(init, Holding(kb, f));
      InstanceCache.CacheKeyIsInjectiveInKey(kb);
      assert false;
    }
  }

  /** Each row is written by exactly one batch, and nothing else is written. */
  lemma WrittenOnce(kb: KeyBuilder, rows: seq<Row>, f: string)
    requires DistinctKeys(rows)
    ensures Count(Batches(kb, rows), Sending(f)) == Count(rows, Holding(kb, f)) <= 1
    ensures Count(rows, Holding(kb, f)) == 1 <==> exists i :: 0 <= i < |rows| && kb.CacheKey(rows[i].key) == f
  {
    LoopSendsOnce(kb, rows, f);
    var end := Loop(kb, rows);
    CountAppend(end.sent, Sending(f), end.batch);
    AtMostOneRow(kb, rows, f);
  }

  lemma {:induction false} AtMostOneRow(kb: KeyBuilder, rows: seq<Row>, f: string)
    requires DistinctKeys(rows)
    decreases |rows|
    ensures Count(rows, Holding(kb, f)) <= 1
    ensures Count(rows, Holding(kb, f)) == 1 <==> exists i :: 0 <= i < |rows| && kb.CacheKey(rows[i].key) == f
  {
    if rows != [] {
      DistinctInit(rows);
      AtMostOneRow(kb, rows[..|rows| - 1], f);
      if kb.CacheKey(rows[|rows| - 1].key) == f {
        FirstOfItsKey(kb, rows, f);
      } else if Count(rows, Holding(kb, f)) == 1 {
        var i := CountFinds(rows[..|rows| - 1], Holding(kb, f));
        assert kb.CacheKey(rows[i].key) == f;
      }
    }
  }

  lemma {:induction false} LoopCounts(kb: KeyBuilder, rows: seq<Row>)
    requires DistinctKeys(rows)
    decreases |rows|
    ensures |Loop(kb, rows).sent| * 1000 + |Loop(kb, rows).batch| == |rows|
  {
    if rows != [] {
      var init, row := rows[..|rows| - 1], rows[|rows| - 1];
      var f := kb.CacheKey(row.key);
      DistinctInit(rows);
      LoopCounts(kb, init);
      LoopSizes(kb, init);
      LoopSendsOnce(kb, init, f);
      FirstOfItsKey(kb, rows, f);
      GrowsByOne(Loop(kb, init).batch, f, row.value);
    }
  }

  /** n rows with distinct keys take n/1000 batches, rounded up. */
  lemma BatchCount(kb: KeyBuilder, rows: seq<Row>)
    requires DistinctKeys(rows)
    ensures |Batches(kb, rows)| == (|rows| + 999) / 1000
  {
    LoopCounts(kb, rows);
    LoopSizes(kb, rows);
    var end := Loop(kb, rows);
    if |end.batch| == 0 {
      assert end.batch.Keys == {};
      assert end.batch == map[];
    }
  }

  // ---------- The load ----------

  /** The rows before the first that cannot be scanned. */
  function Readable(rows: seq<Option<Row>>): seq<Row> {
    if rows == [] || rows[0].None? then [] else [rows[0].value] + Readable(rows[1..])
  }

  /** The batches a load sends unless the cache fails. */
  function Attempted(kb: KeyBuilder, rows: seq<Option<Row>>): seq<map<string, Value>> {
    if |Readable(rows)| == |rows| then Batches(kb, Readable(rows)) else Loop(kb, Readable(rows)).sent
  }

  /** Row i is the next readable one or the end of them. */
  lemma ReadableNext(rows: seq<Option<Row>>, i: nat, readable: seq<Row>)
    requires i <= |rows| && i <= |readable| && Readable(rows[i..]) == readable[i..]
    ensures i == |rows| || rows[i].None? ==> |readable| == i
    ensures i < |rows| && rows[i].Some? ==>
              i < |readable| && readable[i] == rows[i].value && Readable(rows[i + 1..]) == readable[i + 1..]
  {
    if i < |rows| && rows[i].Some? {
      assert rows[i..][1..] == rows[i + 1..];
      assert readable[i..][0] == readable[i] && readable[i..][1..] == readable[i + 1..];
    }
  }

  /** What an earlier prefix has sent stays sent. */
  lemma {:induction false} LoopGrows(kb: KeyBuilder, rows: seq<Row>, k: nat)
    requires k <= |rows|
    decreases |rows|
    ensures Loop(kb, rows[..k]).sent <= Loop(kb, rows).sent
  {
    if k == |rows| {
      assert rows[..k] == rows;
    } else {
      LoopGrows(kb, rows[..|rows| - 1], k);
      assert rows[..|rows| - 1][..k] == rows[..k];
    }
  }

  lemma LoopNext(kb: KeyBuilder, rows: seq<Row>, i: nat)
    requires i < |rows|
    ensures var before := Loop(kb, rows[..i]); var batch := before.batch[kb.CacheKey(rows[i].key) := rows[i].value];
            if |batch| >= BATCH_SIZE
            then Loop(kb, rows[..i + 1]) == Progress(before.sent + [batch], map[])
                 && before.sent + [batch] <= Loop(kb, rows).sent
            else Loop(kb, rows[..i + 1]) == Progress(before.sent, batch)
  {
    assert rows[..i + 1][..i] == rows[..i];
    LoopGrows(kb, rows, i + 1);
  }

  /** NilMetadata is the write into a nil map that ends the call. */
  datatype LoadError = NotFound(e: Spec.Error) | StartRejected(e: Spec.Error) | QueryFailed | ScanFailed | CacheFailed
                     | NilMetadata | FinishRejected(e: Spec.Error)

  /** What happens around one load: three registry calls, the query, the cache, and the clock's text. */
  datatype World = World(now1: int, f1: Spec.Faults, now2: int, f2: Spec.Faults, now3: int, f3: Spec.Faults,
                         queryWorks: bool, rows: seq<Option<Row>>, reach: nat, stamp: string)

  lemma GetNamed(s: Spec.State, id: string, now: int, f: Spec.Faults)
    requires Spec.Named(s)
    ensures var (t, r) := Spec.Get(s, id, now, f);
            Spec.Named(t) && Spec.SameRecords(s, t) && (r.Ok? ==> r.value.instanceID == id != "")
  {
    Laws.ReadNamed(s, id, now, f);
  }

  lemma UpdateNamed(s: Spec.State, r: Record, now: int, f: Spec.Faults)
    requires Spec.Named(s)
    ensures var (t, err) := Spec.Update(s, r, now, f);
            Spec.Named(t) && (err.Some? ==> Spec.SameRecords(s, t))
  {
    GetNamed(s, r.instanceID, now, f);
  }

  predicate StoredAs(s: Spec.State, id: string, status: Status) {
    id in s.store && s.store[id].value.status == status
  }

  // ---------- What a load does, from the registry before it ----------

  /** Reading the instance and marking it as migrating; the result is the record as it is then stored. */
  function Begun(s: Spec.State, id: string, w: World): (Spec.State, Result<Record, LoadError>) {
    var (s1, got) := Spec.Get(s, id, w.now1, w.f1);
    match got
    case Err(e) => (s1, Err(NotFound(e)))
    case Ok(r) =>
      var (s2, rejected) := Spec.Update(s1, r.(status := Migrating), w.now2, w.f2);
      if rejected.Some? then (s2, Err(StartRejected(rejected.value))) else (s2, Ok(s2.store[r.instanceID].value))
  }

  /** The query, the scanning and the writes to the cache. */
  function RowsError(id: string, w: World): Option<LoadError> {
    if !w.queryWorks then Some(QueryFailed)
    else if w.reach < |Attempted(NewKeyBuilder(id), w.rows)| then Some(CacheFailed)
    else if |Readable(w.rows)| < |w.rows| then Some(ScanFailed)
    else None
  }

  /** The batches that reach the cache. */
  function Reaching(id: string, w: World): seq<map<string, Value>> {
    var all := Attempted(NewKeyBuilder(id), w.rows);
    if !w.queryWorks then [] else if w.reach < |all| then all[..w.reach] else all
  }

  /** Active, with notes of when the load ended and how many rows it read. */
  function Noted(r: Record, stamp: string, count: nat): Record
    requires r.metadata.Some?
  {
    var notes := r.metadata.value["last_loaded" := stamp]["loaded_keys" := Paths.Digits(count)];
    r.(status := Active, metadata := Some(notes))
  }

  function Finished(s: Spec.State, r: Record, w: World): (Spec.State, Option<LoadError>) {
    if r.metadata.None? then (s, Some(NilMetadata))
    else
      var (t, rejected) := Spec.Update(s, Noted(r, w.stamp, |w.rows|), w.now3, w.f3);
      (t, if rejected.Some? then Some(FinishRejected(rejected.value)) else None)
  }

  function Outcome(s: Spec.State, id: string, w: World): (Spec.State, Option<LoadError>) {
    var (t, begun) := Begun(s, id, w);
    if begun.Err? then (t, Some(begun.error))
    else if RowsError(id, w).Some? then (t, RowsError(id, w))
    else Finished(t, begun.value, w)
  }

  // ---------- When a load succeeds ----------

  /** The load can begin: the record is read twice and written once. */
  predicate CanBegin(s: Spec.State, id: string, w: World) {
    Spec.CanRead(s, id, w.now1, w.f1) && Spec.CanRead(Spec.Get(s, id, w.now1, w.f1).0, id, w.now2, w.f2) && w.f2.write
  }

  lemma UpdateWorks(s: Spec.State, r: Record, now: int, f: Spec.Faults)
    ensures Spec.Update(s, r, now, f).1.None? <==> Spec.CanRead(s, r.instanceID, now, f) && f.write
  {
  }

  /**
    What a started load leaves in the registry: a record marked as migrating, good for a day,
    remembered for five minutes.
   */
  lemma Starts(s: Spec.State, id: string, w: World)
    requires Spec.Named(s)
    ensures var (t, begun) := Begun(s, id, w);
            && (begun.Ok? <==> CanBegin(s, id, w))
            && (begun.Err? ==> Spec.SameRecords(s, t) && (begun.error.NotFound? || begun.error.StartRejected?))
            && (begun.Ok? ==>
                  && Spec.Named(t) && begun.value.instanceID == id && begun.value.status == Migrating
                  && begun.value.metadata == Spec.Get(s, id, w.now1, w.f1).1.value.metadata
                  && id in t.store && t.store[id] == Spec.Stamped(begun.value, w.now2 + Spec.DEFAULT_TTL)
                  && id in t.mem && t.mem[id].expires == w.now2 + Spec.CACHE_TTL)
  {
    var (s1, got) := Spec.Get(s, id, w.now1, w.f1);
    GetNamed(s, id, w.now1, w.f1);
    if got.Ok? {
      UpdateNamed(s1, got.value.(status := Migrating), w.now2, w.f2);
    }
  }

  /** The last registry write finds the record as long as memory or a reachable store still has it. */
  predicate CanFinish(w: World) {
    (w.now3 <= w.now2 + Spec.CACHE_TTL || (w.f3.read.Works? && w.now3 < w.now2 + Spec.DEFAULT_TTL)) && w.f3.write
  }

  /**
    A load succeeds exactly when it can begin, the query works, every row can be read, the
    cache takes every batch, the record has a metadata map, and it can finish.
   */
  lemma SucceedsExactly(s: Spec.State, id: string, w: World)
    requires Spec.Named(s)
    ensures Outcome(s, id, w).1.None?
            <==> && CanBegin(s, id, w) && w.queryWorks && |Readable(w.rows)| == |w.rows|
                 && w.reach >= |Batches(NewKeyBuilder(id), Readable(w.rows))|
                 && Spec.Get(s, id, w.now1, w.f1).1.value.metadata.Some? && CanFinish(w)
  {
    Starts(s, id, w);
    ReadableAtMost(w.rows);
    var (t, begun) := Begun(s, id, w);
    if begun.Ok? && begun.value.metadata.Some? {
      UpdateWorks(t, Noted(begun.value, w.stamp, |w.rows|), w.now3, w.f3);
    }
  }

  lemma {:induction false} ReadableAtMost(rows: seq<Option<Row>>)
    ensures |Readable(rows)| <= |rows|
  {
    if rows != [] {
      ReadableAtMost(rows[1..]);
    }
  }

  /**
    What the instance is afterwards: untouched when the load could not begin; otherwise
    migrating exactly when a later step failed, and active with its notes when none did.
   */
  lemma LeavesMigratingExactly(s: Spec.State, id: string, w: World)
    requires Spec.Named(s)
    ensures var (t, err) := Outcome(s, id, w);
            if !CanBegin(s, id, w) then err.Some? && Spec.SameRecords(s, t)
            else
              && (StoredAs(t, id, Migrating) <==> err.Some?)
              && (err.None? ==> Loaded(t, id, w.stamp, |w.rows|))
  {
    Starts(s, id, w);
    var (t, begun) := Begun(s, id, w);
    if begun.Ok? && RowsError(id, w).None? && begun.value.metadata.Some? {
      UpdateNamed(t, Noted(begun.value, w.stamp, |w.rows|), w.now3, w.f3);
    }
  }

  predicate Loaded(s: Spec.State, id: string, stamp: string, count: nat) {
    && StoredAs(s, id, Active)
    && s.store[id].value.metadata.Some?
    && var notes := s.store[id].value.metadata.value;
       "last_loaded" in notes && notes["last_loaded"] == stamp
       && "loaded_keys" in notes && notes["loaded_keys"] == Paths.Digits(count)
  }

  class InstanceOperations {
    const registry: Registry
    var entries: map<string, Value>
    /** The batches that reached the cache, oldest first. */
    ghost var flushed: seq<map<string, Value>>

    constructor (registry: Registry, entries: map<string, Value>)
      ensures this.registry == registry && this.entries == entries && flushed == []
    {
      this.registry, this.entries, flushed := registry, entries, [];
    }

    /** Sends one batch; `start` is what the cache held before the first. */
    method SetMultiple(items: map<string, Value>, works: bool, ghost start: map<string, Value>) returns (ok: bool)
      requires entries == Sent(start, flushed)
      modifies this`entries, this`flushed
      ensures ok == works
      ensures flushed == (if ok then old(flushed) + [items] else old(flushed))
      ensures |flushed| == old(|flushed|) + if ok then 1 else 0
      ensures entries == Sent(start, flushed)
    {
      ok := works;
      if ok {
        SentOne(start, flushed, items);
        entries := entries + items;
        flushed := flushed + [items];
      }
    }

    /**
      Sends the readable rows batch by batch and stops at the first failure; `reach` is how
      many writes to the cache succeed before one fails.
     */
    method LoadRows(kb: KeyBuilder, rows: seq<Option<Row>>, reach: nat) returns (count: nat, err: Option<LoadError>)
      requires flushed == []
      modifies this`entries, this`flushed
      ensures entries == Sent(old(entries), flushed)
      ensures |flushed| <= reach
      ensures err == None ==> flushed == Batches(kb, Readable(rows)) && count == |rows| == |Readable(rows)|
      ensures err == Some(ScanFailed) ==> flushed == Loop(kb, Readable(rows)).sent && |Readable(rows)| < |rows|
      ensures err == Some(CacheFailed) ==> flushed < Attempted(kb, rows) && |flushed| == reach
      ensures err.None? || err.value.ScanFailed? || err.value.CacheFailed?
    {
      ghost var readable, start := Readable(rows), entries;
      var batch: map<string, Value> := map[];
      var attempt: nat := 0;
      count, err := 0, None;
      for i := 0 to |rows|
        invariant count == i <= |readable| && err == None
        invariant attempt == |flushed| <= reach
        invariant Readable(rows[i..]) == readable[i..]
        invariant Loop(kb, readable[..i]) == Progress(flushed, batch)
        invariant entries == Sent(start, flushed)
      {
        ReadableNext(rows, i, readable);
        if rows[i].None? {
          assert readable[..i] == readable;
          return count, Some(ScanFailed);
        }
        var ok;
        batch, ok := AddRow(kb, readable, i, rows[i].value, batch, attempt < reach, start);
        count := count + 1;
        if !ok {
          return count, Some(CacheFailed);
        }
        attempt := if batch == map[] then attempt + 1 else attempt;
      }
      ReadableNext(rows, |rows|, readable);
      assert readable[..|rows|] == readable;
      var ok := SendRest(kb, readable, batch, attempt < reach, start);
      err := if ok then None else Some(CacheFailed);
    }

    /** Adds row i to the batch and sends the batch when it is full; an empty batch comes back when it was sent. */
    method AddRow(kb: KeyBuilder, ghost readable: seq<Row>, ghost i: nat, row: Row, batch: map<string, Value>,
                  works: bool, ghost start: map<string, Value>) returns (next: map<string, Value>, ok: bool)
      requires i < |readable| && readable[i] == row
      requires Loop(kb, readable[..i]) == Progress(flushed, batch) && entries == Sent(start, flushed)
      modifies this`entries, this`flushed
      ensures entries == Sent(start, flushed)
      ensures ok ==> Loop(kb, readable[..i + 1]) == Progress(flushed, next)
      ensures ok ==> |flushed| == |old(flushed)| + if next == map[] then 1 else 0
      ensures ok && next == map[] ==> works
      ensures !ok ==> !works && flushed == old(flushed) && flushed < Loop(kb, readable).sent
    {
      LoopNext(kb, readable, i);
      next := batch[kb.CacheKey(row.key) := row.value];
      assert kb.CacheKey(row.key) in next;
      ok := true;
      if |next| >= BATCH_SIZE {
        ok := SetMultiple(next, works, start);
        if ok {
          next := map[];
        }
      }
    }

    /** Sends what is left over after the last full batch, if anything. */
    method SendRest(kb: KeyBuilder, ghost readable: seq<Row>, batch: map<string, Value>, works: bool,
                    ghost start: map<string, Value>) returns (ok: bool)
      requires Loop(kb, readable) == Progress(flushed, batch) && entries == Sent(start, flushed)
      modifies this`entries, this`flushed
      ensures entries == Sent(start, flushed)
      ensures if ok then flushed == Batches(kb, readable) && (works || flushed == old(flushed))
              else !works && flushed == old(flushed) && flushed < Batches(kb, readable)
      ensures |flushed| <= old(|flushed|) + 1
    {
      ok := true;
      if |batch| > 0 {
        ok := SetMultiple(batch, works, start);
      }
    }

    /** The query and the rows it delivers. */
    method QueryRows(id: string, w: World) returns (count: nat, err: Option<LoadError>)
      requires flushed == []
      modifies this`entries, this`flushed
      ensures entries == Sent(old(entries), flushed) && flushed == Reaching(id, w)
      ensures err == RowsError(id, w) && (err.None? ==> count == |w.rows|)
    {
      if !w.queryWorks {
        return 0, Some(QueryFailed);
      }
      ReadableAtMost(w.rows);
      count, err := LoadRows(NewKeyBuilder(id), w.rows, w.reach);
    }

    ghost predicate Valid()
      reads this, registry, registry.cached
    {
      registry.Valid() && this !in registry.cached && Spec.Named(registry.Contents())
    }

    /** Reads the instance and marks it as migrating. */
    method Begin(id: string, w: World) returns (inst: Context?, err: Option<LoadError>)
      requires Valid()
      modifies registry
      ensures Valid() && fresh(registry.cached - old(registry.cached))
      ensures var (t, begun) := Begun(old(registry.Contents()), id, w);
              registry.Contents() == t && err == if begun.Err? then Some(begun.error) else None
      ensures err.None? ==> inst != null && fresh(inst.Parts()) && registry.Apart(inst) && registry !in inst.Parts()
      ensures err.None? ==> inst.Value() == Begun(old(registry.Contents()), id, w).1.value
    {
      err := None;
      ghost var before := registry.Contents();
      GetNamed(before, id, w.now1, w.f1);
      var missing;
      inst, missing := registry.Get(id, w.now1, w.f1);
      assert registry.Contents() == Spec.Get(before, id, w.now1, w.f1).0;
      if missing.Some? {
        return null, Some(NotFound(missing.value));
      }
      var rejected := Mark(inst, w);
      if rejected.Some? {
        return null, Some(StartRejected(rejected.value));
      }
    }

    method Mark(inst: Context, w: World) returns (rejected: Option<Spec.Error>)
      requires Valid() && registry.Apart(inst) && registry !in inst.Parts()
      modifies registry, inst`status, inst`createdAt, inst`lastActive
      ensures Valid() && fresh(registry.cached - old(registry.cached)) && inst.Parts() == old(inst.Parts())
      ensures (registry.Contents(), rejected)
           == Spec.Update(old(registry.Contents()), old(inst.Value()).(status := Migrating), w.now2, w.f2)
      ensures rejected.None? ==>
                inst.instanceID in registry.store && registry.store[inst.instanceID].value == inst.Value()
    {
      ghost var record := inst.Value();
      inst.status := Migrating;
      assert inst.Value() == record.(status := Migrating);
      UpdateNamed(registry.Contents(), inst.Value(), w.now2, w.f2);
      rejected := registry.Update(inst, w.now2, w.f2);
    }

    /** Marks the instance as active again and notes what was loaded. */
    method Finish(inst: Context, count: nat, w: World) returns (err: Option<LoadError>)
      requires Valid() && registry.Apart(inst) && registry !in inst.Parts() && this !in inst.Parts()
      requires count == |w.rows|
      modifies registry, inst.Parts()
      ensures Valid()
      ensures (registry.Contents(), err) == Finished(old(registry.Contents()), old(inst.Value()), w)
    {
      if inst.metadata == null {
        inst.status := Active;
        return Some(NilMetadata);
      }
      Annotate(inst, count, w.stamp);
      err := Save(inst, w);
    }

    method Annotate(inst: Context, count: nat, stamp: string)
      requires inst.metadata != null
      modifies inst`status, inst.metadata
      ensures inst.Value() == Noted(old(inst.Value()), stamp, count)
    {
      inst.status := Active;
      inst.metadata.entries := inst.metadata.entries["last_loaded" := stamp]["loaded_keys" := Paths.Digits(count)];
      assert inst.Value().metadata == Some(inst.metadata.entries);
    }

    method Save(inst: Context, w: World) returns (err: Option<LoadError>)
      requires Valid() && inst !in registry.cached
      modifies registry, inst`createdAt, inst`lastActive
      ensures Valid()
      ensures var (t, rejected) := Spec.Update(old(registry.Contents()), old(inst.Value()), w.now3, w.f3);
              registry.Contents() == t && err == if rejected.Some? then Some(FinishRejected(rejected.value)) else None
    {
      UpdateNamed(registry.Contents(), inst.Value(), w.now3, w.f3);
      var rejected := registry.Update(inst, w.now3, w.f3);
      err := if rejected.Some? then Some(FinishRejected(rejected.value)) else None;
    }

    /**
      Marks the instance as migrating, loads its rows, marks it active again and notes the
      number of rows; registry, cache and result follow from the registry before and the world.
     */
    method LoadInstance(id: string, w: World) returns (err: Option<LoadError>)
      requires Valid()
      modifies this, registry
      ensures Valid() && entries == Sent(old(entries), flushed)
      ensures (registry.Contents(), err) == Outcome(old(registry.Contents()), id, w)
      ensures flushed == if Begun(old(registry.Contents()), id, w).1.Ok? then Reaching(id, w) else []
    {
      flushed := [];
      var inst;
      inst, err := Begin(id, w);
      if err.Some? {
        return;
      }
      ghost var begun, record := registry.Contents(), inst.Value();
      var count;
      count, err := QueryRows(id, w);
      assert registry.Contents() == begun && inst.Value() == record && Valid();
      if err.Some? {
        return;
      }
      err := Finish(inst, count, w);
    }
  }
}
