/**
  The fixed-window request limiter of internal/api/middleware.go.

  Each client address owns a counter and the start of its current window.  A request
  more than a minute after that start opens a new window; inside a window at most
  `limit` requests pass.  Requests are handled one at a time.
 */
module RateLimiter {
  import opened Options

  /** One minute in nanoseconds. */
  const MINUTE: int := 60_000_000_000

  datatype Client = Client(count: int, lastReset: int)

  datatype Request = Request(ip: string, at: int)

  /** The limiter's reaction to one request: the client's new entry, and whether it passes. */
  datatype Reaction = Reaction(client: Client, admitted: bool)

  function Lookup(clients: map<string, Client>, ip: string): Option<Client> {
    if ip in clients then Some(clients[ip]) else None
  }

  function React(limit: int, entry: Option<Client>, now: int): Reaction {
    var known := match entry case None => Client(0, now) case Some(c) => c;
    var current := if now - known.lastReset > MINUTE then Client(0, now) else known;
    if current.count >= limit then Reaction(current, false)
    else Reaction(current.(count := current.count + 1), true)
  }

  class Limiter {
    const limit: int
    var clients: map<string, Client>

    constructor (requestsPerMinute: int)
      ensures limit == requestsPerMinute && clients == map[]
    {
      limit := requestsPerMinute;
      clients := map[];
    }

    /** Handles one request; `remaining` and `reset` are the advertised header values. */
    method Handle(ip: string, now: int) returns (admitted: bool, remaining: int, reset: int)
      modifies this
      ensures var r := React(limit, Lookup(old(clients), ip), now);
              && admitted == r.admitted
              && clients == old(clients)[ip := r.client]
              && (admitted ==> remaining == limit - r.client.count && reset == r.client.lastReset + 60_000_000_000)
    {
      remaining, reset := 0, 0;
      if ip !in clients {
        clients := clients[ip := Client(0, now)];
      }
      if now - clients[ip].lastReset > MINUTE {
        clients := clients[ip := Client(0, now)];
      }
      if clients[ip].count >= limit {
        return false, remaining, reset;
      }
      clients := clients[ip := clients[ip].(count := clients[ip].count + 1)];
      return true, limit - clients[ip].count, clients[ip].lastReset + MINUTE;
    }
  }

  // ----- whole traces -----

  /** Request times never go backwards. */
  predicate Chronological(trace: seq<Request>) {
    forall i, j :: 0 <= i < j < |trace| ==> trace[i].at <= trace[j].at
  }

  /** The client table after the whole trace. */
  function After(limit: int, trace: seq<Request>): map<string, Client> {
    if trace == [] then map[]
    else
      var last := |trace| - 1;
      var before := After(limit, trace[..last]);
      before[trace[last].ip := React(limit, Lookup(before, trace[last].ip), trace[last].at).client]
  }

  /** Whether the last request of the trace passes. */
  predicate LastAdmitted(limit: int, trace: seq<Request>)
    requires trace != []
  {
    var last := |trace| - 1;
    React(limit, Lookup(After(limit, trace[..last]), trace[last].ip), trace[last].at).admitted
  }

  /** How many requests of `ip` pass with a time in the closed interval [lo, hi]. */
  function Admitted(limit: int, trace: seq<Request>, ip: string, lo: int, hi: int): nat {
    if trace == [] then 0
    else
      var r := trace[|trace| - 1];
      Admitted(limit, trace[..|trace| - 1], ip, lo, hi)
      + if r.ip == ip && lo <= r.at <= hi && LastAdmitted(limit, trace) then 1 else 0
  }

  /**
    In every window the counter is the number of requests admitted since the window
    opened, never above the limit, and nothing is admitted later than a minute into it.
   */
  lemma {:induction false} WindowBound(limit: int, trace: seq<Request>, ip: string, end: int)
    requires Chronological(trace)
    requires forall i :: 0 <= i < |trace| ==> trace[i].at <= end
    ensures ip !in After(limit, trace) ==> forall lo, hi :: Admitted(limit, trace, ip, lo, hi) == 0
    ensures ip in After(limit, trace) ==>
      var c := After(limit, trace)[ip];
      && Admitted(limit, trace, ip, c.lastReset, end) == c.count
      && c.lastReset <= end
      && (if limit <= 0 then c.count == 0 else 1 <= c.count <= limit)
      && forall lo, hi :: c.lastReset + MINUTE < lo ==> Admitted(limit, trace, ip, lo, hi) == 0
  {
    if trace != [] {
      var last := |trace| - 1;
      var rest, r := trace[..last], trace[last];
      WindowBound(limit, rest, ip, r.at);
      WindowBound(limit, rest, ip, end);
    }
  }

  /**
    When the client's current window opened: at its first request, or at its first one more
    than a minute after the window before.
   */
  function WindowStart(trace: seq<Request>, ip: string): Option<int> {
    if trace == [] then None
    else
      var r, before := trace[|trace| - 1], WindowStart(trace[..|trace| - 1], ip);
      if r.ip == ip && (before.None? || r.at - before.value > 60_000_000_000) then Some(r.at) else before
  }

  lemma {:induction false} EntryWindow(limit: int, trace: seq<Request>, ip: string)
    ensures WindowStart(trace, ip).Some? <==> ip in After(limit, trace)
    ensures ip in After(limit, trace) ==> WindowStart(trace, ip) == Some(After(limit, trace)[ip].lastReset)
  {
    if trace != [] {
      EntryWindow(limit, trace[..|trace| - 1], ip);
    }
  }

  /** A request passes exactly when fewer than N requests have passed in its window before it. */
  lemma PassesExactly(limit: int, trace: seq<Request>)
    requires trace != [] && Chronological(trace)
    ensures var init, r := trace[..|trace| - 1], trace[|trace| - 1];
            var start := WindowStart(trace, r.ip);
            && start.Some? && r.at - start.value <= 60_000_000_000
            && (LastAdmitted(limit, trace) <==> Admitted(limit, init, r.ip, start.value, r.at) < limit)
  {
    var init, r := trace[..|trace| - 1], trace[|trace| - 1];
    EntryWindow(limit, init, r.ip);
    WindowBound(limit, init, r.ip, r.at);
  }

  /**
    Any closed interval of one minute sees at most 2N - 1 admitted requests of one
    client.  While the current window started before the interval, only part of that
    window counts; once it started inside, the previous window's share is added; a
    window starting after the interval adds nothing.
   */
  lemma {:induction false} SlidingInvariant(limit: int, trace: seq<Request>, ip: string, lo: int)
    requires limit >= 1 && Chronological(trace)
    ensures ip in After(limit, trace) ==>
      var c, n := After(limit, trace)[ip], Admitted(limit, trace, ip, lo, lo + MINUTE);
      n <= if c.lastReset < lo then c.count - 1
           else if c.lastReset <= lo + MINUTE then limit - 1 + c.count
           else 2 * limit - 1
  {
    if trace != [] {
      var last := |trace| - 1;
      SlidingInvariant(limit, trace[..last], ip, lo);
      WindowBound(limit, trace[..last], ip, trace[last].at);
    }
  }

  lemma SlidingBound(limit: int, trace: seq<Request>, ip: string, lo: int)
    requires Chronological(trace)
    ensures Admitted(limit, trace, ip, lo, lo + 60_000_000_000) <= if limit >= 1 then 2 * limit - 1 else 0
  {
    var end := if trace == [] then 0 else trace[|trace| - 1].at;
    WindowBound(limit, trace, ip, end);
    if limit >= 1 {
      SlidingInvariant(limit, trace, ip, lo);
    } else {
      NothingAdmitted(limit, trace, ip, lo, lo + MINUTE);
    }
  }

  lemma {:induction false} NothingAdmitted(limit: int, trace: seq<Request>, ip: string, lo: int, hi: int)
    requires limit <= 0 && Chronological(trace)
    ensures Admitted(limit, trace, ip, lo, hi) == 0
  {
    if trace != [] {
      NothingAdmitted(limit, trace[..|trace| - 1], ip, lo, hi);
      WindowBound(limit, trace[..|trace| - 1], trace[|trace| - 1].ip, trace[|trace| - 1].at);
    }
  }

  // ----- the bound is attained -----

  /** `n` requests of one client at the same instant. */
  function Burst(ip: string, at: int, n: nat): seq<Request> {
    seq(n, _ => Request(ip, at))
  }

  /** One request, N - 1 more a minute later, one just after that, and N - 1 with it. */
  function Worst(limit: nat, ip: string): seq<Request>
    requires limit >= 1
  {
    Burst(ip, 0, 1) + Burst(ip, MINUTE, limit - 1) + Burst(ip, MINUTE + 1, 1) + Burst(ip, MINUTE + 1, limit - 1)
  }

  /** One more request within a window that has room. */
  lemma OneInWindow(limit: nat, trace: seq<Request>, ip: string, at: int, lo: int, hi: int)
    requires ip in After(limit, trace)
    requires at - After(limit, trace)[ip].lastReset <= MINUTE
    requires After(limit, trace)[ip].count < limit
    requires lo <= at <= hi
    ensures var long := trace + [Request(ip, at)]; var entry := After(limit, trace)[ip];
            && ip in After(limit, long) && After(limit, long)[ip] == entry.(count := entry.count + 1)
            && Admitted(limit, long, ip, lo, hi) == Admitted(limit, trace, ip, lo, hi) + 1
  {
    assert (trace + [Request(ip, at)])[..|trace|] == trace;
  }

  lemma BurstNext(trace: seq<Request>, ip: string, at: int, n: nat)
    requires n > 0
    ensures trace + Burst(ip, at, n) == (trace + Burst(ip, at, n - 1)) + [Request(ip, at)]
  {
  }

  lemma {:induction false} BurstEntry(limit: nat, trace: seq<Request>, ip: string, at: int, n: nat, entry: Client)
    requires ip in After(limit, trace) && After(limit, trace)[ip] == entry
    requires at - entry.lastReset <= MINUTE && entry.count + n <= limit
    ensures var long := trace + Burst(ip, at, n);
            ip in After(limit, long) && After(limit, long)[ip] == entry.(count := entry.count + n)
  {
    if n == 0 {
      assert trace + Burst(ip, at, 0) == trace;
    } else {
      BurstEntry(limit, trace, ip, at, n - 1, entry);
      OneInWindow(limit, trace + Burst(ip, at, n - 1), ip, at, at, at);
      BurstNext(trace, ip, at, n);
    }
  }

  lemma {:induction false} BurstInWindow(limit: nat, trace: seq<Request>, ip: string, at: int, n: nat, lo: int, hi: int)
    requires ip in After(limit, trace)
    requires at - After(limit, trace)[ip].lastReset <= MINUTE
    requires After(limit, trace)[ip].count + n <= limit
    requires lo <= at <= hi
    ensures var long := trace + Burst(ip, at, n);
            && ip in After(limit, long)
            && After(limit, long)[ip] == After(limit, trace)[ip].(count := After(limit, trace)[ip].count + n)
            && Admitted(limit, long, ip, lo, hi) == Admitted(limit, trace, ip, lo, hi) + n
  {
    BurstEntry(limit, trace, ip, at, n, After(limit, trace)[ip]);
    if n == 0 {
      assert trace + Burst(ip, at, 0) == trace;
    } else {
      BurstInWindow(limit, trace, ip, at, n - 1, lo, hi);
      OneInWindow(limit, trace + Burst(ip, at, n - 1), ip, at, lo, hi);
      BurstNext(trace, ip, at, n);
    }
  }

  /** A request that opens a window: the first one ever, or one more than a minute late. */
  lemma Opening(limit: nat, trace: seq<Request>, ip: string, at: int, lo: int, hi: int)
    requires limit >= 1
    requires ip in After(limit, trace) ==> at - After(limit, trace)[ip].lastReset > MINUTE
    ensures var long := trace + Burst(ip, at, 1);
            && ip in After(limit, long) && After(limit, long)[ip] == Client(1, at)
            && Admitted(limit, long, ip, lo, hi)
               == Admitted(limit, trace, ip, lo, hi) + if lo <= at <= hi then 1 else 0
  {
    var long := trace + Burst(ip, at, 1);
    assert long[..|long| - 1] == trace;
  }

  lemma WorstIsChronological(limit: nat, ip: string)
    requires limit >= 1
    ensures Chronological(Worst(limit, ip))
  {
  }

  /** The first window of the worst trace: opened at 0, filled a minute later. */
  lemma FirstWindowFull(limit: nat, ip: string)
    requires limit >= 1
    ensures var full := Burst(ip, 0, 1) + Burst(ip, MINUTE, limit - 1);
            && ip in After(limit, full) && After(limit, full)[ip] == Client(limit, 0)
            && Admitted(limit, full, ip, 1, 1 + MINUTE) == limit - 1
  {
    Opening(limit, [], ip, 0, 1, 1 + MINUTE);
    assert [] + Burst(ip, 0, 1) == Burst(ip, 0, 1);
    BurstInWindow(limit, Burst(ip, 0, 1), ip, MINUTE, limit - 1, 1, 1 + MINUTE);
  }

  /** The sliding bound is tight: 2N - 1 requests can pass within one minute. */
  lemma SlidingBoundAttained(limit: nat, ip: string)
    requires limit >= 1
    ensures Chronological(Worst(limit, ip))
    ensures Admitted(limit, Worst(limit, ip), ip, 1, 1 + MINUTE) == 2 * limit - 1
  {
    WorstIsChronological(limit, ip);
    FirstWindowFull(limit, ip);
    var full := Burst(ip, 0, 1) + Burst(ip, MINUTE, limit - 1);
    Opening(limit, full, ip, MINUTE + 1, 1, 1 + MINUTE);
    BurstInWindow(limit, full + Burst(ip, MINUTE + 1, 1), ip, MINUTE + 1, limit - 1, 1, 1 + MINUTE);
  }

  // ----- clients do not affect each other -----

  /** The requests of one client, in order. */
  function Only(trace: seq<Request>, ip: string): seq<Request> {
    if trace == [] then []
    else
      var rest := Only(trace[..|trace| - 1], ip);
      if trace[|trace| - 1].ip == ip then rest + [trace[|trace| - 1]] else rest
  }

  lemma {:induction false} Independence(limit: int, trace: seq<Request>, ip: string, lo: int, hi: int)
    ensures Lookup(After(limit, trace), ip) == Lookup(After(limit, Only(trace, ip)), ip)
    ensures Admitted(limit, trace, ip, lo, hi) == Admitted(limit, Only(trace, ip), ip, lo, hi)
  {
    if trace != [] {
      var last := |trace| - 1;
      Independence(limit, trace[..last], ip, lo, hi);
      if trace[last].ip == ip {
        var own := Only(trace, ip);
        assert own[..|own| - 1] == Only(trace[..last], ip);
      }
    }
  }
}
