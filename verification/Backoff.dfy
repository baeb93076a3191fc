/**
  Retry delays: the capped exponential interval with jitter of sdk/retry.go, and the
  iterated, truncating form of sdk/wasm.go.  Durations are nanoseconds; float64 is
  modelled by real, and the conversion back to a duration truncates toward zero.
 */
module Backoff {

  datatype Exponential = Exponential(initial: int, maximum: int, multiplier: real, jitter: real)

  function Power(m: real, n: nat): real {
    if n == 0 then 1.0 else Power(m, n - 1) * m
  }

  /** 1 + m + ... + m^(n-1). */
  function Geometric(m: real, n: nat): real {
    if n == 0 then 0.0 else Geometric(m, n - 1) + Power(m, n - 1)
  }

  /** time.Duration(x): the fraction is dropped. */
  function Truncate(x: real): int {
    if x >= 0.0 then x.Floor else -(-x).Floor
  }

  function Min(a: real, b: real): real { if a > b then b else a }

  /** The interval before jitter. */
  function Base(s: Exponential, attempt: int): real
    requires attempt >= 1
  {
    Min(s.initial as real * Power(s.multiplier, attempt - 1), s.maximum as real)
  }

  /** The interval moved by at most the fraction `jitter`, never below zero; `swing` is in [-1, 1). */
  function Jittered(interval: real, jitter: real, swing: real): real {
    var moved := if jitter > 0.0 then interval + interval * jitter * swing else interval;
    if moved < 0.0 then 0.0 else moved
  }

  /** The delay before retry number `attempt`; `draw` is the random number in [0, 1). */
  function NextInterval(s: Exponential, attempt: int, draw: real): int {
    if attempt <= 0 then 0 else Truncate(Jittered(Base(s, attempt), s.jitter, 2.0 * draw - 1.0))
  }

  /** LinearBackoffStrategy.NextInterval. */
  function LinearInterval(interval: int, jitter: real, attempt: int, draw: real): int {
    if attempt <= 0 then 0 else Truncate(Jittered(interval as real, jitter, 2.0 * draw - 1.0))
  }

  /** Total of the delays waited before retries 1..n. */
  function Total(waits: nat -> int, n: nat): int {
    if n == 0 then 0 else Total(waits, n - 1) + waits(n)
  }

  // ----- real arithmetic -----

  lemma {:induction false} PowerAtLeastOne(m: real, n: nat)
    requires m >= 1.0
    ensures Power(m, n) >= 1.0
  {
    if n > 0 {
      PowerAtLeastOne(m, n - 1);
      ScaleUp(Power(m, n - 1), m);
    }
  }

  lemma ScaleUp(a: real, m: real)
    requires a >= 0.0 && m >= 1.0
    ensures a * m >= a
  {
  }

  lemma ScaleBoth(a: real, b: real, k: real)
    requires a <= b && k >= 0.0
    ensures k * a <= k * b && a * k <= b * k
  {
  }

  lemma Distribute(k: real, a: real, b: real)
    ensures k * (a + b) == k * a + k * b && (a + b) * k == a * k + b * k
  {
  }

  lemma Quotient(q: real, d: real, p: real)
    requires d > 0.0 && q * d == p
    ensures q == p / d
  {
  }

  /** (m - 1)(1 + m + ... + m^(n-1)) = m^n - 1, so the sum is (m^n - 1)/(m - 1). */
  lemma {:induction false} GeometricClosed(m: real, n: nat)
    requires m > 1.0
    ensures Geometric(m, n) * (m - 1.0) == Power(m, n) - 1.0
    ensures Geometric(m, n) == (Power(m, n) - 1.0) / (m - 1.0)
  {
    if n > 0 {
      GeometricClosed(m, n - 1);
      Distribute(m - 1.0, Geometric(m, n - 1), Power(m, n - 1));
      Distribute(Power(m, n - 1), m, -1.0);
    }
    Quotient(Geometric(m, n), m - 1.0, Power(m, n) - 1.0);
  }

  // ----- the closed form -----

  /** Before jitter the interval never shrinks from one attempt to the next and never exceeds the cap. */
  lemma BaseMonotone(s: Exponential, attempt: int)
    requires attempt >= 1 && s.initial >= 0 && s.multiplier >= 1.0
    ensures Base(s, attempt) <= Base(s, attempt + 1) <= s.maximum as real
  {
    PowerAtLeastOne(s.multiplier, attempt - 1);
    var p, q := Power(s.multiplier, attempt - 1), Power(s.multiplier, attempt);
    assert q == p * s.multiplier;
    ScaleUp(p, s.multiplier);
    MinMonotone(s.initial as real, p, q, s.maximum as real);
  }

  lemma MinMonotone(k: real, p: real, q: real, cap: real)
    requires k >= 0.0 && p <= q
    ensures Min(k * p, cap) <= Min(k * q, cap) <= cap
  {
    ScaleBoth(p, q, k);
  }

  lemma UnjitteredMonotone(s: Exponential, attempt: int, draw: real, other: real)
    requires attempt >= 1 && s.initial >= 0 && s.maximum >= 0 && s.multiplier >= 1.0 && s.jitter <= 0.0
    ensures 0 <= NextInterval(s, attempt, draw) <= NextInterval(s, attempt + 1, other) <= s.maximum
  {
    BaseMonotone(s, attempt);
    PowerAtLeastOne(s.multiplier, attempt - 1);
    ScaleBoth(0.0, Power(s.multiplier, attempt - 1), s.initial as real);
  }

  lemma BaseNonNegative(s: Exponential, attempt: int)
    requires attempt >= 1 && s.initial >= 0 && s.maximum >= 0 && s.multiplier >= 1.0
    ensures 0.0 <= Base(s, attempt)
  {
    PowerAtLeastOne(s.multiplier, attempt - 1);
    ScaleBoth(0.0, Power(s.multiplier, attempt - 1), s.initial as real);
  }

  lemma Swing(b: real, r: real, v: real)
    requires 0.0 <= r <= b && -1.0 <= v <= 1.0
    ensures 0.0 <= b - r <= b + r * v <= b + r
  {
    assert r * (v + 1.0) >= 0.0 && r * (1.0 - v) >= 0.0;
  }

  lemma Portion(b: real, j: real)
    requires 0.0 <= b && 0.0 <= j <= 1.0
    ensures 0.0 <= b * j <= b
  {
  }

  /** The jittered interval, once the reach r = b * j and the shift r * swing are known. */
  lemma JitteredWithin(b: real, j: real, swing: real, reach: real, shift: real)
    requires reach == b * j && shift == reach * swing
    requires 0.0 <= b - reach <= b + shift <= b + reach && 0.0 <= j
    ensures 0.0 <= b - reach <= Jittered(b, j, swing) <= b + reach
  {
  }

  lemma JitteredReach(b: real, j: real, swing: real, reach: real)
    requires 0.0 <= reach <= b && reach == b * j && 0.0 <= j && -1.0 <= swing <= 1.0
    ensures 0.0 <= b - reach <= Jittered(b, j, swing) <= b + reach
  {
    Swing(b, reach, swing);
    JitteredWithin(b, j, swing, reach, reach * swing);
  }

  lemma JitteredBounds(b: real, j: real, swing: real)
    requires 0.0 <= b && 0.0 <= j <= 1.0 && -1.0 <= swing <= 1.0
    ensures 0.0 <= b - b * j <= Jittered(b, j, swing) <= b + b * j
  {
    Portion(b, j);
    JitteredReach(b, j, swing, b * j);
  }

  /**
    The draw places the interval between (1 - J) and (1 + J) times the base: at its lower end
    for 0, at the base for 1/2, and in proportion in between.
   */
  lemma JitteredPlace(b: real, j: real, draw: real)
    requires 0.0 <= b && 0.0 <= j <= 1.0 && 0.0 <= draw < 1.0
    ensures Jittered(b, j, 2.0 * draw - 1.0) == (b - b * j) + 2.0 * (b * j) * draw
  {
    var reach, swing := b * j, 2.0 * draw - 1.0;
    Portion(b, j);
    Swing(b, reach, swing);
    Distribute(reach, 2.0 * draw, -1.0);
    Moved(b, j, swing, reach, reach * swing);
  }

  /** Whatever the jitter, no interval is negative; one that would be is zero. */
  lemma NeverNegative(b: real, j: real, swing: real, moved: real)
    requires moved == b + b * j * swing
    ensures Jittered(b, j, swing) >= 0.0
    ensures j > 0.0 ==> Jittered(b, j, swing) == if moved < 0.0 then 0.0 else moved
    ensures j <= 0.0 && b >= 0.0 ==> Jittered(b, j, swing) == b
  {
  }

  lemma Moved(b: real, j: real, swing: real, reach: real, shift: real)
    requires 0.0 <= j && reach == b * j && shift == reach * swing && 0.0 <= b + shift
    ensures Jittered(b, j, swing) == b + shift
  {
  }

  /** Jitter keeps the interval within the fraction J of the base, up to the lost fraction. */
  lemma JitterBounds(s: Exponential, attempt: int, draw: real)
    requires attempt >= 1 && s.initial >= 0 && s.maximum >= 0 && s.multiplier >= 1.0
    requires 0.0 <= s.jitter <= 1.0 && 0.0 <= draw < 1.0
    ensures 0 <= NextInterval(s, attempt, draw)
    ensures Base(s, attempt) - Base(s, attempt) * s.jitter - 1.0 < NextInterval(s, attempt, draw) as real
    ensures NextInterval(s, attempt, draw) as real <= Base(s, attempt) + Base(s, attempt) * s.jitter
  {
    BaseNonNegative(s, attempt);
    JitteredBounds(Base(s, attempt), s.jitter, 2.0 * draw - 1.0);
    TruncateBounds(Jittered(Base(s, attempt), s.jitter, 2.0 * draw - 1.0));
  }

  lemma TruncateBounds(x: real)
    requires x >= 0.0
    ensures 0 <= Truncate(x) && x - 1.0 < Truncate(x) as real <= x
  {
  }

  /** A draw of one half leaves the base, a draw of zero gives the lower end. */
  lemma DrawExactly(s: Exponential, attempt: int)
    requires attempt >= 1 && s.initial >= 0 && s.maximum >= 0 && s.multiplier >= 1.0 && 0.0 <= s.jitter <= 1.0
    ensures NextInterval(s, attempt, 0.5) == Truncate(Base(s, attempt))
    ensures NextInterval(s, attempt, 0.0) == Truncate(Base(s, attempt) - Base(s, attempt) * s.jitter)
  {
    BaseNonNegative(s, attempt);
    JitteredEnds(Base(s, attempt), s.jitter);
  }

  lemma LinearDraws(interval: int, jitter: real, attempt: int)
    requires attempt >= 1 && interval >= 0 && 0.0 <= jitter <= 1.0
    ensures LinearInterval(interval, jitter, attempt, 0.5) == interval
    ensures LinearInterval(interval, jitter, attempt, 0.0) == Truncate(interval as real - interval as real * jitter)
  {
    JitteredEnds(interval as real, jitter);
  }

  lemma JitteredEnds(b: real, j: real)
    requires 0.0 <= b && 0.0 <= j <= 1.0
    ensures Jittered(b, j, 0.0) == b && Jittered(b, j, -1.0) == b - b * j
  {
    JitteredPlace(b, j, 0.5);
    JitteredPlace(b, j, 0.0);
  }

  lemma IntervalBelow(s: Exponential, attempt: int, draw: real, bound: real)
    requires attempt >= 1 && s.initial >= 0 && s.maximum >= 0 && s.multiplier >= 1.0
    requires 0.0 <= s.jitter <= 1.0 && 0.0 <= draw < 1.0 && Base(s, attempt) <= bound
    ensures NextInterval(s, attempt, draw) as real <= (1.0 + s.jitter) * bound
  {
    JitterBounds(s, attempt, draw);
    Distribute(Base(s, attempt), 1.0, s.jitter);
    ScaleBoth(Base(s, attempt), bound, 1.0 + s.jitter);
  }

  lemma AddShare(k: real, a: real, b: real, c: real, x: real, y: real)
    requires x <= k * a && y <= k * b && c == a + b
    ensures x + y <= k * c
  {
    Distribute(k, a, b);
  }

  /** Waits below k times the terms of a sum add up to at most k times the sum. */
  lemma {:induction false} TotalBelow(waits: nat -> int, n: nat, k: real, term: nat -> real, sum: nat -> real)
    requires sum(0) == 0.0 && forall i: nat {:trigger term(i)} :: i >= 1 ==> sum(i) == sum(i - 1) + term(i)
    requires forall i: nat {:trigger term(i)} :: 1 <= i <= n ==> waits(i) as real <= k * term(i)
    ensures Total(waits, n) as real <= k * sum(n)
  {
    if n > 0 {
      TotalBelow(waits, n - 1, k, term, sum);
      AddShare(k, sum(n - 1), term(n), sum(n), Total(waits, n - 1) as real, waits(n) as real);
    }
  }

  lemma {:induction false} TotalBelowCap(waits: nat -> int, n: nat, k: real, cap: real)
    requires forall i: nat :: 1 <= i <= n ==> waits(i) as real <= k * cap
    ensures Total(waits, n) as real <= k * (n as real * cap)
  {
    if n > 0 {
      TotalBelowCap(waits, n - 1, k, cap);
      Increment(cap, (n - 1) as real, 1.0, n as real);
      AddShare(k, (n - 1) as real * cap, cap, n as real * cap, Total(waits, n - 1) as real, waits(n) as real);
    }
  }

  /** The intervals without cap and jitter, and their sums. */
  function Terms(first: real, m: real): nat -> real {
    (i: nat) => if i == 0 then 0.0 else first * Power(m, i - 1)
  }

  function Sums(first: real, m: real): nat -> real {
    (i: nat) => first * Geometric(m, i)
  }

  lemma Increment(first: real, g: real, p: real, h: real)
    requires h == g + p
    ensures first * h == first * g + first * p
  {
    Distribute(first, g, p);
  }

  lemma SumsStep(first: real, m: real, i: nat)
    requires i >= 1
    ensures Sums(first, m)(i) == Sums(first, m)(i - 1) + Terms(first, m)(i)
  {
    Increment(first, Geometric(m, i - 1), Power(m, i - 1), Geometric(m, i));
  }

  lemma TotalBelowGeometric(waits: nat -> int, n: nat, k: real, first: real, m: real, term: nat -> real,
                            sum: nat -> real)
    requires term == Terms(first, m) && sum == Sums(first, m)
    requires forall i: nat {:trigger term(i)} :: 1 <= i <= n ==> waits(i) as real <= k * term(i)
    ensures Total(waits, n) as real <= k * sum(n)
  {
    assert forall i: nat {:trigger term(i)} :: i >= 1 ==> sum(i) == sum(i - 1) + term(i) by {
      forall i: nat | i >= 1 ensures sum(i) == sum(i - 1) + term(i) {
        SumsStep(first, m, i);
      }
    }
    TotalBelow(waits, n, k, term, sum);
  }

  /** The waits are the strategy's intervals for some draws from [0, 1). */
  ghost predicate WaitsOf(s: Exponential, waits: nat -> int, draws: nat -> real, n: nat) {
    forall k: nat {:trigger draws(k)} :: 1 <= k <= n ==>
      0.0 <= draws(k) < 1.0 && waits(k) == NextInterval(s, k, draws(k))
  }

  lemma WaitBelow(s: Exponential, waits: nat -> int, draws: nat -> real, n: nat, i: nat, bound: real)
    requires s.initial >= 0 && s.maximum >= 0 && s.multiplier >= 1.0 && 0.0 <= s.jitter <= 1.0
    requires WaitsOf(s, waits, draws, n) && 1 <= i <= n && Base(s, i) <= bound
    ensures waits(i) as real <= (1.0 + s.jitter) * bound
  {
    IntervalBelow(s, i, draws(i), bound);
  }

  /** Total waiting of n retries is at most (1 + J) * n * Max, whatever the draws are; k is 1 + J. */
  lemma WaitBelowCap(s: Exponential, waits: nat -> int, draws: nat -> real, n: nat, k: real, capped: real)
    requires s.initial >= 0 && s.maximum >= 0 && s.multiplier >= 1.0 && 0.0 <= s.jitter <= 1.0
    requires WaitsOf(s, waits, draws, n) && k == 1.0 + s.jitter && capped == n as real * s.maximum as real
    ensures Total(waits, n) as real <= k * capped
  {
    var cap := s.maximum as real;
    assert forall i: nat :: 1 <= i <= n ==> waits(i) as real <= k * cap by {
      forall i: nat | 1 <= i <= n ensures waits(i) as real <= k * cap {
        WaitBelow(s, waits, draws, n, i, cap);
      }
    }
    TotalBelowCap(waits, n, k, cap);
  }

  lemma WaitsBelowTerms(s: Exponential, waits: nat -> int, draws: nat -> real, n: nat, k: real, term: nat -> real)
    requires s.initial >= 0 && s.maximum >= 0 && s.multiplier >= 1.0 && 0.0 <= s.jitter <= 1.0
    requires WaitsOf(s, waits, draws, n) && k == 1.0 + s.jitter && term == Terms(s.initial as real, s.multiplier)
    ensures forall i: nat {:trigger term(i)} :: 1 <= i <= n ==> waits(i) as real <= k * term(i)
  {
    forall i: nat | 1 <= i <= n ensures waits(i) as real <= k * term(i) {
      WaitBelow(s, waits, draws, n, i, term(i));
    }
  }

  /** Total waiting of n retries is at most (1 + J) * Initial * (1 + m + ... + m^(n-1)); k is 1 + J. */
  lemma WaitBelowGeometric(s: Exponential, waits: nat -> int, draws: nat -> real, n: nat, k: real, summed: real)
    requires s.initial >= 0 && s.maximum >= 0 && s.multiplier >= 1.0 && 0.0 <= s.jitter <= 1.0
    requires WaitsOf(s, waits, draws, n) && k == 1.0 + s.jitter
    requires summed == s.initial as real * Geometric(s.multiplier, n)
    ensures Total(waits, n) as real <= k * summed
  {
    var first := s.initial as real;
    var term, sum := Terms(first, s.multiplier), Sums(first, s.multiplier);
    WaitsBelowTerms(s, waits, draws, n, k, term);
    TotalBelowGeometric(waits, n, k, first, s.multiplier, term, sum);
  }

  lemma SameFactor(k: real, a: real, b: real, product: real)
    requires a == b && product == k * a
    ensures product == k * b
  {
  }

  lemma Smaller(x: real, k: real, a: real, b: real)
    requires x <= k * a && x <= k * b
    ensures x <= TimesSmaller(k, a, b)
  {
  }

  /** (1 + J) times the smaller of n * Max and Initial * (m^n - 1)/(m - 1). */
  function WaitLimit(s: Exponential, n: nat): real
    requires s.multiplier > 1.0
  {
    TimesSmaller(1.0 + s.jitter, n as real * s.maximum as real,
                 s.initial as real * ((Power(s.multiplier, n) - 1.0) / (s.multiplier - 1.0)))
  }

  function TimesSmaller(k: real, a: real, b: real): real {
    k * Min(a, b)
  }

  lemma WaitBelowBoth(s: Exponential, waits: nat -> int, draws: nat -> real, n: nat, k: real, capped: real,
                      sum: real, closed: real, geometric: real)
    requires s.initial >= 0 && s.maximum >= 0 && s.multiplier >= 1.0 && 0.0 <= s.jitter <= 1.0
    requires WaitsOf(s, waits, draws, n) && k == 1.0 + s.jitter && capped == n as real * s.maximum as real
    requires sum == Geometric(s.multiplier, n) && sum == closed && geometric == s.initial as real * closed
    ensures Total(waits, n) as real <= TimesSmaller(k, capped, geometric)
  {
    WaitBelowCap(s, waits, draws, n, k, capped);
    SameFactor(s.initial as real, closed, sum, geometric);
    WaitBelowGeometric(s, waits, draws, n, k, geometric);
    Smaller(Total(waits, n) as real, k, capped, geometric);
  }

  /** At most n delays wait within the limit for n. */
  lemma WaitWithin(s: Exponential, waits: nat -> int, draws: nat -> real, fewer: nat, n: nat)
    requires s.initial >= 0 && s.maximum >= 0 && s.multiplier > 1.0 && 0.0 <= s.jitter <= 1.0
    requires WaitsOf(s, waits, draws, n) && fewer <= n
    ensures Total(waits, fewer) as real <= WaitLimit(s, n)
  {
    TotalGrows(s, waits, draws, fewer, n);
    GeometricClosed(s.multiplier, n);
    var closed := (Power(s.multiplier, n) - 1.0) / (s.multiplier - 1.0);
    WaitBelowBoth(s, waits, draws, n, 1.0 + s.jitter, n as real * s.maximum as real,
                  Geometric(s.multiplier, n), closed, s.initial as real * closed);
  }

  /** More delays never add up to less. */
  lemma {:induction false} TotalGrows(s: Exponential, waits: nat -> int, draws: nat -> real, k: nat, n: nat)
    requires s.initial >= 0 && s.maximum >= 0 && s.multiplier >= 1.0 && 0.0 <= s.jitter <= 1.0
    requires WaitsOf(s, waits, draws, n) && k <= n
    ensures Total(waits, k) <= Total(waits, n)
  {
    if k < n {
      TotalGrows(s, waits, draws, k, n - 1);
      assert 0.0 <= draws(n) < 1.0 && waits(n) == NextInterval(s, n, draws(n));
    }
  }

  // ----- the iterated form -----

  /** What is left of the loop: `steps` more rounds from the current delay, stopping at the cap. */
  function Iterate(delay: int, maximum: int, multiplier: real, steps: nat): int
    decreases steps
  {
    if steps == 0 then delay
    else
      var next := Truncate(delay as real * multiplier);
      if next > maximum then maximum else Iterate(next, maximum, multiplier, steps - 1)
  }

  method CalculateBackoff(initial: int, maximum: int, multiplier: real, attempt: int) returns (backoff: int)
    ensures backoff == Iterate(initial, maximum, multiplier, if attempt >= 1 then attempt - 1 else 0)
  {
    backoff := initial;
    var i := 1;
    while i < attempt
      invariant 1 <= i && (i <= attempt || i == 1)
      invariant Iterate(initial, maximum, multiplier, if attempt >= 1 then attempt - 1 else 0)
                == Iterate(backoff, maximum, multiplier, if attempt >= i then attempt - i else 0)
    {
      backoff := Truncate(backoff as real * multiplier);
      if backoff > maximum {
        backoff := maximum;
        break;
      }
      i := i + 1;
    }
  }

  /** Multiplying `steps` times, without truncation or cap. */
  function Grow(d: real, m: real, steps: nat): real
    decreases steps
  {
    if steps == 0 then d else Grow(d * m, m, steps - 1)
  }

  lemma {:induction false} GrowIsPower(d: real, m: real, n: nat)
    ensures Grow(d, m, n) == d * Power(m, n)
    decreases n
  {
    if n > 0 {
      GrowIsPower(d * m, m, n - 1);
      assert (d * m) * Power(m, n - 1) == d * (Power(m, n - 1) * m);
    }
  }

  lemma {:induction false} GrowStaysAbove(d: real, m: real, n: nat)
    requires d >= 0.0 && m >= 1.0
    ensures Grow(d, m, n) >= d
    decreases n
  {
    if n > 0 {
      ScaleUp(d, m);
      GrowStaysAbove(d * m, m, n - 1);
    }
  }

  lemma IntegerProduct(delay: int, q: int)
    requires delay > 0 && q > 1
    ensures delay as real * q as real == (delay * q) as real
    ensures Truncate(delay as real * q as real) == delay * q
    ensures delay * q > delay
  {
  }

  /** With an integer multiplier nothing is truncated: the loop computes the capped power. */
  lemma {:induction false} IterateInteger(delay: int, maximum: int, q: int, steps: nat)
    requires 0 < delay && q > 1 && (delay <= maximum || steps > 0)
    ensures Iterate(delay, maximum, q as real, steps) as real
            == Min(Grow(delay as real, q as real, steps), maximum as real)
    decreases steps
  {
    if steps > 0 {
      IntegerProduct(delay, q);
      if delay * q > maximum {
        GrowStaysAbove((delay * q) as real, q as real, steps - 1);
      } else {
        IterateInteger(delay * q, maximum, q, steps - 1);
      }
    }
  }

  /** How far truncation can fall behind: each round multiplies the gap and loses less than one. */
  function Gap(e: real, m: real, steps: nat): real
    decreases steps
  {
    if steps == 0 then e else Gap(e * m + 1.0, m, steps - 1)
  }

  /** From a gap e the exact growth starts at x = e (m - 1) + 1, and keeps that relation; d is m - 1. */
  lemma {:induction false} GapClosed(e: real, x: real, m: real, d: real, n: nat)
    requires d == m - 1.0 && x == e * d + 1.0
    ensures Gap(e, m, n) * d == Grow(x, m, n) - 1.0
    decreases n
  {
    if n > 0 {
      var e', x' := e * m + 1.0, x * m;
      GapRound(e, x, m, d);
      GapClosed(e', x', m, d, n - 1);
      assert Gap(e, m, n) == Gap(e', m, n - 1) && Grow(x, m, n) == Grow(x', m, n - 1);
    }
  }

  lemma GapRound(e: real, x: real, m: real, d: real)
    requires d == m - 1.0 && x == e * d + 1.0
    ensures x * m == (e * m + 1.0) * d + 1.0
  {
    Distribute(d, e * m, 1.0);
    Distribute(m, e * d, 1.0);
    Reorder(e, m, d);
  }

  lemma Reorder(a: real, b: real, c: real)
    ensures (a * b) * c == (a * c) * b
  {
  }

  /** One truncating round keeps the delay below the exact one, and the gap within its bound. */
  lemma OneRound(d: int, x: real, e: real, m: real)
    requires 0 <= d && d as real <= x <= d as real + e && m >= 1.0
    ensures var next := Truncate(d as real * m);
            0 <= next && next as real <= d as real * m <= x * m <= next as real + (e * m + 1.0)
  {
    ScaleBoth(d as real, x, m);
    ScaleBoth(x, d as real + e, m);
    Distribute(m, d as real, e);
    ScaleBoth(0.0, d as real, m);
    TruncateBounds(d as real * m);
  }

  /** The truncating loop against exact growth, started at most `e` apart. */
  lemma {:induction false} IterateReal(d: int, x: real, e: real, maximum: int, m: real, steps: nat)
    requires 0 <= d && d as real <= x <= d as real + e && m >= 1.0 && (d <= maximum || steps > 0)
    ensures Iterate(d, maximum, m, steps) as real <= Min(Grow(x, m, steps), maximum as real)
    ensures Min(Grow(x, m, steps), maximum as real) <= Iterate(d, maximum, m, steps) as real + Gap(e, m, steps)
    decreases steps, 0
  {
    if steps > 0 {
      OneRound(d, x, e, m);
      var next, x', e' := Truncate(d as real * m), x * m, e * m + 1.0;
      AfterOneRound(d, x, e, maximum, m, steps, next, x', e');
    }
  }

  lemma {:induction false} AfterOneRound(d: int, x: real, e: real, maximum: int, m: real, steps: nat,
                                         next: int, x': real, e': real)
    requires steps > 0 && m >= 1.0 && next == Truncate(d as real * m) && x' == x * m && e' == e * m + 1.0
    requires 0 <= next && next as real <= x' <= next as real + e'
    ensures Iterate(d, maximum, m, steps) as real <= Min(Grow(x, m, steps), maximum as real)
    ensures Min(Grow(x, m, steps), maximum as real) <= Iterate(d, maximum, m, steps) as real + Gap(e, m, steps)
    decreases steps - 1, 1
  {
    assert Grow(x, m, steps) == Grow(x', m, steps - 1) && Gap(e, m, steps) == Gap(e', m, steps - 1);
    if next > maximum {
      GrowStaysAbove(x', m, steps - 1);
      GapNonNegative(e', m, steps - 1);
    } else {
      IterateReal(next, x', e', maximum, m, steps - 1);
    }
  }

  lemma {:induction false} GapNonNegative(e: real, m: real, n: nat)
    requires e >= 0.0 && m >= 1.0
    ensures Gap(e, m, n) >= 0.0
    decreases n
  {
    if n > 0 {
      ScaleUp(e, m);
      GapNonNegative(e * m + 1.0, m, n - 1);
    }
  }

  // ----- the two forms compared, retry by retry -----

  /**
    For an integer multiplier the browser build's loop and the native build's formula
    agree on retry number `attempt`, except for the very first retry when the initial
    interval is above the cap, which the loop does not apply there.
   */
  lemma FormsAgree(s: Exponential, q: int, attempt: int, draw: real)
    requires s.initial > 0 && q > 1 && s.multiplier == q as real && s.jitter <= 0.0 && attempt >= 1 && s.maximum > 0
    ensures Iterate(s.initial, s.maximum, s.multiplier, attempt - 1) == NextInterval(s, attempt, draw)
            <==> s.initial <= s.maximum || attempt >= 2
  {
    Unjittered(s, attempt, draw);
    if s.initial <= s.maximum || attempt >= 2 {
      IterateInteger(s.initial, s.maximum, q, attempt - 1);
    }
  }

  /** Without jitter the formula is the truncated minimum of exact growth and the cap. */
  lemma Unjittered(s: Exponential, attempt: int, draw: real)
    requires s.initial >= 0 && s.multiplier >= 1.0 && s.jitter <= 0.0 && attempt >= 1 && s.maximum >= 0
    ensures Base(s, attempt) == Min(Grow(s.initial as real, s.multiplier, attempt - 1), s.maximum as real)
    ensures 0.0 <= Base(s, attempt)
    ensures NextInterval(s, attempt, draw) == Truncate(Base(s, attempt))
  {
    GrowIsPower(s.initial as real, s.multiplier, attempt - 1);
    BaseNonNegative(s, attempt);
  }

  /** For any multiplier m > 1 the loop is never above the formula and falls short by at most (m^(n-1) - 1)/(m - 1). */
  lemma FormsClose(s: Exponential, attempt: int, draw: real)
    requires s.initial > 0 && s.multiplier > 1.0 && s.jitter <= 0.0 && attempt >= 1 && s.maximum > 0
    requires s.initial <= s.maximum || attempt >= 2
    ensures var looped, m := Iterate(s.initial, s.maximum, s.multiplier, attempt - 1), s.multiplier;
            && looped <= NextInterval(s, attempt, draw)
            && Base(s, attempt) - looped as real <= (Power(m, attempt - 1) - 1.0) / (m - 1.0)
  {
    Unjittered(s, attempt, draw);
    IterateReal(s.initial, s.initial as real, 0.0, s.maximum, s.multiplier, attempt - 1);
    GapValue(s.multiplier, attempt - 1);
    TruncateAbove(Iterate(s.initial, s.maximum, s.multiplier, attempt - 1), Base(s, attempt));
  }

  lemma TruncateAbove(k: int, x: real)
    requires x >= 0.0 && k as real <= x
    ensures k <= Truncate(x)
  {
  }

  lemma GapValue(m: real, n: nat)
    requires m > 1.0
    ensures Gap(0.0, m, n) == (Power(m, n) - 1.0) / (m - 1.0)
  {
    GapClosed(0.0, 1.0, m, m - 1.0, n);
    GrowIsPower(1.0, m, n);
    assert 0.0 * (m - 1.0) + 1.0 == 1.0;
    Quotient(Gap(0.0, m, n), m - 1.0, Power(m, n) - 1.0);
  }
}
