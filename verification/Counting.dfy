/** Counting the elements of a sequence that satisfy a condition, one element at a time. */
module Counting {

  function Count<T>(s: seq<T>, pick: T -> bool): nat {
    if s == [] then 0
    else Count(s[..|s| - 1], pick) + if pick(s[|s| - 1]) then 1 else 0
  }

  lemma {:induction false} CountUpdate<T>(s: seq<T>, pick: T -> bool, i: nat, x: T)
    requires i < |s|
    ensures Count(s[i := x], pick) == Count(s, pick) - (if pick(s[i]) then 1 else 0) + (if pick(x) then 1 else 0)
  {
    var last := |s| - 1;
    if i == last {
      assert s[i := x][..last] == s[..last];
    } else {
      assert s[i := x][..last] == s[..last][i := x];
      CountUpdate(s[..last], pick, i, x);
    }
  }

  lemma CountAppend<T>(s: seq<T>, pick: T -> bool, x: T)
    ensures Count(s + [x], pick) == Count(s, pick) + if pick(x) then 1 else 0
  {
    assert (s + [x])[..|s|] == s;
  }

  lemma {:induction false} CountHead<T>(s: seq<T>, pick: T -> bool)
    requires s != []
    ensures Count(s, pick) == (if pick(s[0]) then 1 else 0) + Count(s[1..], pick)
  {
    if |s| == 1 {
      assert s[..0] == [] && s[1..] == [];
    } else {
      CountHead(s[..|s| - 1], pick);
      assert s[..|s| - 1][1..] == s[1..][..|s| - 2];
    }
  }

  lemma {:induction false} CountPositive<T>(s: seq<T>, pick: T -> bool, i: nat)
    requires i < |s| && pick(s[i])
    ensures Count(s, pick) >= 1
  {
    if i < |s| - 1 {
      CountPositive(s[..|s| - 1], pick, i);
    }
  }

  lemma {:induction false} CountAtMost<T>(s: seq<T>, pick: T -> bool)
    ensures Count(s, pick) <= |s|
  {
    if s != [] {
      CountAtMost(s[..|s| - 1], pick);
    }
  }

  lemma {:induction false} CountNone<T>(s: seq<T>, pick: T -> bool)
    requires forall x :: x in s ==> !pick(x)
    ensures Count(s, pick) == 0
  {
    if s != [] {
      CountNone(s[..|s| - 1], pick);
    }
  }

  lemma {:induction false} CountFinds<T>(s: seq<T>, pick: T -> bool) returns (i: nat)
    requires Count(s, pick) >= 1
    ensures i < |s| && pick(s[i])
  {
    var last := |s| - 1;
    if pick(s[last]) {
      i := last;
    } else {
      i := CountFinds(s[..last], pick);
    }
  }

  /** If fewer elements satisfy `fewer` than `more`, and `fewer` implies `more`, some element separates them. */
  lemma {:induction false} CountSeparates<T>(s: seq<T>, fewer: T -> bool, more: T -> bool) returns (i: nat)
    requires Count(s, fewer) < Count(s, more)
    ensures i < |s| && more(s[i]) && !fewer(s[i])
  {
    var last := |s| - 1;
    if more(s[last]) && !fewer(s[last]) {
      i := last;
    } else {
      i := CountSeparates(s[..last], fewer, more);
    }
  }

  // ----- sums -----

  function Sum<T>(s: seq<T>, weight: T -> nat): nat {
    if s == [] then 0 else Sum(s[..|s| - 1], weight) + weight(s[|s| - 1])
  }

  lemma {:induction false} SumUpdate<T>(s: seq<T>, weight: T -> nat, i: nat, x: T)
    requires i < |s|
    ensures Sum(s[i := x], weight) == Sum(s, weight) - weight(s[i]) + weight(x)
  {
    var last := |s| - 1;
    if i == last {
      assert s[i := x][..last] == s[..last];
    } else {
      assert s[i := x][..last] == s[..last][i := x];
      SumUpdate(s[..last], weight, i, x);
    }
  }

  lemma SumAppend<T>(s: seq<T>, weight: T -> nat, x: T)
    ensures Sum(s + [x], weight) == Sum(s, weight) + weight(x)
  {
    assert (s + [x])[..|s|] == s;
  }

  lemma {:induction false} SumHead<T>(s: seq<T>, weight: T -> nat)
    requires s != []
    ensures Sum(s, weight) == weight(s[0]) + Sum(s[1..], weight)
  {
    if |s| == 1 {
      assert s[..0] == [] && s[1..] == [];
    } else {
      SumHead(s[..|s| - 1], weight);
      assert s[..|s| - 1][1..] == s[1..][..|s| - 2];
    }
  }

  lemma {:induction false} SumZero<T>(s: seq<T>, weight: T -> nat)
    requires forall x :: x in s ==> weight(x) == 0
    ensures Sum(s, weight) == 0
  {
    if s != [] {
      SumZero(s[..|s| - 1], weight);
    }
  }
}
