/**
 How many of a row of flags are up, and what a row of numbers adds up to: the
 workers that hold a slot of a semaphore, and the steps that all workers have
 left; and how both change when a single worker moves.
 */
module Counting {
  function Count(bs: seq<bool>): (n: nat)
    ensures n <= |bs|
  {
    if bs == [] then 0 else (if bs[0] then 1 else 0) + Count(bs[1..])
  }

  lemma {:induction false} CountUpdate(bs: seq<bool>, i: nat, b: bool)
    requires i < |bs|
    ensures Count(bs[i := b]) == Count(bs) - (if bs[i] then 1 else 0) + (if b then 1 else 0)
  {
    if i > 0 {
      assert bs[i := b][1..] == bs[1..][i - 1 := b];
      CountUpdate(bs[1..], i - 1, b);
    } else {
      assert bs[i := b][1..] == bs[1..];
    }
  }

  lemma {:induction false} CountNone(bs: seq<bool>)
    ensures Count(bs) == 0 <==> forall i :: 0 <= i < |bs| ==> !bs[i]
  {
    if bs != [] {
      CountNone(bs[1..]);
      assert forall i :: 0 < i < |bs| ==> bs[i] == bs[1..][i - 1];
      if !bs[0] && Count(bs) == 0 {
      } else if Count(bs[1..]) != 0 {
        var i :| 0 <= i < |bs[1..]| && bs[1..][i];
        assert bs[i + 1];
      }
    }
  }

  lemma {:induction false} CountAll(bs: seq<bool>)
    requires forall i :: 0 <= i < |bs| ==> bs[i]
    ensures Count(bs) == |bs|
  {
    if bs != [] {
      CountAll(bs[1..]);
    }
  }

  function Sum(ns: seq<int>): int { if ns == [] then 0 else ns[0] + Sum(ns[1..]) }

  lemma {:induction false} SumUpdate(ns: seq<int>, i: nat, n: int)
    requires i < |ns|
    ensures Sum(ns[i := n]) == Sum(ns) - ns[i] + n
  {
    if i > 0 {
      assert ns[i := n][1..] == ns[1..][i - 1 := n];
      SumUpdate(ns[1..], i - 1, n);
    } else {
      assert ns[i := n][1..] == ns[1..];
    }
  }

  lemma {:induction false} SumOfSame(ns: seq<int>, n: int)
    requires forall i :: 0 <= i < |ns| ==> ns[i] == n
    ensures Sum(ns) == n * |ns|
  {
    if ns != [] { SumOfSame(ns[1..], n); }
  }

  lemma {:induction false} SumAtMost(ns: seq<int>, ms: seq<int>)
    requires |ns| == |ms| && forall i :: 0 <= i < |ns| ==> 0 <= ns[i] <= ms[i]
    ensures 0 <= Sum(ns) <= Sum(ms)
  {
    if ns != [] { SumAtMost(ns[1..], ms[1..]); }
  }
}
