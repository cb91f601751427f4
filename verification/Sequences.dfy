/**
 Sequences without repeats, which are sets in some order: what a loop collects
 that appends a value only if it is not there yet, as volumes, directories,
 images and references are collected throughout. Also sequences that occur
 within others, in order.
 */
module Sequences {

  function Elems<T>(s: seq<T>): set<T> { set x | x in s }

  ghost predicate NoRepeats<T>(s: seq<T>) { forall i, j :: 0 <= i < j < |s| ==> s[i] != s[j] }

  lemma Associate<T>(a: seq<T>, b: seq<T>, c: seq<T>)
    ensures a + b + c == a + (b + c) && a + [] == a == [] + a
  {
  }

  lemma NoRepeatsOneMore<T>(s: seq<T>, x: T)
    ensures NoRepeats([x] + s) <==> NoRepeats(s) && x !in s
  {
    var t := [x] + s;
    if NoRepeats(t) {
      forall i, j | 0 <= i < j < |s| ensures s[i] != s[j] { assert t[i + 1] != t[j + 1]; }
      forall i | 0 <= i < |s| ensures s[i] != x { assert t[0] != t[i + 1]; }
    }
  }

  /** Only how often elements occur matters. */
  lemma {:induction false} NoRepeatsCounts<T>(s: seq<T>)
    ensures NoRepeats(s) <==> forall x :: x in s ==> multiset(s)[x] == 1
  {
    if s != [] {
      var rest := s[1..];
      assert s == [s[0]] + rest;
      NoRepeatsCounts(rest);
      NoRepeatsOneMore(rest, s[0]);
      assert multiset(s) == multiset{s[0]} + multiset(rest);
      hide NoRepeats;
      assert forall x :: x in s <==> x == s[0] || x in rest;
      if forall x :: x in s ==> multiset(s)[x] == 1 {
        assert multiset(s)[s[0]] == 1;
        forall x | x in rest ensures multiset(rest)[x] == 1 { assert multiset(s)[x] == 1; }
      }
    }
  }

  lemma NoRepeatsPermuted<T>(s: seq<T>, t: seq<T>)
    requires multiset(s) == multiset(t)
    ensures NoRepeats(s) <==> NoRepeats(t)
    ensures Elems(s) == Elems(t)
  {
    NoRepeatsCounts(s);
    NoRepeatsCounts(t);
    assert forall x :: x in s <==> x in multiset(s);
    assert forall x :: x in t <==> x in multiset(t);
  }

  lemma NoRepeatsWithout<T>(a: seq<T>, x: T, b: seq<T>)
    ensures NoRepeats(a + [x] + b) <==> NoRepeats(a + b) && x !in a + b
  {
    NoRepeatsOneMore(a + b, x);
    assert multiset(a + [x] + b) == multiset([x] + (a + b));
    NoRepeatsPermuted(a + [x] + b, [x] + (a + b));
  }

  /** Two ways to list one set. */
  lemma SameSet<T>(s: seq<T>, t: seq<T>)
    requires NoRepeats(s) && NoRepeats(t) && Elems(s) == Elems(t)
    ensures multiset(s) == multiset(t)
  {
    NoRepeatsCounts(s);
    NoRepeatsCounts(t);
    forall x ensures multiset(s)[x] == multiset(t)[x] {
      assert x in s <==> x in Elems(s);
      assert x in t <==> x in Elems(t);
      assert x in s <==> x in multiset(s);
      assert x in t <==> x in multiset(t);
    }
  }

  /** A sequence that holds each element of a set exactly once. */
  lemma ListsSet<T>(s: seq<T>, all: set<T>)
    requires multiset(s) == multiset(all)
    ensures NoRepeats(s) && Elems(s) == all
  {
    NoRepeatsCounts(s);
    hide NoRepeats;
    assert forall x :: x in s <==> x in multiset(s);
  }

  lemma OneMore<T>(s: seq<T>, x: T)
    ensures NoRepeats(s + [x]) <==> NoRepeats(s) && x !in s
    ensures Elems(s + [x]) == {x} + Elems(s)
  {
    NoRepeatsWithout(s, x, []);
    assert s + [] == s && s + [x] + [] == s + [x];
    hide NoRepeats;
  }

  lemma ListedIn<T>(s: seq<T>, t: seq<T>)
    requires multiset(s) == multiset(t)
    ensures forall x :: x in t ==> x in Elems(s)
  {
    NoRepeatsPermuted(s, t);
    hide NoRepeats;
    assert forall x :: x in t ==> x in Elems(t);
  }

  function Reversed<T>(s: seq<T>): seq<T> { if s == [] then [] else Reversed(s[1..]) + [s[0]] }

  lemma {:induction false} ReversedMembers<T>(s: seq<T>)
    ensures multiset(Reversed(s)) == multiset(s)
  {
    if s != [] {
      ReversedMembers(s[1..]);
      assert s == [s[0]] + s[1..];
    }
  }

  lemma ElemsIn<T>(s: seq<T>)
    ensures forall x :: x in Elems(s) <==> x in s
  {
  }

  lemma AllElems<T>(x: T, s: seq<T>, t: seq<T>)
    ensures {x} + Elems(s) + Elems(t) == {x} + Elems(s + t)
  {
  }

  lemma Unprefixed<T>(prefix: seq<T>, s: seq<T>, t: seq<T>)
    ensures prefix + s == prefix + t <==> s == t
  {
    assert (prefix + s)[|prefix|..] == s && (prefix + t)[|prefix|..] == t;
  }

  lemma SameLength<T>(a: seq<T>, p: seq<T>, b: seq<T>, q: seq<T>)
    requires |a| == |b|
    ensures a + p == b + q <==> a == b && p == q
  {
    assert (a + p)[..|a|] == a && (a + p)[|a|..] == p && (b + q)[..|a|] == b && (b + q)[|a|..] == q;
  }

  lemma SameHead<T>(a: seq<T>, b: seq<T>, t: seq<T>)
    ensures a + t == b + t <==> a == b
  {
    if a + t == b + t { assert |a| == |b| && (a + t)[..|a|] == a && (b + t)[..|b|] == b; }
  }

  /** The elements of `a` occur in `b`, in the same order. */
  predicate Within<T(==)>(a: seq<T>, b: seq<T>) {
    a == [] || (b != [] && if a[0] == b[0] then Within(a[1..], b[1..]) else Within(a, b[1..]))
  }

  lemma {:induction false} WithinTail<T>(a: seq<T>, b: seq<T>)
    requires a != [] && Within(a, b)
    ensures Within(a[1..], b)
    decreases |b|, 0
  {
    if a[0] == b[0] {
      WithinMore(a[1..], b[0], b[1..]);
      assert [b[0]] + b[1..] == b;
    } else {
      WithinTail(a, b[1..]);
      WithinMore(a[1..], b[0], b[1..]);
      assert [b[0]] + b[1..] == b;
    }
  }

  lemma {:induction false} WithinMore<T>(a: seq<T>, x: T, b: seq<T>)
    requires Within(a, b)
    ensures Within(a, [x] + b)
    decreases |b|, 1
  {
    assert ([x] + b)[1..] == b;
    if a != [] && a[0] == x { WithinTail(a, b); }
  }

  lemma {:induction false} WithinPrefix<T>(a: seq<T>, p: seq<T>, b: seq<T>)
    requires Within(a, b)
    ensures Within(a, p + b)
  {
    if p == [] {
      assert p + b == b;
    } else {
      WithinPrefix(a, p[1..], b);
      WithinMore(a, p[0], p[1..] + b);
      assert p + b == [p[0]] + (p[1..] + b);
    }
  }

  lemma {:induction false} WithinSame<T>(p: seq<T>, a: seq<T>, b: seq<T>)
    requires Within(a, b)
    ensures Within(p + a, p + b)
  {
    if p == [] {
      assert p + a == a && p + b == b;
    } else {
      WithinSame(p[1..], a, b);
      assert (p + a)[1..] == p[1..] + a && (p + b)[1..] == p[1..] + b;
    }
  }

  /** The elements that satisfy `keep`, in order. */
  function Filter<T>(s: seq<T>, keep: T -> bool): seq<T> {
    if s == [] then [] else (if keep(s[0]) then [s[0]] else []) + Filter(s[1..], keep)
  }

  lemma FilterFirst<T>(s: seq<T>, keep: T -> bool)
    requires s != []
    ensures Filter(s, keep) == (if keep(s[0]) then [s[0]] else []) + Filter(s[1..], keep)
  {
  }

  lemma {:induction false} FilterAppend<T>(s: seq<T>, t: seq<T>, keep: T -> bool)
    ensures Filter(s + t, keep) == Filter(s, keep) + Filter(t, keep)
  {
    if s == [] {
      assert s + t == t;
    } else {
      var one := if keep(s[0]) then [s[0]] else [];
      FilterFirst(s, keep);
      FilterFirst(s + t, keep);
      assert (s + t)[1..] == s[1..] + t && (s + t)[0] == s[0];
      hide *;
      FilterAppend(s[1..], t, keep);
      Associate(one, Filter(s[1..], keep), Filter(t, keep));
    }
  }

  lemma {:induction false} FilterMembers<T>(s: seq<T>, keep: T -> bool)
    ensures forall x :: x in Filter(s, keep) <==> x in s && keep(x)
  {
    if s != [] {
      FilterMembers(s[1..], keep);
      assert forall x :: x in s <==> x == s[0] || x in s[1..];
    }
  }
}
