/**
 Sorting by a strict order. What it yields depends on the elements only, never
 on the order in which a Go map or a set of goroutines happened to list them,
 which is what makes reports and generated files reproducible.
 */
module Sorting {

  /** A strict order that tells any two of the elements of `s` apart. */
  ghost predicate Orders<T(!new)>(less: (T, T) -> bool, s: seq<T>) {
    && (forall x :: !less(x, x))
    && (forall x, y, z :: less(x, y) && less(y, z) ==> less(x, z))
    && (forall x, y :: x in s && y in s && x != y ==> less(x, y) || less(y, x))
  }

  ghost predicate Sorted<T(!new)>(less: (T, T) -> bool, s: seq<T>) {
    forall i, j :: 0 <= i < j < |s| ==> !less(s[j], s[i])
  }

  function Insert<T>(less: (T, T) -> bool, x: T, s: seq<T>): seq<T>
    decreases |s|
  {
    if s == [] || less(x, s[0]) then [x] + s else [s[0]] + Insert(less, x, s[1..])
  }

  function Sort<T>(less: (T, T) -> bool, s: seq<T>): seq<T>
    decreases |s|
  {
    if s == [] then [] else Insert(less, s[0], Sort(less, s[1..]))
  }

  lemma {:induction false} InsertMembers<T>(less: (T, T) -> bool, x: T, s: seq<T>)
    ensures multiset(Insert(less, x, s)) == multiset{x} + multiset(s)
    decreases |s|
  {
    if s != [] && !less(x, s[0]) {
      InsertMembers(less, x, s[1..]);
      assert s == [s[0]] + s[1..];
    }
  }

  lemma MultisetMembers<T>(s: seq<T>, t: seq<T>)
    requires multiset(s) == multiset(t)
    ensures |s| == |t| && forall x :: x in s <==> x in t
  {
    assert |multiset(s)| == |s| && |multiset(t)| == |t|;
    assert forall x :: x in s <==> x in multiset(s);
    assert forall x :: x in t <==> x in multiset(t);
  }

  lemma {:induction false} InsertSorted<T(!new)>(less: (T, T) -> bool, x: T, s: seq<T>)
    requires Sorted(less, s) && Orders(less, [x] + s)
    ensures Sorted(less, Insert(less, x, s))
    decreases |s|
  {
    if s != [] {
      var all := [x] + s;
      assert x in all && forall y :: y in s ==> y in all;
      if less(x, s[0]) {
        assert forall y :: less(y, x) ==> less(y, s[0]);
      } else {
        assert forall y :: y in [x] + s[1..] ==> y in all;
        InsertSorted(less, x, s[1..]);
        var rest := Insert(less, x, s[1..]);
        InsertMembers(less, x, s[1..]);
        forall j | 0 <= j < |rest| ensures !less(rest[j], s[0]) {
          assert rest[j] in multiset(rest);
          if rest[j] != x {
            assert rest[j] in s[1..];
          }
        }
      }
    }
  }

  lemma {:induction false} SortMembers<T>(less: (T, T) -> bool, s: seq<T>)
    ensures multiset(Sort(less, s)) == multiset(s)
    decreases |s|
  {
    if s != [] {
      SortMembers(less, s[1..]);
      InsertMembers(less, s[0], Sort(less, s[1..]));
      assert s == [s[0]] + s[1..];
    }
  }

  lemma {:induction false} SortSorted<T(!new)>(less: (T, T) -> bool, s: seq<T>)
    requires Orders(less, s)
    ensures Sorted(less, Sort(less, s))
    decreases |s|
  {
    if s != [] {
      assert forall y :: y in s[1..] ==> y in s;
      SortSorted(less, s[1..]);
      SortMembers(less, s[1..]);
      MultisetMembers(Sort(less, s[1..]), s[1..]);
      assert forall y :: y in [s[0]] + Sort(less, s[1..]) ==> y in s;
      InsertSorted(less, s[0], Sort(less, s[1..]));
    }
  }

  lemma SortedFirst<T(!new)>(less: (T, T) -> bool, s: seq<T>, t: seq<T>)
    requires s != [] && t != [] && Orders(less, s) && Sorted(less, s) && Sorted(less, t)
    requires s[0] in t && t[0] in s
    ensures s[0] == t[0]
  {
    var i :| 0 <= i < |t| && t[i] == s[0];
    var j :| 0 <= j < |s| && s[j] == t[0];
    assert i > 0 ==> !less(t[i], t[0]);
    assert j > 0 ==> !less(s[j], s[0]);
  }

  lemma RestMembers<T>(s: seq<T>, t: seq<T>)
    requires s != [] && t != [] && s[0] == t[0] && multiset(s) == multiset(t)
    ensures multiset(s[1..]) == multiset(t[1..])
    ensures forall x :: x in s[1..] ==> x in s
  {
    assert s == [s[0]] + s[1..] && t == [t[0]] + t[1..];
    assert multiset(s[1..]) == multiset(s) - multiset{s[0]};
    assert multiset(t[1..]) == multiset(t) - multiset{t[0]};
  }

  /** There is only one way to sort. */
  lemma {:induction false} SortedUnique<T(!new)>(less: (T, T) -> bool, s: seq<T>, t: seq<T>)
    requires Orders(less, s) && Sorted(less, s) && Sorted(less, t) && multiset(s) == multiset(t)
    ensures s == t
    decreases |s|
  {
    MultisetMembers(s, t);
    if s != [] {
      SortedFirst(less, s, t);
      RestMembers(s, t);
      SortedUnique(less, s[1..], t[1..]);
      hide *;
      assert s == [s[0]] + s[1..] && t == [t[0]] + t[1..];
    }
  }

  /** The sorted result does not depend on the order in which elements arrive. */
  lemma {:induction false} SortIgnoresOrder<T(!new)>(less: (T, T) -> bool, s: seq<T>, t: seq<T>)
    requires Orders(less, s) && multiset(s) == multiset(t)
    ensures Sort(less, s) == Sort(less, t)
  {
    MultisetMembers(s, t);
    SortSorted(less, s);
    SortSorted(less, t);
    SortMembers(less, s);
    SortMembers(less, t);
    MultisetMembers(s, Sort(less, s));
    SortedUnique(less, Sort(less, s), Sort(less, t));
  }

  // ---- Strings ----

  /** The byte order of Go strings, character by character. */
  predicate Before(a: string, b: string)
    decreases |a|
  {
    b != "" && (a == "" || a[0] < b[0] || (a[0] == b[0] && Before(a[1..], b[1..])))
  }

  /** The first index at which both have a character and not the same one. */
  ghost predicate DifferAt(a: string, b: string, i: int) {
    0 <= i < |a| && i < |b| && a[i] != b[i] && forall j :: 0 <= j < i ==> a[j] == b[j]
  }

  lemma DifferLater(a: string, b: string, i: int)
    requires a != "" && b != "" && a[0] == b[0]
    ensures DifferAt(a, b, i) <==> DifferAt(a[1..], b[1..], i - 1)
  {
    if DifferAt(a[1..], b[1..], i - 1) {
      forall j | 0 <= j < i ensures a[j] == b[j] { if j > 0 { assert a[1..][j - 1] == b[1..][j - 1]; } }
    }
  }

  /** `a` is a proper prefix of `b`, or has the smaller character where they first differ. */
  lemma {:induction false} BeforeIff(a: string, b: string)
    ensures Before(a, b) <==> a < b || exists i :: DifferAt(a, b, i) && a[i] < b[i]
  {
    if a != "" && b != "" && a[0] == b[0] {
      BeforeIff(a[1..], b[1..]);
      assert a < b <==> a[1..] < b[1..];
      if i :| DifferAt(a[1..], b[1..], i) && a[1..][i] < b[1..][i] { DifferLater(a, b, i + 1); }
      if i :| DifferAt(a, b, i) && a[i] < b[i] { DifferLater(a, b, i); }
    } else if a != "" && b != "" {
      assert DifferAt(a, b, 0);
    }
  }

  lemma {:induction false} BeforeTransitive(a: string, b: string, c: string)
    requires Before(a, b) && Before(b, c)
    ensures Before(a, c)
    decreases |a|
  {
    if a != "" && a[0] == b[0] == c[0] { BeforeTransitive(a[1..], b[1..], c[1..]); }
  }

  lemma {:induction false} BeforeIrreflexive(a: string)
    ensures !Before(a, a)
    decreases |a|
  {
    if a != "" { BeforeIrreflexive(a[1..]); }
  }

  lemma {:induction false} BeforeTotal(a: string, b: string)
    requires a != b
    ensures Before(a, b) || Before(b, a)
    decreases |a|
  {
    if a != "" && b != "" && a[0] == b[0] {
      assert a == [a[0]] + a[1..] && b == [b[0]] + b[1..];
      BeforeTotal(a[1..], b[1..]);
    }
  }

  lemma StringsAreOrdered(s: seq<string>)
    ensures Orders(Before, s)
  {
    forall x: string ensures !Before(x, x) { BeforeIrreflexive(x); }
    forall x: string, y: string, z: string | Before(x, y) && Before(y, z) ensures Before(x, z) {
      BeforeTransitive(x, y, z);
    }
    forall x: string, y: string | x != y ensures Before(x, y) || Before(y, x) { BeforeTotal(x, y); }
  }

  lemma {:induction false} LeastExists(s: set<string>)
    requires s != {}
    ensures exists x :: x in s && forall y :: y in s && y != x ==> Before(x, y)
    decreases |s|
  {
    var z :| z in s;
    if s - {z} == {} {
      assert forall y :: y in s ==> y == z || y in s - {z};
    } else {
      LeastExists(s - {z});
      var x :| x in s - {z} && forall y :: y in s - {z} && y != x ==> Before(x, y);
      BeforeTotal(x, z);
      forall y | y in s && y != z && Before(z, x) ensures Before(z, y) {
        if y != x { BeforeTransitive(z, x, y); }
      }
      var least := if Before(x, z) then x else z;
      assert forall y :: y in s && y != least ==> Before(least, y);
    }
  }

  /** The elements of a set in order. */
  ghost function Ordered(s: set<string>): seq<string>
    decreases |s|
  {
    if s == {} then []
    else
      LeastExists(s);
      var x :| x in s && forall y :: y in s && y != x ==> Before(x, y);
      [x] + Ordered(s - {x})
  }

  lemma {:induction false} OrderedMembers(s: set<string>)
    ensures multiset(Ordered(s)) == multiset(s)
    ensures forall x :: x in Ordered(s) <==> x in s
    decreases |s|
  {
    if s != {} {
      LeastExists(s);
      var x := Ordered(s)[0];
      OrderedMembers(s - {x});
      assert Ordered(s) == [x] + Ordered(s - {x});
    }
  }

  lemma {:induction false} OrderedSorted(s: set<string>)
    ensures Sorted(Before, Ordered(s))
    decreases |s|
  {
    if s != {} {
      LeastExists(s);
      var x := Ordered(s)[0];
      OrderedSorted(s - {x});
      OrderedMembers(s - {x});
      assert Ordered(s) == [x] + Ordered(s - {x});
      forall y | y in Ordered(s - {x}) ensures !Before(y, x) {
        if Before(y, x) { BeforeTransitive(y, x, y); BeforeIrreflexive(y); }
      }
    }
  }

  /** Collects a set in whatever order it is walked, and sorts it. */
  method SortedKeys(s: set<string>) returns (keys: seq<string>)
    ensures keys == Ordered(s)
  {
    keys := [];
    var rest := s;
    while rest != {}
      invariant rest <= s && multiset(keys) == multiset(s - rest)
      decreases |rest|
    {
      var k :| k in rest;
      assert s - (rest - {k}) == (s - rest) + {k};
      keys, rest := keys + [k], rest - {k};
    }
    assert s - rest == s;
    ghost var walked := keys;
    keys := Sort(Before, keys);
    SortedIsOrdered(walked, s);
  }

  lemma SortedIsOrdered(walked: seq<string>, s: set<string>)
    requires multiset(walked) == multiset(s)
    ensures Sort(Before, walked) == Ordered(s)
  {
    StringsAreOrdered(walked);
    SortMembers(Before, walked);
    SortSorted(Before, walked);
    OrderedMembers(s);
    OrderedSorted(s);
    StringsAreOrdered(Sort(Before, walked));
    SortedUnique(Before, Sort(Before, walked), Ordered(s));
  }
}
