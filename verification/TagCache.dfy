/** The concurrent version check, with its cache that fetches each tag list once. */
module TagCache {
  import opened Counting
  import opened Sequences
  import opened Sorting

  /** A cache entry: made but unclaimed, claimed by the worker that runs `once`, or answered. */
  datatype Entry<A> = Fresh | Busy | Done(answer: A)

  datatype Pc<A> = Waiting | Looking | AtOnce | Fetching | Holding(answer: A) | Recorded | Left {
    predicate Inside() { !Waiting? && !Left? }
    predicate HasEntry() { !Waiting? && !Looking? }
    predicate HasResult() { Recorded? || Left? }
    function ToGo(): nat {
      match this
      case Waiting => 6
      case Looking => 5
      case AtOnce => 4
      case Fetching => 3
      case Holding(_) => 2
      case Recorded => 1
      case Left => 0
    }
  }

  /** Which items ask for which policy; a result is the item and the answer it was compared with. */
  datatype Check<K, !A> = Check(n: nat, keys: seq<K>)

  datatype World<K, A> = World(
    slots: int, entries: map<K, Entry<A>>, fetched: multiset<K>, results: seq<(nat, A)>, pcs: seq<Pc<A>>)

  ghost predicate Init<K, A(!new)>(c: Check<K, A>, w: World<K, A>) {
    && w.slots == 0 && w.entries == map[] && w.fetched == multiset{} && w.results == []
    && |w.pcs| == |c.keys| && forall i :: 0 <= i < |w.pcs| ==> w.pcs[i].Waiting?
  }

  /** One step of worker `i`; `a` is what the registry answers if it is asked now. */
  function StepOf<K, A>(c: Check<K, A>, w: World<K, A>, i: nat, a: A): World<K, A>
    requires |w.pcs| == |c.keys| && i < |c.keys| && (w.pcs[i].HasEntry() ==> c.keys[i] in w.entries)
  {
    var k := c.keys[i];
    match w.pcs[i]
    case Waiting => w.(slots := w.slots + 1, pcs := w.pcs[i := Looking])
    case Looking =>
      w.(entries := if k in w.entries then w.entries else w.entries[k := Fresh], pcs := w.pcs[i := AtOnce])
    case AtOnce =>
      if w.entries[k].Done? then w.(pcs := w.pcs[i := Holding(w.entries[k].answer)])
      else w.(entries := w.entries[k := Busy], fetched := w.fetched + multiset{k}, pcs := w.pcs[i := Fetching])
    case Fetching => w.(entries := w.entries[k := Done(a)], pcs := w.pcs[i := Holding(a)])
    case Holding(answer) => w.(results := w.results + [(i, answer)], pcs := w.pcs[i := Recorded])
    case Recorded => w.(slots := w.slots - 1, pcs := w.pcs[i := Left])
    case Left => w
  }

  /** A full pool holds a worker back, and so does another worker's fetch of the same policy. */
  predicate Enabled<K, A>(c: Check<K, A>, w: World<K, A>, i: nat) {
    && |w.pcs| == |c.keys| && i < |c.keys| && (w.pcs[i].HasEntry() ==> c.keys[i] in w.entries)
    && !w.pcs[i].Left?
    && (w.pcs[i].Waiting? ==> w.slots < c.n)
    && (w.pcs[i].AtOnce? ==> !w.entries[c.keys[i]].Busy?)
  }

  ghost predicate Next<K, A(!new)>(c: Check<K, A>, w: World<K, A>, w': World<K, A>) {
    exists i: nat, a :: Enabled(c, w, i) && w' == StepOf(c, w, i, a)
  }

  ghost predicate Run<K, A(!new)>(c: Check<K, A>, ws: seq<World<K, A>>) {
    && |ws| > 0 && Init(c, ws[0])
    && forall k :: 0 <= k < |ws| - 1 ==> Next(c, ws[k], ws[k + 1])
  }

  predicate Finished<K, A>(w: World<K, A>) { forall i :: 0 <= i < |w.pcs| ==> w.pcs[i].Left? }

  // ---- What every reachable state keeps ----

  function Insides<A>(pcs: seq<Pc<A>>): seq<bool> { seq(|pcs|, i requires 0 <= i < |pcs| => pcs[i].Inside()) }

  ghost predicate SlotsInv<K, A>(c: Check<K, A>, w: World<K, A>) {
    |w.pcs| == |c.keys| && w.slots == Count(Insides(w.pcs)) <= c.n
  }

  /** An entry is busy while just one worker fetches for it; it was fetched once if at all. */
  ghost predicate EntriesInv<K(!new), A>(c: Check<K, A>, w: World<K, A>)
    requires |w.pcs| == |c.keys|
  {
    && (forall i :: 0 <= i < |w.pcs| && w.pcs[i].HasEntry() ==> c.keys[i] in w.entries)
    && (forall k :: w.fetched[k] == if k in w.entries && !w.entries[k].Fresh? then 1 else 0)
    && (forall k :: k in w.entries && w.entries[k].Busy? ==> exists i :: Fetches(c, w, i, k))
    && (forall k :: k in w.entries ==> k in c.keys)
  }

  predicate Fetches<K, A>(c: Check<K, A>, w: World<K, A>, i: nat, k: K) {
    i < |w.pcs| == |c.keys| && w.pcs[i].Fetching? && c.keys[i] == k
  }

  ghost predicate FetcherInv<K, A>(c: Check<K, A>, w: World<K, A>)
    requires |w.pcs| == |c.keys|
  {
    && (forall i :: 0 <= i < |w.pcs| && w.pcs[i].Fetching? ==>
          c.keys[i] in w.entries && w.entries[c.keys[i]].Busy?)
    && (forall i, j :: 0 <= i < j < |w.pcs| && w.pcs[i].Fetching? && w.pcs[j].Fetching? ==> c.keys[i] != c.keys[j])
  }

  /** The one answer a policy has got. */
  ghost predicate Answered<K, A>(c: Check<K, A>, w: World<K, A>, i: nat, a: A) {
    i < |c.keys| && c.keys[i] in w.entries && w.entries[c.keys[i]] == Done(a)
  }

  ghost predicate ResultsInv<K, A>(c: Check<K, A>, w: World<K, A>)
    requires |w.pcs| == |c.keys|
  {
    && (forall i :: 0 <= i < |w.pcs| && w.pcs[i].Holding? ==> Answered(c, w, i, w.pcs[i].answer))
    && (forall r :: r in w.results ==> Answered(c, w, r.0, r.1) && w.pcs[r.0].HasResult())
    && (forall i: nat :: i < |w.pcs| && w.pcs[i].HasResult() ==> Listed(w, i))
    && (forall x, y :: 0 <= x < y < |w.results| ==> w.results[x].0 != w.results[y].0)
  }

  ghost predicate Listed<K, A>(w: World<K, A>, i: nat) { exists r :: r in w.results && r.0 == i }

  ghost predicate Inv<K(!new), A>(c: Check<K, A>, w: World<K, A>) {
    SlotsInv(c, w) && EntriesInv(c, w) && FetcherInv(c, w) && ResultsInv(c, w)
  }

  lemma SlotsKept<K(!new), A(!new)>(c: Check<K, A>, w: World<K, A>, i: nat, a: A)
    requires Inv(c, w) && Enabled(c, w, i)
    ensures SlotsInv(c, StepOf(c, w, i, a))
  {
    var w' := StepOf(c, w, i, a);
    hide EntriesInv, FetcherInv, ResultsInv;
    assert Insides(w'.pcs) == Insides(w.pcs)[i := w'.pcs[i].Inside()];
    CountUpdate(Insides(w.pcs), i, w'.pcs[i].Inside());
    hide Count, Insides;
  }

  lemma FetcherKept<K(!new), A(!new)>(c: Check<K, A>, w: World<K, A>, i: nat, a: A)
    requires Inv(c, w) && Enabled(c, w, i)
    ensures |StepOf(c, w, i, a).pcs| == |c.keys| && FetcherInv(c, StepOf(c, w, i, a))
  {
    hide SlotsInv, ResultsInv;
  }

  lemma BusyKept<K(!new), A(!new)>(c: Check<K, A>, w: World<K, A>, i: nat, a: A, k: K)
    requires Inv(c, w) && Enabled(c, w, i)
    requires var w' := StepOf(c, w, i, a); k in w'.entries && w'.entries[k].Busy?
    ensures exists j :: Fetches(c, StepOf(c, w, i, a), j, k)
  {
    hide SlotsInv, ResultsInv;
    var w' := StepOf(c, w, i, a);
    if k in w.entries && w.entries[k].Busy? {
      var j :| Fetches(c, w, j, k);
      assert Fetches(c, w', j, k);
    } else {
      assert Fetches(c, w', i, k);
    }
  }

  lemma EntriesKept<K(!new), A(!new)>(c: Check<K, A>, w: World<K, A>, i: nat, a: A)
    requires Inv(c, w) && Enabled(c, w, i)
    ensures |StepOf(c, w, i, a).pcs| == |c.keys| && EntriesInv(c, StepOf(c, w, i, a))
  {
    var w' := StepOf(c, w, i, a);
    forall k | k in w'.entries && w'.entries[k].Busy? ensures exists j :: Fetches(c, w', j, k) {
      BusyKept(c, w, i, a, k);
    }
    hide SlotsInv, ResultsInv, Fetches;
  }

  lemma ResultsKept<K(!new), A(!new)>(c: Check<K, A>, w: World<K, A>, i: nat, a: A)
    requires Inv(c, w) && Enabled(c, w, i)
    ensures |StepOf(c, w, i, a).pcs| == |c.keys| && ResultsInv(c, StepOf(c, w, i, a))
  {
    hide SlotsInv;
    var w' := StepOf(c, w, i, a);
    forall j, b | Answered(c, w, j, b) ensures Answered(c, w', j, b) {}
    forall j: nat | j < |w'.pcs| && w'.pcs[j].HasResult() ensures Listed(w', j) {
      if w.pcs[j].HasResult() {
        assert Listed(w, j);
        var r :| r in w.results && r.0 == j;
        assert r in w'.results;
      } else {
        assert (i, w.pcs[i].answer) in w'.results;
      }
    }
  }

  lemma NextInv<K(!new), A(!new)>(c: Check<K, A>, w: World<K, A>, w': World<K, A>)
    requires Inv(c, w) && Next(c, w, w')
    ensures Inv(c, w')
  {
    var i: nat, a :| Enabled(c, w, i) && w' == StepOf(c, w, i, a);
    SlotsKept(c, w, i, a);
    EntriesKept(c, w, i, a);
    FetcherKept(c, w, i, a);
    ResultsKept(c, w, i, a);
    hide SlotsInv, EntriesInv, FetcherInv, ResultsInv, StepOf;
  }

  lemma InitInv<K(!new), A(!new)>(c: Check<K, A>, w: World<K, A>)
    requires Init(c, w)
    ensures Inv(c, w)
  {
    CountNone(Insides(w.pcs));
  }

  lemma RunInv<K(!new), A(!new)>(c: Check<K, A>, ws: seq<World<K, A>>)
    requires Run(c, ws)
    ensures forall k :: 0 <= k < |ws| ==> Inv(c, ws[k])
  {
    InitInv(c, ws[0]);
    var k := 0;
    while k < |ws| - 1
      invariant 0 <= k < |ws| && forall j :: 0 <= j <= k ==> Inv(c, ws[j])
    {
      assert Next(c, ws[k], ws[k + 1]);
      NextInv(c, ws[k], ws[k + 1]);
      k := k + 1;
    }
  }

  /** No tag list is fetched twice, whatever the schedule; and at most `n` workers are at it. */
  lemma FetchedOnce<K(!new), A(!new)>(c: Check<K, A>, ws: seq<World<K, A>>, k: nat, key: K)
    requires Run(c, ws) && k < |ws|
    ensures ws[k].fetched[key] <= 1 && ws[k].slots <= c.n
  {
    RunInv(c, ws);
    assert Inv(c, ws[k]);
  }

  /** All workers of one policy are given the same answer. */
  lemma SameAnswer<K(!new), A(!new)>(c: Check<K, A>, ws: seq<World<K, A>>, k: nat, r: (nat, A), s: (nat, A))
    requires Run(c, ws) && k < |ws| && r in ws[k].results && s in ws[k].results
    requires r.0 < |c.keys| && s.0 < |c.keys| && c.keys[r.0] == c.keys[s.0]
    ensures r.1 == s.1
  {
    RunInv(c, ws);
    assert Inv(c, ws[k]);
    assert Answered(c, ws[k], r.0, r.1) && Answered(c, ws[k], s.0, s.1);
  }

  // ---- The report ----

  /** What the registry answered, policy by policy, as the cache holds it. */
  function Answers<K, A>(w: World<K, A>): map<K, A> {
    map k | k in w.entries && w.entries[k].Done? :: w.entries[k].answer
  }

  function Expected<K, A>(keys: seq<K>, answers: map<K, A>): seq<(nat, A)>
    requires forall i :: 0 <= i < |keys| ==> keys[i] in answers
  {
    seq(|keys|, i requires 0 <= i < |keys| => (i, answers[keys[i]]))
  }

  lemma AllAnswered<K(!new), A(!new)>(c: Check<K, A>, w: World<K, A>)
    requires Inv(c, w) && Finished(w)
    ensures forall i :: 0 <= i < |c.keys| ==> c.keys[i] in w.entries && w.entries[c.keys[i]].Done?
    ensures forall i :: 0 <= i < |c.keys| ==> c.keys[i] in Answers(w)
  {
    forall i | 0 <= i < |c.keys| ensures c.keys[i] in w.entries && w.entries[c.keys[i]].Done? {
      assert Listed(w, i);
      var r :| r in w.results && r.0 == i;
      assert Answered(c, w, i, r.1);
    }
  }

  /** At the end every policy was asked for once, and every item has exactly one result, with its policy's one answer. */
  lemma FinishedResults<K(!new), A(!new)>(c: Check<K, A>, w: World<K, A>)
    requires Inv(c, w) && Finished(w)
    ensures forall i :: 0 <= i < |c.keys| ==> c.keys[i] in Answers(w)
    ensures multiset(w.results) == multiset(Expected(c.keys, Answers(w)))
    ensures forall k :: w.fetched[k] == if k in c.keys then 1 else 0
  {
    AllAnswered(c, w);
    var expected := Expected(c.keys, Answers(w));
    forall i | 0 <= i < |c.keys| ensures expected[i] in w.results {
      assert Listed(w, i);
      var r :| r in w.results && r.0 == i;
      assert Answered(c, w, i, r.1);
    }
    forall r | r in w.results ensures r in expected {
      assert Answered(c, w, r.0, r.1);
      assert r == expected[r.0];
    }
    assert Elems(w.results) == Elems(expected);
    SameSet(w.results, expected);
    forall k | k in c.keys ensures k in w.entries && w.entries[k].Done? {
      var i :| 0 <= i < |c.keys| && c.keys[i] == k;
    }
  }

  /** The sorted report is the same for every schedule in which the registry gives the same answers. */
  lemma ReportIgnoresSchedule<K(!new), A(!new)>(c: Check<K, A>, w: World<K, A>, w': World<K, A>,
                                                less: ((nat, A), (nat, A)) -> bool)
    requires Inv(c, w) && Finished(w) && Inv(c, w') && Finished(w') && Answers(w) == Answers(w')
    requires Orders(less, w.results)
    ensures Sort(less, w.results) == Sort(less, w'.results)
  {
    FinishedResults(c, w);
    FinishedResults(c, w');
    hide Inv, Expected, Orders, Answers;
    SortIgnoresOrder(less, w.results, w'.results);
  }

  // ---- Progress ----

  /** Waiting for another worker's fetch never blocks all: the pool is stuck only without a slot. */
  lemma NoDeadlockIff<K(!new), A(!new)>(c: Check<K, A>, w: World<K, A>, a: A)
    requires Inv(c, w) && !Finished(w)
    ensures (exists i :: Enabled(c, w, i)) <==> c.n > 0
    ensures c.n > 0 ==> exists w' :: Next(c, w, w')
  {
    var bs := Insides(w.pcs);
    CountNone(bs);
    if c.n == 0 {
      forall i: nat ensures !Enabled(c, w, i) {
        if i < |w.pcs| { assert !bs[i]; }
      }
    } else {
      var i := Movable(c, w);
      assert Next(c, w, StepOf(c, w, i, a));
    }
  }

  lemma Movable<K(!new), A(!new)>(c: Check<K, A>, w: World<K, A>) returns (i: nat)
    requires Inv(c, w) && !Finished(w) && c.n > 0
    ensures Enabled(c, w, i)
  {
    var bs := Insides(w.pcs);
    CountNone(bs);
    if Count(bs) == 0 {
      i :| i < |w.pcs| && !w.pcs[i].Left?;
      assert !bs[i];
    } else {
      i :| i < |bs| && bs[i];
      var k := c.keys[i];
      if w.pcs[i].AtOnce? && w.entries[k].Busy? {
        i :| Fetches(c, w, i, k);
      }
    }
  }

  function Rests<A>(pcs: seq<Pc<A>>): seq<int> { seq(|pcs|, i requires 0 <= i < |pcs| => pcs[i].ToGo()) }

  function ToGo<A>(pcs: seq<Pc<A>>): int { Sum(Rests(pcs)) }

  lemma OneNearer<K(!new), A(!new)>(c: Check<K, A>, w: World<K, A>, i: nat, a: A)
    requires Enabled(c, w, i)
    ensures |StepOf(c, w, i, a).pcs| == |w.pcs|
    ensures var pc := StepOf(c, w, i, a).pcs[i];
            StepOf(c, w, i, a).pcs == w.pcs[i := pc] && pc.ToGo() < w.pcs[i].ToGo()
  {
    hide ToGo;
  }

  lemma Nearer<K(!new), A(!new)>(c: Check<K, A>, w: World<K, A>, w': World<K, A>)
    requires Next(c, w, w')
    ensures ToGo(w'.pcs) < ToGo(w.pcs)
  {
    var i: nat, a :| Enabled(c, w, i) && w' == StepOf(c, w, i, a);
    OneNearer(c, w, i, a);
    assert Rests(w'.pcs) == Rests(w.pcs)[i := w'.pcs[i].ToGo()];
    SumUpdate(Rests(w.pcs), i, w'.pcs[i].ToGo());
    hide *;
  }

  /** No run is longer than six steps an item. */
  lemma {:induction false} RunsEnd<K(!new), A(!new)>(c: Check<K, A>, ws: seq<World<K, A>>, k: nat)
    requires Run(c, ws) && k < |ws|
    ensures k + ToGo(ws[k].pcs) <= 6 * |c.keys| && ToGo(ws[k].pcs) >= 0
  {
    hide Next;
    if k == 0 {
      SumOfSame(Rests(ws[0].pcs), 6);
    } else {
      RunsEnd(c, ws, k - 1);
      assert Next(c, ws[k - 1], ws[k - 1 + 1]);
      Nearer(c, ws[k - 1], ws[k]);
    }
    SumAtMost(Rests(ws[k].pcs), Rests(ws[k].pcs));
  }
}
