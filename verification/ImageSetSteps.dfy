/**
 The invariant of the image set and its preservation: what holds of the ledger,
 the lock and the host between any two steps, and why each step of a job, the
 failing ones included, keeps it.
 */
module ImageSetSteps {
  import opened Options
  import opened ImageSet

  // ---- The invariant ----

  ghost predicate JobsValid(w: World) {
    && (forall j :: 0 <= j < |w.jobs| ==> w.jobs[j].Valid())
    && (forall j :: 0 <= j < |w.jobs| ==> (w.jobs[j].Critical() <==> w.lock == Some(j)))
    && (w.lock.Some? ==> w.lock.value < |w.jobs|)
  }

  ghost function Holders(w: World, r: Ref): set<nat>
    requires JobsValid(w)
  {
    set j: nat | j < |w.jobs| && r in w.jobs[j].Held()
  }

  /** The user counts are exact. */
  ghost predicate CountsExact(w: World)
    requires JobsValid(w)
  {
    forall r :: w.ledger.Users(r) == |Holders(w, r)|
  }

  /** What the ledger remembers about the host before the run. */
  ghost predicate Remembers(w: World, start: set<Ref>) {
    && w.lied <= start
    && (forall r :: w.ledger.Seen(r) ==> (w.ledger.preexisting[r] <==> r in start && r !in w.lied))
    && (forall r :: !w.ledger.Seen(r) ==> (r in w.images <==> r in start) && r !in w.lied)
    && (forall r :: w.ledger.Seen(r) && w.ledger.preexisting[r] ==> r in w.images)
    && (w.ledger.keep ==> start <= w.images)
  }

  /** Every reference a job touches has been looked up. */
  ghost predicate LookedUp(w: World)
    requires JobsValid(w)
  {
    forall j :: 0 <= j < |w.jobs| ==>
      && (forall r :: r in w.jobs[j].Held() ==> w.ledger.Seen(r))
      && (w.jobs[j].Critical() ==> (w.ledger.Seen(w.jobs[j].Current()) <==> !w.jobs[j].pc.Inspecting?))
  }

  ghost predicate UsersKeepImages(w: World)
    requires JobsValid(w)
  {
    forall j :: 0 <= j < |w.jobs| ==> w.jobs[j].InUse() <= w.images
  }

  /** A job is between looking `r` up and counting itself, or about to remove it. */
  ghost predicate Busy(w: World, r: Ref)
    requires JobsValid(w)
  {
    w.lock.Some? && var a := w.jobs[w.lock.value]; (a.pc.Counting? || a.pc.Removing?) && a.Current() == r
  }

  ghost predicate Abandoned(w: World, r: Ref)
    requires JobsValid(w)
  {
    && w.ledger.Seen(r) && !w.ledger.preexisting[r] && !w.ledger.keep
    && w.ledger.Users(r) == 0 && !Busy(w, r)
  }

  /** Nothing pulled outlives its last user. */
  ghost predicate CleansUp(w: World)
    requires JobsValid(w)
  {
    && (forall r :: Abandoned(w, r) ==> r !in w.images)
    && (w.lock.Some? && w.jobs[w.lock.value].pc.Removing? ==>
          w.ledger.MustRemove(w.jobs[w.lock.value].Current()))
  }

  ghost predicate Inv(w: World, start: set<Ref>) {
    && JobsValid(w) && CountsExact(w) && Remembers(w, start)
    && LookedUp(w) && UsersKeepImages(w) && CleansUp(w)
  }

  // ---- One step keeps the invariant ----

  lemma SpanEnds(refs: seq<Ref>, lo: nat, hi: nat)
    requires lo < hi <= |refs| && forall i, j :: 0 <= i < j < |refs| ==> refs[i] != refs[j]
    ensures Span(refs, lo, hi) == Span(refs, lo, hi - 1) + {refs[hi - 1]} && refs[hi - 1] !in Span(refs, lo, hi - 1)
    ensures Span(refs, lo, hi) == {refs[lo]} + Span(refs, lo + 1, hi) && refs[lo] !in Span(refs, lo + 1, hi)
  {
  }

  /** Only job `j` moved. */
  ghost predicate Moved(w: World, w': World, j: nat) {
    j < |w.jobs| == |w'.jobs| && w'.jobs == w.jobs[j := w'.jobs[j]]
  }

  /** How one job's move changes the number of holders of `r`. */
  lemma HoldersChange(w: World, w': World, j: nat, r: Ref)
    requires JobsValid(w) && JobsValid(w') && Moved(w, w', j)
    ensures |Holders(w', r)| == |Holders(w, r)|
            + (if r in w'.jobs[j].Held() then 1 else 0) - (if r in w.jobs[j].Held() then 1 else 0)
  {
    var h, h' := Holders(w, r), Holders(w', r);
    forall i: nat | i != j ensures i in h' <==> i in h {
      if i < |w.jobs| { assert w'.jobs[i] == w.jobs[i]; }
    }
    assert h' - {j} == h - {j};
    assert j in h' <==> r in w'.jobs[j].Held();
    assert j in h <==> r in w.jobs[j].Held();
    assert |h'| == |h' - {j}| + (if j in h' then 1 else 0);
    assert |h| == |h - {j}| + (if j in h then 1 else 0);
  }

  lemma SameHeldSameCounts(w: World, w': World, j: nat)
    requires JobsValid(w) && JobsValid(w') && Moved(w, w', j)
    requires CountsExact(w) && w'.ledger.users == w.ledger.users && w'.jobs[j].Held() == w.jobs[j].Held()
    ensures CountsExact(w')
  {
    forall r ensures w'.ledger.Users(r) == |Holders(w', r)| {
      HoldersChange(w, w', j, r);
      assert w.ledger.Users(r) == |Holders(w, r)|;
    }
  }

  lemma TakeAcquireKeeps(w: World, w': World, j: nat, start: set<Ref>)
    requires Inv(w, start) && TakeAcquire(w, w', j)
    ensures Inv(w', start)
  {
    SameHeldSameCounts(w, w', j);
    hide CountsExact;
  }

  lemma InspectKeepsUse(w: World, w': World, j: nat, found: bool, start: set<Ref>)
    requires Inv(w, start) && Inspect(w, w', j, found)
    ensures JobsValid(w') && LookedUp(w') && UsersKeepImages(w') && Remembers(w', start)
  {
    hide CountsExact, CleansUp, Holders;
    assert JobsValid(w');
  }

  lemma InspectKeeps(w: World, w': World, j: nat, found: bool, start: set<Ref>)
    requires Inv(w, start) && Inspect(w, w', j, found)
    ensures Inv(w', start)
  {
    InspectKeepsUse(w, w', j, found, start);
    SameHeldSameCounts(w, w', j);
    hide CountsExact, LookedUp, UsersKeepImages, Remembers;
    forall r | Abandoned(w', r) ensures r !in w'.images {
      if r != w.jobs[j].Current() { assert Abandoned(w, r); }
    }
  }

  lemma CountKeepsCounts(w: World, w': World, j: nat, start: set<Ref>)
    requires Inv(w, start) && Count(w, w', j)
    ensures JobsValid(w') && CountsExact(w')
  {
    SpanEnds(w.jobs[j].refs, 0, w.jobs[j].got);
    hide Remembers, LookedUp, UsersKeepImages, CleansUp;
    assert JobsValid(w');
    forall r ensures w'.ledger.Users(r) == |Holders(w', r)| {
      HoldersChange(w, w', j, r);
      assert w.ledger.Users(r) == |Holders(w, r)|;
    }
  }

  lemma CountKeepsUse(w: World, w': World, j: nat, start: set<Ref>)
    requires Inv(w, start) && Count(w, w', j) && JobsValid(w')
    ensures LookedUp(w') && UsersKeepImages(w') && Remembers(w', start)
  {
    SpanEnds(w.jobs[j].refs, 0, w.jobs[j].got);
    hide CountsExact, CleansUp, Holders;
  }

  lemma CountKeeps(w: World, w': World, j: nat, start: set<Ref>)
    requires Inv(w, start) && Count(w, w', j)
    ensures Inv(w', start)
  {
    var a := w.jobs[j];
    CountKeepsCounts(w, w', j, start);
    CountKeepsUse(w, w', j, start);
    CountsAreNonNegative(w);
    assert CountsNonNegative(w, a.refs[a.got - 1]);
    hide CountsExact, LookedUp, UsersKeepImages, Remembers;
    forall r | Abandoned(w', r) ensures r !in w'.images {
      assert Abandoned(w, r);
    }
  }

  ghost predicate CountsNonNegative(w: World, r: Ref) { w.ledger.Users(r) >= 0 }

  lemma CountsAreNonNegative(w: World)
    requires JobsValid(w) && CountsExact(w)
    ensures forall r :: CountsNonNegative(w, r)
  {
    forall r ensures CountsNonNegative(w, r) { assert w.ledger.Users(r) == |Holders(w, r)|; }
  }

  lemma HoldersPositive(w: World, j: nat, r: Ref)
    requires JobsValid(w) && CountsExact(w) && j < |w.jobs| && r in w.jobs[j].Held()
    ensures w.ledger.Users(r) > 0
  {
    assert w.ledger.Users(r) == |Holders(w, r)|;
    assert j in Holders(w, r);
  }

  lemma FailedPullKeeps(w: World, w': World, j: nat, start: set<Ref>)
    requires Inv(w, start) && Pull(w, w', j, false)
    ensures Inv(w', start)
  {
    SameHeldSameCounts(w, w', j);
    hide CountsExact;
    forall r | Abandoned(w', r) ensures r !in w'.images {
      assert Abandoned(w, r);
    }
  }

  lemma PullKeepsUse(w: World, w': World, j: nat, start: set<Ref>)
    requires Inv(w, start) && Pull(w, w', j, true)
    ensures JobsValid(w') && LookedUp(w') && UsersKeepImages(w') && Remembers(w', start)
  {
    SpanEnds(w.jobs[j].refs, 0, w.jobs[j].got);
    hide CountsExact, CleansUp, Holders;
    assert JobsValid(w');
    assert w.ledger.Seen(w.jobs[j].refs[w.jobs[j].got - 1]);
  }

  lemma PullKeeps(w: World, w': World, j: nat, start: set<Ref>)
    requires Inv(w, start) && Pull(w, w', j, true)
    ensures Inv(w', start)
  {
    var a := w.jobs[j];
    SpanEnds(a.refs, 0, a.got);
    PullKeepsUse(w, w', j, start);
    SameHeldSameCounts(w, w', j);
    HoldersPositive(w, j, a.refs[a.got - 1]);
    hide CountsExact, LookedUp, UsersKeepImages, Remembers;
    forall r | Abandoned(w', r) ensures r !in w'.images {
      assert Abandoned(w, r);
    }
  }

  lemma StartKeeps(w: World, w': World, j: nat, start: set<Ref>)
    requires Inv(w, start) && Start(w, w', j)
    ensures Inv(w', start)
  {
    SameHeldSameCounts(w, w', j);
    hide CountsExact;
    forall r | Abandoned(w', r) ensures r !in w'.images {
      assert Abandoned(w, r);
    }
  }

  lemma StopKeeps(w: World, w': World, j: nat, start: set<Ref>)
    requires Inv(w, start) && Stop(w, w', j)
    ensures Inv(w', start)
  {
    SameHeldSameCounts(w, w', j);
    hide CountsExact;
    forall r | Abandoned(w', r) ensures r !in w'.images {
      assert Abandoned(w, r);
    }
  }

  lemma TakeReleaseKeeps(w: World, w': World, j: nat, start: set<Ref>)
    requires Inv(w, start) && TakeRelease(w, w', j)
    ensures Inv(w', start)
  {
    var a := w.jobs[j];
    if a.pc.k == a.got { assert Span(a.refs, a.got, a.got) == {}; }
    SameHeldSameCounts(w, w', j);
    hide CountsExact;
    forall r | Abandoned(w', r) ensures r !in w'.images {
      assert Abandoned(w, r);
    }
  }

  /** Job `j` leaves, or stays in, the critical section. */
  lemma ValidAfter(w: World, w': World, j: nat)
    requires JobsValid(w) && w.lock == Some(j) && Moved(w, w', j) && w'.jobs[j].Valid()
    requires if w'.jobs[j].Critical() then w'.lock == Some(j) else w'.lock == None
    ensures JobsValid(w')
  {
  }

  lemma DropCounts(w: World, w': World, j: nat)
    requires JobsValid(w) && JobsValid(w') && CountsExact(w) && Drop(w, w', j)
    ensures CountsExact(w') && forall r :: CountsNonNegative(w', r)
  {
    var a := w.jobs[j];
    SpanEnds(a.refs, a.pc.k, a.got);
    hide JobsValid;
    forall r ensures w'.ledger.Users(r) == |Holders(w', r)| {
      HoldersChange(w, w', j, r);
      assert w.ledger.Users(r) == |Holders(w, r)|;
    }
    CountsAreNonNegative(w');
  }

  lemma DropLedger(w: World, w': World, j: nat, start: set<Ref>)
    requires JobsValid(w) && JobsValid(w') && Drop(w, w', j)
    requires Remembers(w, start) && LookedUp(w) && UsersKeepImages(w)
    ensures Remembers(w', start) && LookedUp(w') && UsersKeepImages(w')
  {
    var a, b := w.jobs[j], w'.jobs[j];
    SpanEnds(a.refs, a.pc.k, a.got);
    assert b.Held() <= a.Held() && b.InUse() <= a.InUse();
    hide Span;
    forall i | 0 <= i < |w'.jobs|
      ensures w'.jobs[i].Held() <= w.jobs[i].Held() && w'.jobs[i].InUse() <= w'.images
      ensures w'.jobs[i].Critical() ==> (w'.ledger.Seen(w'.jobs[i].Current()) <==> !w'.jobs[i].pc.Inspecting?)
    {
      if i != j { assert w'.jobs[i] == w.jobs[i]; }
    }
  }

  lemma DropKeeps(w: World, w': World, j: nat, start: set<Ref>)
    requires Inv(w, start) && Drop(w, w', j)
    ensures Inv(w', start)
  {
    ValidAfter(w, w', j);
    DropCounts(w, w', j);
    DropLedger(w, w', j, start);
    hide CountsExact, JobsValid, Remembers, LookedUp, UsersKeepImages, Span;
    var r0 := w.jobs[j].refs[w.jobs[j].pc.k];
    assert CountsNonNegative(w', r0);
    forall r | Abandoned(w', r) ensures r !in w'.images {
      if r != r0 { assert Abandoned(w, r); }
    }
  }

  lemma RemoveKeeps(w: World, w': World, j: nat, start: set<Ref>)
    requires Inv(w, start) && Remove(w, w', j)
    ensures Inv(w', start)
  {
    var a := w.jobs[j];
    var r0 := a.refs[a.pc.k];
    SameHeldSameCounts(w, w', j);
    forall i | 0 <= i < |w.jobs| ensures r0 !in w.jobs[i].InUse() {
      if r0 in w.jobs[i].InUse() {
        assert r0 in w.jobs[i].Held();
        HoldersPositive(w, i, r0);
      }
    }
    hide CountsExact;
    forall r | Abandoned(w', r) ensures r !in w'.images {
      if r != r0 { assert Abandoned(w, r); }
    }
  }

  lemma StepKeeps(w: World, w': World, start: set<Ref>)
    requires Inv(w, start) && Step(w, w')
    ensures Inv(w', start)
  {
    var j: nat :| StepOf(w, w', j);
    hide Inv;
    if TakeAcquire(w, w', j) { TakeAcquireKeeps(w, w', j, start); }
    else if Inspect(w, w', j, true) { InspectKeeps(w, w', j, true, start); }
    else if Inspect(w, w', j, false) { InspectKeeps(w, w', j, false, start); }
    else if Count(w, w', j) { CountKeeps(w, w', j, start); }
    else if Pull(w, w', j, true) { PullKeeps(w, w', j, start); }
    else if Pull(w, w', j, false) { FailedPullKeeps(w, w', j, start); }
    else if Start(w, w', j) { StartKeeps(w, w', j, start); }
    else if Stop(w, w', j) { StopKeeps(w, w', j, start); }
    else if TakeRelease(w, w', j) { TakeReleaseKeeps(w, w', j, start); }
    else if Drop(w, w', j) { DropKeeps(w, w', j, start); }
    else { RemoveKeeps(w, w', j, start); }
  }

  lemma InitInv(w: World)
    requires Init(w)
    ensures Inv(w, w.images)
  {
    forall r ensures Holders(w, r) == {} {
      forall j | 0 <= j < |w.jobs| ensures r !in w.jobs[j].Held() {
        assert w.jobs[j].Valid();
      }
    }
  }
}
