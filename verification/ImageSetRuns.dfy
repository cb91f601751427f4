/** What all interleavings of the image set keep, and how they end. */
module ImageSetRuns {
  import Counting
  import opened Options
  import opened ImageSet
  import opened ImageSetSteps

  // ---- Main results ----

  lemma RunInv(ws: seq<World>)
    requires Run(ws)
    ensures forall i :: 0 <= i < |ws| ==> Inv(ws[i], ws[0].images)
  {
    InitInv(ws[0]);
    var i := 0;
    while i < |ws| - 1
      invariant 0 <= i < |ws| && forall k :: 0 <= k <= i ==> Inv(ws[k], ws[0].images)
    {
      assert Step(ws[i], ws[i + 1]);
      StepKeeps(ws[i], ws[i + 1], ws[0].images);
      i := i + 1;
    }
  }

  /**
   In every reachable state, under every interleaving: an image whose pull
   finished is there until its job releases it, a running job has all its
   images, and an image the host had before is there unless an inspection
   called it absent.
   */
  lemma ImagesSafe(ws: seq<World>, i: nat)
    requires Run(ws) && i < |ws|
    ensures forall a :: a in ws[i].jobs ==> a.Valid() && a.InUse() <= ws[i].images
    ensures forall a, r :: a in ws[i].jobs && a.pc.Running? && r in a.refs ==> r in ws[i].images
    ensures ws[0].images - (if ws[i].ledger.keep then {} else ws[i].lied) <= ws[i].images
  {
    RunInv(ws);
  }

  /** The image of every container on the host is there, whoever removes images; and a job releases none before its containers are gone. */
  lemma ContainersSafe(ws: seq<World>, i: nat)
    requires Run(ws) && i < |ws|
    ensures forall a, r :: a in ws[i].jobs && r in a.up ==> r in ws[i].images
    ensures forall a :: a in ws[i].jobs && (a.pc.Unwinding? || a.pc.Dropping? || a.pc.Removing? || a.pc.Finished?) ==> a.up == {}
  {
    ImagesSafe(ws, i);
  }

  ghost predicate AllDone(w: World) {
    forall j :: 0 <= j < |w.jobs| ==> w.jobs[j].pc.Finished?
  }

  /** When all jobs are done and images are not kept, the host is as it was, minus what inspection missed. */
  lemma HostRestored(ws: seq<World>, i: nat)
    requires Run(ws) && i < |ws| && AllDone(ws[i]) && !ws[i].ledger.keep
    ensures ws[i].images == ws[0].images - ws[i].lied
    ensures ws[i].images == ws[0].images <==> ws[i].lied == {}
  {
    var w, start := ws[i], ws[0].images;
    RunInv(ws);
    forall r ensures r in w.images <==> r in start && r !in w.lied {
      assert w.ledger.Users(r) == |Holders(w, r)|;
      assert Holders(w, r) == {};
      if w.ledger.Seen(r) && !w.ledger.preexisting[r] { assert Abandoned(w, r); }
    }
  }

  /** At most one job is in the critical section, and the lock is never stuck. */
  lemma Progress(ws: seq<World>, i: nat)
    requires Run(ws) && i < |ws|
    ensures forall j, k | 0 <= j < |ws[i].jobs| && 0 <= k < |ws[i].jobs| ::
              ws[i].jobs[j].Critical() && ws[i].jobs[k].Critical() ==> j == k
    ensures !AllDone(ws[i]) ==> exists w' :: Step(ws[i], w')
  {
    var w := ws[i];
    RunInv(ws);
    if !AllDone(w) {
      if w.lock.Some? {
        LockHolderMoves(w, w.lock.value);
      } else {
        var j :| 0 <= j < |w.jobs| && !w.jobs[j].pc.Finished?;
        FreeJobMoves(w, j);
      }
    }
  }

  lemma LockHolderMoves(w: World, j: nat)
    requires JobsValid(w) && w.lock == Some(j)
    ensures exists w' :: Step(w, w')
  {
    var a := w.jobs[j];
    if a.pc.Inspecting? {
      var r := a.refs[a.got - 1];
      var w' := w.With(j, a.(pc := Counting)).(
                  ledger := w.ledger.Inspected(r, false),
                  lied := if r in w.images then w.lied + {r} else w.lied);
      assert Inspect(w, w', j, false) && StepOf(w, w', j) && Step(w, w');
    } else if a.pc.Counting? {
      var w' := w.With(j, a.(pc := Pulling)).(ledger := w.ledger.Counted(a.refs[a.got - 1]), lock := None);
      assert Count(w, w', j) && StepOf(w, w', j) && Step(w, w');
    } else if a.pc.Dropping? {
      var l := w.ledger.Dropped(a.refs[a.pc.k]);
      var w' := if l.MustRemove(a.refs[a.pc.k])
                then w.With(j, a.(pc := Removing(a.pc.k))).(ledger := l)
                else w.With(j, a.(pc := Unwinding(a.pc.k + 1))).(ledger := l, lock := None);
      assert Drop(w, w', j) && StepOf(w, w', j) && Step(w, w');
    } else {
      var w' := w.With(j, a.(pc := Unwinding(a.pc.k + 1))).(
                  images := w.images - {a.refs[a.pc.k]}, lock := None);
      assert Remove(w, w', j) && StepOf(w, w', j) && Step(w, w');
    }
  }

  lemma FreeJobMoves(w: World, j: nat)
    requires JobsValid(w) && w.lock == None && j < |w.jobs| && !w.jobs[j].pc.Finished?
    ensures exists w' :: Step(w, w')
  {
    var a := w.jobs[j];
    assert !a.Critical();
    if a.pc.Next? {
      var pc := if w.ledger.Seen(a.refs[a.got]) then Counting else Inspecting;
      var w' := w.With(j, a.(pc := pc, got := a.got + 1)).(lock := Some(j));
      assert TakeAcquire(w, w', j) && StepOf(w, w', j) && Step(w, w');
    } else if a.pc.Pulling? {
      var w' := w.With(j, a.(pc := Unwinding(0)));
      assert Pull(w, w', j, false) && StepOf(w, w', j) && Step(w, w');
    } else if a.pc.Running? {
      var w' := w.With(j, a.(pc := Unwinding(0), up := {}));
      assert Stop(w, w', j) && StepOf(w, w', j) && Step(w, w');
    } else {
      var w' := if a.pc.k == a.got then w.With(j, a.(pc := Finished))
                else w.With(j, a.(pc := Dropping(a.pc.k))).(lock := Some(j));
      assert TakeRelease(w, w', j) && StepOf(w, w', j) && Step(w, w');
    }
  }

  // ---- Every run ends ----

  lemma {:induction false} SpanSize(refs: seq<Ref>, hi: nat)
    requires hi <= |refs|
    ensures |Span(refs, 0, hi)| <= hi
  {
    if hi > 0 {
      SpanSize(refs, hi - 1);
      assert Span(refs, 0, hi) == Span(refs, 0, hi - 1) + {refs[hi - 1]};
    }
  }

  /** An upper bound on the steps a job has left. */
  ghost function StepsLeft(a: Job): int {
    var refs, got := |a.refs|, a.got;
    match a.pc
    case Next => 7 * (refs - got) + 3 * got + 2 + refs
    case Inspecting => 7 * (refs - got) + 3 * got + 5 + refs
    case Counting => 7 * (refs - got) + 3 * got + 4 + refs
    case Pulling => 7 * (refs - got) + 3 * got + 3 + refs
    case Running => 3 * got + 2 + |Span(a.refs, 0, refs) - a.up|
    case Unwinding(k) => 3 * (got - k) + 1
    case Dropping(k) => 3 * (got - k)
    case Removing(k) => 3 * (got - k) - 1
    case Finished => 0
  }

  ghost function Lefts(jobs: seq<Job>): seq<int> { seq(|jobs|, j requires 0 <= j < |jobs| => StepsLeft(jobs[j])) }

  /** Whichever job moves has less to do afterwards. */
  ghost predicate JobNearer(w: World, w': World, j: nat) {
    Moved(w, w', j) && StepsLeft(w'.jobs[j]) < StepsLeft(w.jobs[j])
  }

  lemma AcquiringNearer(w: World, w': World, j: nat)
    requires j < |w.jobs| == |w'.jobs| && w.jobs[j].Valid() && w'.jobs[j].Valid()
    requires
      || TakeAcquire(w, w', j) || Inspect(w, w', j, true) || Inspect(w, w', j, false) || Count(w, w', j)
      || Pull(w, w', j, true) || Pull(w, w', j, false)
    ensures JobNearer(w, w', j)
  {
    var a := w.jobs[j];
    assert w'.jobs == w.jobs[j := w'.jobs[j]];
    SpanSize(a.refs, |a.refs|);
    assert |Span(a.refs, 0, |a.refs|) - a.up| <= |Span(a.refs, 0, |a.refs|)|;
  }

  lemma StartingNearer(w: World, w': World, j: nat)
    requires Start(w, w', j)
    ensures JobNearer(w, w', j)
  {
    var a := w.jobs[j];
    var all := Span(a.refs, 0, |a.refs|);
    var r :| r in a.refs && r !in a.up && w' == w.With(j, a.(up := a.up + {r}));
    assert all - (a.up + {r}) == all - a.up - {r} && r in all - a.up;
  }

  lemma StoppingNearer(w: World, w': World, j: nat)
    requires Stop(w, w', j)
    ensures JobNearer(w, w', j)
  {
    assert w'.jobs == w.jobs[j := w'.jobs[j]];
  }

  lemma ReleasingNearer(w: World, w': World, j: nat)
    requires j < |w.jobs| == |w'.jobs| && w.jobs[j].Valid() && w'.jobs[j].Valid()
    requires TakeRelease(w, w', j) || Drop(w, w', j) || Remove(w, w', j)
    ensures JobNearer(w, w', j)
  {
    assert w'.jobs == w.jobs[j := w'.jobs[j]];
    hide Span;
  }

  lemma OneJobNearer(w: World, w': World, j: nat)
    requires StepOf(w, w', j) && j < |w.jobs| == |w'.jobs| && w.jobs[j].Valid() && w'.jobs[j].Valid()
    ensures JobNearer(w, w', j)
  {
    hide TakeAcquire, Inspect, Count, Pull, Start, Stop, TakeRelease, Drop, Remove, Job.Valid, JobNearer;
    if Start(w, w', j) {
      StartingNearer(w, w', j);
    } else if Stop(w, w', j) {
      StoppingNearer(w, w', j);
    } else if TakeRelease(w, w', j) || Drop(w, w', j) || Remove(w, w', j) {
      ReleasingNearer(w, w', j);
    } else {
      AcquiringNearer(w, w', j);
    }
  }

  lemma SumNearer(w: World, w': World, j: nat)
    requires JobNearer(w, w', j)
    ensures Counting.Sum(Lefts(w'.jobs)) < Counting.Sum(Lefts(w.jobs))
  {
    hide StepsLeft;
    assert Lefts(w'.jobs) == Lefts(w.jobs)[j := StepsLeft(w'.jobs[j])];
    Counting.SumUpdate(Lefts(w.jobs), j, StepsLeft(w'.jobs[j]));
  }

  lemma Nearer(w: World, w': World)
    requires JobsValid(w) && JobsValid(w') && Step(w, w')
    ensures Counting.Sum(Lefts(w'.jobs)) < Counting.Sum(Lefts(w.jobs))
  {
    var j: nat :| StepOf(w, w', j);
    assert j < |w.jobs| == |w'.jobs|;
    hide StepOf;
    OneJobNearer(w, w', j);
    SumNearer(w, w', j);
  }

  /** What each job has to do at most. */
  function Work(jobs: seq<Job>): seq<int> { seq(|jobs|, j requires 0 <= j < |jobs| => 8 * |jobs[j].refs| + 2) }

  lemma LeftNonNegative(a: Job)
    requires a.Valid()
    ensures StepsLeft(a) >= 0
  {
  }

  lemma {:induction false} StepsUsed(ws: seq<World>, i: nat)
    requires Run(ws) && i < |ws|
    ensures i + Counting.Sum(Lefts(ws[i].jobs)) <= Counting.Sum(Work(ws[0].jobs))
  {
    RunInv(ws);
    if i == 0 {
      forall j | 0 <= j < |ws[0].jobs| ensures 0 <= StepsLeft(ws[0].jobs[j]) <= 8 * |ws[0].jobs[j].refs| + 2 {
        LeftNonNegative(ws[0].jobs[j]);
      }
      Counting.SumAtMost(Lefts(ws[0].jobs), Work(ws[0].jobs));
    } else {
      StepsUsed(ws, i - 1);
      assert Step(ws[i - 1], ws[i - 1 + 1]);
      Nearer(ws[i - 1], ws[i]);
    }
    hide Step, Lefts;
  }

  /** No run is longer than eight steps for each image of each job, and two for each job. */
  lemma RunsEnd(ws: seq<World>)
    requires Run(ws)
    ensures |ws| <= Counting.Sum(Work(ws[0].jobs)) + 1
  {
    RunInv(ws);
    var jobs := ws[|ws| - 1].jobs;
    StepsUsed(ws, |ws| - 1);
    forall j | 0 <= j < |jobs| ensures 0 <= StepsLeft(jobs[j]) { LeftNonNegative(jobs[j]); }
    Counting.SumAtMost(Lefts(jobs), Lefts(jobs));
  }

  // ---- The inspection assumption is needed ----

  /** One job, one image the user already has, and an inspection cut short: the image is gone afterwards. */
  lemma InterruptedInspectionLosesImage(r: Ref) returns (ws: seq<World>)
    ensures Run(ws) && r in ws[0].images && !ws[0].ledger.keep
    ensures AllDone(ws[|ws| - 1]) && r !in ws[|ws| - 1].images
  {
    var l0 := Ledger(false, map[], map[]);
    var l1 := l0.Inspected(r, false);
    var l2 := l1.Counted(r);
    var l3 := l2.Dropped(r);
    var w0 := World(l0, {r}, None, [Job([r], Next, 0, 0, {})], {});
    var w1 := World(l0, {r}, Some(0), [Job([r], Inspecting, 1, 0, {})], {});
    var w2 := World(l1, {r}, Some(0), [Job([r], Counting, 1, 0, {})], {r});
    var w3 := World(l2, {r}, None, [Job([r], Pulling, 1, 0, {})], {r});
    var w4 := World(l2, {r}, None, [Job([r], Unwinding(0), 1, 0, {})], {r});
    var w5 := World(l2, {r}, Some(0), [Job([r], Dropping(0), 1, 0, {})], {r});
    var w6 := World(l3, {r}, Some(0), [Job([r], Removing(0), 1, 0, {})], {r});
    var w7 := World(l3, {}, None, [Job([r], Unwinding(1), 1, 0, {})], {r});
    var w8 := World(l3, {}, None, [Job([r], Finished, 1, 0, {})], {r});
    assert TakeAcquire(w0, w1, 0) && Inspect(w1, w2, 0, false) && Count(w2, w3, 0) && Pull(w3, w4, 0, false);
    assert TakeRelease(w4, w5, 0) && Drop(w5, w6, 0) && Remove(w6, w7, 0) && TakeRelease(w7, w8, 0);
    hide TakeAcquire, Inspect, Count, Pull, Start, Stop, TakeRelease, Drop, Remove;
    assert StepOf(w0, w1, 0) && StepOf(w1, w2, 0) && StepOf(w2, w3, 0) && StepOf(w3, w4, 0);
    assert StepOf(w4, w5, 0) && StepOf(w5, w6, 0) && StepOf(w6, w7, 0) && StepOf(w7, w8, 0);
    hide StepOf;
    ws := [w0, w1, w2, w3, w4, w5, w6, w7, w8];
  }
}
