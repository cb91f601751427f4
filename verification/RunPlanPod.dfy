/** Which containers of a pod are run, and how. */
module RunPlanPod {
  import opened Options
  import opened Mounts
  import opened MountMeaning
  import opened RunPlans
  import opened Sequences

  predicate Restarts(c: Container) { c.always }

  predicate RunsOnce(c: Container) { !c.always }

  predicate HasImage(c: Container) { c.image != "" }

  /** The command of an exec startup probe, or without a startup probe that of an exec readiness probe. */
  function Gate(c: Container): seq<string> {
    match (c.startup, c.readiness)
    case (Some(ExecProbe(command)), _) => command
    case (None, Some(ExecProbe(command))) => command
    case _ => []
  }

  /** The probe that would hold back the next container cannot be run in this one. */
  predicate GateNotExec(c: Container) {
    match (c.startup, c.readiness)
    case (Some(OtherProbe), _) => true
    case (None, Some(OtherProbe)) => true
    case _ => false
  }

  /** `r` runs the sidecar `c` in the pod's network, with its own mounts. */
  predicate RunsSidecar(base: Input, r: Run, c: Container, native: bool) {
    && r.flags == FlagsOf(base.(pod := true), c.mounts, {})
    && r.container == c.name && r.name == base.name + "-" + c.name && r.image == c.image
    && r.network == Some(base.name + "-pod")
    && r.probe == if native then Gate(c) else []
  }

  ghost predicate RunsAll(base: Input, rs: seq<Run>, cs: seq<Container>, native: bool) {
    |rs| == |cs| && forall k :: 0 <= k < |rs| ==> RunsSidecar(base, rs[k], cs[k], native)
  }

  /** The first container called "node". */
  ghost predicate IsMain(pod: Pod, i: int) {
    && 0 <= i < |pod.containers| && pod.containers[i].name == "node"
    && forall j :: 0 <= j < i ==> pod.containers[j].name != "node"
  }

  lemma {:induction false} NativeFiltered(inits: seq<Container>)
    ensures Native(inits, true) == Filter(inits, Restarts) && Native(inits, false) == Filter(inits, RunsOnce)
  {
    if inits != [] {
      NativeFiltered(inits[1..]);
      FilterFirst(inits, Restarts);
      FilterFirst(inits, RunsOnce);
      hide Filter;
      assert [] + Native(inits[1..], true) == Native(inits[1..], true);
      assert [] + Native(inits[1..], false) == Native(inits[1..], false);
    }
  }

  lemma {:induction false} MainFound(cs: seq<Container>)
    ensures var i := FindMain(cs);
            if i < 0 then forall c :: c in cs ==> c.name != "node"
            else cs[i].name == "node" && forall j :: 0 <= j < i ==> cs[j].name != "node"
  {
    if cs != [] {
      MainFound(cs[1..]);
      assert forall j :: 0 < j < |cs| ==> cs[j] == cs[1..][j - 1];
    }
  }

  lemma OneRuns(inp: Input, c: Container, native: bool)
    requires inp.pod
    ensures RunsSidecar(inp, SidecarRun(inp, c, native, Some(inp.name + "-pod")), c, native)
  {
    assert inp.(pod := true) == inp;
    hide FlagsOf;
  }

  lemma {:induction false} SidecarsRun(inp: Input, cs: seq<Container>, native: bool)
    requires inp.pod
    ensures RunsAll(inp, SidecarRuns(inp, cs, native, Some(inp.name + "-pod")), Filter(cs, HasImage), native)
  {
    if cs != [] {
      var network := Some(inp.name + "-pod");
      SidecarsRun(inp, cs[1..], native);
      var rest, others := SidecarRuns(inp, cs[1..], native, network), Filter(cs[1..], HasImage);
      var r := SidecarRun(inp, cs[0], native, network);
      OneRuns(inp, cs[0], native);
      FilterFirst(cs, HasImage);
      assert SidecarRuns(inp, cs, native, network) == if cs[0].image == "" then rest else [r] + rest;
      assert Filter(cs, HasImage) == (if cs[0].image == "" then [] else [cs[0]]) + others;
      assert [] + others == others;
      hide SidecarRuns, SidecarRun, Filter, RunsSidecar;
    }
  }

  lemma PartsAre(base: Input, pod: Pod, i: int)
    requires IsMain(pod, i)
    ensures PartsOf(base, pod).Some?
    ensures var p, others := PartsOf(base, pod).value, pod.containers[..i] + pod.containers[i + 1..];
            && p.main == pod.containers[i] && p.others == others
            && p.native == Filter(pod.inits, Restarts) && p.skipped == Filter(pod.inits, RunsOnce)
            && p.inp == base.(pod := Filter(pod.inits, Restarts) != [] || others != [])
            && PlanFor(base, pod) == Some(PlanOf(p))
  {
    MainFound(pod.containers);
    NativeFiltered(pod.inits);
    hide PlanOf, Native, Filter;
  }

  /** The native sidecars are the restarting init containers, the regular ones the containers besides main, in order. */
  lemma PodRuns(base: Input, pod: Pod, i: int)
    requires IsMain(pod, i)
    ensures PlanFor(base, pod).Some?
    ensures var plan, main := PlanFor(base, pod).value, pod.containers[i];
            && plan.main.container == "node" && plan.main.name == base.name && plan.main.image == main.image
            && plan.main.flags == FlagsOf(base.(pod := plan.pod.Some?), main.mounts, {})
            && (plan.pod.None? ==> plan.main.network == None)
    ensures var plan, others := PlanFor(base, pod).value, pod.containers[..i] + pod.containers[i + 1..];
            plan.pod.None? <==> Filter(pod.inits, Restarts) == [] && others == []
    ensures var plan, others := PlanFor(base, pod).value, pod.containers[..i] + pod.containers[i + 1..];
            plan.pod.Some? ==>
              && plan.pod.value.holder == base.name + "-pod" && plan.main.network == Some(plan.pod.value.holder)
              && RunsAll(base, plan.pod.value.sidecars, Filter(Filter(pod.inits, Restarts), HasImage), true)
              && RunsAll(base, plan.pod.value.others, Filter(others, HasImage), false)
  {
    PartsAre(base, pod, i);
    var p := PartsOf(base, pod).value;
    if p.inp.pod {
      SidecarsRun(p.inp, p.native, true);
      SidecarsRun(p.inp, p.others, false);
      assert base.(pod := true) == p.inp.(pod := true);
    }
    assert p.inp.pod ==> RunsAll(p.inp, PodPlanOf(p).sidecars, Filter(p.native, HasImage), true) ==>
      RunsAll(base, PodPlanOf(p).sidecars, Filter(p.native, HasImage), true);
    hide SidecarRuns, FlagsOf, AllNeeds, AllNotes, Setup, Filter, PartsOf;
  }

  /** There is a plan just for pods with a main container. */
  lemma PlannedIff(base: Input, pod: Pod)
    ensures PlanFor(base, pod).Some? <==> exists i :: IsMain(pod, i)
  {
    MainFound(pod.containers);
    if PlanFor(base, pod).Some? { assert IsMain(pod, FindMain(pod.containers)); }
  }

  // ---- Notes ----

  /** What is noted of a sidecar. */
  ghost predicate SidecarNoted(note: PlanNote, c: Container, native: bool) {
    || (c.image == "" && note == NoImage(c.name))
    || (c.image != "" && c.envFrom && note == EnvFromIgnored(c.name))
    || (c.image != "" && native && GateNotExec(c) && note == ProbeNotExec(c.name))
  }

  lemma SidecarNoteIs(c: Container, native: bool, note: PlanNote)
    ensures note in SidecarNote(c, native) <==> SidecarNoted(note, c, native)
  {
    assert GateNotExec(c) <==> !GatingProbe(c).1;
    hide GateNotExec, GatingProbe;
  }

  lemma {:induction false} SidecarNotesAre(cs: seq<Container>, native: bool, note: PlanNote)
    ensures note in SidecarNotes(cs, native) <==> exists c :: c in cs && SidecarNoted(note, c, native)
  {
    if cs != [] {
      SidecarNotesAre(cs[1..], native, note);
      SidecarNoteIs(cs[0], native, note);
      hide SidecarNote, SidecarNoted;
      assert forall c :: c in cs <==> c == cs[0] || c in cs[1..];
    }
  }

  lemma {:induction false} MountNotesAre(notes: seq<Note>)
    ensures forall note :: note in MountNotes(notes) ==> note.Mounting?
  {
    if notes != [] { MountNotesAre(notes[1..]); }
  }

  lemma {:induction false} NamesAre(cs: seq<Container>)
    ensures |Names(cs)| == |cs| && forall k :: 0 <= k < |cs| ==> Names(cs)[k] == cs[k].name
  {
    if cs != [] { NamesAre(cs[1..]); }
  }

  lemma PartsNotes(p: Parts, note: PlanNote)
    requires !note.Mounting?
    ensures note in AllNotes(p) <==>
              || (p.skipped != [] && note == InitsSkipped(Names(p.skipped)))
              || (exists c :: c in p.native && SidecarNoted(note, c, true))
              || (p.main.envFrom && note == EnvFromIgnored(p.main.name))
              || (exists c :: c in p.others && SidecarNoted(note, c, false))
  {
    SidecarNotesAre(p.native, true, note);
    SidecarNotesAre(p.others, false, note);
    MountNotesAre(AllNeeds(p).notes);
    hide SidecarNotes, SidecarNoted, AllNeeds, MountNotes, Names;
  }

  /** Besides the notes on mounts: what is noted of the pod's containers, and the init containers that are skipped. */
  lemma PodNotes(base: Input, pod: Pod, i: int, note: PlanNote)
    requires IsMain(pod, i) && !note.Mounting?
    ensures PlanFor(base, pod).Some?
    ensures var skipped, others := Filter(pod.inits, RunsOnce), pod.containers[..i] + pod.containers[i + 1..];
            note in PlanFor(base, pod).value.notes <==>
              || (skipped != [] && note == InitsSkipped(seq(|skipped|, k requires 0 <= k < |skipped| => skipped[k].name)))
              || (exists c :: c in Filter(pod.inits, Restarts) && SidecarNoted(note, c, true))
              || (pod.containers[i].envFrom && note == EnvFromIgnored("node"))
              || (exists c :: c in others && SidecarNoted(note, c, false))
  {
    PartsAre(base, pod, i);
    var p := PartsOf(base, pod).value;
    PartsNotes(p, note);
    NamesAre(p.skipped);
    assert PlanOf(p).notes == AllNotes(p);
    assert Names(p.skipped) == seq(|p.skipped|, k requires 0 <= k < |p.skipped| => p.skipped[k].name);
    hide PlanOf, PartsOf, AllNotes, SidecarNoted, Names, Filter;
  }

  // ---- Notes on mounts ----

  lemma {:induction false} MountingIn(notes: seq<Note>, x: Note)
    ensures Mounting(x) in MountNotes(notes) <==> x in notes
  {
    if notes != [] { MountingIn(notes[1..], x); }
  }

  lemma {:induction false} SidecarsNoted(inp: Input, n: Needs, cs: seq<Container>, x: Note)
    ensures x in SidecarNeeds(inp, n, cs).notes <==>
              x in n.notes || exists c :: c in cs && c.image != "" && NotedIn(inp, c.mounts, {}, x)
    decreases |cs|
  {
    if cs != [] {
      MountsNoted(inp, n, cs[0].mounts, {}, x);
      hide NotedIn, NeedsOfAll;
      SidecarsNoted(inp, if cs[0].image == "" then n else NeedsOfAll(inp, n, cs[0].mounts, {}), cs[1..], x);
      assert forall c :: c in cs <==> c == cs[0] || c in cs[1..];
    }
  }

  lemma {:induction false} NoMounting(cs: seq<Container>, native: bool)
    ensures forall note :: note in SidecarNotes(cs, native) ==> !note.Mounting?
  {
    if cs != [] { NoMounting(cs[1..], native); }
  }

  lemma MountsOfParts(p: Parts, x: Note)
    ensures Mounting(x) in AllNotes(p) <==> x in AllNeeds(p).notes
  {
    NoMounting(p.native, true);
    NoMounting(p.others, false);
    MountingIn(AllNeeds(p).notes, x);
    hide SidecarNotes, AllNeeds, MountNotes, Names;
  }

  /** The notes on mounts are those of the containers that run. */
  lemma PodMountNotes(base: Input, pod: Pod, i: int, x: Note)
    requires IsMain(pod, i)
    ensures PlanFor(base, pod).Some?
    ensures var native, others := Filter(pod.inits, Restarts), pod.containers[..i] + pod.containers[i + 1..];
            var inp := base.(pod := native != [] || others != []);
            Mounting(x) in PlanFor(base, pod).value.notes <==>
              || NotedIn(inp, pod.containers[i].mounts, {}, x)
              || exists c :: c in native + others && c.image != "" && NotedIn(inp, c.mounts, {}, x)
  {
    PartsAre(base, pod, i);
    var p := PartsOf(base, pod).value;
    var n1 := SidecarNeeds(p.inp, NOTHING, p.native);
    var n2 := NeedsOfAll(p.inp, n1, p.main.mounts, {});
    MountsOfParts(p, x);
    SidecarsNoted(p.inp, NOTHING, p.native, x);
    MountsNoted(p.inp, n1, p.main.mounts, {}, x);
    SidecarsNoted(p.inp, n2, p.others, x);
    assert PlanOf(p).notes == AllNotes(p) && AllNeeds(p) == SidecarNeeds(p.inp, n2, p.others);
    assert forall c :: c in p.native + p.others <==> c in p.native || c in p.others;
    hide PlanOf, PartsOf, AllNotes, AllNeeds, SidecarNeeds, NeedsOfAll, NotedIn, Filter;
  }
}
