/** No container of the pod is lost without a word, and every image that a plan needs is listed, each of them once. */
module RunPlanContents {
  import opened Options
  import opened Mounts
  import opened RunPlans
  import opened RunPlanMounts

  // ---- Conservation ----

  function NameBag(cs: seq<Container>): multiset<string> {
    if cs == [] then multiset{} else multiset{cs[0].name} + NameBag(cs[1..])
  }

  function RunBag(rs: seq<Run>): multiset<string> {
    if rs == [] then multiset{} else multiset{rs[0].container} + RunBag(rs[1..])
  }

  function NotedIn(note: PlanNote): multiset<string> {
    match note
    case InitsSkipped(names) => multiset(names)
    case NoImage(name) => multiset{name}
    case _ => multiset{}
  }

  /** The containers that the notes name as not run. */
  function NotedBag(notes: seq<PlanNote>): multiset<string> {
    if notes == [] then multiset{} else NotedIn(notes[0]) + NotedBag(notes[1..])
  }

  lemma {:induction false} NotedAppend(a: seq<PlanNote>, b: seq<PlanNote>)
    ensures NotedBag(a + b) == NotedBag(a) + NotedBag(b)
  {
    hide NotedIn;
    if a == [] {
      assert a + b == b;
    } else {
      assert (a + b)[1..] == a[1..] + b;
      NotedAppend(a[1..], b);
    }
  }

  lemma {:induction false} MountNotesSilent(notes: seq<Note>)
    ensures NotedBag(MountNotes(notes)) == multiset{}
  {
    if notes != [] {
      MountNotesSilent(notes[1..]);
      assert MountNotes(notes)[1..] == MountNotes(notes[1..]);
    }
  }

  lemma {:induction false} RunBagAppend(rs: seq<Run>, qs: seq<Run>)
    ensures RunBag(rs + qs) == RunBag(rs) + RunBag(qs)
  {
    if rs == [] {
      assert rs + qs == qs;
    } else {
      assert (rs + qs)[1..] == rs[1..] + qs;
      RunBagAppend(rs[1..], qs);
    }
  }

  lemma {:induction false} NameBagAppend(a: seq<Container>, b: seq<Container>)
    ensures NameBag(a + b) == NameBag(a) + NameBag(b)
  {
    if a == [] {
      assert a + b == b;
    } else {
      assert (a + b)[1..] == a[1..] + b;
      NameBagAppend(a[1..], b);
    }
  }

  lemma {:induction false} NamesInBag(cs: seq<Container>)
    ensures multiset(Names(cs)) == NameBag(cs)
  {
    if cs != [] { NamesInBag(cs[1..]); }
  }

  lemma {:induction false} InitsSplit(inits: seq<Container>)
    ensures NameBag(inits) == NameBag(Native(inits, true)) + NameBag(Native(inits, false))
  {
    if inits != [] {
      var c, rest := inits[0], inits[1..];
      InitsSplit(rest);
      NameBagFirst(c, Native(rest, c.always));
    }
  }

  lemma NameBagFirst(c: Container, cs: seq<Container>)
    ensures NameBag([c] + cs) == multiset{c.name} + NameBag(cs)
  {
    assert ([c] + cs)[1..] == cs;
  }

  lemma NoteOf(c: Container, native: bool)
    ensures NotedBag(SidecarNote(c, native)) == if c.image == "" then multiset{c.name} else multiset{}
  {
    hide GatingProbe;
    var env := if c.envFrom then [EnvFromIgnored(c.name)] else [];
    var probe := if native && !GatingProbe(c).1 then [ProbeNotExec(c.name)] else [];
    NotedAppend(env, probe);
  }

  lemma RunOrNoted(inp: Input, cs: seq<Container>, native: bool, network: Option<string>)
    requires cs != []
    ensures RunBag(SidecarRuns(inp, cs, native, network)) + NotedBag(SidecarNotes(cs, native))
         == multiset{cs[0].name} + RunBag(SidecarRuns(inp, cs[1..], native, network))
            + NotedBag(SidecarNotes(cs[1..], native))
  {
    var c, rest := cs[0], SidecarRuns(inp, cs[1..], native, network);
    NoteOf(c, native);
    NotedAppend(SidecarNote(c, native), SidecarNotes(cs[1..], native));
    RunBagFirst(SidecarRun(inp, c, native, network), rest);
    hide FlagsOf, SidecarNote, NotedBag, RunBag;
  }

  /** Each sidecar is run or named as having no image. */
  lemma {:induction false} SidecarsKept(inp: Input, cs: seq<Container>, native: bool, network: Option<string>)
    ensures NameBag(cs) == RunBag(SidecarRuns(inp, cs, native, network)) + NotedBag(SidecarNotes(cs, native))
  {
    if cs != [] {
      RunOrNoted(inp, cs, native, network);
      SidecarsKept(inp, cs[1..], native, network);
      hide SidecarRuns, SidecarNotes, RunBag, NotedBag;
    }
  }

  lemma RunBagFirst(r: Run, rs: seq<Run>)
    ensures RunBag([r] + rs) == multiset{r.container} + RunBag(rs)
  {
    assert ([r] + rs)[1..] == rs;
  }

  lemma {:induction false} NotedParts(a: seq<PlanNote>, b: seq<PlanNote>, c: seq<PlanNote>, d: seq<PlanNote>, e: seq<PlanNote>)
    ensures NotedBag(a + b + c + d + e) == NotedBag(a) + NotedBag(b) + NotedBag(c) + NotedBag(d) + NotedBag(e)
  {
    hide *;
    NotedAppend(a, b);
    NotedAppend(a + b, c);
    NotedAppend(a + b + c, d);
    NotedAppend(a + b + c + d, e);
  }

  lemma {:induction false} SkippedNoted(cs: seq<Container>)
    ensures NotedBag(if cs == [] then [] else [InitsSkipped(Names(cs))]) == NameBag(cs)
  {
    NamesInBag(cs);
  }

  lemma EnvFromSilent(c: Container)
    ensures NotedBag(if c.envFrom then [EnvFromIgnored(c.name)] else []) == multiset{}
  {
  }

  lemma NotedAll(p: Parts)
    ensures NotedBag(AllNotes(p))
         == NameBag(p.skipped) + NotedBag(SidecarNotes(p.native, true)) + NotedBag(SidecarNotes(p.others, false))
  {
    var a := if p.skipped == [] then [] else [InitsSkipped(Names(p.skipped))];
    var b, d := SidecarNotes(p.native, true), SidecarNotes(p.others, false);
    var c := if p.main.envFrom then [EnvFromIgnored(p.main.name)] else [];
    var e := MountNotes(AllNeeds(p).notes);
    assert AllNotes(p) == a + b + c + d + e;
    hide *;
    SkippedNoted(p.skipped);
    EnvFromSilent(p.main);
    MountNotesSilent(AllNeeds(p).notes);
    NotedParts(a, b, c, d, e);
  }

  lemma {:induction false} FindMainNamed(cs: seq<Container>)
    requires FindMain(cs) >= 0
    ensures cs[FindMain(cs)].name == MAIN
  {
    if cs[0].name != MAIN { FindMainNamed(cs[1..]); }
  }

  lemma {:induction false} MainAside(cs: seq<Container>, i: nat)
    requires i < |cs|
    ensures NameBag(cs) == multiset{cs[i].name} + NameBag(cs[..i] + cs[i + 1..])
  {
    assert cs == cs[..i] + cs[i..] && cs[i..][1..] == cs[i + 1..];
    NameBagAppend(cs[..i], cs[i..]);
    NameBagAppend(cs[..i], cs[i + 1..]);
  }

  lemma StartedContainers(p: Parts)
    requires p.inp.pod == (|p.native| + |p.others| > 0)
    ensures RunBag(Started(PlanOf(p)))
         == RunBag(SidecarRuns(p.inp, p.native, true, p.Network())) + multiset{p.main.name}
            + RunBag(SidecarRuns(p.inp, p.others, false, p.Network()))
  {
    var plan := PlanOf(p);
    var native, others := SidecarRuns(p.inp, p.native, true, p.Network()), SidecarRuns(p.inp, p.others, false, p.Network());
    assert RunBag([plan.main]) == multiset{p.main.name};
    assert Started(plan) == native + [plan.main] + others;
    hide *;
    RunBagAppend(native, [plan.main]);
    RunBagAppend(native + [plan.main], others);
  }

  lemma PartsKept(p: Parts)
    requires p.inp.pod == (|p.native| + |p.others| > 0)
    ensures RunBag(Started(PlanOf(p))) + NotedBag(AllNotes(p))
         == multiset{p.main.name} + NameBag(p.native) + NameBag(p.others) + NameBag(p.skipped)
  {
    hide *;
    StartedContainers(p);
    NotedAll(p);
    SidecarsKept(p.inp, p.native, true, p.Network());
    SidecarsKept(p.inp, p.others, false, p.Network());
  }

  lemma PartsOfPod(base: Input, pod: Pod)
    ensures PartsOf(base, pod).Some? <==> MAIN in NameBag(pod.containers)
    ensures PartsOf(base, pod).Some? ==>
              (var p := PartsOf(base, pod).value;
               && p.inp.pod == (|p.native| + |p.others| > 0) && p.main.name == MAIN
               && NameBag(pod.containers) == multiset{p.main.name} + NameBag(p.others)
               && NameBag(pod.inits) == NameBag(p.native) + NameBag(p.skipped))
  {
    var i := FindMain(pod.containers);
    if i < 0 {
      NoMain(pod.containers);
    } else {
      FindMainNamed(pod.containers);
      MainAside(pod.containers, i);
      InitsSplit(pod.inits);
      hide NameBag, Native, FindMain;
    }
  }

  /** Every container of the pod is started or named in a note, and no other is, each as often as the pod lists it. */
  lemma NoContainerLost(base: Input, pod: Pod)
    ensures PartsOf(base, pod).Some? <==> MAIN in NameBag(pod.containers)
    ensures PartsOf(base, pod).Some? ==>
              (var plan := PlanOf(PartsOf(base, pod).value);
               && plan.main.container == MAIN
               && NameBag(pod.containers) + NameBag(pod.inits) == RunBag(Started(plan)) + NotedBag(plan.notes))
  {
    PartsOfPod(base, pod);
    if PartsOf(base, pod).Some? {
      var p := PartsOf(base, pod).value;
      assert PlanOf(p).notes == AllNotes(p) && PlanOf(p).main.container == p.main.name;
      hide *;
      PartsKept(p);
      Regroup(p.main.name, NameBag(p.native), NameBag(p.others), NameBag(p.skipped));
    }
  }

  lemma Regroup(main: string, native: multiset<string>, others: multiset<string>, skipped: multiset<string>)
    ensures multiset{main} + others + (native + skipped) == multiset{main} + native + others + skipped
    ensures main in multiset{main} + others
  {
  }

  lemma {:induction false} NoMain(cs: seq<Container>)
    requires FindMain(cs) < 0
    ensures MAIN !in NameBag(cs)
  {
    if cs != [] { NoMain(cs[1..]); }
  }

  // ---- Images ----

  function AddImages(refs: seq<string>, rs: seq<Run>): seq<string>
    decreases |rs|
  {
    if rs == [] then refs else AddImages(Added(refs, rs[0].image), rs[1..])
  }

  function ImagesOf(plan: RunPlan): seq<string> {
    var rs := if plan.pod.None? then [] else plan.pod.value.sidecars + plan.pod.value.others;
    Added(AddImages([plan.main.image], rs), BUSYBOX)
  }

  method Images(plan: RunPlan) returns (refs: seq<string>)
    ensures refs == ImagesOf(plan)
  {
    refs := [plan.main.image];
    if plan.pod.Some? {
      var rs := plan.pod.value.sidecars + plan.pod.value.others;
      assert rs[0..] == rs;
      for i := 0 to |rs|
        invariant AddImages(refs, rs[i..]) == AddImages([plan.main.image], rs)
      {
        assert rs[i..][1..] == rs[i + 1..];
        if rs[i].image !in refs {
          refs := refs + [rs[i].image];
        }
      }
      assert rs[|rs|..] == [];
    }
    if BUSYBOX !in refs {
      refs := refs + [BUSYBOX];
    }
  }

  function RunImages(rs: seq<Run>): set<string> { set r | r in rs :: r.image }

  lemma {:induction false} AddImagesMembers(refs: seq<string>, all: set<string>, rs: seq<Run>)
    requires multiset(refs) == multiset(all) && refs != []
    ensures multiset(AddImages(refs, rs)) == multiset(all + RunImages(rs))
    ensures [refs[0]] <= AddImages(refs, rs)
    decreases |rs|
  {
    if rs == [] {
      assert all + RunImages(rs) == all;
    } else {
      AddedOnce(refs, rs[0].image, all);
      AddImagesMembers(Added(refs, rs[0].image), all + {rs[0].image}, rs[1..]);
      assert RunImages(rs) == {rs[0].image} + RunImages(rs[1..]) by {
        assert forall r :: r in rs <==> r == rs[0] || r in rs[1..];
      }
      hide RunImages;
      assert all + {rs[0].image} + RunImages(rs[1..]) == all + RunImages(rs);
    }
  }

  /** The images are those of the started containers and the holder's, each once, the main one first. */
  lemma ImagesCover(plan: RunPlan)
    ensures multiset(ImagesOf(plan)) == multiset(RunImages(Started(plan)) + {BUSYBOX})
    ensures [plan.main.image] <= ImagesOf(plan)
  {
    var rs := if plan.pod.None? then [] else plan.pod.value.sidecars + plan.pod.value.others;
    AddImagesMembers([plan.main.image], {plan.main.image}, rs);
    AddedOnce(AddImages([plan.main.image], rs), BUSYBOX, {plan.main.image} + RunImages(rs));
    assert forall r :: r in Started(plan) <==> r in rs || r == plan.main;
    assert RunImages(Started(plan)) == {plan.main.image} + RunImages(rs);
    hide AddImages, RunImages, Started;
  }
}
