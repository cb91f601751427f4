/** A rendered pod turned into the docker commands that stand in for it. */
module RunPlans {
  import opened Options
  import opened Mounts
  import opened Sequences

  const MAIN := "node"
  const BUSYBOX := "busybox:1.36"

  datatype Probe = ExecProbe(command: seq<string>) | OtherProbe

  datatype Container = Container(
    name: string, image: string, mounts: seq<VolumeMount>, always: bool, envFrom: bool,
    startup: Option<Probe>, readiness: Option<Probe>)

  datatype Pod = Pod(containers: seq<Container>, inits: seq<Container>)

  datatype PlanNote =
    | InitsSkipped(names: seq<string>)
    | NoImage(name: string)
    | EnvFromIgnored(name: string)
    | ProbeNotExec(name: string)
    | Mounting(note: Note)

  /** One `docker run`: the container of the pod, and what decides whether docker can run it. */
  datatype Run = Run(
    container: string, name: string, image: string, network: Option<string>, flags: seq<Flag>, probe: seq<string>)

  datatype Command =
    | CreateVolume(volume: string)
    | StartHolder(name: string, volumes: seq<string>)
    | MakeDirs(holder: string, dirs: seq<string>)
    | Start(run: Run)

  datatype PodPlan = PodPlan(
    holder: string, volumes: seq<string>, setup: seq<Command>, sidecars: seq<Run>, others: seq<Run>)

  datatype RunPlan = RunPlan(main: Run, files: map<string, string>, notes: seq<PlanNote>, pod: Option<PodPlan>)

  // ---- Parts of a plan ----

  function FindMain(cs: seq<Container>): (i: int)
    ensures -1 <= i < |cs|
  {
    if cs == [] then -1
    else if cs[0].name == MAIN then 0
    else var i := FindMain(cs[1..]); if i < 0 then -1 else i + 1
  }

  function Native(inits: seq<Container>, always: bool): seq<Container> {
    if inits == [] then []
    else if inits[0].always == always then [inits[0]] + Native(inits[1..], always)
    else Native(inits[1..], always)
  }

  function Names(cs: seq<Container>): seq<string> {
    if cs == [] then [] else [cs[0].name] + Names(cs[1..])
  }

  function RunNames(rs: seq<Run>): seq<string> {
    if rs == [] then [] else [rs[0].name] + RunNames(rs[1..])
  }

  /** The probe that holds back the next container; the flag says that it can be run. */
  function GatingProbe(c: Container): (seq<string>, bool) {
    if c.startup.Some? then
      (if c.startup.value.ExecProbe? then (c.startup.value.command, true) else ([], false))
    else if c.readiness.Some? then
      (if c.readiness.value.ExecProbe? then (c.readiness.value.command, true) else ([], false))
    else ([], true)
  }

  function SidecarRun(inp: Input, c: Container, native: bool, network: Option<string>): Run {
    Run(c.name, inp.name + "-" + c.name, c.image, network, FlagsOf(inp, c.mounts, {}),
        if native then GatingProbe(c).0 else [])
  }

  function SidecarRuns(inp: Input, cs: seq<Container>, native: bool, network: Option<string>): seq<Run> {
    if cs == [] then []
    else if cs[0].image == "" then SidecarRuns(inp, cs[1..], native, network)
    else [SidecarRun(inp, cs[0], native, network)] + SidecarRuns(inp, cs[1..], native, network)
  }

  function SidecarNote(c: Container, native: bool): seq<PlanNote> {
    if c.image == "" then [NoImage(c.name)]
    else
      (if c.envFrom then [EnvFromIgnored(c.name)] else [])
      + (if native && !GatingProbe(c).1 then [ProbeNotExec(c.name)] else [])
  }

  function SidecarNotes(cs: seq<Container>, native: bool): seq<PlanNote> {
    if cs == [] then [] else SidecarNote(cs[0], native) + SidecarNotes(cs[1..], native)
  }

  /** The volumes and files of the containers of `cs` that run. */
  function SidecarNeeds(inp: Input, n: Needs, cs: seq<Container>): Needs
    decreases |cs|
  {
    if cs == [] then n
    else SidecarNeeds(inp, if cs[0].image == "" then n else NeedsOfAll(inp, n, cs[0].mounts, {}), cs[1..])
  }

  function MainRun(inp: Input, c: Container, network: Option<string>): Run {
    Run(c.name, inp.name, c.image, network, FlagsOf(inp, c.mounts, {}), [])
  }

  function MountNotes(notes: seq<Note>): seq<PlanNote> {
    if notes == [] then [] else [Mounting(notes[0])] + MountNotes(notes[1..])
  }

  function Setup(holder: string, volumes: seq<string>, subdirs: seq<string>): seq<Command> {
    Creations(volumes) + [StartHolder(holder, volumes)]
    + (if subdirs == [] then [] else [MakeDirs(holder, subdirs)])
  }

  function Creations(volumes: seq<string>): seq<Command> {
    if volumes == [] then [] else [CreateVolume(volumes[0])] + Creations(volumes[1..])
  }

  // ---- The plan ----

  /** What `buildRunPlan` reads off the pod before it plans any container. */
  datatype Parts = Parts(inp: Input, main: Container, native: seq<Container>, skipped: seq<Container>, others: seq<Container>) {
    function Holder(): string { inp.name + "-pod" }
    function Network(): Option<string> { if inp.pod then Some(Holder()) else None }
  }

  function PartsOf(inp: Input, pod: Pod): Option<Parts> {
    var i := FindMain(pod.containers);
    if i < 0 then None
    else
      var native, others := Native(pod.inits, true), pod.containers[..i] + pod.containers[i + 1..];
      Some(Parts(inp.(pod := |native| + |others| > 0), pod.containers[i], native, Native(pod.inits, false), others))
  }

  function AllNeeds(p: Parts): Needs {
    SidecarNeeds(p.inp, NeedsOfAll(p.inp, SidecarNeeds(p.inp, NOTHING, p.native), p.main.mounts, {}), p.others)
  }

  function AllNotes(p: Parts): seq<PlanNote> {
    (if p.skipped == [] then [] else [InitsSkipped(Names(p.skipped))])
    + SidecarNotes(p.native, true)
    + (if p.main.envFrom then [EnvFromIgnored(p.main.name)] else [])
    + SidecarNotes(p.others, false)
    + MountNotes(AllNeeds(p).notes)
  }

  function PodPlanOf(p: Parts): PodPlan {
    var needs := AllNeeds(p);
    PodPlan(p.Holder(), needs.volumes, Setup(p.Holder(), needs.volumes, needs.subdirs),
            SidecarRuns(p.inp, p.native, true, p.Network()), SidecarRuns(p.inp, p.others, false, p.Network()))
  }

  function PlanOf(p: Parts): RunPlan {
    RunPlan(MainRun(p.inp, p.main, p.Network()), AllNeeds(p).files, AllNotes(p),
            if p.inp.pod then Some(PodPlanOf(p)) else None)
  }

  /** None for a pod without a main container. */
  function PlanFor(base: Input, pod: Pod): Option<RunPlan> {
    if PartsOf(base, pod).None? then None else Some(PlanOf(PartsOf(base, pod).value))
  }

  // ---- Building it ----

  method SplitInits(inits: seq<Container>) returns (native: seq<Container>, skipped: seq<Container>)
    ensures native == Native(inits, true) && skipped == Native(inits, false)
  {
    native, skipped := [], [];
    assert inits[0..] == inits;
    for i := 0 to |inits|
      invariant native + Native(inits[i..], true) == Native(inits, true)
      invariant skipped + Native(inits[i..], false) == Native(inits, false)
    {
      assert inits[i..][1..] == inits[i + 1..];
      if inits[i].always {
        native := native + [inits[i]];
      } else {
        skipped := skipped + [inits[i]];
      }
    }
    assert inits[|inits|..] == [];
  }

  /** One sidecar; without an image there is nothing to run. */
  method PlanSidecar(mp: MountPlanner, c: Container, native: bool, network: Option<string>)
    returns (run: Option<Run>, notes: seq<PlanNote>)
    modifies mp
    ensures run == if c.image == "" then None else Some(SidecarRun(mp.inp, c, native, network))
    ensures notes == SidecarNote(c, native)
    ensures mp.State() == if c.image == "" then old(mp.State()) else NeedsOfAll(mp.inp, old(mp.State()), c.mounts, {})
  {
    hide FlagsOf, NeedsOfAll, GatingProbe;
    if c.image == "" {
      return None, [NoImage(c.name)];
    }
    notes := if c.envFrom then [EnvFromIgnored(c.name)] else [];
    var flags := mp.MountAll(c.mounts);
    var (probe, isExec) := GatingProbe(c);
    if native && !isExec {
      notes := notes + [ProbeNotExec(c.name)];
    }
    run := Some(Run(c.name, mp.inp.name + "-" + c.name, c.image, network, flags, if native then probe else []));
  }

  lemma SidecarStep(inp: Input, cs: seq<Container>, i: nat, native: bool, network: Option<string>, n: Needs)
    requires i < |cs|
    ensures SidecarRuns(inp, cs[i..], native, network)
         == (if cs[i].image == "" then [] else [SidecarRun(inp, cs[i], native, network)])
            + SidecarRuns(inp, cs[i + 1..], native, network)
    ensures SidecarNotes(cs[i..], native) == SidecarNote(cs[i], native) + SidecarNotes(cs[i + 1..], native)
    ensures SidecarNeeds(inp, n, cs[i..])
         == SidecarNeeds(inp, if cs[i].image == "" then n else NeedsOfAll(inp, n, cs[i].mounts, {}), cs[i + 1..])
  {
    assert cs[i..][1..] == cs[i + 1..];
  }

  method PlanSidecars(mp: MountPlanner, cs: seq<Container>, native: bool, network: Option<string>)
    returns (runs: seq<Run>, notes: seq<PlanNote>)
    modifies mp
    ensures runs == SidecarRuns(mp.inp, cs, native, network) && notes == SidecarNotes(cs, native)
    ensures mp.State() == SidecarNeeds(mp.inp, old(mp.State()), cs)
  {
    runs, notes := [], [];
    ghost var before := mp.State();
    assert cs[0..] == cs;
    for i := 0 to |cs|
      invariant runs + SidecarRuns(mp.inp, cs[i..], native, network) == SidecarRuns(mp.inp, cs, native, network)
      invariant notes + SidecarNotes(cs[i..], native) == SidecarNotes(cs, native)
      invariant SidecarNeeds(mp.inp, mp.State(), cs[i..]) == SidecarNeeds(mp.inp, before, cs)
    {
      SidecarStep(mp.inp, cs, i, native, network, mp.State());
      hide *;
      var run, more := PlanSidecar(mp, cs[i], native, network);
      var one := if run.Some? then [run.value] else [];
      Associate(runs, one, SidecarRuns(mp.inp, cs[i + 1..], native, network));
      Associate(notes, more, SidecarNotes(cs[i + 1..], native));
      runs, notes := runs + one, notes + more;
    }
    assert cs[|cs|..] == [];
  }

  method BuildPlan(p: Parts) returns (plan: RunPlan)
    ensures plan == PlanOf(p)
  {
    hide FlagsOf, NeedsOfAll, SidecarRuns, SidecarNotes, SidecarNeeds, Setup, MountNotes, Names;
    var notes := if |p.skipped| > 0 then [InitsSkipped(Names(p.skipped))] else [];
    var mp := new MountPlanner(p.inp);
    var sidecars, sidecarNotes := PlanSidecars(mp, p.native, true, p.Network());
    notes := notes + sidecarNotes;
    if p.main.envFrom {
      notes := notes + [EnvFromIgnored(p.main.name)];
    }
    var flags := mp.MountAll(p.main.mounts);
    var main := Run(p.main.name, p.inp.name, p.main.image, p.Network(), flags, []);
    var others, otherNotes := PlanSidecars(mp, p.others, false, p.Network());
    notes := notes + otherNotes + MountNotes(mp.notes);
    var podPlan := None;
    if p.inp.pod {
      podPlan := Some(PodPlan(p.Holder(), mp.volumes, Setup(p.Holder(), mp.volumes, mp.subdirs), sidecars, others));
    }
    plan := RunPlan(main, mp.files, notes, podPlan);
  }

  method BuildRunPlan(base: Input, pod: Pod) returns (plan: Option<RunPlan>)
    ensures plan == PlanFor(base, pod)
  {
    var idx := FindMain(pod.containers);
    if idx < 0 {
      return None;
    }
    var mc, others := pod.containers[idx], pod.containers[..idx] + pod.containers[idx + 1..];
    var native, inits := SplitInits(pod.inits);
    var p := BuildPlan(Parts(base.(pod := |native| + |others| > 0), mc, native, inits, others));
    hide PlanOf;
    plan := Some(p);
  }
}
