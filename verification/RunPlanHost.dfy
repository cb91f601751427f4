/** The plan carried out on a docker host, and taken down. */
module RunPlanHost {
  import opened Options
  import opened Mounts
  import opened RunPlans
  import opened RunPlanMounts
  import opened Sequences

  // ---- Docker, as far as a plan depends on it ----

  datatype Host = Host(volumes: set<string>, dirs: set<string>, containers: set<string>)

  const EMPTY := Host({}, {}, {})

  /** The network owner runs, and every volume and subpath the mounts name is there. */
  predicate Met(inp: Input, h: Host, r: Run) {
    && (r.network.Some? ==> r.network.value in h.containers)
    && Volumes(r.flags) <= h.volumes && Dirs(inp, r.flags) <= h.dirs
  }

  /** False when docker refuses the command, or would quietly reuse what an earlier one made. */
  predicate Accepts(inp: Input, h: Host, c: Command) {
    match c
    case CreateVolume(v) => v !in h.volumes
    case StartHolder(name, vs) => name !in h.containers && Elems(vs) <= h.volumes
    case MakeDirs(holder, _) => holder in h.containers
    case Start(r) => r.name !in h.containers && Met(inp, h, r)
  }

  /** What the command makes when it goes through. */
  function Effect(h: Host, c: Command): Host {
    match c
    case CreateVolume(v) => h.(volumes := h.volumes + {v})
    case StartHolder(name, _) => h.(containers := h.containers + {name})
    case MakeDirs(_, dirs) => h.(dirs := h.dirs + Elems(dirs))
    case Start(r) => h.(containers := h.containers + {r.name})
  }

  function Exec(inp: Input, h: Host, c: Command): Option<Host> {
    if Accepts(inp, h, c) then Some(Effect(h, c)) else None
  }

  function ExecAll(inp: Input, h: Host, cs: seq<Command>): Option<Host>
    decreases |cs|
  {
    if cs == [] then Some(h)
    else match Exec(inp, h, cs[0])
      case None => None
      case Some(next) => ExecAll(inp, next, cs[1..])
  }

  function Starts(rs: seq<Run>): seq<Command> { if rs == [] then [] else [Start(rs[0])] + Starts(rs[1..]) }

  /** Everything `smokeSample` and `startPod` run, in order. */
  function Commands(plan: RunPlan): seq<Command> {
    (if plan.pod.Some? then plan.pod.value.setup else []) + Starts(Started(plan))
  }

  // ---- Running the commands ----

  lemma ExecFirst(inp: Input, h: Host, c: Command, rest: seq<Command>)
    ensures ExecAll(inp, h, [c] + rest)
         == (match Exec(inp, h, c) case None => None case Some(next) => ExecAll(inp, next, rest))
  {
    hide Exec;
    assert ([c] + rest)[1..] == rest;
  }

  lemma {:induction false} CreationsRun(inp: Input, h: Host, vs: seq<string>, rest: seq<Command>)
    requires NoRepeats(vs) && Elems(vs) !! h.volumes
    ensures ExecAll(inp, h, Creations(vs) + rest) == ExecAll(inp, h.(volumes := h.volumes + Elems(vs)), rest)
    decreases |vs|
  {
    if vs == [] {
      assert Creations(vs) + rest == rest && h.volumes + Elems(vs) == h.volumes;
    } else {
      var next := h.(volumes := h.volumes + {vs[0]});
      assert vs == [vs[0]] + vs[1..];
      NoRepeatsOneMore(vs[1..], vs[0]);
      assert vs[0] in Elems(vs);
      assert Elems(vs) == {vs[0]} + Elems(vs[1..]);
      assert Creations(vs) + rest == [CreateVolume(vs[0])] + (Creations(vs[1..]) + rest);
      ExecFirst(inp, h, CreateVolume(vs[0]), Creations(vs[1..]) + rest);
      hide ExecAll, Elems, NoRepeats, Creations;
      CreationsRun(inp, next, vs[1..], rest);
      assert h.volumes + {vs[0]} + Elems(vs[1..]) == h.volumes + Elems(vs);
    }
  }

  lemma SetupRuns(inp: Input, holder: string, vs: seq<string>, dirs: seq<string>, rest: seq<Command>)
    requires NoRepeats(vs)
    ensures ExecAll(inp, EMPTY, Setup(holder, vs, dirs) + rest)
         == ExecAll(inp, Host(Elems(vs), Elems(dirs), {holder}), rest)
  {
    var h1, h2, h3 := Host(Elems(vs), {}, {}), Host(Elems(vs), {}, {holder}), Host(Elems(vs), Elems(dirs), {holder});
    var make := if dirs == [] then [] else [MakeDirs(holder, dirs)];
    assert Setup(holder, vs, dirs) + rest == Creations(vs) + ([StartHolder(holder, vs)] + (make + rest));
    assert EMPTY.(volumes := EMPTY.volumes + Elems(vs)) == h1;
    assert h1.containers + {holder} == {holder} && h2.dirs + Elems(dirs) == Elems(dirs);
    assert Exec(inp, h1, StartHolder(holder, vs)) == Some(h2);
    assert Exec(inp, h2, MakeDirs(holder, dirs)) == Some(h3);
    assert dirs == [] ==> make + rest == rest && h2 == h3;
    hide *;
    CreationsRun(inp, EMPTY, vs, [StartHolder(holder, vs)] + (make + rest));
    ExecFirst(inp, h1, StartHolder(holder, vs), make + rest);
    ExecFirst(inp, h2, MakeDirs(holder, dirs), rest);
  }

  /** Once setup has met every container's needs, only a clash of names can stop them. */
  lemma {:induction false} StartsRun(inp: Input, h: Host, rs: seq<Run>)
    requires forall i :: 0 <= i < |rs| ==> Met(inp, h, rs[i])
    ensures var names := RunNames(rs);
            ExecAll(inp, h, Starts(rs))
            == if NoRepeats(names) && Elems(names) !! h.containers
               then Some(h.(containers := h.containers + Elems(names))) else None
    decreases |rs|
  {
    if rs == [] {
      assert h.containers + Elems([]) == h.containers;
    } else {
      var name, names := rs[0].name, RunNames(rs[1..]);
      var next := h.(containers := h.containers + {name});
      ExecFirst(inp, h, Start(rs[0]), Starts(rs[1..]));
      forall i | 0 <= i < |rs| - 1 ensures Met(inp, next, rs[1..][i]) { assert Met(inp, h, rs[i + 1]); }
      StartsRun(inp, next, rs[1..]);
      NoRepeatsOneMore(names, name);
      assert Met(inp, h, rs[0]);
      hide Met, ExecAll, NoRepeats;
      assert Elems([name] + names) == {name} + Elems(names);
      assert name in names <==> name in Elems(names);
      assert h.containers + {name} + Elems(names) == h.containers + ({name} + Elems(names));
    }
  }

  // ---- Names ----

  /** The sidecars that run, by the names the pod gives them. */
  function ImagedNames(cs: seq<Container>): seq<string> {
    if cs == [] then []
    else if cs[0].image == "" then ImagedNames(cs[1..])
    else [cs[0].name] + ImagedNames(cs[1..])
  }

  function Prefixed(prefix: string, ns: seq<string>): seq<string> {
    if ns == [] then [] else [prefix + ns[0]] + Prefixed(prefix, ns[1..])
  }

  lemma {:induction false} PrefixedMembers(prefix: string, ns: seq<string>)
    ensures NoRepeats(Prefixed(prefix, ns)) <==> NoRepeats(ns)
    ensures forall n :: prefix + n in Prefixed(prefix, ns) <==> n in ns
    ensures forall x :: x in Prefixed(prefix, ns) ==> |x| >= |prefix|
    decreases |ns|
  {
    if ns != [] {
      var n, rest := ns[0], ns[1..];
      PrefixedMembers(prefix, rest);
      NoRepeatsOneMore(rest, n);
      NoRepeatsOneMore(Prefixed(prefix, rest), prefix + n);
      assert ns == [n] + rest;
      hide NoRepeats;
      forall m ensures prefix + m == prefix + n <==> m == n {
        assert (prefix + m)[|prefix|..] == m && (prefix + n)[|prefix|..] == n;
      }
    }
  }

  lemma {:induction false} SidecarNames(inp: Input, cs: seq<Container>, native: bool, network: Option<string>)
    ensures RunNames(SidecarRuns(inp, cs, native, network)) == Prefixed(inp.name + "-", ImagedNames(cs))
  {
    if cs != [] {
      SidecarNames(inp, cs[1..], native, network);
      hide FlagsOf;
      var rest := SidecarRuns(inp, cs[1..], native, network);
      if cs[0].image == "" {
        assert SidecarRuns(inp, cs, native, network) == rest;
        assert ImagedNames(cs) == ImagedNames(cs[1..]);
      } else {
        assert SidecarRuns(inp, cs, native, network)[1..] == rest;
        assert ImagedNames(cs)[1..] == ImagedNames(cs[1..]);
      }
    }
  }

  lemma {:induction false} PrefixedAppend(prefix: string, ns: seq<string>, ms: seq<string>)
    ensures Prefixed(prefix, ns + ms) == Prefixed(prefix, ns) + Prefixed(prefix, ms)
  {
    if ns == [] {
      assert ns + ms == ms;
    } else {
      assert (ns + ms)[1..] == ns[1..] + ms;
      PrefixedAppend(prefix, ns[1..], ms);
    }
  }

  lemma {:induction false} RunNamesAppend(rs: seq<Run>, qs: seq<Run>)
    ensures RunNames(rs + qs) == RunNames(rs) + RunNames(qs)
  {
    if rs == [] {
      assert rs + qs == qs;
    } else {
      assert (rs + qs)[1..] == rs[1..] + qs;
      RunNamesAppend(rs[1..], qs);
    }
  }

  /** No two sidecars share a name, and none takes the holder's. */
  ghost predicate NamesApart(p: Parts) {
    var ns := ImagedNames(p.native) + ImagedNames(p.others);
    NoRepeats(ns) && "pod" !in ns
  }

  lemma StartedNames(p: Parts)
    requires p.inp.pod
    ensures RunNames(Started(PlanOf(p)))
         == Prefixed(p.inp.name + "-", ImagedNames(p.native)) + [p.inp.name]
            + Prefixed(p.inp.name + "-", ImagedNames(p.others))
  {
    var native, others := SidecarRuns(p.inp, p.native, true, p.Network()), SidecarRuns(p.inp, p.others, false, p.Network());
    var main := MainRun(p.inp, p.main, p.Network());
    assert Started(PlanOf(p)) == native + [main] + others;
    assert RunNames([main]) == [p.inp.name];
    SidecarNames(p.inp, p.native, true, p.Network());
    SidecarNames(p.inp, p.others, false, p.Network());
    hide *;
    RunNamesAppend(native, [main]);
    RunNamesAppend(native + [main], others);
  }

  lemma {:induction false} PrefixedAround(prefix: string, ns: seq<string>, ms: seq<string>, x: string)
    requires |x| < |prefix|
    ensures NoRepeats(Prefixed(prefix, ns) + [x] + Prefixed(prefix, ms)) <==> NoRepeats(ns + ms)
    ensures forall n :: prefix + n in Prefixed(prefix, ns) + [x] + Prefixed(prefix, ms) <==> n in ns + ms
  {
    var a, b := Prefixed(prefix, ns), Prefixed(prefix, ms);
    NoRepeatsWithout(a, x, b);
    PrefixedAppend(prefix, ns, ms);
    PrefixedMembers(prefix, ns + ms);
    hide *;
    assert x !in a + b;
    forall n ensures prefix + n in a + [x] + b <==> n in ns + ms {
      assert prefix + n != x;
      assert prefix + n in a + [x] + b <==> prefix + n in a + b;
    }
  }

  lemma NamesApartIff(p: Parts)
    requires p.inp.pod
    ensures var names := RunNames(Started(PlanOf(p)));
            NamesApart(p) <==> NoRepeats(names) && p.Holder() !in names
  {
    var prefix, ns, ms := p.inp.name + "-", ImagedNames(p.native), ImagedNames(p.others);
    assert p.Holder() == prefix + "pod";
    assert NamesApart(p) <==> NoRepeats(ns + ms) && "pod" !in ns + ms;
    hide *;
    StartedNames(p);
    PrefixedAround(prefix, ns, ms, p.inp.name);
  }

  // ---- Carrying out a plan ----

  /** Each sidecar's run joins the holder's network. */
  lemma {:induction false} SidecarsJoin(inp: Input, cs: seq<Container>, native: bool, network: Option<string>)
    ensures forall r :: r in SidecarRuns(inp, cs, native, network) ==> r.network == network
  {
    hide FlagsOf;
    if cs != [] { SidecarsJoin(inp, cs[1..], native, network); }
  }

  lemma StartedJoin(p: Parts)
    requires p.inp.pod
    ensures forall r :: r in Started(PlanOf(p)) ==> r.network == Some(p.Holder())
  {
    SidecarsJoin(p.inp, p.native, true, p.Network());
    SidecarsJoin(p.inp, p.others, false, p.Network());
    hide SidecarRuns, FlagsOf, AllNeeds, AllNotes, Setup;
  }

  lemma {:induction false} FlagsWithin(inp: Input, rs: seq<Run>, i: nat)
    requires i < |rs|
    ensures Volumes(rs[i].flags) <= Volumes(RunFlags(rs))
    ensures Dirs(inp, rs[i].flags) <= Dirs(inp, RunFlags(rs))
  {
    hide Volumes, Dirs;
    FlagsAppend(inp, rs[0].flags, RunFlags(rs[1..]));
    if i > 0 { FlagsWithin(inp, rs[1..], i - 1); }
  }

  /** What the host holds once the plan of a pod is up. */
  function Up(p: Parts): Host {
    Host(Elems(AllNeeds(p).volumes), Elems(AllNeeds(p).subdirs), {p.Holder()} + Elems(RunNames(Started(PlanOf(p)))))
  }

  /** What it holds after setup. */
  function Ready(p: Parts): Host {
    Host(Elems(AllNeeds(p).volumes), Elems(AllNeeds(p).subdirs), {p.Holder()})
  }

  /** Setup goes through once, and provides what every container needs. */
  lemma SetupMeets(p: Parts)
    requires p.inp.pod
    ensures NoRepeats(AllNeeds(p).volumes)
    ensures forall i :: 0 <= i < |Started(PlanOf(p))| ==> Met(p.inp, Ready(p), Started(PlanOf(p))[i])
  {
    var needs, rs, h := AllNeeds(p), Started(PlanOf(p)), Ready(p);
    PlanCovers(p);
    ListsSet(needs.volumes, Volumes(RunFlags(rs)));
    ListsSet(needs.subdirs, Dirs(p.inp, RunFlags(rs)));
    StartedJoin(p);
    hide PlanOf, Started, AllNeeds, NoRepeats;
    forall i | 0 <= i < |rs| ensures Met(p.inp, h, rs[i]) {
      FlagsWithin(p.inp, rs, i);
      assert rs[i] in rs;
    }
  }

  /**
   On a clean host the whole plan goes through exactly when no two sidecars
   share a name and none is called "pod": volumes and directories are never
   missing, never made twice, and the holder is always there to join.
   */
  lemma PlanRunsIff(p: Parts)
    requires p.inp.pod
    ensures ExecAll(p.inp, EMPTY, Commands(PlanOf(p))) == if NamesApart(p) then Some(Up(p)) else None
  {
    var needs, rs, h := AllNeeds(p), Started(PlanOf(p)), Ready(p);
    assert Commands(PlanOf(p)) == Setup(p.Holder(), needs.volumes, needs.subdirs) + Starts(rs);
    SetupMeets(p);
    NamesApartIff(p);
    hide PlanOf, Started, AllNeeds, NamesApart, Starts, Setup, RunNames, NoRepeats, Commands, ExecAll, Met;
    SetupRuns(p.inp, p.Holder(), needs.volumes, needs.subdirs, Starts(rs));
    StartsRun(p.inp, h, rs);
    assert p.Holder() in RunNames(rs) <==> p.Holder() in Elems(RunNames(rs));
  }

  // ---- Teardown ----

  /** The containers to remove: regular sidecars, main, native sidecars in reverse, holder. */
  function TeardownOf(plan: RunPlan): seq<string> {
    match plan.pod
    case None => [plan.main.name]
    case Some(pod) => RunNames(pod.others) + [plan.main.name] + Reversed(RunNames(pod.sidecars)) + [pod.holder]
  }

  method ContainersOf(plan: RunPlan) returns (names: seq<string>)
    ensures names == TeardownOf(plan)
  {
    if plan.pod.None? {
      return [plan.main.name];
    }
    var pod := plan.pod.value;
    names := [];
    assert pod.others[0..] == pod.others;
    for i := 0 to |pod.others|
      invariant names + RunNames(pod.others[i..]) == RunNames(pod.others)
    {
      assert pod.others[i..][1..] == pod.others[i + 1..];
      names := names + [pod.others[i].name];
    }
    assert pod.others[|pod.others|..] == [];
    names := names + [plan.main.name];
    ghost var before := names;
    for i := |pod.sidecars| downto 0
      invariant names == before + Reversed(RunNames(pod.sidecars[i..]))
    {
      assert pod.sidecars[i..][1..] == pod.sidecars[i + 1..];
      names := names + [pod.sidecars[i].name];
    }
    assert pod.sidecars[0..] == pod.sidecars;
    names := names + [pod.holder];
  }

  lemma TeardownMembers(p: Parts)
    requires p.inp.pod
    ensures multiset(TeardownOf(PlanOf(p))) == multiset(RunNames(Started(PlanOf(p))) + [p.Holder()])
  {
    var plan := PlanOf(p);
    var pod := plan.pod.value;
    var sidecars, others := RunNames(pod.sidecars), RunNames(pod.others);
    assert Started(plan) == pod.sidecars + [plan.main] + pod.others;
    assert RunNames([plan.main]) == [plan.main.name];
    assert TeardownOf(plan) == others + [plan.main.name] + Reversed(sidecars) + [p.Holder()];
    hide *;
    RunNamesAppend(pod.sidecars, [plan.main]);
    RunNamesAppend(pod.sidecars + [plan.main], pod.others);
    ReversedMembers(sidecars);
  }

  /** Teardown removes exactly what was started, each container once and the holder last. */
  lemma {:induction false} TeardownMatches(p: Parts)
    requires p.inp.pod
    ensures var down := TeardownOf(PlanOf(p));
            && multiset(down) == multiset(RunNames(Started(PlanOf(p))) + [p.Holder()])
            && |down| > 0 && down[|down| - 1] == p.Holder()
            && (NamesApart(p) <==> NoRepeats(down))
            && Elems(down) == Up(p).containers
  {
    var names, down := RunNames(Started(PlanOf(p))), TeardownOf(PlanOf(p));
    assert Up(p).containers == {p.Holder()} + Elems(names);
    assert |down| > 0 && down[|down| - 1] == p.Holder();
    TeardownMembers(p);
    NamesApartIff(p);
    OneMore(names, p.Holder());
    NoRepeatsPermuted(down, names + [p.Holder()]);
    hide *;
  }

  /**
   The host after a start that may be cut off anywhere, and in which any command may
   fail, for whatever reason, with or without leaving behind what it was to make:
   `made` tells for each command issued whether it did.
   */
  function Attempt(h: Host, cs: seq<Command>, made: seq<bool>): Host
    decreases |cs|
  {
    if cs == [] || made == [] then h
    else Attempt(if made[0] then Effect(h, cs[0]) else h, cs[1..], made[1..])
  }

  /** `rm -f` and `volume rm -f` of what the plan lists. */
  function TakenDown(plan: RunPlan, h: Host): Host {
    Host(h.volumes - (if plan.pod.Some? then Elems(plan.pod.value.volumes) else {}), h.dirs,
         h.containers - Elems(TeardownOf(plan)))
  }

  /** What a list of commands can put on the host. */
  ghost predicate Makes(cs: seq<Command>, volumes: set<string>, containers: set<string>) {
    forall c :: c in cs ==>
      && (c.CreateVolume? ==> c.volume in volumes)
      && (c.StartHolder? ==> c.name in containers)
      && (c.Start? ==> c.run.name in containers)
  }

  lemma {:induction false} AttemptWithin(h: Host, cs: seq<Command>, made: seq<bool>, volumes: set<string>, containers: set<string>)
    requires Makes(cs, volumes, containers)
    ensures Attempt(h, cs, made).volumes - volumes == h.volumes - volumes
    ensures Attempt(h, cs, made).containers - containers == h.containers - containers
    decreases |cs|
  {
    if cs != [] && made != [] {
      assert cs[0] in cs;
      AttemptWithin(if made[0] then Effect(h, cs[0]) else h, cs[1..], made[1..], volumes, containers);
    }
  }

  lemma {:induction false} CreationsMake(vs: seq<string>)
    ensures forall c :: c in Creations(vs) ==> c.CreateVolume? && c.volume in vs
  {
    if vs != [] { CreationsMake(vs[1..]); }
  }

  lemma {:induction false} StartsMake(rs: seq<Run>)
    ensures forall c :: c in Starts(rs) ==> c.Start? && c.run.name in RunNames(rs)
  {
    if rs != [] { StartsMake(rs[1..]); }
  }

  lemma SetupMakes(holder: string, vs: seq<string>, dirs: seq<string>, rs: seq<Run>, containers: set<string>)
    requires holder in containers && forall n :: n in RunNames(rs) ==> n in containers
    ensures Makes(Starts(rs), {}, containers)
    ensures Makes(Setup(holder, vs, dirs) + Starts(rs), Elems(vs), containers)
  {
    StartsMake(rs);
    CreationsMake(vs);
    hide Starts, Creations, RunNames;
    forall c | c in Setup(holder, vs, dirs) + Starts(rs) && !c.MakeDirs?
      ensures c in Creations(vs) || c == StartHolder(holder, vs) || c in Starts(rs) {
    }
  }

  lemma CommandsMake(p: Parts)
    ensures var plan := PlanOf(p);
            Makes(Commands(plan), if plan.pod.Some? then Elems(plan.pod.value.volumes) else {}, Elems(TeardownOf(plan)))
  {
    var plan, needs, rs := PlanOf(p), AllNeeds(p), Started(PlanOf(p));
    var holder := if p.inp.pod then p.Holder() else plan.main.name;
    if p.inp.pod {
      assert Commands(plan) == Setup(holder, needs.volumes, needs.subdirs) + Starts(rs);
      assert plan.pod.Some? && plan.pod.value.volumes == needs.volumes;
      TeardownMembers(p);
      hide *;
      ListedIn(TeardownOf(plan), RunNames(rs) + [holder]);
    } else {
      assert rs == [plan.main] && RunNames(rs) == [plan.main.name] == TeardownOf(plan);
      assert Commands(plan) == Starts(rs) && plan.pod.None?;
      hide *;
      ListedIn(TeardownOf(plan), RunNames(rs));
    }
    SetupMakes(holder, needs.volumes, needs.subdirs, rs, Elems(TeardownOf(plan)));
  }

  /**
   However a start ends and whatever was on the host before, taking the plan down leaves
   no container and no volume of it, and all others as they were.
   */
  lemma NothingLeft(p: Parts, h: Host, made: seq<bool>)
    ensures var plan := PlanOf(p);
            var after := TakenDown(plan, Attempt(h, Commands(plan), made));
            && after.volumes == TakenDown(plan, h).volumes
            && after.containers == TakenDown(plan, h).containers
            && after.containers !! Elems(TeardownOf(plan))
            && (plan.pod.Some? ==> after.volumes !! Elems(plan.pod.value.volumes))
  {
    var plan := PlanOf(p);
    CommandsMake(p);
    hide Makes, TeardownOf, Commands, PlanOf;
    AttemptWithin(h, Commands(plan), made, if plan.pod.Some? then Elems(plan.pod.value.volumes) else {},
                  Elems(TeardownOf(plan)));
  }
}
