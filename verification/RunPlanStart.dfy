/** How a pod is started, and what may fail in it. */
module RunPlanStart {
  import opened Options
  import opened Mounts
  import opened RunPlans
  import opened RunPlanMounts
  import opened RunPlanHost
  import opened Sequences

  /** The regular sidecars, each one left out if docker refuses it; also those left out. */
  function StartLate(inp: Input, h: Host, rs: seq<Run>): (Host, seq<string>)
    decreases |rs|
  {
    if rs == [] then (h, [])
    else match Exec(inp, h, Start(rs[0]))
      case Some(next) => StartLate(inp, next, rs[1..])
      case None => var (up, refused) := StartLate(inp, h, rs[1..]); (up, [rs[0].name] + refused)
  }

  /** None when the start is given up. */
  function StartPod(inp: Input, h: Host, main: Run, pod: PodPlan): Option<(Host, seq<string>)> {
    match ExecAll(inp, h, pod.setup + Starts(pod.sidecars + [main]))
    case None => None
    case Some(up) => Some(StartLate(inp, up, pod.others))
  }

  method StartOthers(inp: Input, h: Host, rs: seq<Run>) returns (up: Host, refused: seq<string>)
    ensures (up, refused) == StartLate(inp, h, rs)
  {
    up, refused := h, [];
    assert rs[0..] == rs;
    Associate(StartLate(inp, h, rs).1, [], []);
    for i := 0 to |rs|
      invariant StartLate(inp, h, rs) == (StartLate(inp, up, rs[i..]).0, refused + StartLate(inp, up, rs[i..]).1)
    {
      assert rs[i..][0] == rs[i] && rs[i..][1..] == rs[i + 1..];
      var next := Exec(inp, up, Start(rs[i]));
      hide Exec;
      match next
      case Some(more) =>
        up := more;
      case None =>
        Associate(refused, [rs[i].name], StartLate(inp, up, rs[i + 1..]).1);
        refused := refused + [rs[i].name];
    }
    assert rs[|rs|..] == [];
    Associate(refused, [], []);
  }

  /** The names that are taken when their turn comes. */
  function Taken(names: seq<string>, before: set<string>): seq<string>
    decreases |names|
  {
    if names == [] then []
    else (if names[0] in before then [names[0]] else []) + Taken(names[1..], before + {names[0]})
  }

  /** With all needs met, a regular sidecar is left out exactly when its name is taken. */
  lemma {:induction false} LateStarts(inp: Input, h: Host, rs: seq<Run>)
    requires forall i :: 0 <= i < |rs| ==> Met(inp, h, rs[i])
    ensures StartLate(inp, h, rs)
         == (h.(containers := h.containers + Elems(RunNames(rs))), Taken(RunNames(rs), h.containers))
    decreases |rs|
  {
    if rs == [] {
      assert h.containers + Elems([]) == h.containers;
    } else {
      var name, names := rs[0].name, RunNames(rs[1..]);
      var next := h.(containers := h.containers + {name});
      forall i | 0 <= i < |rs| - 1 ensures Met(inp, next, rs[1..][i]) { assert Met(inp, h, rs[i + 1]); }
      LateStarts(inp, next, rs[1..]);
      assert Met(inp, h, rs[0]);
      assert RunNames(rs)[1..] == names;
      if name in h.containers { assert h.containers + {name} == h.containers; }
      assert Elems([name] + names) == {name} + Elems(names);
      assert StartLate(inp, h, rs) == (if name in h.containers then
          (StartLate(inp, next, rs[1..]).0, [name] + StartLate(inp, next, rs[1..]).1) else StartLate(inp, next, rs[1..]));
      assert Taken(RunNames(rs), h.containers)
          == (if name in h.containers then [name] else []) + Taken(names, h.containers + {name});
      hide *;
      Associate(Taken(names, h.containers + {name}), [], []);
      assert h.containers + {name} + Elems(names) == h.containers + ({name} + Elems(names));
    }
  }

  lemma {:induction false} TakenPrefixed(prefix: string, ns: seq<string>, before: set<string>, taken: set<string>)
    requires forall n :: prefix + n in before <==> n in taken
    ensures Taken(Prefixed(prefix, ns), before) == Prefixed(prefix, Taken(ns, taken))
    decreases |ns|
  {
    if ns != [] {
      var n := ns[0];
      assert Prefixed(prefix, ns)[1..] == Prefixed(prefix, ns[1..]);
      forall m ensures prefix + m in before + {prefix + n} <==> m in taken + {n} {
        Unprefixed(prefix, m, n);
      }
      TakenPrefixed(prefix, ns[1..], before + {prefix + n}, taken + {n});
      var one, rest := if n in taken then [n] else [], Taken(ns[1..], taken + {n});
      assert Taken(ns, taken) == one + rest;
      PrefixedAppend(prefix, one, rest);
      assert Prefixed(prefix, one) == if n in taken then [prefix + n] else [];
    }
  }

  // ---- The whole pod ----

  /** The names that have to be free for the start to get as far as main. */
  ghost predicate NativeApart(p: Parts) {
    NoRepeats(ImagedNames(p.native)) && "pod" !in ImagedNames(p.native)
  }

  /** The regular sidecars named "pod", like a native sidecar, or like an earlier regular one. */
  function LeftOut(p: Parts): seq<string> {
    Taken(ImagedNames(p.others), {"pod"} + Elems(ImagedNames(p.native)))
  }

  lemma NativeApartIff(p: Parts, urgent: seq<Run>)
    requires p.inp.pod && urgent == SidecarRuns(p.inp, p.native, true, p.Network()) + [MainRun(p.inp, p.main, p.Network())]
    ensures NativeApart(p) <==> NoRepeats(RunNames(urgent)) && Elems(RunNames(urgent)) !! {p.Holder()}
    ensures forall n :: p.inp.name + "-" + n in {p.Holder()} + Elems(RunNames(urgent))
                   <==> n in {"pod"} + Elems(ImagedNames(p.native))
  {
    var prefix, ns := p.inp.name + "-", ImagedNames(p.native);
    var main := MainRun(p.inp, p.main, p.Network());
    assert RunNames([main]) == [p.inp.name] && p.Holder() == prefix + "pod";
    SidecarNames(p.inp, p.native, true, p.Network());
    RunNamesAppend(SidecarRuns(p.inp, p.native, true, p.Network()), [main]);
    assert NativeApart(p) <==> NoRepeats(ns) && "pod" !in ns;
    hide *;
    PrefixedBefore(prefix, ns, p.inp.name);
  }

  lemma PrefixedBefore(prefix: string, ns: seq<string>, x: string)
    requires |x| < |prefix|
    ensures var names := Prefixed(prefix, ns) + [x];
            && (NoRepeats(names) && Elems(names) !! {prefix + "pod"} <==> NoRepeats(ns) && "pod" !in ns)
            && forall n :: prefix + n in {prefix + "pod"} + Elems(names) <==> n in {"pod"} + Elems(ns)
  {
    var names := Prefixed(prefix, ns) + [x];
    PrefixedMembers(prefix, ns);
    OneMore(Prefixed(prefix, ns), x);
    hide Prefixed, NoRepeats;
    forall n ensures prefix + n in names <==> n in ns { assert prefix + n != x; }
    forall n ensures prefix + n == prefix + "pod" <==> n == "pod" { Unprefixed(prefix, n, "pod"); }
    hide Elems;
    ElemsIn(names);
    ElemsIn(ns);
  }

  lemma UrgentRuns(p: Parts, urgent: seq<Run>, others: seq<Run>)
    requires p.inp.pod && Started(PlanOf(p)) == urgent + others
    requires urgent == SidecarRuns(p.inp, p.native, true, p.Network()) + [MainRun(p.inp, p.main, p.Network())]
    ensures ExecAll(p.inp, EMPTY, PodPlanOf(p).setup + Starts(urgent))
         == if NativeApart(p) then Some(Ready(p).(containers := {p.Holder()} + Elems(RunNames(urgent)))) else None
  {
    var needs, h := AllNeeds(p), Ready(p);
    assert PodPlanOf(p).setup == Setup(p.Holder(), needs.volumes, needs.subdirs);
    SetupMeets(p);
    NativeApartIff(p, urgent);
    forall i | 0 <= i < |urgent| ensures Met(p.inp, h, urgent[i]) { assert urgent[i] == Started(PlanOf(p))[i]; }
    hide PlanOf, PodPlanOf, Started, AllNeeds, NativeApart, Starts, Setup, RunNames, NoRepeats, ExecAll, Met, SidecarRuns, MainRun;
    SetupRuns(p.inp, p.Holder(), needs.volumes, needs.subdirs, Starts(urgent));
    StartsRun(p.inp, h, urgent);
  }

  /**
   On a clean host the start of a pod is given up exactly when two native sidecars share a
   name or one is called "pod". Otherwise just the regular sidecars whose name is taken are
   left out, and all volumes, directories and other containers of the plan are there.
   */
  lemma PodStartsIff(p: Parts)
    requires p.inp.pod
    ensures StartPod(p.inp, EMPTY, PlanOf(p).main, PlanOf(p).pod.value)
         == if NativeApart(p) then Some((Up(p), Prefixed(p.inp.name + "-", LeftOut(p)))) else None
  {
    var main, prefix := MainRun(p.inp, p.main, p.Network()), p.inp.name + "-";
    var urgent := SidecarRuns(p.inp, p.native, true, p.Network()) + [main];
    var others := SidecarRuns(p.inp, p.others, false, p.Network());
    var up := Ready(p).(containers := {p.Holder()} + Elems(RunNames(urgent)));
    assert Started(PlanOf(p)) == urgent + others;
    UrgentRuns(p, urgent, others);
    NativeApartIff(p, urgent);
    SetupMeets(p);
    SidecarNames(p.inp, p.others, false, p.Network());
    TakenPrefixed(prefix, ImagedNames(p.others), up.containers, {"pod"} + Elems(ImagedNames(p.native)));
    forall i | 0 <= i < |others| ensures Met(p.inp, up, others[i]) {
      assert Met(p.inp, Ready(p), Started(PlanOf(p))[|urgent| + i]);
    }
    LateStarts(p.inp, up, others);
    RunNamesAppend(urgent, others);
    assert StartPod(p.inp, EMPTY, main, PodPlanOf(p)) == if NativeApart(p) then Some(StartLate(p.inp, up, others)) else None;
    assert Up(p) == Ready(p).(containers := {p.Holder()} + Elems(RunNames(urgent + others)));
    hide *;
    AllElems(p.Holder(), RunNames(urgent), RunNames(others));
  }

  /** One native sidecar called "pod": its container would take the holder's name, and the start is given up. */
  lemma PodSidecarClashes(inp: Input, main: Container, image: string)
    requires image != "" && inp.pod
    ensures var sidecar := Container("pod", image, [], true, false, None, None);
            var p := Parts(inp, main, [sidecar], [], []);
            && ExecAll(inp, EMPTY, Commands(PlanOf(p))) == None
            && StartPod(inp, EMPTY, PlanOf(p).main, PlanOf(p).pod.value) == None
  {
    var sidecar := Container("pod", image, [], true, false, None, None);
    var p := Parts(inp, main, [sidecar], [], []);
    assert ImagedNames(p.native) == ["pod"];
    hide PlanOf, Commands, ExecAll, StartPod;
    PlanRunsIff(p);
    PodStartsIff(p);
  }
}
