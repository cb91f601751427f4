/** Every volume and directory a container mounts is planned, once, and no other is. */
module RunPlanMounts {
  import opened Options
  import opened Mounts
  import opened RunPlans
  import opened Sequences

  function Volumes(fs: seq<Flag>): set<string> { set f | f in fs && f.Shared? :: f.src }

  function Dirs(inp: Input, fs: seq<Flag>): set<string> {
    set f | f in fs && f.Shared? && f.subpath.Some? :: inp.holderDir(f.src, f.subpath.value)
  }

  /** The planned volumes and directories are those the flags speak of, each listed once. */
  ghost predicate Covers(inp: Input, n: Needs, fs: seq<Flag>) {
    multiset(n.volumes) == multiset(Volumes(fs)) && multiset(n.subdirs) == multiset(Dirs(inp, fs))
  }

  lemma AddedOnce(xs: seq<string>, x: string, all: set<string>)
    requires multiset(xs) == multiset(all)
    ensures multiset(Added(xs, x)) == multiset(all + {x})
  {
    assert x in xs <==> x in multiset(xs);
    if x in all { assert all + {x} == all; }
  }

  lemma FlagsAppend(inp: Input, fs: seq<Flag>, gs: seq<Flag>)
    ensures Volumes(fs + gs) == Volumes(fs) + Volumes(gs)
    ensures Dirs(inp, fs + gs) == Dirs(inp, fs) + Dirs(inp, gs)
  {
    assert forall f :: f in fs + gs <==> f in fs || f in gs;
  }

  lemma OneFlag(inp: Input, f: Flag)
    ensures Volumes([f]) == (if f.Shared? then {f.src} else {})
    ensures Dirs(inp, [f])
         == (if f.Shared? && f.subpath.Some? then {inp.holderDir(f.src, f.subpath.value)} else {})
  {
    assert forall g :: g in [f] <==> g == f;
    assert f in [f];
  }

  /** What a mount adds can be read off its flag. */
  lemma MountAdds(inp: Input, n: Needs, m: VolumeMount)
    requires inp.pod
    ensures var f, n' := FlagOf(inp, m), NeedsOf(inp, n, m);
            && n'.volumes == (if f.Shared? then Added(n.volumes, f.src) else n.volumes)
            && n'.subdirs == (if f.Shared? && f.subpath.Some? then Added(n.subdirs, inp.holderDir(f.src, f.subpath.value))
                              else n.subdirs)
  {
    hide Added;
  }

  lemma MountCovered(inp: Input, n: Needs, fs: seq<Flag>, m: VolumeMount)
    requires inp.pod && Covers(inp, n, fs)
    ensures Covers(inp, NeedsOf(inp, n, m), fs + [FlagOf(inp, m)])
  {
    var f := FlagOf(inp, m);
    MountAdds(inp, n, m);
    FlagsAppend(inp, fs, [f]);
    OneFlag(inp, f);
    hide FlagOf, NeedsOf, Volumes, Dirs, Added;
    if f.Shared? {
      AddedOnce(n.volumes, f.src, Volumes(fs));
      if f.subpath.Some? { AddedOnce(n.subdirs, inp.holderDir(f.src, f.subpath.value), Dirs(inp, fs)); }
    }
    assert Volumes(fs) + {} == Volumes(fs) && Dirs(inp, fs) + {} == Dirs(inp, fs);
  }

  lemma {:induction false} MountsCovered(inp: Input, n: Needs, fs: seq<Flag>, ms: seq<VolumeMount>, seen: set<string>)
    requires inp.pod && Covers(inp, n, fs)
    ensures Covers(inp, NeedsOfAll(inp, n, ms, seen), fs + FlagsOf(inp, ms, seen))
    decreases |ms|
  {
    hide NeedsOf, FlagOf;
    if ms == [] {
      assert fs + [] == fs;
    } else if ms[0].path in seen {
      assert Covers(inp, WithNote(n, DuplicateMount(ms[0].path)), fs);
      hide Covers;
      MountsCovered(inp, WithNote(n, DuplicateMount(ms[0].path)), fs, ms[1..], seen);
    } else {
      var f := FlagOf(inp, ms[0]);
      MountCovered(inp, n, fs, ms[0]);
      hide Covers;
      MountsCovered(inp, NeedsOf(inp, n, ms[0]), fs + [f], ms[1..], seen + {ms[0].path});
      Associate(fs, [f], FlagsOf(inp, ms[1..], seen + {ms[0].path}));
    }
  }

  function RunFlags(rs: seq<Run>): seq<Flag> { if rs == [] then [] else rs[0].flags + RunFlags(rs[1..]) }

  lemma {:induction false} RunFlagsAppend(rs: seq<Run>, qs: seq<Run>)
    ensures RunFlags(rs + qs) == RunFlags(rs) + RunFlags(qs)
  {
    if rs == [] {
      assert rs + qs == qs;
    } else {
      assert (rs + qs)[1..] == rs[1..] + qs;
      RunFlagsAppend(rs[1..], qs);
    }
  }

  lemma {:induction false} SidecarsCovered(inp: Input, n: Needs, fs: seq<Flag>, cs: seq<Container>, native: bool,
                                           network: Option<string>)
    requires inp.pod && Covers(inp, n, fs)
    ensures Covers(inp, SidecarNeeds(inp, n, cs), fs + RunFlags(SidecarRuns(inp, cs, native, network)))
    decreases |cs|
  {
    hide Covers, FlagsOf, NeedsOfAll;
    var rest := SidecarRuns(inp, cs[if cs == [] then 0 else 1..], native, network);
    if cs == [] {
      assert fs + [] == fs;
    } else if cs[0].image == "" {
      assert SidecarRuns(inp, cs, native, network) == rest;
      SidecarsCovered(inp, n, fs, cs[1..], native, network);
    } else {
      var run := SidecarRun(inp, cs[0], native, network);
      MountsCovered(inp, n, fs, cs[0].mounts, {});
      SidecarsCovered(inp, NeedsOfAll(inp, n, cs[0].mounts, {}), fs + run.flags, cs[1..], native, network);
      assert ([run] + rest)[1..] == rest;
      Associate(fs, run.flags, RunFlags(rest));
    }
  }

  /** The containers of the pod in the order they are started. */
  function Started(plan: RunPlan): seq<Run> {
    if plan.pod.None? then [plan.main] else plan.pod.value.sidecars + [plan.main] + plan.pod.value.others
  }

  /** Nothing is mounted that is not planned, nothing planned that is not mounted, nothing planned twice. */
  lemma PlanCovers(p: Parts)
    requires p.inp.pod
    ensures Covers(p.inp, AllNeeds(p), RunFlags(Started(PlanOf(p))))
  {
    var inp := p.inp;
    var native, others := SidecarRuns(inp, p.native, true, p.Network()), SidecarRuns(inp, p.others, false, p.Network());
    var main := MainRun(inp, p.main, p.Network());
    assert Started(PlanOf(p)) == native + [main] + others;
    assert Covers(inp, NOTHING, []);
    assert AllNeeds(p) == SidecarNeeds(inp, NeedsOfAll(inp, SidecarNeeds(inp, NOTHING, p.native), p.main.mounts, {}), p.others);
    assert main.flags == FlagsOf(inp, p.main.mounts, {});
    assert RunFlags([main]) == main.flags;
    hide *;
    SidecarsCovered(inp, NOTHING, [], p.native, true, p.Network());
    MountsCovered(inp, SidecarNeeds(inp, NOTHING, p.native), [] + RunFlags(native), p.main.mounts, {});
    SidecarsCovered(inp, NeedsOfAll(inp, SidecarNeeds(inp, NOTHING, p.native), p.main.mounts, {}),
                    [] + RunFlags(native) + main.flags, p.others, false, p.Network());
    RunFlagsAppend(native, [main]);
    RunFlagsAppend(native + [main], others);
    assert [] + RunFlags(native) == RunFlags(native);
  }

  // ---- Sharing ----

  /** With volume-subpath, two mounts share a docker volume exactly when they name the same pod volume. */
  lemma SharedIff(inp: Input, m: VolumeMount, m': VolumeMount)
    requires inp.pod && inp.volumeSubpath && !IsConfig(inp, m) && !IsConfig(inp, m')
    ensures FlagOf(inp, m).Shared? && FlagOf(inp, m').Shared?
    ensures FlagOf(inp, m).src == FlagOf(inp, m').src <==> m.name == m'.name
  {
    var prefix := inp.name + "-";
    assert (prefix + m.name)[|prefix|..] == m.name && (prefix + m'.name)[|prefix|..] == m'.name;
    assert prefix + m.name + "" == prefix + m.name && prefix + m'.name + "" == prefix + m'.name;
  }

  lemma Longer(a: string, more: bool, x: string, b: string, q: string)
    requires |a| < |b|
    ensures a + (if more then "-" + x else "") == b + q <==> more && a + "-" <= b && x == b[|a| + 1..] + q
  {
    var n := |a|;
    assert b == b[..n] + [b[n]] + b[n + 1..];
    assert b + q == b[..n] + ([b[n]] + (b[n + 1..] + q));
    if more {
      SameLength(a, "-" + x, b[..n], [b[n]] + (b[n + 1..] + q));
      SameLength("-", x, [b[n]], b[n + 1..] + q);
      assert a + "-" <= b <==> a == b[..n] && "-" == [b[n]];
    } else {
      assert a + "" == a;
    }
  }

  /** The name of `m'` starts inside the name and subPath of `m`: that of `m`, a dash, and a piece of its subPath. */
  predicate Overlaps(inp: Input, m: VolumeMount, m': VolumeMount) {
    && m.subPath != "" && m.name + "-" <= m'.name
    && VolumeName(m.subPath) == m'.name[|m.name| + 1..] + Part(inp, m')
  }

  /**
   On older engines two mounts share a docker volume exactly when they name one pod
   volume with subPaths that look alike to docker, or one volume's name is the other's
   followed by a dash and the rest of what the subPath adds.
   */
  lemma OlderSharedIff(inp: Input, m: VolumeMount, m': VolumeMount)
    requires inp.pod && !inp.volumeSubpath && !IsConfig(inp, m) && !IsConfig(inp, m')
    ensures FlagOf(inp, m).Shared? && FlagOf(inp, m').Shared?
    ensures FlagOf(inp, m).src == FlagOf(inp, m').src <==>
              || (m.name == m'.name && (m.subPath == "" <==> m'.subPath == "") && VolumeName(m.subPath) == VolumeName(m'.subPath))
              || Overlaps(inp, m, m') || Overlaps(inp, m', m)
  {
    Unprefixed(inp.name + "-", m.name + Part(inp, m), m'.name + Part(inp, m'));
    Associate(inp.name + "-", m.name, Part(inp, m));
    Associate(inp.name + "-", m'.name, Part(inp, m'));
    var a, b, x, y := m.name, m'.name, VolumeName(m.subPath), VolumeName(m'.subPath);
    hide VolumeName;
    if |a| < |b| {
      Longer(a, m.subPath != "", x, b, Part(inp, m'));
    } else if |b| < |a| {
      Longer(b, m'.subPath != "", y, a, Part(inp, m));
    } else {
      SameLength(a, Part(inp, m), b, Part(inp, m'));
      Unprefixed("-", x, y);
    }
  }

  /** Two ways to share by accident: a volume and a part of another, two parts of one volume. */
  lemma OlderEnginesCollide(inp: Input)
    requires inp.pod && !inp.volumeSubpath && !("a" in inp.declared || "a-b" in inp.declared)
    ensures FlagOf(inp, VolumeMount("a", "/x", "b", false)).src == FlagOf(inp, VolumeMount("a-b", "/y", "", false)).src
    ensures FlagOf(inp, VolumeMount("a", "/x", "b/c", false)).src == FlagOf(inp, VolumeMount("a", "/y", "b-c", false)).src
  {
    var whole, part := VolumeMount("a-b", "/y", "", false), VolumeMount("a", "/x", "b", false);
    var slash, dash := VolumeMount("a", "/x", "b/c", false), VolumeMount("a", "/y", "b-c", false);
    assert VolumeName("b") == "b" && VolumeName("b-c") == "b-c" by {
      VolumeNameAllowed("b");
      VolumeNameAllowed("b-c");
    }
    assert VolumeName("b/c") == "b-c" by {
      assert "b/c"[1..] == "/c" && "/c"[1..] == "c" && "c"[1..] == "";
    }
    hide VolumeName;
    OlderSharedIff(inp, part, whole);
    OlderSharedIff(inp, slash, dash);
    assert "a" + "-" <= "a-b" && "a-b"[2..] == "b";
  }

  function Targets(fs: seq<Flag>): set<string> { set f | f in fs :: f.dst }

  function Paths(ms: seq<VolumeMount>): set<string> { set m | m in ms :: m.path }

  ghost predicate ApartTargets(fs: seq<Flag>) { forall i, j :: 0 <= i < j < |fs| ==> fs[i].dst != fs[j].dst }

  lemma TargetsFirst(f: Flag, fs: seq<Flag>)
    ensures Targets([f] + fs) == {f.dst} + Targets(fs)
    ensures ApartTargets(fs) && f.dst !in Targets(fs) ==> ApartTargets([f] + fs)
  {
    assert forall g :: g in [f] + fs <==> g == f || g in fs;
    assert forall i :: 0 <= i < |fs| ==> fs[i] in fs && fs[i].dst in Targets(fs);
  }

  /** A container never mounts two things at one path, and each of its paths is mounted. */
  lemma {:induction false} PathsMountedOnce(inp: Input, ms: seq<VolumeMount>, seen: set<string>)
    ensures Targets(FlagsOf(inp, ms, seen)) == Paths(ms) - seen
    ensures ApartTargets(FlagsOf(inp, ms, seen))
    decreases |ms|
  {
    if ms != [] {
      var m, seen' := ms[0], seen + {ms[0].path};
      var f := FlagOf(inp, m);
      assert f.dst == m.path;
      hide FlagOf;
      PathsMountedOnce(inp, ms[1..], seen');
      TargetsFirst(f, FlagsOf(inp, ms[1..], seen'));
      hide Targets, ApartTargets;
      assert forall x :: x in ms <==> x == m || x in ms[1..];
      assert Paths(ms) == {m.path} + Paths(ms[1..]);
      hide Paths;
      if m.path in seen { assert seen' == seen; }
    }
  }
}
