/** The host files behind the config mounts of a plan, and what the last of these mounts leaves in each of them. */
module RunPlanFiles {
  import opened Options
  import opened Mounts
  import opened RunPlans
  import opened RunPlanMounts
  import opened Sequences

  // ---- What is mounted ----

  /** The first mount at each path; the others are skipped. */
  function Mounted(ms: seq<VolumeMount>, seen: set<string>): seq<VolumeMount> {
    if ms == [] then []
    else if ms[0].path in seen then Mounted(ms[1..], seen)
    else [ms[0]] + Mounted(ms[1..], seen + {ms[0].path})
  }

  function MountedBy(cs: seq<Container>): seq<VolumeMount> {
    if cs == [] then []
    else (if cs[0].image == "" then [] else Mounted(cs[0].mounts, {})) + MountedBy(cs[1..])
  }

  /** Everything the containers of the pod mount, in the order it is planned. */
  function AllMounted(p: Parts): seq<VolumeMount> {
    MountedBy(p.native) + Mounted(p.main.mounts, {}) + MountedBy(p.others)
  }

  function FlagsFor(inp: Input, ms: seq<VolumeMount>): seq<Flag> {
    if ms == [] then [] else [FlagOf(inp, ms[0])] + FlagsFor(inp, ms[1..])
  }

  lemma {:induction false} FlagsForAppend(inp: Input, a: seq<VolumeMount>, b: seq<VolumeMount>)
    ensures FlagsFor(inp, a + b) == FlagsFor(inp, a) + FlagsFor(inp, b)
  {
    hide FlagOf;
    if a == [] {
      assert a + b == b;
    } else {
      assert (a + b)[1..] == a[1..] + b;
      FlagsForAppend(inp, a[1..], b);
    }
  }

  lemma {:induction false} MountedFlags(inp: Input, ms: seq<VolumeMount>, seen: set<string>)
    ensures FlagsOf(inp, ms, seen) == FlagsFor(inp, Mounted(ms, seen))
    decreases |ms|
  {
    hide FlagOf;
    if ms != [] {
      MountedFlags(inp, ms[1..], seen);
      MountedFlags(inp, ms[1..], seen + {ms[0].path});
    }
  }

  lemma {:induction false} MountedByFlags(inp: Input, cs: seq<Container>, native: bool, network: Option<string>)
    ensures RunFlags(SidecarRuns(inp, cs, native, network)) == FlagsFor(inp, MountedBy(cs))
  {
    if cs != [] {
      MountedByFlags(inp, cs[1..], native, network);
      MountedFlags(inp, cs[0].mounts, {});
      var rest := SidecarRuns(inp, cs[1..], native, network);
      var run := SidecarRun(inp, cs[0], native, network);
      if cs[0].image == "" {
        assert SidecarRuns(inp, cs, native, network) == rest && MountedBy(cs) == MountedBy(cs[1..]);
      } else {
        assert SidecarRuns(inp, cs, native, network) == [run] + rest && ([run] + rest)[1..] == rest;
        assert RunFlags([run] + rest) == run.flags + RunFlags(rest);
      }
      assert run.flags == FlagsOf(inp, cs[0].mounts, {});
      FlagsForAppend(inp, Mounted(cs[0].mounts, {}), MountedBy(cs[1..]));
      hide FlagsFor, FlagsOf, Mounted, SidecarRun;
    }
  }

  /** The flags of the plan are those of its mounts, each settled on its own. */
  lemma PlanFlags(p: Parts)
    requires p.inp.pod <==> p.native + p.others != []
    ensures RunFlags(Started(PlanOf(p))) == FlagsFor(p.inp, AllMounted(p))
  {
    var inp := p.inp;
    var native, others := SidecarRuns(inp, p.native, true, p.Network()), SidecarRuns(inp, p.others, false, p.Network());
    var main := MainRun(inp, p.main, p.Network());
    MountedByFlags(inp, p.native, true, p.Network());
    MountedByFlags(inp, p.others, false, p.Network());
    MountedFlags(inp, p.main.mounts, {});
    assert Started(PlanOf(p)) == native + [main] + others;
    assert RunFlags([main]) == main.flags == FlagsOf(inp, p.main.mounts, {});
    hide *;
    RunFlagsAppend(native, [main]);
    RunFlagsAppend(native + [main], others);
    FlagsForAppend(inp, MountedBy(p.native), Mounted(p.main.mounts, {}));
    FlagsForAppend(inp, MountedBy(p.native) + Mounted(p.main.mounts, {}), MountedBy(p.others));
    AllMountedIs(p);
  }

  lemma AllMountedIs(p: Parts)
    ensures AllMounted(p) == MountedBy(p.native) + Mounted(p.main.mounts, {}) + MountedBy(p.others)
  {
  }

  // ---- What the files hold ----

  function ConfigMounts(inp: Input, ms: seq<VolumeMount>): seq<VolumeMount> {
    if ms == [] then []
    else (if IsConfig(inp, ms[0]) then [ms[0]] else []) + ConfigMounts(inp, ms[1..])
  }

  /** The files that config mounts ask for. */
  function FilePaths(inp: Input, cs: seq<VolumeMount>): set<string> {
    (if cs == [] then {} else {ConfigPath(inp)}) + set m | m in cs && m.subPath != "" :: inp.underConfig(m.subPath)
  }

  /** Another spelling of the config file's name: the mount empties the file. */
  predicate Empties(inp: Input, m: VolumeMount) {
    m.subPath != "" && m.subPath != inp.configFile && inp.underConfig(m.subPath) == ConfigPath(inp)
  }

  /** Just the files asked for, empty except the config file unless its last mount empties it. */
  function FilesFor(inp: Input, cs: seq<VolumeMount>): map<string, string> {
    map path | path in FilePaths(inp, cs) ::
      if path == ConfigPath(inp) && !Empties(inp, cs[|cs| - 1]) then inp.configContent else ""
  }

  lemma OneMorePath(inp: Input, cs: seq<VolumeMount>, m: VolumeMount)
    ensures FilePaths(inp, cs + [m])
         == FilePaths(inp, cs) + {ConfigPath(inp)} + (if m.subPath == "" then {} else {inp.underConfig(m.subPath)})
  {
    assert forall x :: x in cs + [m] <==> x in cs || x == m;
    assert m in cs + [m];
  }

  lemma ConfigFileStep(inp: Input, files: map<string, string>, cs: seq<VolumeMount>, m: VolumeMount)
    requires files == FilesFor(inp, cs)
    ensures ConfigFiles(inp, files, m) == FilesFor(inp, cs + [m])
  {
    OneMorePath(inp, cs, m);
    hide FilePaths;
    assert (cs + [m])[|cs + [m]| - 1] == m;
  }

  lemma FileStep(inp: Input, n: Needs, cs: seq<VolumeMount>, m: VolumeMount)
    requires n.files == FilesFor(inp, cs)
    ensures NeedsOf(inp, n, m).files == FilesFor(inp, cs + (if IsConfig(inp, m) then [m] else []))
  {
    if IsConfig(inp, m) {
      assert NeedsOf(inp, n, m).files == ConfigFiles(inp, n.files, m);
      hide *;
      ConfigFileStep(inp, n.files, cs, m);
    } else {
      assert cs + [] == cs && NeedsOf(inp, n, m).files == n.files;
    }
  }

  lemma {:induction false} ConfigMountsAppend(inp: Input, a: seq<VolumeMount>, b: seq<VolumeMount>)
    ensures ConfigMounts(inp, a + b) == ConfigMounts(inp, a) + ConfigMounts(inp, b)
  {
    hide IsConfig;
    if a == [] {
      assert a + b == b;
    } else {
      assert (a + b)[1..] == a[1..] + b;
      ConfigMountsAppend(inp, a[1..], b);
    }
  }

  lemma {:induction false} FilesOfMounts(inp: Input, n: Needs, cs: seq<VolumeMount>, ms: seq<VolumeMount>, seen: set<string>)
    requires n.files == FilesFor(inp, cs)
    ensures NeedsOfAll(inp, n, ms, seen).files == FilesFor(inp, cs + ConfigMounts(inp, Mounted(ms, seen)))
    decreases |ms|
  {
    if ms == [] {
      assert cs + [] == cs;
    } else if ms[0].path in seen {
      FilesOfMounts(inp, WithNote(n, DuplicateMount(ms[0].path)), cs, ms[1..], seen);
    } else {
      var m, rest := ms[0], Mounted(ms[1..], seen + {ms[0].path});
      var one := if IsConfig(inp, m) then [m] else [];
      FileStep(inp, n, cs, m);
      hide NeedsOf, FilesFor, IsConfig;
      FilesOfMounts(inp, NeedsOf(inp, n, m), cs + one, ms[1..], seen + {m.path});
      assert ([m] + rest)[1..] == rest;
      Associate(cs, one, ConfigMounts(inp, rest));
    }
  }

  lemma {:induction false} FilesOfSidecars(inp: Input, n: Needs, cs: seq<VolumeMount>, sidecars: seq<Container>)
    requires n.files == FilesFor(inp, cs)
    ensures SidecarNeeds(inp, n, sidecars).files == FilesFor(inp, cs + ConfigMounts(inp, MountedBy(sidecars)))
    decreases |sidecars|
  {
    hide FilesFor, NeedsOfAll, Mounted;
    if sidecars == [] {
      assert cs + [] == cs;
    } else {
      var c, rest := sidecars[0], MountedBy(sidecars[1..]);
      var one := if c.image == "" then [] else Mounted(c.mounts, {});
      var next := if c.image == "" then n else NeedsOfAll(inp, n, c.mounts, {});
      FilesOfMounts(inp, n, cs, c.mounts, {});
      Associate(cs, [], []);
      FilesOfSidecars(inp, next, cs + ConfigMounts(inp, one), sidecars[1..]);
      ConfigMountsAppend(inp, one, rest);
      Associate(cs, ConfigMounts(inp, one), ConfigMounts(inp, rest));
    }
  }

  /** The config mounts of the whole plan. */
  function PlanConfig(p: Parts): seq<VolumeMount> { ConfigMounts(p.inp, AllMounted(p)) }

  lemma PlanFiles(p: Parts)
    ensures PlanOf(p).files == FilesFor(p.inp, PlanConfig(p))
  {
    var inp, main := p.inp, Mounted(p.main.mounts, {});
    var a, b, c := ConfigMounts(inp, MountedBy(p.native)), ConfigMounts(inp, main), ConfigMounts(inp, MountedBy(p.others));
    var n1 := SidecarNeeds(inp, NOTHING, p.native);
    var n2 := NeedsOfAll(inp, n1, p.main.mounts, {});
    assert NOTHING.files == FilesFor(inp, []);
    assert PlanOf(p).files == SidecarNeeds(inp, n2, p.others).files;
    ConfigMountsAppend(inp, MountedBy(p.native), main);
    ConfigMountsAppend(inp, MountedBy(p.native) + main, MountedBy(p.others));
    assert PlanConfig(p) == a + b + c;
    hide *;
    FilesOfSidecars(inp, NOTHING, [], p.native);
    Associate(a, [], []);
    FilesOfMounts(inp, n1, a, p.main.mounts, {});
    FilesOfSidecars(inp, n2, a + b, p.others);
  }

  lemma {:induction false} BindSources(inp: Input, ms: seq<VolumeMount>, f: Flag)
    requires f in FlagsFor(inp, ms) && f.Bind?
    ensures f.src == inp.configDir || f.src in FilePaths(inp, ConfigMounts(inp, ms))
    ensures ConfigMounts(inp, ms) != []
  {
    if f != FlagOf(inp, ms[0]) {
      BindSources(inp, ms[1..], f);
    }
  }

  /**
   Whatever a container binds from the host is the config directory, with the config file
   in it, or a file that the plan writes. The config file holds the rendered config
   exactly when the plan's last config mount does not spell the file's name differently.
   */
  lemma BindsBacked(p: Parts, f: Flag)
    requires p.inp.pod <==> p.native + p.others != []
    requires f in RunFlags(Started(PlanOf(p))) && f.Bind?
    ensures var files := PlanOf(p).files;
            && ConfigPath(p.inp) in files && (f.src == p.inp.configDir || f.src in files)
            && PlanConfig(p) != []
            && files[ConfigPath(p.inp)]
               == if Empties(p.inp, PlanConfig(p)[|PlanConfig(p)| - 1]) then "" else p.inp.configContent
  {
    PlanFlags(p);
    PlanFiles(p);
    BindSources(p.inp, AllMounted(p), f);
    hide PlanOf, AllMounted, ConfigMounts, FlagsFor, Empties;
  }

  /** A plan writes no file that nothing binds: each path is the config file's or a config mount's. */
  lemma FilesNeeded(p: Parts, path: string)
    requires path in PlanOf(p).files
    ensures PlanConfig(p) != []
    ensures path == ConfigPath(p.inp)
         || exists m :: m in PlanConfig(p) && m.subPath != "" && path == p.inp.underConfig(m.subPath)
  {
    PlanFiles(p);
    hide PlanOf, PlanConfig, Empties;
  }

  lemma BothMounted(inp: Input, a: VolumeMount, b: VolumeMount)
    requires a.path != b.path && IsConfig(inp, a) && IsConfig(inp, b)
    ensures Mounted([a, b], {}) == [a, b] == ConfigMounts(inp, [a, b])
  {
    assert [a, b][1..] == [b] && [b][1..] == [];
    var seen: set<string> := {};
    assert seen + {a.path} == {a.path};
    assert Mounted([b], seen + {a.path}) == [b] && ConfigMounts(inp, [b]) == [b];
  }

  /** A mount of "./c" beside the config file "c" leaves the node with an empty config. */
  lemma ConfigEmptied(inp: Input, image: string)
    requires !inp.pod && inp.configFile == "c" && inp.underConfig("./c") == inp.underConfig("c")
    requires "config" in inp.declared && inp.declared["config"] == ConfigMap(inp.configMapName)
    ensures var mounts := [VolumeMount("config", "/c", "c", true), VolumeMount("config", "/d", "./c", true)];
            var p := Parts(inp, Container(MAIN, image, mounts, false, false, None, None), [], [], []);
            PlanOf(p).files == map[inp.underConfig("c") := ""]
  {
    var a, b := VolumeMount("config", "/c", "c", true), VolumeMount("config", "/d", "./c", true);
    var p := Parts(inp, Container(MAIN, image, [a, b], false, false, None, None), [], [], []);
    PlanFiles(p);
    assert AllMounted(p) == [] + Mounted([a, b], {}) + [];
    hide PlanOf, AllMounted, Mounted, ConfigMounts;
    BothMounted(inp, a, b);
    assert AllMounted(p) == [a, b] by { Associate([a, b], [], []); }
    assert PlanConfig(p) == [a, b];
    hide PlanConfig;
    assert inp.underConfig(a.subPath) == inp.underConfig(b.subPath) == ConfigPath(inp);
  }
}
