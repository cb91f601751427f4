/** Volume mounts of a pod's containers, as docker mounts, and the volumes, files and notes that stand behind them. */
module Mounts {
  import opened Options

  /** Only what decides the mount: the kind, and the name behind a ConfigMap. */
  datatype Volume = ConfigMap(name: string) | Secret | Projected | Scratch

  datatype VolumeMount = VolumeMount(name: string, path: string, subPath: string, readOnly: bool)

  datatype Input = Input(
    name: string, declared: map<string, Volume>,
    configMapName: string, configFile: string, configContent: string,
    underConfig: string -> string,        // joins a path to the host's config directory
    configDir: string,
    holderDir: (string, string) -> string, // the holder's path of a subPath in a volume
    tmpfsSize: string, volumeSubpath: bool, pod: bool)

  datatype Flag =
    | Bind(src: string, dst: string)
    | Tmpfs(dst: string, size: string)
    | Shared(src: string, dst: string, subpath: Option<string>, readOnly: bool)

  datatype Note =
    | DuplicateMount(path: string)
    | ConfigSubPathEmpty(subPath: string)
    | MountedEmpty(volume: string, path: string)
    | SeparateVolume(subPath: string, volume: string)

  /** What mounting leaves behind: host files, docker volumes, directories inside them. */
  datatype Needs = Needs(files: map<string, string>, notes: seq<Note>, volumes: seq<string>, subdirs: seq<string>)

  const NOTHING := Needs(map[], [], [], [])

  // ---- Names of volumes ----

  /** The characters docker allows in the name of a volume. */
  predicate Allowed(c: char) {
    'a' <= c <= 'z' || 'A' <= c <= 'Z' || '0' <= c <= '9' || c == '_' || c == '.' || c == '-'
  }

  /** One dash for each run of other characters; `inRun` says that `s` continues such a run. */
  function Dashed(s: string, inRun: bool): string {
    if s == "" then ""
    else if Allowed(s[0]) then [s[0]] + Dashed(s[1..], false)
    else (if inRun then "" else "-") + Dashed(s[1..], true)
  }

  function VolumeName(s: string): string { Dashed(s, false) }

  lemma {:induction false} DashedAllowed(s: string, inRun: bool)
    ensures forall c :: c in Dashed(s, inRun) ==> Allowed(c)
    ensures (forall c :: c in s ==> Allowed(c)) ==> Dashed(s, inRun) == s
  {
    if s != "" {
      DashedAllowed(s[1..], !Allowed(s[0]));
      assert s[0] in s && forall c :: c in s[1..] ==> c in s;
    }
  }

  /** Docker accepts the name, and a part it would accept as it is stays so. */
  lemma VolumeNameAllowed(s: string)
    ensures forall c :: c in VolumeName(s) ==> Allowed(c)
    ensures VolumeName(s) == s <==> forall c :: c in s ==> Allowed(c)
  {
    DashedAllowed(s, false);
  }

  lemma {:induction false} RunDashed(r: string, t: string, inRun: bool)
    requires r != "" && (forall c :: c in r ==> !Allowed(c)) && (t == "" || Allowed(t[0]))
    ensures Dashed(r + t, inRun) == (if inRun then "" else "-") + VolumeName(t)
  {
    assert (r + t)[1..] == r[1..] + t;
    if |r| > 1 {
      RunDashed(r[1..], t, true);
    } else {
      assert r[1..] + t == t;
    }
  }

  /** A run of other characters becomes one dash; the rest stays. */
  lemma {:induction false} VolumeNameRuns(word: string, run: string, rest: string)
    requires forall c :: c in word ==> Allowed(c)
    requires run != "" && (forall c :: c in run ==> !Allowed(c)) && (rest == "" || Allowed(rest[0]))
    ensures VolumeName(word + run + rest) == word + "-" + VolumeName(rest)
  {
    if word == "" {
      RunDashed(run, rest, false);
      assert word + run + rest == run + rest;
    } else {
      assert (word + run + rest)[1..] == word[1..] + run + rest;
      VolumeNameRuns(word[1..], run, rest);
    }
  }

  // ---- One mount ----

  predicate IsConfig(inp: Input, m: VolumeMount) {
    m.name in inp.declared && inp.declared[m.name] == ConfigMap(inp.configMapName)
  }

  /** What a subPath adds to the volume's name on older engines. */
  function Part(inp: Input, m: VolumeMount): string {
    if m.subPath == "" || inp.volumeSubpath then "" else "-" + VolumeName(m.subPath)
  }

  /** The docker volume that stands in for a pod volume, or for a subPath of it on older engines. */
  function VolumeOf(inp: Input, m: VolumeMount): string {
    inp.name + "-" + m.name
    + Part(inp, m)
  }

  /** A mount's flag is settled by the mount itself, whatever was mounted before. */
  function FlagOf(inp: Input, m: VolumeMount): Flag {
    if IsConfig(inp, m) then
      Bind(if m.subPath == "" then inp.configDir else inp.underConfig(m.subPath), m.path)
    else if inp.pod then
      Shared(VolumeOf(inp, m), m.path,
             if m.subPath != "" && inp.volumeSubpath then Some(m.subPath) else None, m.readOnly)
    else Tmpfs(m.path, inp.tmpfsSize)
  }

  /** `flag` mounts what `m` asks for, and where, in the words of the mount. */
  ghost predicate Stands(inp: Input, m: VolumeMount, flag: Flag) {
    var config := m.name in inp.declared && inp.declared[m.name] == ConfigMap(inp.configMapName);
    match flag
    case Bind(src, dst) =>
      && config && dst == m.path
      && src == (if m.subPath == "" then inp.configDir else inp.underConfig(m.subPath))
    case Shared(src, dst, subpath, readOnly) =>
      && !config && inp.pod && dst == m.path && readOnly == m.readOnly
      && subpath == (if m.subPath == "" || !inp.volumeSubpath then None else Some(m.subPath))
      && src == inp.name + "-" + m.name
                + (if m.subPath == "" || inp.volumeSubpath then "" else "-" + VolumeName(m.subPath))
    case Tmpfs(dst, size) => !config && !inp.pod && dst == m.path && size == inp.tmpfsSize
  }

  function Added<T(==)>(xs: seq<T>, x: T): seq<T> { if x in xs then xs else xs + [x] }

  function WithNote(n: Needs, note: Note): Needs { n.(notes := Added(n.notes, note)) }

  function ConfigPath(inp: Input): string { inp.underConfig(inp.configFile) }

  /** The config file, and an empty one where a config mount asks for another. */
  function ConfigFiles(inp: Input, files: map<string, string>, m: VolumeMount): map<string, string> {
    var main := files[ConfigPath(inp) := inp.configContent];
    if m.subPath == "" || m.subPath == inp.configFile then main else main[inp.underConfig(m.subPath) := ""]
  }

  function ConfigNeeds(inp: Input, n: Needs, m: VolumeMount): Needs {
    var n1 := n.(files := ConfigFiles(inp, n.files, m));
    if m.subPath == "" || m.subPath == inp.configFile then n1 else WithNote(n1, ConfigSubPathEmpty(m.subPath))
  }

  function VolumeNeeds(inp: Input, n: Needs, m: VolumeMount): Needs {
    var vol := VolumeOf(inp, m);
    var n1 :=
      if m.subPath == "" then n
      else if inp.volumeSubpath then n.(subdirs := Added(n.subdirs, inp.holderDir(vol, m.subPath)))
      else WithNote(n, SeparateVolume(m.subPath, m.name));
    n1.(volumes := Added(n1.volumes, vol))
  }

  predicate HoldsData(inp: Input, m: VolumeMount) { m.name in inp.declared && !inp.declared[m.name].Scratch? }

  function NeedsOf(inp: Input, n: Needs, m: VolumeMount): Needs {
    if IsConfig(inp, m) then ConfigNeeds(inp, n, m)
    else
      var n1 := if HoldsData(inp, m) then WithNote(n, MountedEmpty(m.name, m.path)) else n;
      if inp.pod then VolumeNeeds(inp, n1, m) else n1
  }

  // ---- The mounts of a container ----

  function FlagsOf(inp: Input, ms: seq<VolumeMount>, seen: set<string>): seq<Flag> {
    if ms == [] then []
    else if ms[0].path in seen then FlagsOf(inp, ms[1..], seen)
    else [FlagOf(inp, ms[0])] + FlagsOf(inp, ms[1..], seen + {ms[0].path})
  }

  function NeedsOfAll(inp: Input, n: Needs, ms: seq<VolumeMount>, seen: set<string>): Needs
    decreases |ms|
  {
    if ms == [] then n
    else if ms[0].path in seen then NeedsOfAll(inp, WithNote(n, DuplicateMount(ms[0].path)), ms[1..], seen)
    else NeedsOfAll(inp, NeedsOf(inp, n, ms[0]), ms[1..], seen + {ms[0].path})
  }

  class MountPlanner {
    const inp: Input
    var files: map<string, string>
    var notes: seq<Note>
    var volumes: seq<string>
    var subdirs: seq<string>

    constructor (inp: Input)
      ensures this.inp == inp && State() == NOTHING
    {
      this.inp := inp;
      files, notes, volumes, subdirs := map[], [], [], [];
    }

    function State(): Needs
      reads this
    {
      Needs(files, notes, volumes, subdirs)
    }

    method AddNote(note: Note)
      modifies this
      ensures State() == WithNote(old(State()), note)
    {
      if note !in notes {
        notes := notes + [note];
      }
    }

    method VolumeMount(m: VolumeMount) returns (flag: Flag)
      requires inp.pod && !IsConfig(inp, m)
      modifies this
      ensures flag == FlagOf(inp, m)
      ensures Stands(inp, m, flag)
      ensures State() == VolumeNeeds(inp, old(State()), m)
    {
      var vol := inp.name + "-" + m.name;
      var subpath := None;
      if m.subPath == "" {
      } else if inp.volumeSubpath {
        subpath := Some(m.subPath);
        var dir := inp.holderDir(vol, m.subPath);
        if dir !in subdirs {
          subdirs := subdirs + [dir];
        }
      } else {
        vol := vol + ("-" + VolumeName(m.subPath));
        AddNote(SeparateVolume(m.subPath, m.name));
      }
      if vol !in volumes {
        volumes := volumes + [vol];
      }
      flag := Shared(vol, m.path, subpath, m.readOnly);
    }

    method ConfigMount(m: VolumeMount) returns (flag: Flag)
      requires IsConfig(inp, m)
      modifies this
      ensures flag == FlagOf(inp, m)
      ensures Stands(inp, m, flag)
      ensures State() == NeedsOf(inp, old(State()), m)
    {
      var src := inp.configDir;
      files := files[inp.underConfig(inp.configFile) := inp.configContent];
      if m.subPath != "" {
        src := inp.underConfig(m.subPath);
        if m.subPath != inp.configFile {
          files := files[src := ""];
          AddNote(ConfigSubPathEmpty(m.subPath));
        }
      }
      flag := Bind(src, m.path);
    }

    method Mount(m: VolumeMount) returns (flag: Flag)
      modifies this
      ensures flag == FlagOf(inp, m)
      ensures Stands(inp, m, flag)
      ensures State() == NeedsOf(inp, old(State()), m)
    {
      if IsConfig(inp, m) {
        flag := ConfigMount(m);
        return;
      }
      if HoldsData(inp, m) {
        AddNote(MountedEmpty(m.name, m.path));
      }
      if inp.pod {
        flag := VolumeMount(m);
      } else {
        flag := Tmpfs(m.path, inp.tmpfsSize);
      }
    }

    method MountAll(ms: seq<VolumeMount>) returns (flags: seq<Flag>)
      modifies this
      ensures flags == FlagsOf(inp, ms, {})
      ensures State() == NeedsOfAll(inp, old(State()), ms, {})
    {
      flags := [];
      var seen: set<string> := {};
      assert ms[0..] == ms;
      for i := 0 to |ms|
        invariant flags + FlagsOf(inp, ms[i..], seen) == FlagsOf(inp, ms, {})
        invariant NeedsOfAll(inp, State(), ms[i..], seen) == NeedsOfAll(inp, old(State()), ms, {})
      {
        var m := ms[i];
        assert ms[i..][0] == m && ms[i..][1..] == ms[i + 1..];
        hide FlagOf, NeedsOf;
        if m.path in seen {
          AddNote(DuplicateMount(m.path));
        } else {
          seen := seen + {m.path};
          var flag := Mount(m);
          flags := flags + [flag];
        }
      }
      assert ms[|ms|..] == [];
    }
  }
}
