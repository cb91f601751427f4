/** The start script of Berachain, with its pinned files. */
module BerachainBootstrap {
  import opened Options

  type Bytes = string

  datatype File = GenesisJson | KzgSetup | ConfigToml

  /** Pinned hashes; the hash function is not interpreted. */
  datatype Pins = Pins(sha: Bytes -> Bytes, genesis: Bytes, kzg: Bytes, config: Bytes) {
    function Of(f: File): Bytes {
      match f
      case GenesisJson => genesis
      case KzgSetup => kzg
      case ConfigToml => config
    }

    /** `pinned`, and the check inside `fetch`. */
    predicate Match(f: File, content: Option<Bytes>) { content.Some? && sha(content.value) == Of(f) }
  }

  datatype Disk = Disk(files: map<File, Bytes>, parts: map<File, Bytes>, marker: bool, nodeKey: bool) {
    function At(f: File): Option<Bytes> { if f in files then Some(files[f]) else None }
    function PartAt(f: File): Option<Bytes> { if f in parts then Some(parts[f]) else None }
  }

  datatype Pc =
    | InitKey
    | Test(f: File)
    | Curl(f: File)
    | Compare(f: File)
    | Move(f: File)
    | Touch
    | Exec
    | Exited

  /** `fetched` remembers that a config.toml matching its pin was moved in place. */
  datatype State = State(pc: Pc, disk: Disk, fetched: bool)

  function After(f: File): Pc {
    match f
    case GenesisJson => Test(KzgSetup)
    case KzgSetup => Test(ConfigToml)
    case ConfigToml => Touch
  }

  /** Whether the script leaves `f` as it is. */
  predicate Settled(p: Pins, d: Disk, f: File) {
    if f.ConfigToml? then d.marker else p.Match(f, d.At(f))
  }

  /**
   A failing `mv` of the last file: its `fetch` stands left of `&&`, where `set -e` is
   suspended, so the marker is skipped and the script goes on. Elsewhere it ends the start.
   */
  ghost predicate MoveFails(s: State, t: State) {
    s.pc == Move(ConfigToml) && t == s.(pc := Exec)
  }

  ghost predicate Step(p: Pins, s: State, t: State) {
    var d := s.disk;
    match s.pc
    case InitKey =>
      // `beacond init`, unless a node key exists, may write any of the files
      && t.pc == Test(GenesisJson) && t.fetched == s.fetched
      && t.disk == d.(files := t.disk.files, nodeKey := true)
      && (d.nodeKey ==> t.disk == d)
    case Test(f) =>
      t == s.(pc := if !Settled(p, d, f) then Curl(f) else if f.ConfigToml? then Exec else After(f))
    case Curl(f) =>
      // the download may be cut short, and a failing one is only noticed by the comparison
      && t.fetched == s.fetched && t.disk == d.(parts := t.disk.parts)
      && (forall g :: g != f ==> t.disk.PartAt(g) == d.PartAt(g))
      && (t.pc == Curl(f) || t.pc == Compare(f))
    case Compare(f) =>
      t == if p.Match(f, d.PartAt(f)) then s.(pc := Move(f))
           else s.(pc := Exited, disk := d.(parts := d.parts - {f}))
    case Move(f) =>
      || MoveFails(s, t)
      || (&& f in d.parts
          && t == s.(pc := After(f), disk := d.(files := d.files[f := d.parts[f]], parts := d.parts - {f}),
                     fetched := s.fetched || f.ConfigToml?))
    case Touch => t == s.(pc := Exec, disk := d.(marker := true))
    case _ => false
  }

  /** A crash, an exit or a stop, after which the operator may also have edited the volume. */
  ghost predicate Restart(s: State, t: State) {
    t.pc.InitKey? && t.fetched == s.fetched && t.disk.marker == s.disk.marker
  }

  ghost predicate Run(p: Pins, ss: seq<State>) {
    && ss != [] && ss[0].pc.InitKey? && (ss[0].disk.marker ==> ss[0].fetched)
    && forall i :: 0 <= i < |ss| - 1 ==> Step(p, ss[i], ss[i + 1]) || Restart(ss[i], ss[i + 1])
  }

  function Rank(f: File): nat {
    match f
    case GenesisJson => 0
    case KzgSetup => 1
    case ConfigToml => 2
  }

  /** How many files are behind the current point of the script. */
  function Progress(pc: Pc): nat {
    match pc
    case Test(f) => Rank(f)
    case Curl(f) => Rank(f)
    case Compare(f) => Rank(f)
    case Move(f) => Rank(f)
    case Touch => 3
    case Exec => 3
    case _ => 0
  }

  ghost predicate Inv(p: Pins, s: State) {
    && (Progress(s.pc) > 0 ==> p.Match(GenesisJson, s.disk.At(GenesisJson)))
    && (Progress(s.pc) > 1 ==> p.Match(KzgSetup, s.disk.At(KzgSetup)))
    && (s.pc.Move? ==> p.Match(s.pc.f, s.disk.PartAt(s.pc.f)))
    && (s.disk.marker ==> s.fetched)
    && (s.pc.Touch? ==> s.fetched)
    && (s.pc in {Curl(ConfigToml), Compare(ConfigToml), Move(ConfigToml)} ==> !s.disk.marker)
  }

  lemma StepKeeps(p: Pins, s: State, t: State)
    requires Inv(p, s) && (Step(p, s, t) || Restart(s, t))
    ensures Inv(p, t)
  {
  }

  lemma RunInv(p: Pins, ss: seq<State>)
    requires Run(p, ss)
    ensures forall i :: 0 <= i < |ss| ==> Inv(p, ss[i])
  {
    var i := 0;
    while i < |ss| - 1
      invariant 0 <= i < |ss| && forall k :: 0 <= k <= i ==> Inv(p, ss[k])
    {
      assert Step(p, ss[i], ss[i + 1]) || Restart(ss[i], ss[i + 1]);
      StepKeeps(p, ss[i], ss[i + 1]);
      i := i + 1;
    }
  }

  /**
   Whatever is on the volume at each start, and wherever earlier starts were
   cut off, beacond is only started on a genesis and a KZG setup that match
   their pins. A matching config.toml was put in place once, and is marked so,
   exactly when this start's move of it did not fail.
   */
  lemma ExecPinned(p: Pins, ss: seq<State>, i: nat)
    requires Run(p, ss) && i < |ss| && ss[i].pc.Exec?
    ensures GenesisJson in ss[i].disk.files && p.sha(ss[i].disk.files[GenesisJson]) == p.genesis
    ensures KzgSetup in ss[i].disk.files && p.sha(ss[i].disk.files[KzgSetup]) == p.kzg
    ensures ss[i].disk.marker && ss[i].fetched <==> !(i > 0 && MoveFails(ss[i - 1], ss[i]))
  {
    RunInv(p, ss);
    assert i > 0 && Inv(p, ss[i - 1]);
    assert Step(p, ss[i - 1], ss[i - 1 + 1]) || Restart(ss[i - 1], ss[i - 1 + 1]);
  }

  /** What `fetched` remembers: some step moved a config.toml in place that matches its pin. */
  lemma {:induction false} FetchedMatches(p: Pins, ss: seq<State>, i: nat)
    requires Run(p, ss) && i < |ss| && ss[i].fetched && !ss[0].fetched
    ensures exists k :: 0 <= k < i && !ss[k].fetched && ss[k + 1].fetched
                        && ConfigToml in ss[k + 1].disk.files && p.sha(ss[k + 1].disk.files[ConfigToml]) == p.config
  {
    if ss[i - 1].fetched {
      FetchedMatches(p, ss, i - 1);
    } else {
      RunInv(p, ss);
      var k := i - 1;
      assert Inv(p, ss[k]) && (Step(p, ss[k], ss[k + 1]) || Restart(ss[k], ss[k + 1]));
    }
  }

  /** A config.toml that cannot be replaced: beacond starts on it, neither fetched nor marked. */
  lemma UnfetchedStart(p: Pins, genesis: Bytes, kzg: Bytes, config: Bytes, own: Bytes) returns (ss: seq<State>)
    requires p.sha(genesis) == p.genesis && p.sha(kzg) == p.kzg && p.sha(config) == p.config != p.sha(own)
    ensures Run(p, ss) && ss[|ss| - 1].pc.Exec?
    ensures !ss[|ss| - 1].disk.marker && !ss[|ss| - 1].fetched && ss[|ss| - 1].disk.At(ConfigToml) == Some(own)
  {
    var files := map[GenesisJson := genesis, KzgSetup := kzg, ConfigToml := own];
    var d := Disk(files, map[], false, true);
    var e := Disk(files, map[ConfigToml := config], false, true);
    ss := [State(InitKey, d, false), State(Test(GenesisJson), d, false), State(Test(KzgSetup), d, false),
           State(Test(ConfigToml), d, false), State(Curl(ConfigToml), d, false), State(Compare(ConfigToml), e, false),
           State(Move(ConfigToml), e, false), State(Exec, e, false)];
  }

  /** Genesis, KZG setup and node key are as they were; and so is everything else if the marker was there. */
  ghost predicate AtRest(s: State, t: State) {
    && t.disk.nodeKey
    && (forall f | f in {GenesisJson, KzgSetup} :: t.disk.At(f) == s.disk.At(f))
    && (t.pc.Curl? || t.pc.Compare? || t.pc.Move? ==> t.pc.f.ConfigToml?)
    && (s.disk.marker ==> t.disk == s.disk && (t.pc.InitKey? || t.pc.Test? || t.pc.Exec?))
  }

  /** A start that finds the pinned files in place leaves them alone, and with the marker the whole volume. */
  lemma {:induction false} SettledStart(p: Pins, ss: seq<State>, i: nat, k: nat)
    requires Run(p, ss) && i <= k < |ss| && ss[i].pc.Exec? && ss[i].disk.nodeKey
    requires forall j :: i <= j < k && ss[j + 1].pc.InitKey? ==> ss[j + 1].disk == ss[j].disk
    ensures AtRest(ss[i], ss[k])
  {
    if i < k {
      SettledStart(p, ss, i, k - 1);
      ExecPinned(p, ss, i);
      var t := ss[k - 1];
      assert Step(p, t, ss[k - 1 + 1]) || Restart(t, ss[k - 1 + 1]);
      assert Settled(p, t.disk, GenesisJson) && Settled(p, t.disk, KzgSetup);
      hide Run;
    }
  }

  // ---- A start that is not cut off ----

  /** How many steps are left at most once init and the download at hand are done. */
  function StepsLeft(pc: Pc): nat {
    match pc
    case InitKey => 14
    case Test(f) => 13 - 4 * Rank(f)
    case Curl(f) => 12 - 4 * Rank(f)
    case Compare(f) => 11 - 4 * Rank(f)
    case Move(f) => 10 - 4 * Rank(f)
    case Touch => 1
    case _ => 0
  }

  /** The state after a step that goes well, with `b` what a download brings. */
  function NextOf(p: Pins, s: State, b: File -> Bytes): State {
    match s.pc
    case InitKey => s.(pc := Test(GenesisJson), disk := s.disk.(nodeKey := true))
    case Test(f) => s.(pc := if !Settled(p, s.disk, f) then Curl(f) else if f.ConfigToml? then Exec else After(f))
    case Curl(f) => s.(pc := Compare(f), disk := s.disk.(parts := s.disk.parts[f := b(f)]))
    case Compare(f) => s.(pc := Move(f))
    case Move(f) =>
      var content := if f in s.disk.parts then s.disk.parts[f] else b(f);
      State(After(f), s.disk.(files := s.disk.files[f := content], parts := s.disk.parts - {f}),
            s.fetched || f.ConfigToml?)
    case _ => s.(pc := Exec, disk := s.disk.(marker := true))
  }

  /** Whatever is on the volume: if the downloads match and nothing is cut off, beacond is started, behind the marker. */
  lemma ReachesExec(p: Pins, s: State, b: File -> Bytes) returns (ss: seq<State>)
    requires forall f :: p.sha(b(f)) == p.Of(f)
    requires !s.pc.Exited? && (s.pc.Exec? ==> s.disk.marker)
    requires s.pc.Compare? || s.pc.Move? ==> p.Match(s.pc.f, s.disk.PartAt(s.pc.f))
    ensures ss != [] && ss[0] == s && ss[|ss| - 1].pc.Exec? && ss[|ss| - 1].disk.marker
    ensures forall i :: 0 <= i < |ss| - 1 ==> Step(p, ss[i], ss[i + 1])
    decreases StepsLeft(s.pc)
  {
    if s.pc.Exec? {
      return [s];
    }
    var t := NextOf(p, s, b);
    assert Step(p, s, t);
    assert StepsLeft(t.pc) < StepsLeft(s.pc);
    hide Step, NextOf;
    var rest := ReachesExec(p, t, b);
    ss := [s] + rest;
  }
}
