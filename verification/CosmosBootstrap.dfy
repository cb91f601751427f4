/** The start script of a Cosmos node, under any number of starts and crashes. */
module CosmosBootstrap {
  import opened Options
  import TomlMeaning
  import TomlMerge
  import TomlReading
  import TomlStability

  type Bytes = string

  /** The keys `tset` writes into config.toml. */
  datatype Setting =
    | Metrics | Seeds | BootstrapPeers | PersistentPeers
    | SyncEnable | SyncServers | SyncHeight | SyncHash

  datatype Format = Plain | Packed

  /** What a chain's script is built from; hashing and unpacking are not interpreted. */
  datatype Node = Node(
    pin: Bytes, sha: Bytes -> Bytes, format: Format, unpack: Bytes -> Bytes,
    seeds: bool, peers: bool, stateSync: bool, overrides: seq<string>) {

    function Genesis(download: Bytes): Bytes { if format.Plain? then download else unpack(download) }

    /** The settings every first start makes, in order. */
    function Required(): seq<Setting> {
      [Metrics] + (if seeds then [Seeds, BootstrapPeers] else []) + (if peers then [PersistentPeers] else [])
    }

    function Merged(app: seq<string>): seq<string> {
      if overrides == [] then app else TomlMerge.Merge(overrides, app)
    }
  }

  const SYNC: seq<Setting> := [SyncEnable, SyncServers, SyncHeight, SyncHash]

  datatype GenesisFile = Generated | Installed(content: Bytes)

  /**
   `settings` records, for each key `tset` wrote, in the course of which `init` it did;
   `inits` counts the `init` runs begun so far.
   */
  datatype Disk = Disk(
    genesis: Option<GenesisFile>, dl: Option<Bytes>, part: Option<Bytes>,
    settings: map<Setting, nat>, inits: nat, hasDb: bool, app: seq<string>) {

    /** What a started node runs on. */
    function Config(): (Option<GenesisFile>, map<Setting, nat>, nat, seq<string>) { (genesis, settings, inits, app) }
  }

  /** The next thing the script does. */
  datatype Pc =
    | Check
    | Initialising
    | RemoveGenerated
    | Set(i: nat)
    | ChooseSync
    | SetSync(i: nat)
    | Download
    | Verify
    | Unpack
    | DropDownload
    | Install
    | MergeApp
    | Exec
    | Exited

  datatype State = State(pc: Pc, disk: Disk)

  ghost predicate Init(n: Node, s: State) {
    s.pc.Check? && s.disk.genesis == None && forall k :: k in s.disk.settings ==> s.disk.settings[k] <= s.disk.inits
  }

  /** `init` may rewrite config.toml, which forgets settings, and writes app.toml and its own genesis. */
  ghost predicate InitStep(s: State, t: State) {
    && s.pc.Initialising?
    && t.disk == s.disk.(settings := t.disk.settings, app := t.disk.app, genesis := t.disk.genesis)
    && (forall k :: k in t.disk.settings ==> k in s.disk.settings && t.disk.settings[k] == s.disk.settings[k])
    && (t.disk.genesis == s.disk.genesis || t.disk.genesis == Some(Generated))
    && (t.pc.Initialising? || t.pc.RemoveGenerated?)
  }

  ghost predicate FirstStartStep(n: Node, s: State, t: State) {
    var d := s.disk;
    match s.pc
    case Check =>
      t == if d.genesis.Some? then State(MergeApp, d) else State(Initialising, d.(inits := d.inits + 1))
    case Initialising => InitStep(s, t)
    case RemoveGenerated => t == State(Set(0), d.(genesis := None))
    case Set(i) =>
      t == if i < |n.Required()| then State(Set(i + 1), d.(settings := d.settings[n.Required()[i] := d.inits]))
           else State(if n.stateSync then ChooseSync else Download, d)
    case ChooseSync => t == State(Download, d) || (!d.hasDb && t == State(SetSync(0), d))
    case SetSync(i) =>
      t == if i < |SYNC| then State(SetSync(i + 1), d.(settings := d.settings[SYNC[i] := d.inits]))
           else State(Download, d)
    case Download => exists b :: t.disk == d.(dl := Some(b)) && (t.pc.Download? || t.pc.Verify?)
    case Verify =>
      t == if d.dl.Some? && n.sha(d.dl.value) == n.pin then State(Unpack, d) else State(Exited, d.(dl := None))
    case _ => false
  }

  ghost predicate CommitStep(n: Node, s: State, t: State) {
    var d := s.disk;
    match s.pc
    case Unpack =>
      && d.dl.Some?
      && (if n.format.Plain? then t == State(Install, d.(part := d.dl, dl := None))
          else (|| (exists b :: t == State(Unpack, d.(part := Some(b))))
                || t == State(DropDownload, d.(part := Some(n.unpack(d.dl.value))))))
    case DropDownload => t == State(Install, d.(dl := None))
    case Install => d.part.Some? && t == State(MergeApp, d.(genesis := Some(Installed(d.part.value)), part := None))
    case MergeApp => t == State(Exec, d.(app := n.Merged(d.app)))
    case _ => false
  }

  /** A crash, a failing command under `set -e` or a stopped container, and the next start. */
  ghost predicate Restart(s: State, t: State) { t == State(Check, s.disk) }

  ghost predicate Step(n: Node, s: State, t: State) {
    FirstStartStep(n, s, t) || CommitStep(n, s, t) || Restart(s, t)
  }

  ghost predicate Steps(n: Node, ss: seq<State>) {
    forall i :: 0 <= i < |ss| - 1 ==> Step(n, ss[i], ss[i + 1])
  }

  ghost predicate Run(n: Node, ss: seq<State>) {
    ss != [] && Init(n, ss[0]) && Steps(n, ss)
  }

  // ---- What a node must start on ----

  ghost predicate Verified(n: Node, genesis: Bytes) {
    exists b :: n.sha(b) == n.pin && genesis == n.Genesis(b)
  }

  ghost predicate SetBy(d: Disk, ks: seq<Setting>, init: nat) {
    forall k :: k in ks ==> k in d.settings && d.settings[k] == init
  }

  /** A verified genesis, with metrics, seeds and peers set after the init that led to it. */
  ghost predicate Good(n: Node, d: Disk) {
    && d.genesis.Some? && d.genesis.value.Installed?
    && (exists b :: n.sha(b) == n.pin && d.genesis.value.content == if n.format.Plain? then b else n.unpack(b))
    && SetNow(d, Metrics)
    && (n.seeds ==> SetNow(d, Seeds) && SetNow(d, BootstrapPeers))
    && (n.peers ==> SetNow(d, PersistentPeers))
  }

  /** The key was set in the course of the last init. */
  predicate SetNow(d: Disk, k: Setting) { k in d.settings && d.settings[k] == d.inits }

  function SyncKeys(d: Disk): set<Setting> { set k | k in d.settings && k in SYNC }

  /** State sync is not configured, or all of it was in the course of one init. */
  predicate SyncWhole(d: Disk) {
    || (SyncEnable !in d.settings && SyncServers !in d.settings && SyncHeight !in d.settings && SyncHash !in d.settings)
    || (&& SyncEnable in d.settings && SyncServers in d.settings && SyncHeight in d.settings && SyncHash in d.settings
        && d.settings[SyncEnable] == d.settings[SyncServers] == d.settings[SyncHeight] == d.settings[SyncHash])
  }

  /** The same, by the list of keys that the script goes through. */
  ghost predicate Whole(d: Disk) { SyncKeys(d) == {} || exists j :: SetBy(d, SYNC, j) }

  /** `init` has written its own genesis and line 201 has not removed it yet. */
  ghost predicate InWindow(s: State) {
    (s.pc.Initialising? || s.pc.RemoveGenerated?) && s.disk.genesis.Some?
  }

  /** Some start was cut off inside the window. */
  ghost predicate Escaped(ss: seq<State>, i: int) {
    exists k :: 0 <= k < i < |ss| && InWindow(ss[k]) && Restart(ss[k], ss[k + 1])
  }

  // ---- The invariant ----

  ghost predicate Fresh(d: Disk) {
    forall k :: k in d.settings ==> d.settings[k] <= d.inits
  }

  /** From the `i`th on, no state sync key was set since the last init. */
  ghost predicate SyncOlder(d: Disk, i: nat) {
    forall k :: i <= k < |SYNC| && SYNC[k] in d.settings ==> d.settings[SYNC[k]] < d.inits
  }

  ghost predicate Inv(n: Node, s: State) {
    var d := s.disk;
    && Fresh(d)
    && match s.pc
       case Check => d.genesis == None || Good(n, d)
       case Exited => d.genesis == None
       case Initialising => d.genesis in {None, Some(Generated)} && forall k :: k in d.settings ==> d.settings[k] < d.inits
       case RemoveGenerated => d.genesis in {None, Some(Generated)} && forall k :: k in d.settings ==> d.settings[k] < d.inits
       case Set(i) => d.genesis == None && i <= |n.Required()| && SetBy(d, n.Required()[..i], d.inits) && SyncOlder(d, 0)
       case ChooseSync => d.genesis == None && SetBy(d, n.Required(), d.inits) && SyncOlder(d, 0)
       case SetSync(i) => d.genesis == None && SetBy(d, n.Required(), d.inits) && i <= |SYNC|
                      && SetBy(d, SYNC[..i], d.inits) && SyncOlder(d, i)
       case Download => d.genesis == None && SetBy(d, n.Required(), d.inits)
       case Verify => d.genesis == None && SetBy(d, n.Required(), d.inits)
       case Unpack => d.genesis == None && SetBy(d, n.Required(), d.inits)
                      && d.dl.Some? && n.sha(d.dl.value) == n.pin
       case DropDownload => d.genesis == None && SetBy(d, n.Required(), d.inits)
                      && d.part.Some? && Verified(n, d.part.value)
       case Install => d.genesis == None && SetBy(d, n.Required(), d.inits)
                      && d.part.Some? && Verified(n, d.part.value)
       case MergeApp => Good(n, d)
       case Exec => Good(n, d)
  }

  /** After an escape the generated genesis stays and every start runs on it. */
  ghost predicate Lost(s: State) {
    s.disk.genesis == Some(Generated) && (s.pc.Check? || s.pc.MergeApp? || s.pc.Exec?)
  }

  lemma RequiredIsNotSync(n: Node)
    ensures forall k :: k in n.Required() ==> k !in SYNC
  {
  }

  lemma SettingKeeps(n: Node, s: State, t: State)
    requires Inv(n, s) && FirstStartStep(n, s, t) && (s.pc.Set? || s.pc.SetSync?)
    ensures Inv(n, t)
  {
    RequiredIsNotSync(n);
    var r := n.Required();
    if s.pc.Set? && s.pc.i < |r| {
      assert r[..s.pc.i + 1] == r[..s.pc.i] + [r[s.pc.i]];
    } else if s.pc.Set? {
      assert r[..s.pc.i] == r;
    } else if s.pc.i < |SYNC| {
      assert SYNC[..s.pc.i + 1] == SYNC[..s.pc.i] + [SYNC[s.pc.i]];
    }
  }

  lemma FirstStartKeeps(n: Node, s: State, t: State)
    requires Inv(n, s) && FirstStartStep(n, s, t)
    ensures Inv(n, t)
  {
    if s.pc.Set? || s.pc.SetSync? {
      SettingKeeps(n, s, t);
      hide *;
    } else {
      hide Good, Verified;
    }
  }

  /** What the script sets on every first start is what the node's fields ask for. */
  lemma RequiredSet(n: Node, d: Disk)
    requires SetBy(d, n.Required(), d.inits)
    ensures SetNow(d, Metrics)
    ensures n.seeds ==> SetNow(d, Seeds) && SetNow(d, BootstrapPeers)
    ensures n.peers ==> SetNow(d, PersistentPeers)
  {
    assert Metrics in n.Required();
    assert n.seeds ==> Seeds in n.Required() && BootstrapPeers in n.Required();
    assert n.peers ==> PersistentPeers in n.Required();
  }

  lemma CommitKeeps(n: Node, s: State, t: State)
    requires Inv(n, s) && CommitStep(n, s, t)
    ensures Inv(n, t)
  {
    if s.pc.Unpack? {
      assert n.sha(s.disk.dl.value) == n.pin;
    } else if s.pc.Install? {
      var b :| n.sha(b) == n.pin && s.disk.part.value == n.Genesis(b);
      RequiredSet(n, s.disk);
    }
  }

  lemma StepKeeps(n: Node, s: State, t: State)
    requires Inv(n, s) && Step(n, s, t) && !(InWindow(s) && Restart(s, t))
    ensures Inv(n, t)
  {
    if FirstStartStep(n, s, t) {
      FirstStartKeeps(n, s, t);
    } else if CommitStep(n, s, t) {
      CommitKeeps(n, s, t);
    }
  }

  lemma LostStays(n: Node, s: State, t: State)
    requires Lost(s) && Step(n, s, t)
    ensures Lost(t)
  {
  }

  lemma EscapeLoses(n: Node, s: State, t: State)
    requires Inv(n, s) && InWindow(s) && Restart(s, t)
    ensures Lost(t)
  {
  }

  lemma EscapedNext(ss: seq<State>, i: nat)
    requires 0 < i < |ss|
    ensures Escaped(ss, i) <==> Escaped(ss, i - 1) || (InWindow(ss[i - 1]) && Restart(ss[i - 1], ss[i]))
  {
    hide InWindow, Restart;
    if InWindow(ss[i - 1]) && Restart(ss[i - 1], ss[i - 1 + 1]) { assert Escaped(ss, i); }
    if k :| 0 <= k < i - 1 < |ss| && InWindow(ss[k]) && Restart(ss[k], ss[k + 1]) { assert Escaped(ss, i); }
  }

  /** What holds of a state, depending on whether some start escaped before it. */
  ghost predicate Holds(n: Node, ss: seq<State>, i: int)
    requires 0 <= i < |ss|
  {
    if Escaped(ss, i) then Lost(ss[i]) else Inv(n, ss[i])
  }

  lemma InitHolds(n: Node, ss: seq<State>)
    requires Run(n, ss)
    ensures Holds(n, ss, 0)
  {
    assert Inv(n, ss[0]) by { hide Good; }
    hide Inv, InWindow, Restart;
  }

  lemma {:induction false} HoldsAt(n: Node, ss: seq<State>, i: nat)
    requires Run(n, ss) && i < |ss|
    ensures Holds(n, ss, i)
  {
    if i == 0 {
      InitHolds(n, ss);
    } else {
      HoldsAt(n, ss, i - 1);
      HoldsNext(n, ss, i - 1);
    }
    hide *;
  }

  lemma HoldsNext(n: Node, ss: seq<State>, i: nat)
    requires Run(n, ss) && i + 1 < |ss| && Holds(n, ss, i)
    ensures Holds(n, ss, i + 1)
  {
    var s, t := ss[i], ss[i + 1];
    EscapedNext(ss, i + 1);
    assert Step(n, s, t);
    hide Inv, Lost, Step, InWindow, Restart, Escaped, Run;
    if Escaped(ss, i) {
      LostStays(n, s, t);
    } else if InWindow(s) && Restart(s, t) {
      EscapeLoses(n, s, t);
    } else {
      StepKeeps(n, s, t);
    }
  }

  // ---- Main results ----

  /**
   Over any run of starts and crashes, a node is started on a verified genesis,
   with metrics, seeds and peers set after the init that led to it, exactly when no
   start was ever cut off between `init` writing its genesis and the script removing it.
   */
  lemma ExecGoodIff(n: Node, ss: seq<State>, i: nat)
    requires Run(n, ss) && i < |ss| && ss[i].pc.Exec?
    ensures Good(n, ss[i].disk) <==> !Escaped(ss, i)
  {
    HoldsAt(n, ss, i);
  }

  /** The window is real: one crash in it starts the node on init's own genesis. */
  lemma WindowEscapes(n: Node, d: Disk) returns (ss: seq<State>)
    requires Init(n, State(Check, d))
    ensures Run(n, ss) && ss[0] == State(Check, d) && ss[|ss| - 1].pc.Exec?
    ensures ss[|ss| - 1].disk.genesis == Some(Generated)
  {
    var d1 := d.(inits := d.inits + 1);
    var d2 := d1.(genesis := Some(Generated));
    ss := [State(Check, d), State(Initialising, d1), State(Initialising, d2), State(Check, d2),
           State(MergeApp, d2), State(Exec, d2.(app := n.Merged(d2.app)))];
    assert InitStep(ss[1], ss[2]);
  }

  /** Once the node has been started, nothing it runs on changes at a later start. */
  lemma {:induction false} AppSettled(n: Node, ss: seq<State>, i: nat, k: nat)
    requires Run(n, ss) && i <= k < |ss| && ss[i].pc.Exec?
    requires TomlMerge.Parse(n.overrides).AllBare() && TomlMerge.Parse(n.overrides).Contiguous()
    ensures ss[k].disk.Config() == ss[i].disk.Config()
    ensures ss[k].pc.Check? || ss[k].pc.MergeApp? || ss[k].pc.Exec?
  {
    if k == i {
      return;
    }
    AppSettled(n, ss, i, k - 1);
    HoldsAt(n, ss, i);
    var app := MergedAtExec(n, ss, i);
    if n.overrides != [] { TomlStability.StableIff(n.overrides); }
  }

  lemma MergedAtExec(n: Node, ss: seq<State>, i: nat) returns (app: seq<string>)
    requires Run(n, ss) && i < |ss| && ss[i].pc.Exec?
    ensures i > 0 && app == ss[i - 1].disk.app && ss[i].disk.app == n.Merged(app)
  {
    assert i > 0;
    assert Step(n, ss[i - 1], ss[i]);
    app := ss[i - 1].disk.app;
  }

  /** A node only ever starts with every override in force, and every other assignment of app.toml as it was. */
  lemma ExecMerged(n: Node, ss: seq<State>, i: nat) returns (app: seq<string>)
    requires Run(n, ss) && i < |ss| && ss[i].pc.Exec? && n.overrides != []
    ensures i > 0 && app == ss[i - 1].disk.app
    ensures TomlReading.Obeys(TomlMerge.Parse(n.overrides), ss[i].disk.app, "")
    ensures TomlReading.Assignments(ss[i].disk.app, "")
         == (TomlReading.Assignments(app, "") - TomlMerge.Parse(n.overrides).lines.Keys)
            + TomlReading.Readable(TomlMerge.Parse(n.overrides))
  {
    app := MergedAtExec(n, ss, i);
    TomlMeaning.MergeMeaning(n.overrides, app);
  }

  // ---- State sync ----

  ghost predicate MidSync(s: State) { s.pc.SetSync? && 0 < s.pc.i < |SYNC| }

  /** This step leaves a part of the state sync settings: a start cut off between them, an init forgetting some. */
  ghost predicate Tears(s: State, t: State) {
    || (MidSync(s) && Restart(s, t))
    || (s.pc.Initialising? && {} < SyncKeys(t.disk) < SyncKeys(s.disk))
  }

  /** All state sync settings have just been made, or there are none. */
  ghost predicate Mended(s: State) { s.pc == SetSync(|SYNC|) || SyncKeys(s.disk) == {} }

  ghost predicate TornAt(ss: seq<State>, k: int)
    requires 0 <= k < |ss|
  {
    if k == 0 then !Whole(ss[0].disk) else Tears(ss[k - 1], ss[k])
  }

  /** State sync was torn and has not been mended since. */
  ghost predicate Torn(ss: seq<State>, i: int)
    requires 0 <= i < |ss|
  {
    exists k :: 0 <= k <= i && TornAt(ss, k) && forall m :: k <= m <= i ==> !Mended(ss[m])
  }

  ghost predicate SyncInv(ss: seq<State>, i: int)
    requires 0 <= i < |ss|
  {
    MidSync(ss[i]) || (Whole(ss[i].disk) <==> !Torn(ss, i))
  }

  lemma TornNext(ss: seq<State>, i: nat)
    requires i + 1 < |ss|
    ensures Torn(ss, i + 1) <==> !Mended(ss[i + 1]) && (Torn(ss, i) || Tears(ss[i], ss[i + 1]))
  {
    hide Mended, Tears, Whole;
    if !Mended(ss[i + 1]) && Torn(ss, i) {
      var k :| 0 <= k <= i && TornAt(ss, k) && forall m :: k <= m <= i ==> !Mended(ss[m]);
      assert forall m :: k <= m <= i + 1 ==> !Mended(ss[m]);
    }
    if !Mended(ss[i + 1]) && Tears(ss[i], ss[i + 1]) { assert TornAt(ss, i + 1); }
    if Torn(ss, i + 1) {
      var k :| 0 <= k <= i + 1 && TornAt(ss, k) && forall m :: k <= m <= i + 1 ==> !Mended(ss[m]);
    }
  }

  lemma TornFirst(n: Node, ss: seq<State>)
    requires Run(n, ss)
    ensures SyncInv(ss, 0)
  {
    assert TornAt(ss, 0) <==> !Whole(ss[0].disk);
  }

  /** What the settings say as long as only other keys change. */
  lemma SyncKept(d: Disk, e: Disk)
    requires SyncKeys(d) == SyncKeys(e) && forall k :: k in SyncKeys(d) ==> d.settings[k] == e.settings[k]
    ensures Whole(e) <==> Whole(d)
  {
    forall k | k in SYNC ensures (k in d.settings <==> k in SyncKeys(d)) && (k in e.settings <==> k in SyncKeys(d)) {
      assert k in SyncKeys(d) <==> k in SyncKeys(e);
    }
    if j :| SetBy(d, SYNC, j) { assert SetBy(e, SYNC, j); }
    if j :| SetBy(e, SYNC, j) { assert SetBy(d, SYNC, j); }
  }

  /** The last key is older than the first, or missing. */
  lemma HalfSet(n: Node, s: State)
    requires Inv(n, s) && MidSync(s)
    ensures !Whole(s.disk) && SyncKeys(s.disk) != {}
  {
    assert SYNC[0] in SYNC[..s.pc.i];
    assert SYNC[0] in SyncKeys(s.disk) && SYNC[3] in SYNC && SYNC[0] in SYNC;
  }

  lemma InitTears(s: State, t: State)
    requires InitStep(s, t)
    ensures !MidSync(s) && !MidSync(t)
    ensures Whole(t.disk) <==> Mended(t) || (Whole(s.disk) && !Tears(s, t))
  {
    if SyncKeys(t.disk) == SyncKeys(s.disk) {
      SyncKept(s.disk, t.disk);
    } else if SyncKeys(t.disk) != {} {
      var k :| k in SyncKeys(s.disk) && k !in SyncKeys(t.disk);
      assert k in SYNC;
    }
  }

  lemma SetTears(n: Node, s: State, t: State)
    requires FirstStartStep(n, s, t) && t.pc.SetSync? && Inv(n, t)
    ensures !MidSync(t) ==> (Whole(t.disk) <==> Mended(t) || (!MidSync(s) && Whole(s.disk) && !Tears(s, t)))
  {
    if t.pc.i == |SYNC| {
      assert SYNC[..|SYNC|] == SYNC;
      assert SetBy(t.disk, SYNC, t.disk.inits);
    } else if t.pc.i == 0 {
      assert t.disk == s.disk;
    }
    hide Inv, Whole, SyncKeys;
  }

  lemma OtherKeeps(n: Node, s: State, t: State)
    requires Step(n, s, t) && !InitStep(s, t) && !t.pc.SetSync?
    ensures SyncKeys(t.disk) == SyncKeys(s.disk) && (Whole(t.disk) <==> Whole(s.disk))
  {
    RequiredIsNotSync(n);
    forall k | k in SYNC ensures k in t.disk.settings <==> k in s.disk.settings
                         ensures k in s.disk.settings ==> t.disk.settings[k] == s.disk.settings[k] {
    }
    hide Step;
    SyncKept(s.disk, t.disk);
  }

  /** How a step changes whether state sync is whole. */
  lemma StepTears(n: Node, s: State, t: State)
    requires Step(n, s, t) && (Inv(n, s) || Lost(s)) && (Inv(n, t) || Lost(t))
    ensures !MidSync(t) ==>
              (Whole(t.disk) <==> Mended(t) || (!MidSync(s) && Whole(s.disk) && !Tears(s, t)))
  {
    if InitStep(s, t) {
      InitTears(s, t);
      hide *;
    } else if t.pc.SetSync? {
      SetTears(n, s, t);
      hide *;
    } else {
      OtherKeeps(n, s, t);
      if MidSync(s) { HalfSet(n, s); }
      hide Inv, Lost, Whole, InitStep, CommitStep, SyncKeys;
    }
  }

  lemma SyncNext(n: Node, ss: seq<State>, i: nat)
    requires Run(n, ss) && i + 1 < |ss| && Holds(n, ss, i) && Holds(n, ss, i + 1) && SyncInv(ss, i)
    ensures SyncInv(ss, i + 1)
  {
    var s, t := ss[i], ss[i + 1];
    TornNext(ss, i);
    assert Step(n, s, t);
    StepTears(n, s, t);
    hide *;
  }

  lemma {:induction false} SyncAt(n: Node, ss: seq<State>, i: nat)
    requires Run(n, ss) && i < |ss|
    ensures SyncInv(ss, i)
  {
    if i == 0 {
      TornFirst(n, ss);
    } else {
      SyncAt(n, ss, i - 1);
      HoldsAt(n, ss, i - 1);
      HoldsAt(n, ss, i);
      SyncNext(n, ss, i - 1);
    }
    hide *;
  }

  lemma SyncSpelled(d: Disk)
    ensures Whole(d) <==> SyncWhole(d)
  {
    assert forall k :: k in SYNC <==> k == SyncEnable || k == SyncServers || k == SyncHeight || k == SyncHash by {
      assert SYNC[0] == SyncEnable && SYNC[1] == SyncServers && SYNC[2] == SyncHeight && SYNC[3] == SyncHash;
    }
    forall k | k in SYNC && k in d.settings ensures k in SyncKeys(d) {}
    if SyncEnable in d.settings && SetBy(d, SYNC, d.settings[SyncEnable]) { assert Whole(d); }
  }

  /**
   Over any run, escaped or not, a node starts with state sync configured as a whole or
   not at all exactly when no start was cut off between its settings, or each such start
   was followed by one that made all of them or by an init that forgot them.
   */
  lemma ExecSyncIff(n: Node, ss: seq<State>, i: nat)
    requires Run(n, ss) && i < |ss| && ss[i].pc.Exec?
    ensures SyncWhole(ss[i].disk) <==> !Torn(ss, i)
  {
    SyncAt(n, ss, i);
    SyncSpelled(ss[i].disk);
    hide *;
  }

  lemma StepsAppend(n: Node, a: seq<State>, b: seq<State>)
    requires Steps(n, a) && Steps(n, b) && a != [] && b != [] && Step(n, a[|a| - 1], b[0])
    ensures Steps(n, a + b)
  {
    hide Step;
    forall i | 0 <= i < |a + b| - 1 ensures Step(n, (a + b)[i], (a + b)[i + 1]) {
      if i >= |a| { assert (a + b)[i] == b[i - |a|] && (a + b)[i + 1] == b[i - |a| + 1]; }
    }
  }

  /** A first start cut off after `tset statesync enable`. */
  lemma CutOffStart(n: Node, d: Disk) returns (ss: seq<State>)
    requires d.genesis == None && d.settings == map[] && !d.hasDb && n.stateSync && n.Required() == [Metrics]
    ensures Steps(n, ss) && ss != [] && ss[0] == State(Check, d)
    ensures ss[|ss| - 1] == State(SetSync(1), d.(inits := d.inits + 1,
                                  settings := map[Metrics := d.inits + 1, SyncEnable := d.inits + 1]))
  {
    var d1 := d.(inits := d.inits + 1);
    var d2 := d1.(settings := map[Metrics := d1.inits]);
    ss := [State(Check, d), State(Initialising, d1), State(RemoveGenerated, d1), State(Set(0), d1),
           State(Set(1), d2), State(ChooseSync, d2), State(SetSync(0), d2),
           State(SetSync(1), d2.(settings := d2.settings[SyncEnable := d1.inits]))];
    assert InitStep(ss[1], ss[2]);
  }

  /** A first start that leaves config.toml as it is but for the metrics, and finds no RPC answering. */
  lemma StartWithoutRpc(n: Node, d: Disk, b: Bytes) returns (ss: seq<State>)
    requires d.genesis == None && n.stateSync && n.Required() == [Metrics] && n.format.Plain? && n.sha(b) == n.pin
    ensures Steps(n, ss) && ss != [] && ss[0] == State(Check, d) && ss[|ss| - 1].pc.Exec?
    ensures var e := ss[|ss| - 1].disk;
            e.settings == d.settings[Metrics := e.inits] && e.genesis == Some(Installed(b))
  {
    var d1 := d.(inits := d.inits + 1);
    var d2 := d1.(settings := d.settings[Metrics := d1.inits]);
    var d3 := d2.(dl := None, part := None, genesis := Some(Installed(b)));
    ss := [State(Check, d), State(Initialising, d1), State(RemoveGenerated, d1), State(Set(0), d1),
           State(Set(1), d2), State(ChooseSync, d2), State(Download, d2), State(Verify, d2.(dl := Some(b))),
           State(Unpack, d2.(dl := Some(b))), State(Install, d2.(dl := None, part := Some(b))),
           State(MergeApp, d3), State(Exec, d3.(app := n.Merged(d3.app)))];
    assert InitStep(ss[1], ss[2]);
  }

  /** One after the other: the node runs on a verified genesis with a part of state sync configured. */
  lemma TornSync(n: Node, d: Disk, b: Bytes) returns (ss: seq<State>)
    requires Init(n, State(Check, d)) && d.settings == map[] && !d.hasDb
    requires n.stateSync && !n.seeds && !n.peers && n.format.Plain? && n.sha(b) == n.pin
    ensures Run(n, ss) && ss[0] == State(Check, d) && ss[|ss| - 1].pc.Exec?
    ensures Good(n, ss[|ss| - 1].disk) && !SyncWhole(ss[|ss| - 1].disk)
    ensures SyncEnable in ss[|ss| - 1].disk.settings && SyncHash !in ss[|ss| - 1].disk.settings
  {
    assert n.Required() == [Metrics];
    var first := CutOffStart(n, d);
    var cut := first[|first| - 1];
    var second := StartWithoutRpc(n, cut.disk, b);
    var e := second[|second| - 1].disk;
    assert SyncEnable in SYNC && SyncHash in SYNC && SyncEnable in SyncKeys(e);
    assert Good(n, e) by { assert b == n.Genesis(b); }
    assert Step(n, cut, second[0]);
    ss := first + second;
    hide Step, Good, SyncKeys;
    StepsAppend(n, first, second);
  }

  // ---- One start ----

  ghost predicate Proceeds(n: Node, s: State, t: State) { FirstStartStep(n, s, t) || CommitStep(n, s, t) }

  function StepsLeft(n: Node, pc: Pc): int {
    var required := |n.Required()|;
    match pc
    case Check => required + 18
    case Initialising => required + 17
    case RemoveGenerated => required + 16
    case Set(i) => required - i + 15
    case ChooseSync => 14
    case SetSync(i) => |SYNC| - i + 9
    case Download => 8
    case Verify => 7
    case Unpack => 6
    case DropDownload => 5
    case Install => 4
    case MergeApp => 3
    case Exec => 0
    case Exited => 0
  }

  /** Nothing the script needs next is missing, and a download about to be verified matches. */
  ghost predicate OnTrack(n: Node, s: State) {
    match s.pc
    case Set(i) => i <= |n.Required()|
    case SetSync(i) => i <= |SYNC|
    case Verify => s.disk.dl.Some? && n.sha(s.disk.dl.value) == n.pin
    case Unpack => s.disk.dl.Some?
    case DropDownload => s.disk.part.Some?
    case Install => s.disk.part.Some?
    case Exited => false
    case _ => true
  }

  /** Each step of a start comes nearer to its end, unless it waits for init, the download or the unpacking. */
  lemma StartAdvances(n: Node, s: State, t: State)
    requires Proceeds(n, s, t) && OnTrack(n, s)
    ensures StepsLeft(n, t.pc) < StepsLeft(n, s.pc)
         || (t.pc == s.pc && (s.pc.Initialising? || s.pc.Download? || s.pc.Unpack?))
    ensures OnTrack(n, t) || (s.pc.Download? && t.pc.Verify?)
    ensures 0 <= StepsLeft(n, s.pc)
  {
  }

  lemma NextOf(n: Node, s: State, b: Bytes) returns (t: State)
    requires OnTrack(n, s) && !s.pc.Exec? && n.sha(b) == n.pin
    ensures Proceeds(n, s, t) && OnTrack(n, t) && StepsLeft(n, t.pc) < StepsLeft(n, s.pc)
  {
    var d := s.disk;
    match s.pc
    case Check => t := if d.genesis.Some? then State(MergeApp, d) else State(Initialising, d.(inits := d.inits + 1));
    case Initialising =>
      t := State(RemoveGenerated, d);
      assert InitStep(s, t);
    case RemoveGenerated => t := State(Set(0), d.(genesis := None));
    case Set(i) =>
      t := if i < |n.Required()| then State(Set(i + 1), d.(settings := d.settings[n.Required()[i] := d.inits]))
           else State(if n.stateSync then ChooseSync else Download, d);
    case ChooseSync => t := State(Download, d);
    case SetSync(i) =>
      t := if i < |SYNC| then State(SetSync(i + 1), d.(settings := d.settings[SYNC[i] := d.inits])) else State(Download, d);
    case Download => t := State(Verify, d.(dl := Some(b)));
    case Verify => t := State(Unpack, d);
    case Unpack =>
      t := if n.format.Plain? then State(Install, d.(part := d.dl, dl := None))
           else State(DropDownload, d.(part := Some(n.unpack(d.dl.value))));
    case DropDownload => t := State(Install, d.(dl := None));
    case Install => t := State(MergeApp, d.(genesis := Some(Installed(d.part.value)), part := None));
    case MergeApp => t := State(Exec, d.(app := n.Merged(d.app)));
  }

  /** From wherever a start is, if nothing cuts it off and the download matches, the node is started. */
  lemma ReachesExec(n: Node, s: State, b: Bytes) returns (ss: seq<State>)
    requires OnTrack(n, s) && n.sha(b) == n.pin
    ensures ss != [] && ss[0] == s && ss[|ss| - 1].pc.Exec?
    ensures forall i :: 0 <= i < |ss| - 1 ==> Proceeds(n, ss[i], ss[i + 1])
    decreases StepsLeft(n, s.pc)
  {
    if s.pc.Exec? {
      return [s];
    }
    var t := NextOf(n, s, b);
    StartAdvances(n, s, t);
    hide Proceeds, OnTrack;
    var rest := ReachesExec(n, t, b);
    ss := [s] + rest;
  }
}
