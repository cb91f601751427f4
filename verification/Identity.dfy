/** The identity checks of a running node, and how they change the verdict. */
module Identity {
  import opened LogVerdict
  import opened Options

  const MIN_DATA_KIB := 64

  /** What a check has to say; the texts themselves are left out. */
  datatype Finding =
    | DataEmpty(kib: int) | DataWritten(kib: int) | DataSkipped | DataUnknown
    | ChainId(got: nat, want: nat, viaNetVersion: bool) | RpcNotReady | IdNotReported
    | Network(network: string, expected: string) | CometNotReady

  datatype Findings = Findings(fails: seq<Finding>, warns: seq<Finding>, facts: seq<Finding>, notes: seq<Finding>) {
    function All(): multiset<Finding> { multiset(fails) + multiset(warns) + multiset(facts) + multiset(notes) }

    /** Add: a check ended in a failure or a fact. */
    function With(failed: bool, f: Finding): Findings {
      if failed then this.(fails := fails + [f]) else this.(facts := facts + [f])
    }

    function Warned(f: Finding): Findings { this.(warns := warns + [f]) }

    function Plus(o: Findings): Findings {
      Findings(fails + o.fails, warns + o.warns, facts + o.facts, notes + o.notes)
    }

    function Noted(f: Finding): Findings { this.(notes := notes + [f]) }
  }

  const NONE := Findings([], [], [], [])

  // ---- The checks ----

  datatype DataCheck = NoPath | Exempt | Unmeasured | Measured(kib: int)

  /** Answers of the node: None for an error or a body that does not parse. */
  datatype Node = Node(chainId: Option<nat>, netVersion: Option<nat>, comet: Option<string>)

  /** What to check: a chain id of 0 and an empty network are not checked. */
  datatype Wanted = Wanted(data: DataCheck, chainId: nat, network: string)

  class Checker {
    var f: Findings
    ghost var called: seq<string>

    constructor ()
      ensures f == NONE && called == []
    {
      f, called := NONE, [];
    }

    method Add(failed: bool, finding: Finding)
      modifies this
      ensures f == old(f).With(failed, finding) && called == old(called)
    {
      if failed {
        f := f.(fails := f.fails + [finding]);
      } else {
        f := f.(facts := f.facts + [finding]);
      }
    }

    method CheckEVMChainID(want: nat, node: Node)
      modifies this
      ensures f == AfterChainId(old(f), want, node)
      ensures called == old(called) + ["eth_chainId"] + (if node.chainId == Some(0) then ["net_version"] else [])
    {
      called := called + ["eth_chainId"];
      if node.chainId.None? {
        f := f.(warns := f.warns + [RpcNotReady]);
        return;
      }
      var got := node.chainId.value;
      if got != 0 {
        Add(got != want, ChainId(got, want, false));
        return;
      }
      called := called + ["net_version"];
      if node.netVersion.None? || node.netVersion.value == 0 {
        f := f.(warns := f.warns + [IdNotReported]);
        return;
      }
      got := node.netVersion.value;
      Add(got != want, ChainId(got, want, got == want));
    }

    method CheckIdentity(w: Wanted, node: Node)
      modifies this
      ensures f == AfterChecks(old(f), w, node)
    {
      match w.data {
        case NoPath =>
        case Exempt => f := f.(notes := f.notes + [DataSkipped]);
        case Unmeasured => f := f.(notes := f.notes + [DataUnknown]);
        case Measured(kib) => Add(kib < MIN_DATA_KIB, if kib < MIN_DATA_KIB then DataEmpty(kib) else DataWritten(kib));
      }
      if w.chainId != 0 {
        CheckEVMChainID(w.chainId, node);
      }
      if w.network != "" {
        if node.comet.None? {
          f := f.(warns := f.warns + [CometNotReady]);
        } else {
          Add(node.comet.value != w.network, Network(node.comet.value, w.network));
        }
      }
    }
  }

  function AfterData(f: Findings, data: DataCheck): Findings {
    match data
    case NoPath => f
    case Exempt => f.Noted(DataSkipped)
    case Unmeasured => f.Noted(DataUnknown)
    case Measured(kib) => if kib < MIN_DATA_KIB then f.With(true, DataEmpty(kib)) else f.With(false, DataWritten(kib))
  }

  /** The id a node reports; before EIP155 it is 0 and the network id stands in. */
  function Reported(node: Node): Option<nat> {
    if node.chainId == Some(0) then (if node.netVersion == Some(0) then None else node.netVersion) else node.chainId
  }

  function AfterChainId(f: Findings, want: nat, node: Node): Findings {
    match Reported(node)
    case None => f.Warned(if node.chainId.None? then RpcNotReady else IdNotReported)
    case Some(got) => f.With(got != want, ChainId(got, want, node.chainId == Some(0) && got == want))
  }

  function AfterNetwork(f: Findings, want: string, node: Node): Findings {
    match node.comet
    case None => f.Warned(CometNotReady)
    case Some(got) => f.With(got != want, Network(got, want))
  }

  function AfterChecks(f: Findings, w: Wanted, node: Node): Findings {
    var f1 := AfterData(f, w.data);
    var f2 := if w.chainId != 0 then AfterChainId(f1, w.chainId, node) else f1;
    if w.network != "" then AfterNetwork(f2, w.network, node) else f2
  }

  /** The node answers with `id`, under eth_chainId or, where that is 0, under net_version. */
  predicate Answers(node: Node, id: nat) {
    node.chainId == Some(id) || (node.chainId == Some(0) && node.netVersion == Some(id))
  }

  /** The finding about the data: at least 64 KiB written, or why that was not measured. */
  lemma DataSays(data: DataCheck)
    ensures var f := AfterData(NONE, data);
            match data
            case NoPath => f == NONE
            case Exempt => f == NONE.(notes := [DataSkipped])
            case Unmeasured => f == NONE.(notes := [DataUnknown])
            case Measured(kib) =>
              if kib < 64 then f == NONE.(fails := [DataEmpty(kib)]) else f == NONE.(facts := [DataWritten(kib)])
  {
  }

  /** The one finding about the chain id, by what the node answers. */
  lemma ChainIdSays(want: nat, node: Node, got: nat)
    requires want != 0
    ensures var f := AfterChainId(NONE, want, node);
            && (Answers(node, got) && got !in {0, want} ==> f == NONE.(fails := [ChainId(got, want, false)]))
            && (Answers(node, want) ==> f == NONE.(facts := [ChainId(want, want, node.chainId == Some(0))]))
            && (node.chainId.None? ==> f == NONE.(warns := [RpcNotReady]))
            && (node.chainId == Some(0) && node.netVersion in {None, Some(0)} ==> f == NONE.(warns := [IdNotReported]))
  {
  }

  /** The one finding about the network, by what the node answers. */
  lemma NetworkSays(want: string, node: Node)
    ensures var f := AfterNetwork(NONE, want, node);
            && (node.comet.None? ==> f == NONE.(warns := [CometNotReady]))
            && (node.comet == Some(want) ==> f == NONE.(facts := [Network(want, want)]))
            && (node.comet.Some? && node.comet.value != want ==> f == NONE.(fails := [Network(node.comet.value, want)]))
  {
  }

  /** The checks that are due, each on its own, give all the findings. */
  lemma ChecksApart(w: Wanted, node: Node)
    ensures AfterChecks(NONE, w, node) ==
            AfterData(NONE, w.data)
            .Plus(if w.chainId != 0 then AfterChainId(NONE, w.chainId, node) else NONE)
            .Plus(if w.network != "" then AfterNetwork(NONE, w.network, node) else NONE)
  {
    var f1 := AfterData(NONE, w.data);
    var f2 := if w.chainId != 0 then AfterChainId(f1, w.chainId, node) else f1;
    EachApart(f1, w, node);
    EachApart(f2, w, node);
    hide AfterData, AfterChainId, AfterNetwork, Findings.Plus;
  }

  lemma EachApart(f: Findings, w: Wanted, node: Node)
    ensures AfterChainId(f, w.chainId, node) == f.Plus(AfterChainId(NONE, w.chainId, node))
    ensures AfterNetwork(f, w.network, node) == f.Plus(AfterNetwork(NONE, w.network, node))
    ensures f.Plus(NONE) == f
  {
  }

  /** Something the node does shows another identity than the one it was configured with. */
  ghost predicate Wrong(w: Wanted, node: Node) {
    || (w.data.Measured? && w.data.kib < 64)
    || (w.chainId != 0 && exists id :: Answers(node, id) && id !in {0, w.chainId})
    || (w.network != "" && node.comet.Some? && node.comet.value != w.network)
  }

  /** A check that was due got no answer. */
  ghost predicate Silent(w: Wanted, node: Node) {
    || (w.chainId != 0 && forall id :: Answers(node, id) ==> id == 0)
    || (w.network != "" && node.comet.None?)
  }

  lemma FindingsIff(w: Wanted, node: Node)
    ensures AfterChecks(NONE, w, node).fails != [] <==> Wrong(w, node)
    ensures AfterChecks(NONE, w, node).warns != [] <==> Silent(w, node)
  {
    var f1 := AfterData(NONE, w.data);
    var f2 := if w.chainId != 0 then AfterChainId(f1, w.chainId, node) else f1;
    assert f1.warns == [] && (f1.fails != [] <==> w.data.Measured? && w.data.kib < 64);
    hide AfterData;
    if w.chainId != 0 { ReportedIff(node, w.chainId); }
    assert f2.warns != [] <==> w.chainId != 0 && Reported(node).None?;
    hide AfterChainId, Reported, Answers;
  }

  lemma ReportedIff(node: Node, want: nat)
    requires want != 0
    ensures Reported(node).None? <==> forall id :: Answers(node, id) ==> id == 0
    ensures Reported(node).Some? && Reported(node).value != want <==> exists id :: Answers(node, id) && id !in {0, want}
  {
    if node.chainId.Some? { assert Answers(node, node.chainId.value); }
    if node.netVersion.Some? && node.chainId == Some(0) { assert Answers(node, node.netVersion.value); }
  }

  // ---- Folding the findings into the verdict ----

  /** A detail is what the run said and the findings put beside it. */
  datatype Part = Said(detail: Detail) | Found(finding: Finding)

  function AsParts(fs: seq<Finding>): seq<Part> { if fs == [] then [] else [Found(fs[0])] + AsParts(fs[1..]) }

  function ApplyIdentity(status: Status, detail: Detail, f: Findings): (Status, seq<Part>, seq<Finding>) {
    if |f.fails| > 0 then (FAIL, AsParts(f.fails) + [Said(detail)], f.notes + f.warns + f.facts)
    else
      var hidden := |f.warns| > 0 && status == PASS;
      var status' := if hidden then WARN else status;
      var detail' := if hidden then AsParts(f.warns) + [Said(detail)] else [Said(detail)];
      var notes := if hidden then f.notes else f.notes + f.warns;
      if status' == PASS then (status', detail' + AsParts(f.facts), notes)
      else (status', detail', notes + f.facts)
  }

  function Rank(s: Status): nat {
    match s
    case PASS => 0
    case SKIP => 0
    case WARN => 1
    case FAIL => 2
  }

  function Shown(parts: seq<Part>): multiset<Finding> {
    if parts == [] then multiset{}
    else (if parts[0].Found? then multiset{parts[0].finding} else multiset{}) + Shown(parts[1..])
  }

  function SaidIn(parts: seq<Part>): seq<Detail> {
    if parts == [] then []
    else if parts[0].Said? then [parts[0].detail] + SaidIn(parts[1..])
    else SaidIn(parts[1..])
  }

  lemma {:induction false} ShownAppend(a: seq<Part>, b: seq<Part>)
    ensures Shown(a + b) == Shown(a) + Shown(b) && SaidIn(a + b) == SaidIn(a) + SaidIn(b)
  {
    if a == [] {
      assert a + b == b;
    } else {
      assert (a + b)[1..] == a[1..] + b;
      ShownAppend(a[1..], b);
    }
  }

  lemma {:induction false} PartsShown(fs: seq<Finding>)
    ensures Shown(AsParts(fs)) == multiset(fs) && SaidIn(AsParts(fs)) == []
  {
    if fs != [] {
      PartsShown(fs[1..]);
      assert AsParts(fs)[1..] == AsParts(fs[1..]);
      assert fs == [fs[0]] + fs[1..];
    }
  }

  /** Findings never make a verdict milder, and it is a pass only where nothing was found wrong or silent. */
  lemma IdentityNeverHelps(status: Status, detail: Detail, f: Findings)
    ensures var r := ApplyIdentity(status, detail, f);
            && Rank(r.0) >= Rank(status)
            && (r.0 == FAIL <==> status == FAIL || f.fails != [])
            && (r.0 == PASS <==> status == PASS && f.fails == [] && f.warns == [])
  {
  }

  lemma SaidAlone(detail: Detail)
    ensures Shown([Said(detail)]) == multiset{} && SaidIn([Said(detail)]) == [detail]
  {
  }

  /** The run's own detail is kept once, and every finding shows exactly once, in the detail or the notes. */
  lemma FindingsShownOnce(status: Status, detail: Detail, f: Findings)
    ensures var r := ApplyIdentity(status, detail, f);
            SaidIn(r.1) == [detail] && Shown(r.1) + multiset(r.2) == f.All()
  {
    var said := [Said(detail)];
    SaidAlone(detail);
    PartsShown(f.fails);
    PartsShown(f.warns);
    PartsShown(f.facts);
    ShownAppend(AsParts(f.fails), said);
    ShownAppend(AsParts(f.warns), said);
    ShownAppend(said, AsParts(f.facts));
    ShownAppend(AsParts(f.warns) + said, AsParts(f.facts));
    hide Shown, SaidIn, AsParts;
    assert |f.fails| == 0 ==> f.fails == [];
    assert |f.warns| == 0 ==> f.warns == [];
  }

  /** The detail shows the failures; without one, a run that passed shows its warnings, or else its facts. The rest is noted. */
  lemma WhereShown(status: Status, detail: Detail, f: Findings)
    ensures Shown(ApplyIdentity(status, detail, f).1) ==
            multiset(if f.fails != [] then f.fails
                     else if status != PASS then []
                     else if f.warns != [] then f.warns
                     else f.facts)
    ensures var passed := f.fails == [] && status == PASS;
            ApplyIdentity(status, detail, f).2 ==
              f.notes + (if passed && f.warns != [] then [] else f.warns) + (if passed && f.warns == [] then [] else f.facts)
  {
    var said := [Said(detail)];
    SaidAlone(detail);
    PartsShown(f.fails);
    PartsShown(f.warns);
    PartsShown(f.facts);
    ShownAppend(AsParts(f.fails), said);
    ShownAppend(AsParts(f.warns), said);
    ShownAppend(said, AsParts(f.facts));
    hide Shown, SaidIn, AsParts;
    assert |f.fails| == 0 ==> f.fails == [];
    assert |f.warns| == 0 ==> f.warns == [];
  }

  // ---- From end to end ----

  /** The status a sample ends with; a node that has stopped is not asked who it is. */
  function FinalStatus(p: Patterns, st: ContainerState, log: string, w: Wanted, node: Node): Status {
    var (status, detail) := Verdict(st, ScanOf(p, log));
    if !st.running then status else ApplyIdentity(status, detail, AfterChecks(NONE, w, node)).0
  }

  /** When exactly a sample passes, and when it fails. */
  lemma FinalStatusIff(p: Patterns, st: ContainerState, log: string, w: Wanted, node: Node)
    requires p.Sound()
    ensures FinalStatus(p, st, log, w, node) == PASS <==>
              && st.running && !Has(p, log, DiskFull) && !Has(p, log, Fail) && !Has(p, log, Warn)
              && !Wrong(w, node) && !Silent(w, node)
    ensures FinalStatus(p, st, log, w, node) == FAIL <==>
              Has(p, log, Fail) || (if st.running then Wrong(w, node) else !Has(p, log, DiskFull))
  {
    VerdictIff(p, st, log);
    FindingsIff(w, node);
    var (status, detail) := Verdict(st, ScanOf(p, log));
    IdentityNeverHelps(status, detail, AfterChecks(NONE, w, node));
    hide Verdict, AfterChecks, ApplyIdentity, Has, Wrong, Silent;
  }
}
