/** The generated source file of default images, and the line reader that takes it apart again. */
module VersionsFile {
  import opened Options
  import opened Sorting
  import opened Text

  type Chain = string
  type Images = map<Chain, map<string, string>>

  const MAP_NAME := "chainDefaultImages"
  const CONST_PACKAGE := "chainsv1alpha2."

  // ---- Reading ----

  predicate RegexSpace(c: char) { c in " \t\n\r\U{0C}" }

  function SkipSpace(s: string): string { if s != "" && RegexSpace(s[0]) then SkipSpace(s[1..]) else s }

  /** The content of the quoted string that `s` opens with, and what follows it. */
  function Quoted(s: string): Option<(string, string)> {
    if s != "" && s[0] == '"' then UpToQuote(s[1..]) else None
  }

  function UpToQuote(s: string): Option<(string, string)> {
    if s == "" then None
    else if s[0] == '"' then Some(("", s[1..]))
    else match UpToQuote(s[1..])
      case None => None
      case Some((content, rest)) => Some(([s[0]] + content, rest))
  }

  predicate EntryEnd(s: string) {
    var t := SkipSpace(s);
    SkipSpace(if t != "" && t[0] == ',' then t[1..] else t) == ""
  }

  /** `mapEntryRe`: a quoted key, a colon, a quoted value, an optional comma. */
  function MatchEntry(s: string): Option<(string, string)> {
    match Quoted(s)
    case None => None
    case Some((key, rest)) =>
      var colon := SkipSpace(rest);
      if colon == "" || colon[0] != ':' then None
      else match Quoted(SkipSpace(colon[1..]))
        case None => None
        case Some((value, end)) => if EntryEnd(end) then Some((key, value)) else None
  }

  /** `lookupChainByConst`; an unknown constant stands for itself. */
  function LookupChain(names: map<string, Chain>, constName: string): Chain {
    if constName in names then names[constName] else constName
  }

  datatype State = State(inMap: bool, inChain: bool, chain: Chain, table: Images)

  predicate OpensMap(t: string) { Contains(t, MAP_NAME) && Contains(t, "{") }

  predicate OpensChain(t: string) { CONST_PACKAGE + "Chain" <= t && HasSuffix(t, ": {") }

  /** The constant's name between the package and the brace. */
  function ConstName(t: string): string
    requires OpensChain(t)
  {
    var name := t[..|t| - 3];
    if CONST_PACKAGE <= name then name[|CONST_PACKAGE|..] else name
  }

  function EnterChain(st: State, chain: Chain): State {
    st.(chain := chain, table := st.table[chain := map[]], inChain := true)
  }

  function SetImage(table: Images, chain: Chain, key: string, image: string): Images {
    var clients := if chain in table then table[chain] else map[];
    table[chain := clients[key := image]]
  }

  function LeaveChain(st: State, t: string): State {
    if st.inChain && (t == "}," || t == "}") then st.(inChain := false, chain := "") else st
  }

  /** One line of the file, trimmed; the flag tells the loop to stop. */
  function Step(names: map<string, Chain>, st: State, t: string): (State, bool) {
    if OpensMap(t) then (st.(inMap := true), false)
    else if !st.inMap then (st, false)
    else if OpensChain(t) then (EnterChain(st, LookupChain(names, ConstName(t))), false)
    else if st.inChain && MatchEntry(t).Some? then
      var m := MatchEntry(t).value;
      (st.(table := SetImage(st.table, st.chain, m.0, m.1)), false)
    else var left := LeaveChain(st, t); (left, t == "}" && !left.inChain)
  }

  function Read(names: map<string, Chain>, st: State, lines: seq<string>): Images
    decreases |lines|
  {
    if lines == [] then st.table
    else var (next, stop) := Step(names, st, TrimSpace(lines[0]));
      if stop then next.table else Read(names, next, lines[1..])
  }

  const START := State(false, false, "", map[])

  method ParseVersionsGen(names: map<string, Chain>, text: string) returns (result: Images)
    ensures result == Read(names, START, SplitLines(text))
  {
    var lines := SplitLines(text);
    var inMap, inChain, currentChain := false, false, "";
    result := map[];
    assert lines[0..] == lines;
    for i := 0 to |lines|
      invariant inChain ==> currentChain in result
      invariant Read(names, State(inMap, inChain, currentChain, result), lines[i..]) == Read(names, START, lines)
    {
      var trimmed := TrimSpace(lines[i]);
      assert lines[i..][0] == lines[i] && lines[i..][1..] == lines[i + 1..];
      hide MatchEntry, Contains, TrimSpace;
      if Contains(trimmed, MAP_NAME) && Contains(trimmed, "{") {
        inMap := true;
        continue;
      }
      if !inMap {
        continue;
      }
      if CONST_PACKAGE + "Chain" <= trimmed && HasSuffix(trimmed, ": {") {
        currentChain := LookupChain(names, ConstName(trimmed));
        result := result[currentChain := map[]];
        inChain := true;
        continue;
      }
      if inChain {
        var m := MatchEntry(trimmed);
        if m.Some? {
          result := result[currentChain := result[currentChain][m.value.0 := m.value.1]];
          continue;
        }
        if trimmed == "}," || trimmed == "}" {
          inChain, currentChain := false, "";
        }
      }
      if trimmed == "}" && !inChain {
        return;
      }
    }
    assert lines[|lines|..] == [];
  }

  // ---- Writing ----

  datatype ClientEntry = ClientEntry(key: string, image: string)
  datatype ChainEntry = ChainEntry(constName: string, clients: seq<ClientEntry>)

  ghost function ClientsFor(keys: seq<string>, images: map<string, string>): seq<ClientEntry>
    requires forall k :: k in keys ==> k in images
  {
    seq(|keys|, i requires 0 <= i < |keys| => ClientEntry(keys[i], images[keys[i]]))
  }

  /** A chain without a constant gets the empty name. */
  function ConstFor(constOf: map<Chain, string>, chain: Chain): string {
    if chain in constOf then constOf[chain] else ""
  }

  ghost function EntryFor(constOf: map<Chain, string>, images: Images, chain: Chain): ChainEntry
    requires chain in images
  {
    OrderedMembers(images[chain].Keys);
    ChainEntry(ConstFor(constOf, chain), ClientsFor(Ordered(images[chain].Keys), images[chain]))
  }

  ghost function EntriesFor(constOf: map<Chain, string>, images: Images, chains: seq<Chain>): seq<ChainEntry>
    requires forall c :: c in chains ==> c in images
  {
    seq(|chains|, i requires 0 <= i < |chains| => EntryFor(constOf, images, chains[i]))
  }

  /** The entries written for a table: they depend on the table only, not on the order its maps are walked in. */
  ghost function Entries(constOf: map<Chain, string>, images: Images): seq<ChainEntry> {
    OrderedMembers(images.Keys);
    EntriesFor(constOf, images, Ordered(images.Keys))
  }

  lemma ClientsStep(keys: seq<string>, j: nat, clients: map<string, string>)
    requires j < |keys| && forall k :: k in keys ==> k in clients
    ensures ClientsFor(keys[..j + 1], clients) == ClientsFor(keys[..j], clients) + [ClientEntry(keys[j], clients[keys[j]])]
  {
  }

  lemma EntriesStep(constOf: map<Chain, string>, images: Images, chains: seq<Chain>, i: nat)
    requires i < |chains| && forall c :: c in chains ==> c in images
    ensures EntriesFor(constOf, images, chains[..i + 1])
         == EntriesFor(constOf, images, chains[..i]) + [EntryFor(constOf, images, chains[i])]
  {
    hide EntryFor;
  }

  method BuildEntry(constOf: map<Chain, string>, images: Images, chain: Chain) returns (e: ChainEntry)
    requires chain in images
    ensures e == EntryFor(constOf, images, chain)
  {
    var clients := images[chain];
    var keys := SortedKeys(clients.Keys);
    OrderedMembers(clients.Keys);
    var rows := [];
    for j := 0 to |keys|
      invariant rows == ClientsFor(keys[..j], clients)
    {
      ClientsStep(keys, j, clients);
      rows := rows + [ClientEntry(keys[j], clients[keys[j]])];
      hide *;
    }
    assert keys[..|keys|] == keys;
    e := ChainEntry(ConstFor(constOf, chain), rows);
  }

  method BuildEntries(constOf: map<Chain, string>, images: Images) returns (entries: seq<ChainEntry>)
    ensures entries == Entries(constOf, images)
  {
    var chains := SortedKeys(images.Keys);
    OrderedMembers(images.Keys);
    entries := [];
    for i := 0 to |chains|
      invariant entries == EntriesFor(constOf, images, chains[..i])
    {
      EntriesStep(constOf, images, chains, i);
      var e := BuildEntry(constOf, images, chains[i]);
      entries := entries + [e];
      hide *;
    }
    assert chains[..|chains|] == chains;
  }

  /** `%q` of a printable string without quote or backslash. */
  function Quote(s: string): string { "\"" + s + "\"" }

  function Blanks(n: nat): string { seq(n, _ => ' ') }

  /** The padding of a value: gofmt aligns the values of a chain as it sees fit. */
  type Layout = (string, string) -> nat

  function EntryText(e: ClientEntry, pad: nat): string {
    Quote(e.key) + ":" + Blanks(pad) + Quote(e.image) + ","
  }

  function ClientLines(constName: string, clients: seq<ClientEntry>, pad: Layout): seq<string> {
    if clients == [] then []
    else ["\t\t" + EntryText(clients[0], pad(constName, clients[0].key))] + ClientLines(constName, clients[1..], pad)
  }

  function ChainHead(constName: string): string { CONST_PACKAGE + constName + ": {" }

  /** gofmt folds a chain without clients into one line. */
  function ChainLines(e: ChainEntry, pad: Layout): seq<string> {
    if e.clients == [] then ["\t" + ChainHead(e.constName) + "},"]
    else ["\t" + ChainHead(e.constName)] + ClientLines(e.constName, e.clients, pad) + ["\t},"]
  }

  function BodyLines(entries: seq<ChainEntry>, pad: Layout): seq<string> {
    if entries == [] then [] else ChainLines(entries[0], pad) + BodyLines(entries[1..], pad)
  }

  const MAP_LINE := "var " + MAP_NAME + " = map[" + CONST_PACKAGE + "Chain]map" + "[string]string{"

  /** The comments and imports before the map, the map, and whatever code follows it. */
  function FileText(header: seq<string>, entries: seq<ChainEntry>, pad: Layout, code: string): string {
    JoinLines(header + [MAP_LINE] + BodyLines(entries, pad) + ["}"]) + code
  }
}
