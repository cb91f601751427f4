/** The rows of the image check: which there are, in which order, and one inspection per distinct image of them. */
module Level0 {
  import opened Options
  import opened Overrides
  import opened Sequences
  import opened Sorting

  type Images = map<string, map<string, string>>

  datatype Target = Target(chain: string, client: string, image: string)

  predicate Matches(cs: Case, o: Override, chain: string, client: string) {
    o.chain == chain && (o.client == "" || o.client == cs.Of(client))
  }

  /** The i-th override names the chain, and the client or none. */
  ghost predicate AppliesAt(cs: Case, os: seq<Override>, i: int, chain: string, client: string) {
    0 <= i < |os| && os[i].chain == chain && os[i].client in {"", cs.Of(client)}
  }

  /** `ref` is what the last override that applies asks for. */
  ghost predicate LastApplies(cs: Case, os: seq<Override>, chain: string, client: string, ref: string) {
    exists i :: AppliesAt(cs, os, i, chain, client) && ref == os[i].ref
                && forall j :: AppliesAt(cs, os, j, chain, client) ==> j <= i
  }

  /** The last override that applies. */
  function Lookup(cs: Case, os: seq<Override>, chain: string, client: string): Option<string> {
    if os == [] then None
    else if Matches(cs, os[|os| - 1], chain, client) then Some(os[|os| - 1].ref)
    else Lookup(cs, os[..|os| - 1], chain, client)
  }

  method LookupBackwards(cs: Case, os: seq<Override>, chain: string, client: string) returns (r: Option<string>)
    ensures r == Lookup(cs, os, chain, client)
    ensures r.None? <==> forall i :: !AppliesAt(cs, os, i, chain, client)
    ensures r.Some? ==> LastApplies(cs, os, chain, client, r.value)
  {
    assert os[..|os|] == os;
    for i := |os| downto 0
      invariant Lookup(cs, os[..i], chain, client) == Lookup(cs, os, chain, client)
      invariant forall j :: AppliesAt(cs, os, j, chain, client) ==> j < i
    {
      assert os[..i + 1][..i] == os[..i];
      assert Matches(cs, os[i], chain, client) <==> AppliesAt(cs, os, i, chain, client);
      if Matches(cs, os[i], chain, client) {
        return Some(os[i].ref);
      }
    }
    r := None;
  }

  lemma {:induction false} LookupIs(cs: Case, os: seq<Override>, chain: string, client: string)
    ensures Lookup(cs, os, chain, client).None? <==> forall i :: !AppliesAt(cs, os, i, chain, client)
    ensures Lookup(cs, os, chain, client).Some? ==> LastApplies(cs, os, chain, client, Lookup(cs, os, chain, client).value)
  {
    if os != [] {
      var n := |os| - 1;
      LookupIs(cs, os[..n], chain, client);
      assert Matches(cs, os[n], chain, client) <==> AppliesAt(cs, os, n, chain, client);
      forall i ensures AppliesAt(cs, os, i, chain, client) <==>
                         AppliesAt(cs, os[..n], i, chain, client) || (i == n && AppliesAt(cs, os, n, chain, client)) {
        if 0 <= i < n { assert os[..n][i] == os[i]; }
      }
    }
  }

  // ---- The table with the overrides' own rows ----

  function WithRow(images: Images, o: Override): Images {
    if o.client == "" then images
    else
      var clients := if o.chain in images then images[o.chain] else map[];
      images[o.chain := if o.client in clients then clients else clients[o.client := o.ref]]
  }

  function WithRows(images: Images, os: seq<Override>): Images
    decreases |os|
  {
    if os == [] then images else WithRows(WithRow(images, os[0]), os[1..])
  }

  predicate HasRow(images: Images, chain: string, client: string) { chain in images && client in images[chain] }

  /** A row is in the table or named by an override; rows of the table keep their image. */
  lemma {:induction false} RowsOf(images: Images, os: seq<Override>, chain: string, client: string)
    ensures HasRow(WithRows(images, os), chain, client)
       <==> HasRow(images, chain, client) || exists o :: o in os && o.client != "" && o.chain == chain && o.client == client
    ensures HasRow(images, chain, client) ==>
              (HasRow(WithRows(images, os), chain, client)
               && WithRows(images, os)[chain][client] == images[chain][client])
    decreases |os|
  {
    if os != [] {
      RowsOf(WithRow(images, os[0]), os[1..], chain, client);
      assert forall o :: o in os <==> o == os[0] || o in os[1..];
    }
  }

  function RowImage(cs: Case, os: seq<Override>, images: Images, chain: string, client: string): string
    requires HasRow(images, chain, client)
  {
    var ref := Lookup(cs, os, chain, client);
    if ref.Some? then ref.value else images[chain][client]
  }

  function ClientRows(cs: Case, os: seq<Override>, images: Images, chain: string, clients: set<string>): set<Target>
    requires chain in images && clients <= images[chain].Keys
  {
    set k | k in clients :: Target(chain, k, RowImage(cs, os, images, chain, k))
  }

  function ChainRows(cs: Case, os: seq<Override>, images: Images, selected: string -> bool, chains: set<string>): set<Target>
    requires chains <= images.Keys
  {
    set c, k | c in chains && selected(c) && k in images[c] :: Target(c, k, RowImage(cs, os, images, c, k))
  }

  predicate Less(a: Target, b: Target) {
    Before(a.chain, b.chain) || (a.chain == b.chain && Before(a.client, b.client))
  }

  /** One row per chain and client. */
  ghost predicate OneRowEach(all: set<Target>) {
    forall a, b :: a in all && b in all && a.chain == b.chain && a.client == b.client ==> a == b
  }

  lemma RowsAreOrdered(s: seq<Target>)
    requires OneRowEach(Elems(s))
    ensures Orders(Less, s)
  {
    forall x: Target ensures !Less(x, x) {
      BeforeIrreflexive(x.chain);
      BeforeIrreflexive(x.client);
    }
    forall x: Target, y: Target, z: Target | Less(x, y) && Less(y, z) ensures Less(x, z) {
      if Before(x.chain, y.chain) && Before(y.chain, z.chain) { BeforeTransitive(x.chain, y.chain, z.chain); }
      if Before(x.client, y.client) && Before(y.client, z.client) { BeforeTransitive(x.client, y.client, z.client); }
    }
    forall x, y | x in s && y in s && x != y ensures Less(x, y) || Less(y, x) {
      if x.chain != y.chain { BeforeTotal(x.chain, y.chain); } else { BeforeTotal(x.client, y.client); }
    }
  }

  /** The rows of one chain, in whatever order its clients come. */
  method CollectClients(cs: Case, os: seq<Override>, images: Images, chain: string) returns (out: seq<Target>)
    requires chain in images
    ensures multiset(out) == multiset(ClientRows(cs, os, images, chain, images[chain].Keys))
  {
    out := [];
    var clients := images[chain];
    var rest := clients.Keys;
    while rest != {}
      invariant rest <= clients.Keys
      invariant multiset(out) == multiset(ClientRows(cs, os, images, chain, clients.Keys - rest))
      decreases |rest|
    {
      var k :| k in rest;
      var ref := LookupBackwards(cs, os, chain, k);
      var row := Target(chain, k, if ref.Some? then ref.value else clients[k]);
      OneMoreRow(cs, os, images, chain, out, rest, k);
      hide *;
      out, rest := out + [row], rest - {k};
    }
    assert clients.Keys - rest == clients.Keys;
  }

  lemma OneMoreRow(cs: Case, os: seq<Override>, images: Images, chain: string, out: seq<Target>, rest: set<string>, k: string)
    requires chain in images && rest <= images[chain].Keys && k in rest
    requires multiset(out) == multiset(ClientRows(cs, os, images, chain, images[chain].Keys - rest))
    ensures HasRow(images, chain, k)
    ensures var row := Target(chain, k, RowImage(cs, os, images, chain, k));
            multiset(out + [row]) == multiset(ClientRows(cs, os, images, chain, images[chain].Keys - (rest - {k})))
  {
    var row := Target(chain, k, RowImage(cs, os, images, chain, k));
    var before := images[chain].Keys - rest;
    hide RowImage;
    assert row !in ClientRows(cs, os, images, chain, before);
    assert images[chain].Keys - (rest - {k}) == before + {k};
    ClientRowsAdd(cs, os, images, chain, before, k);
  }

  lemma ClientRowsAdd(cs: Case, os: seq<Override>, images: Images, chain: string, ks: set<string>, k: string)
    requires chain in images && ks + {k} <= images[chain].Keys
    ensures ClientRows(cs, os, images, chain, ks + {k})
         == ClientRows(cs, os, images, chain, ks) + {Target(chain, k, RowImage(cs, os, images, chain, k))}
  {
    hide RowImage;
    var row := Target(chain, k, RowImage(cs, os, images, chain, k));
    forall t | t in ClientRows(cs, os, images, chain, ks) + {row} ensures t in ClientRows(cs, os, images, chain, ks + {k}) {
      assert t.client in ks + {k};
    }
  }

  lemma ChainRowsAdd(cs: Case, os: seq<Override>, images: Images, selected: string -> bool, chains: set<string>, c: string)
    requires chains + {c} <= images.Keys
    ensures ChainRows(cs, os, images, selected, chains + {c})
         == ChainRows(cs, os, images, selected, chains)
            + (if selected(c) then ClientRows(cs, os, images, c, images[c].Keys) else {})
  {
    hide RowImage;
    var more := if selected(c) then ClientRows(cs, os, images, c, images[c].Keys) else {};
    forall t | t in ChainRows(cs, os, images, selected, chains) + more
      ensures t in ChainRows(cs, os, images, selected, chains + {c})
    {
      assert t.chain in chains + {c} && t.client in images[t.chain];
    }
    forall t | t in ChainRows(cs, os, images, selected, chains + {c})
      ensures t in ChainRows(cs, os, images, selected, chains) + more
    {
      assert t.client in images[t.chain];
      if t.chain != c { assert t.chain in chains; }
    }
  }

  method CollectRows(cs: Case, os: seq<Override>, images: Images, selected: string -> bool) returns (out: seq<Target>)
    ensures multiset(out) == multiset(ChainRows(cs, os, images, selected, images.Keys))
  {
    out := [];
    var rest := images.Keys;
    while rest != {}
      invariant rest <= images.Keys
      invariant multiset(out) == multiset(ChainRows(cs, os, images, selected, images.Keys - rest))
      decreases |rest|
    {
      var c :| c in rest;
      ghost var done := images.Keys - rest;
      ChainRowsAdd(cs, os, images, selected, done, c);
      assert images.Keys - (rest - {c}) == done + {c};
      if selected(c) {
        var rows := CollectClients(cs, os, images, c);
        OtherChain(cs, os, images, selected, done, c);
        hide *;
        AppendApart(out, ChainRows(cs, os, images, selected, done), rows, ClientRows(cs, os, images, c, images[c].Keys));
        out := out + rows;
      } else {
        assert ChainRows(cs, os, images, selected, done) + {} == ChainRows(cs, os, images, selected, done);
        hide *;
      }
      rest := rest - {c};
    }
    assert images.Keys - rest == images.Keys;
  }

  lemma AppendApart(s: seq<Target>, a: set<Target>, t: seq<Target>, b: set<Target>)
    requires multiset(s) == multiset(a) && multiset(t) == multiset(b) && a !! b
    ensures multiset(s + t) == multiset(a + b)
  {
  }

  lemma OtherChain(cs: Case, os: seq<Override>, images: Images, selected: string -> bool, chains: set<string>, c: string)
    requires chains <= images.Keys && c !in chains && c in images
    ensures ChainRows(cs, os, images, selected, chains) !! ClientRows(cs, os, images, c, images[c].Keys)
  {
    hide RowImage;
  }

  /** `level0Targets`: the rows of every selected chain, sorted. */
  method Level0Targets(cs: Case, images: Images, os: seq<Override>, selected: string -> bool)
    returns (table: Images, out: seq<Target>)
    ensures table == WithRows(images, os)
    ensures multiset(out) == multiset(ChainRows(cs, os, table, selected, table.Keys)) && InOrder(out)
  {
    table := AddRows(images, os);
    var rows := CollectRows(cs, os, table, selected);
    out := Sort(Less, rows);
    OneRowPerPair(cs, os, table, selected);
    hide *;
    SortedRows(rows, ChainRows(cs, os, table, selected, table.Keys));
  }

  lemma OneRowPerPair(cs: Case, os: seq<Override>, images: Images, selected: string -> bool)
    ensures OneRowEach(ChainRows(cs, os, images, selected, images.Keys))
  {
    hide RowImage;
  }

  /** By chain, and by client within a chain. */
  ghost predicate InOrder(ts: seq<Target>) {
    forall i, j :: 0 <= i < j < |ts| ==>
      Before(ts[i].chain, ts[j].chain) || (ts[i].chain == ts[j].chain && Before(ts[i].client, ts[j].client))
  }

  lemma SortedRows(rows: seq<Target>, all: set<Target>)
    requires multiset(rows) == multiset(all) && OneRowEach(all)
    ensures multiset(Sort(Less, rows)) == multiset(all) && InOrder(Sort(Less, rows))
  {
    var out := Sort(Less, rows);
    SortMembers(Less, rows);
    ListsSet(rows, all);
    RowsAreOrdered(rows);
    SortSorted(Less, rows);
    forall i, j | 0 <= i < j < |out| ensures Less(out[i], out[j]) {
      Twice(out, all, i, j);
      assert out[i] in multiset(rows) && out[j] in multiset(rows);
    }
  }

  lemma Twice(ts: seq<Target>, all: set<Target>, i: nat, j: nat)
    requires multiset(ts) == multiset(all) && i < j < |ts|
    ensures ts[i] != ts[j]
  {
    assert ts == ts[..j] + [ts[j]] + ts[j + 1..];
    assert multiset(ts) == multiset(ts[..j]) + multiset{ts[j]} + multiset(ts[j + 1..]);
    assert ts[..j][i] == ts[i] && ts[i] in multiset(ts[..j]);
    assert multiset(ts)[ts[i]] >= 1 + multiset{ts[j]}[ts[i]];
    assert multiset(all)[ts[i]] <= 1;
  }

  method AddRows(images: Images, os: seq<Override>) returns (table: Images)
    ensures table == WithRows(images, os)
  {
    table := images;
    assert os[0..] == os;
    for i := 0 to |os|
      invariant WithRows(table, os[i..]) == WithRows(images, os)
    {
      assert os[i..][0] == os[i] && os[i..][1..] == os[i + 1..];
      var o := os[i];
      ghost var before := table;
      if o.client == "" {
        continue;
      }
      if o.chain !in table {
        table := table[o.chain := map[]];
      }
      if o.client !in table[o.chain] {
        table := table[o.chain := table[o.chain][o.client := o.ref]];
      }
      assert table == WithRow(before, o);
    }
    assert os[|os|..] == [];
  }

  /**
   Exactly the selected pairs of the table and of the overrides that name a
   client have a row, with the last override that applies or else the image
   of the table.
   */
  lemma RowsMeaning(cs: Case, images: Images, os: seq<Override>, selected: string -> bool, t: Target)
    requires forall o :: o in os ==> cs.Of(o.client) == o.client
    ensures var table := WithRows(images, os);
            t in ChainRows(cs, os, table, selected, table.Keys) <==>
              && selected(t.chain)
              && (HasRow(images, t.chain, t.client)
                  || exists o :: o in os && o.client != "" && o.chain == t.chain && o.client == t.client)
              && (if exists i :: AppliesAt(cs, os, i, t.chain, t.client) then LastApplies(cs, os, t.chain, t.client, t.image)
                  else HasRow(images, t.chain, t.client) && t.image == images[t.chain][t.client])
  {
    var table := WithRows(images, os);
    LookupIs(cs, os, t.chain, t.client);
    if r, r' :| LastApplies(cs, os, t.chain, t.client, r) && LastApplies(cs, os, t.chain, t.client, r') && r != r' {
      LastIsOne(cs, os, t.chain, t.client, r, r');
    }
    RowsOf(images, os, t.chain, t.client);
    NamedIsFound(cs, os, t.chain, t.client);
    hide WithRows, Lookup, AppliesAt, LastApplies;
    assert HasRow(table, t.chain, t.client) && selected(t.chain) && t.image == RowImage(cs, os, table, t.chain, t.client)
      <==> t in ChainRows(cs, os, table, selected, table.Keys);
  }

  lemma LastIsOne(cs: Case, os: seq<Override>, chain: string, client: string, r: string, r': string)
    requires LastApplies(cs, os, chain, client, r) && LastApplies(cs, os, chain, client, r')
    ensures r == r'
  {
    var i :| AppliesAt(cs, os, i, chain, client) && r == os[i].ref
             && forall j :: AppliesAt(cs, os, j, chain, client) ==> j <= i;
    var i' :| AppliesAt(cs, os, i', chain, client) && r' == os[i'].ref
              && forall j :: AppliesAt(cs, os, j, chain, client) ==> j <= i';
    assert i <= i' && i' <= i;
  }

  /** A row that an override names has an override that applies. */
  lemma {:induction false} NamedIsFound(cs: Case, os: seq<Override>, chain: string, client: string)
    ensures (exists o :: o in os && o.client != "" && o.chain == chain && o.client == client && cs.Of(o.client) == o.client)
        ==> Lookup(cs, os, chain, client).Some?
  {
    if os != [] {
      NamedIsFound(cs, os[..|os| - 1], chain, client);
      assert forall o :: o in os <==> o in os[..|os| - 1] || o == os[|os| - 1];
    }
  }

  // ---- Inspection ----

  datatype Verdict = Verdict(status: string, detail: string)

  const NO_IMAGE := Verdict("SKIP", "no default image")

  /** Inspecting every row on its own. */
  function RowByRow(ts: seq<Target>, inspect: string -> Verdict): seq<Verdict> {
    if ts == [] then []
    else [if ts[0].image == "" then NO_IMAGE else inspect(ts[0].image)] + RowByRow(ts[1..], inspect)
  }

  function ImageRefs(ts: seq<Target>): set<string> { set t | t in ts && t.image != "" :: t.image }

  lemma ImageRefsAdd(ts: seq<Target>, t: Target)
    ensures ImageRefs(ts + [t]) == ImageRefs(ts) + (if t.image == "" then {} else {t.image})
  {
    assert forall x :: x in ts + [t] <==> x in ts || x == t;
    assert t in ts + [t];
  }

  method DistinctRefs(ts: seq<Target>) returns (refs: seq<string>)
    ensures multiset(refs) == multiset(ImageRefs(ts))
  {
    refs := [];
    for i := 0 to |ts|
      invariant multiset(refs) == multiset(ImageRefs(ts[..i]))
    {
      assert ts[..i + 1] == ts[..i] + [ts[i]];
      ImageRefsAdd(ts[..i], ts[i]);
      assert ts[i].image in refs <==> ts[i].image in multiset(refs);
      if ts[i].image != "" && ts[i].image !in refs {
        refs := refs + [ts[i].image];
      }
      hide ImageRefs;
      assert ImageRefs(ts[..i]) + {} == ImageRefs(ts[..i]);
    }
    assert ts[..|ts|] == ts;
  }

  method InspectAll(refs: seq<string>, inspect: string -> Verdict) returns (byRef: map<string, Verdict>)
    ensures byRef.Keys == Elems(refs) && forall ref :: ref in byRef ==> byRef[ref] == inspect(ref)
  {
    byRef := map[];
    for i := 0 to |refs|
      invariant byRef.Keys == Elems(refs[..i])
      invariant forall ref :: ref in byRef ==> byRef[ref] == inspect(ref)
    {
      assert Elems(refs[..i + 1]) == Elems(refs[..i]) + {refs[i]};
      byRef := byRef[refs[i] := inspect(refs[i])];
    }
    assert refs[..|refs|] == refs;
  }

  lemma RowStep(ts: seq<Target>, i: nat, inspect: string -> Verdict, out: seq<Verdict>)
    requires i < |ts|
    ensures out + RowByRow(ts[i..], inspect)
         == out + [if ts[i].image == "" then NO_IMAGE else inspect(ts[i].image)] + RowByRow(ts[i + 1..], inspect)
    ensures ts[i].image != "" ==> ts[i].image in ImageRefs(ts)
  {
    assert ts[i..][1..] == ts[i + 1..];
  }

  lemma {:induction false} RowsInspected(ts: seq<Target>, inspect: string -> Verdict)
    ensures |RowByRow(ts, inspect)| == |ts|
    ensures forall i :: 0 <= i < |ts| ==>
              RowByRow(ts, inspect)[i] == if ts[i].image == "" then NO_IMAGE else inspect(ts[i].image)
  {
    if ts != [] { RowsInspected(ts[1..], inspect); }
  }

  /** Each distinct image is inspected once, and every row gets what inspecting it would have given. */
  method RunLevel0(ts: seq<Target>, inspect: string -> Verdict) returns (out: seq<Verdict>, asked: seq<string>)
    ensures out == RowByRow(ts, inspect) && |out| == |ts|
    ensures forall i :: 0 <= i < |ts| ==>
              out[i] == if ts[i].image == "" then Verdict("SKIP", "no default image") else inspect(ts[i].image)
    ensures forall ref :: multiset(asked)[ref] == if ref != "" && exists t :: t in ts && t.image == ref then 1 else 0
  {
    RowsInspected(ts, inspect);
    asked := DistinctRefs(ts);
    assert forall ref :: ref in ImageRefs(ts) <==> ref != "" && exists t :: t in ts && t.image == ref;
    var byRef := InspectAll(asked, inspect);
    ListsSet(asked, ImageRefs(ts));
    out := [];
    assert ts[0..] == ts;
    for i := 0 to |ts|
      invariant out + RowByRow(ts[i..], inspect) == RowByRow(ts, inspect)
    {
      RowStep(ts, i, inspect, out);
      hide *;
      out := out + [if ts[i].image == "" then NO_IMAGE else byRef[ts[i].image]];
    }
    assert ts[|ts|..] == [];
  }
}
