/** Writing the table of images and reading it back, and when it is the same. */
module VersionsRoundTrip {
  import opened Sorting
  import opened Text
  import opened VersionsFile
  import opened VersionsLines

  // ---- Tables ----

  /** Every chain has a constant of its own that leads back to it. */
  ghost predicate Registered(names: map<string, Chain>, constOf: map<Chain, string>, images: Images) {
    forall c :: c in images ==>
      c in constOf && constOf[c] in names && names[constOf[c]] == c && GoodConst(constOf[c])
  }

  ghost predicate PlainTable(images: Images) {
    forall c, k :: c in images && k in images[c] ==> Plain(k) && Plain(images[c][k])
  }

  function SurvivingClients(clients: map<string, string>): map<string, string> {
    map k | k in clients && !Confusing(k, clients[k]) :: clients[k]
  }

  /** What a table loses by being written and read. */
  function Surviving(images: Images): Images {
    map c | c in images && images[c] != map[] :: SurvivingClients(images[c])
  }

  function Unconfusing(keys: seq<string>, clients: map<string, string>): map<string, string>
    requires forall k :: k in keys ==> k in clients
  {
    map k | k in keys && !Confusing(k, clients[k]) :: clients[k]
  }

  lemma UnconfusingFirst(keys: seq<string>, clients: map<string, string>, before: map<string, string>)
    requires keys != [] && forall k :: k in keys ==> k in clients
    ensures before + Unconfusing(keys, clients)
         == (if Confusing(keys[0], clients[keys[0]]) then before else before[keys[0] := clients[keys[0]]])
            + Unconfusing(keys[1..], clients)
  {
    hide Confusing;
    assert forall k :: k in keys <==> k == keys[0] || k in keys[1..];
  }

  lemma {:induction false} KeptClientsOf(table: Images, chain: Chain, keys: seq<string>, clients: map<string, string>)
    requires chain in table && forall k :: k in keys ==> k in clients
    ensures KeptClients(table, chain, ClientsFor(keys, clients))
         == table[chain := table[chain] + Unconfusing(keys, clients)]
    decreases |keys|
  {
    if keys == [] {
      assert table[chain] + Unconfusing(keys, clients) == table[chain];
      assert table[chain := table[chain]] == table;
    } else {
      var k := keys[0];
      var next := if Confusing(k, clients[k]) then table else SetImage(table, chain, k, clients[k]);
      assert ClientsFor(keys, clients)[1..] == ClientsFor(keys[1..], clients);
      KeptClientsOf(next, chain, keys[1..], clients);
      UnconfusingFirst(keys, clients, table[chain]);
      hide Confusing, Unconfusing, ClientsFor;
    }
  }

  function SurvivingOf(images: Images, chains: seq<Chain>): Images
    requires forall c :: c in chains ==> c in images
  {
    map c | c in chains && images[c] != map[] :: SurvivingClients(images[c])
  }

  function SurvivingChain(images: Images, c: Chain): Images
    requires c in images
  {
    if images[c] == map[] then map[] else map[c := SurvivingClients(images[c])]
  }

  lemma SurvivingFirst(images: Images, chains: seq<Chain>)
    requires chains != [] && forall c :: c in chains ==> c in images
    ensures SurvivingOf(images, chains) == SurvivingChain(images, chains[0]) + SurvivingOf(images, chains[1..])
  {
    hide SurvivingClients;
    assert forall d :: d in chains <==> d == chains[0] || d in chains[1..];
  }

  lemma SurvivingInOrder(clients: map<string, string>)
    ensures forall k :: k in Ordered(clients.Keys) ==> k in clients
    ensures map[] + Unconfusing(Ordered(clients.Keys), clients) == SurvivingClients(clients)
    ensures clients == map[] <==> Ordered(clients.Keys) == []
  {
    OrderedMembers(clients.Keys);
    hide Confusing;
  }

  lemma KeptChainOf(names: map<string, Chain>, constOf: map<Chain, string>, table: Images, images: Images, c: Chain)
    requires c in images && Registered(names, constOf, images)
    ensures KeptChain(names, table, EntryFor(constOf, images, c))
         == table + SurvivingChain(images, c)
  {
    var clients := images[c];
    SurvivingInOrder(clients);
    assert LookupChain(names, ConstFor(constOf, c)) == c;
    KeptClientsOf(table[c := map[]], c, Ordered(clients.Keys), clients);
    hide Ordered, KeptClients, Confusing, Registered, LookupChain, ConstFor, Unconfusing, SurvivingClients;
  }

  lemma EntriesFirst(constOf: map<Chain, string>, images: Images, chains: seq<Chain>)
    requires chains != [] && forall c :: c in chains ==> c in images
    ensures EntriesFor(constOf, images, chains)
         == [EntryFor(constOf, images, chains[0])] + EntriesFor(constOf, images, chains[1..])
  {
    hide EntryFor;
  }

  lemma {:induction false} KeptChainsOf(names: map<string, Chain>, constOf: map<Chain, string>, table: Images,
                                        images: Images, chains: seq<Chain>)
    requires Registered(names, constOf, images) && forall c :: c in chains ==> c in images
    ensures KeptChains(names, table, EntriesFor(constOf, images, chains)) == table + SurvivingOf(images, chains)
    decreases |chains|
  {
    if chains == [] {
      assert SurvivingOf(images, chains) == map[];
      assert table + map[] == table;
    } else {
      var c := chains[0];
      var e, es := EntryFor(constOf, images, c), EntriesFor(constOf, images, chains[1..]);
      var next, rest := KeptChain(names, table, e), SurvivingOf(images, chains[1..]);
      KeptChainOf(names, constOf, table, images, c);
      EntriesFirst(constOf, images, chains);
      SurvivingFirst(images, chains);
      hide *;
      KeptChainsOf(names, constOf, next, images, chains[1..]);
      KeptChainsFirst(names, table, e, es);
      AddAssociate(table, SurvivingChain(images, c), rest);
    }
  }

  lemma KeptChainsFirst(names: map<string, Chain>, table: Images, e: ChainEntry, es: seq<ChainEntry>)
    ensures KeptChains(names, table, [e] + es) == KeptChains(names, KeptChain(names, table, e), es)
  {
    hide KeptChain;
    assert ([e] + es)[1..] == es;
  }

  lemma AddAssociate(a: Images, b: Images, c: Images)
    ensures a + b + c == a + (b + c)
  {
  }

  // ---- The round trip ----

  lemma {:induction false} PlainEntriesFor(names: map<string, Chain>, constOf: map<Chain, string>, images: Images,
                                           chains: seq<Chain>)
    requires Registered(names, constOf, images) && PlainTable(images) && forall c :: c in chains ==> c in images
    ensures PlainEntries(EntriesFor(constOf, images, chains))
  {
    var es := EntriesFor(constOf, images, chains);
    forall e | e in es ensures GoodConst(e.constName) && PlainClients(e.clients) {
      var i :| 0 <= i < |es| && es[i] == e;
      assert e == EntryFor(constOf, images, chains[i]);
      OrderedMembers(images[chains[i]].Keys);
      hide Ordered, GoodConst, Plain;
    }
  }

  lemma SurvivingOrdered(images: Images)
    ensures forall c :: c in Ordered(images.Keys) ==> c in images
    ensures map[] + SurvivingOf(images, Ordered(images.Keys)) == Surviving(images)
  {
    OrderedMembers(images.Keys);
    hide SurvivingClients, Ordered;
  }

  /** What is read back from a written table, for every padding of its values. */
  lemma WrittenThenRead(names: map<string, Chain>, constOf: map<Chain, string>, images: Images,
                        header: seq<string>, pad: Layout, code: string)
    requires Registered(names, constOf, images) && PlainTable(images)
    requires OneLiners(header) && forall l :: l in header ==> '{' !in l
    ensures Read(names, START, SplitLines(FileText(header, Entries(constOf, images), pad, code))) == Surviving(images)
  {
    var chains := Ordered(images.Keys);
    SurvivingOrdered(images);
    assert Entries(constOf, images) == EntriesFor(constOf, images, chains) by { hide EntriesFor; }
    hide *;
    PlainEntriesFor(names, constOf, images, chains);
    KeptChainsOf(names, constOf, map[], images, chains);
    ReadWritten(names, header, EntriesFor(constOf, images, chains), pad, code);
  }

  /** The round trip is exact for just the tables with no empty chain and no confusing client. */
  lemma RoundTripIff(names: map<string, Chain>, constOf: map<Chain, string>, images: Images,
                     header: seq<string>, pad: Layout, code: string)
    requires Registered(names, constOf, images) && PlainTable(images)
    requires OneLiners(header) && forall l :: l in header ==> '{' !in l
    ensures Read(names, START, SplitLines(FileText(header, Entries(constOf, images), pad, code))) == images
       <==> forall c :: c in images ==>
              images[c] != map[] && forall k :: k in images[c] ==> !Confusing(k, images[c][k])
  {
    WrittenThenRead(names, constOf, images, header, pad, code);
    SurvivingAll(images);
    hide *;
  }

  lemma SurvivingAll(images: Images)
    ensures Surviving(images) == images
       <==> forall c :: c in images ==>
              images[c] != map[] && forall k :: k in images[c] ==> !Confusing(k, images[c][k])
  {
    hide Confusing;
    if Surviving(images) == images {
      forall c | c in images ensures images[c] != map[] && forall k :: k in images[c] ==> !Confusing(k, images[c][k]) {
        assert c in Surviving(images) && images[c] == SurvivingClients(images[c]);
      }
    } else {
      var c :| c in images && (c !in Surviving(images) || Surviving(images)[c] != images[c]);
      if images[c] != map[] {
        assert SurvivingClients(images[c]) != images[c];
        var k :| k in images[c] && k !in SurvivingClients(images[c]);
      }
    }
  }

  const AURORA_NAMES: map<string, Chain> := map["ChainAurora" := "aurora"]
  const AURORA_CONSTS: map<Chain, string> := map["aurora" := "ChainAurora"]
  const EMPTY_CHAIN: Images := map["aurora" := map[]]
  const CONFUSING_CLIENT: Images := map["aurora" := map["" := "{chainDefaultImages"]]

  ghost function AuroraFile(images: Images, pad: Layout, code: string): string {
    FileText([], Entries(AURORA_CONSTS, images), pad, code)
  }

  lemma AuroraRead(images: Images, pad: Layout, code: string)
    requires images.Keys == {"aurora"} && PlainTable(images)
    ensures Read(AURORA_NAMES, START, SplitLines(AuroraFile(images, pad, code))) == Surviving(images)
  {
    ShortLacks("ChainAurora", MAP_NAME);
    assert Registered(AURORA_NAMES, AURORA_CONSTS, images);
    assert OneLiners([]);
    hide *;
    WrittenThenRead(AURORA_NAMES, AURORA_CONSTS, images, [], pad, code);
    AuroraFileIs(images, pad, code);
  }

  lemma AuroraFileIs(images: Images, pad: Layout, code: string)
    ensures AuroraFile(images, pad, code) == FileText([], Entries(AURORA_CONSTS, images), pad, code)
  {
  }

  /** A file with an empty chain, and one with a confusing client, read back without them. */
  lemma LostEntries(pad: Layout, code: string)
    ensures Read(AURORA_NAMES, START, SplitLines(AuroraFile(EMPTY_CHAIN, pad, code))) == map[]
    ensures Read(AURORA_NAMES, START, SplitLines(AuroraFile(CONFUSING_CLIENT, pad, code))) == EMPTY_CHAIN
  {
    LostOnes();
    PlainLosses();
    hide *;
    AuroraRead(EMPTY_CHAIN, pad, code);
    AuroraRead(CONFUSING_CLIENT, pad, code);
  }

  lemma PlainLosses()
    ensures EMPTY_CHAIN.Keys == CONFUSING_CLIENT.Keys == {"aurora"}
    ensures PlainTable(EMPTY_CHAIN) && PlainTable(CONFUSING_CLIENT)
  {
    assert Plain("{chainDefaultImages") && Plain("");
  }

  lemma LostOnes()
    ensures Surviving(EMPTY_CHAIN) == map[] && Surviving(CONFUSING_CLIENT) == EMPTY_CHAIN
  {
    var image := "{chainDefaultImages";
    assert image == "{" + MAP_NAME;
    assert image[1..19] == MAP_NAME;
    assert At(image, MAP_NAME, 1) && image[0] == '{';
    assert Confusing("", image);
    var clients: map<string, string> := map["" := image];
    assert "" in clients && SurvivingClients(clients) == map[];
  }
}
