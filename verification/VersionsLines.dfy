/**
 What single lines of the generated version table do to its reader, and so what
 reading a written file gives: which lines are entries, which open the map or a
 chain, and which close them.
 */
module VersionsLines {
  import opened Options
  import opened Sequences
  import opened Text
  import opened VersionsFile

  /** Strings that `%q` writes as they are: printable ASCII without quote and backslash. */
  predicate Plain(s: string) { '"' !in s && '\\' !in s && forall c :: c in s ==> ' ' <= c <= '~' }

  /** A client's line reads as the line that opens the map. */
  predicate Confusing(key: string, image: string) {
    (Contains(key, MAP_NAME) || Contains(image, MAP_NAME)) && ('{' in key || '{' in image)
  }

  // ---- One line ----

  /** What `\s` matches in a regular expression of Go. */
  ghost predicate White(w: string) {
    forall c :: c in w ==> c == ' ' || c == '\t' || c == '\n' || c == '\r' || c == '\U{0C}'
  }

  /** `s` is a quoted key, a colon, a quoted value and perhaps a comma, with white space between. */
  ghost predicate EntryLine(s: string, key: string, value: string, w: seq<string>, comma: string) {
    && |w| == 4 && (forall i :: 0 <= i < 4 ==> White(w[i])) && '"' !in key && '"' !in value && comma in {"", ","}
    && s == Quote(key) + (w[0] + (":" + (w[1] + (Quote(value) + (w[2] + (comma + w[3]))))))
  }

  lemma {:induction false} SkipSpaceIs(s: string) returns (w: string)
    ensures White(w) && s == w + SkipSpace(s) && (SkipSpace(s) != "" ==> !RegexSpace(SkipSpace(s)[0]))
  {
    if s != "" && RegexSpace(s[0]) {
      w := SkipSpaceIs(s[1..]);
      w := [s[0]] + w;
    } else {
      w := "";
      assert s == w + s;
    }
  }

  lemma {:induction false} SkipWhite(w: string, rest: string)
    requires White(w) && (rest == "" || !RegexSpace(rest[0]))
    ensures SkipSpace(w + rest) == rest
  {
    if w == "" {
      assert w + rest == rest;
    } else {
      assert (w + rest)[1..] == w[1..] + rest;
      assert w[0] in w && forall c :: c in w[1..] ==> c in w;
      SkipWhite(w[1..], rest);
    }
  }

  lemma {:induction false} UpToQuoteIs(s: string)
    requires UpToQuote(s).Some?
    ensures var (content, rest) := UpToQuote(s).value; '"' !in content && s == content + "\"" + rest
  {
    if s[0] != '"' {
      UpToQuoteIs(s[1..]);
      var (content, rest) := UpToQuote(s[1..]).value;
      assert s == [s[0]] + (content + "\"" + rest) == ([s[0]] + content) + "\"" + rest;
    } else {
      assert s == "" + "\"" + s[1..];
    }
  }

  lemma QuotedIs(s: string)
    requires Quoted(s).Some?
    ensures var (content, rest) := Quoted(s).value; '"' !in content && s == Quote(content) + rest
  {
    UpToQuoteIs(s[1..]);
    var (content, rest) := Quoted(s).value;
    assert s == "\"" + (content + "\"" + rest) == Quote(content) + rest;
  }

  lemma EndIs(s: string) returns (w: string, comma: string, w': string)
    requires EntryEnd(s)
    ensures White(w) && White(w') && comma in {"", ","} && s == w + (comma + w')
  {
    w := SkipSpaceIs(s);
    var t := SkipSpace(s);
    comma := if t != "" && t[0] == ',' then "," else "";
    w' := SkipSpaceIs(t[|comma|..]);
    assert t == comma + t[|comma|..] && w' + "" == w';
  }

  lemma EndOf(w: string, comma: string, w': string)
    requires White(w) && White(w') && comma in {"", ","}
    ensures EntryEnd(w + (comma + w'))
  {
    assert w' + "" == w';
    SkipWhite(w', "");
    if comma == "" {
      assert w + (comma + w') == (w + w') + "";
      SkipWhite(w + w', "");
    } else {
      SkipWhite(w, comma + w');
      assert (comma + w')[1..] == w';
    }
  }

  /** Which lines of any file are read as an entry, with which key and value. */
  lemma MatchEntryIff(s: string, key: string, value: string)
    ensures MatchEntry(s) == Some((key, value)) <==> exists w, comma :: EntryLine(s, key, value, w, comma)
  {
    if MatchEntry(s) == Some((key, value)) {
      var w, comma := EntrySplit(s, key, value);
    }
    if w, comma :| EntryLine(s, key, value, w, comma) { EntryRead(s, key, value, w, comma); }
  }

  lemma EntrySplit(s: string, key: string, value: string) returns (w: seq<string>, comma: string)
    requires MatchEntry(s) == Some((key, value))
    ensures EntryLine(s, key, value, w, comma)
  {
    QuotedIs(s);
    var rest := Quoted(s).value.1;
    var w0 := SkipSpaceIs(rest);
    var colon := SkipSpace(rest);
    var w1 := SkipSpaceIs(colon[1..]);
    QuotedIs(SkipSpace(colon[1..]));
    var end := Quoted(SkipSpace(colon[1..])).value.1;
    var w2, c, w3 := EndIs(end);
    w, comma := [w0, w1, w2, w3], c;
    assert colon == ":" + colon[1..];
    hide SkipSpace, Quoted, White, EntryEnd, Quote, MatchEntry;
  }

  lemma EntryRead(s: string, key: string, value: string, w: seq<string>, comma: string)
    requires EntryLine(s, key, value, w, comma)
    ensures MatchEntry(s) == Some((key, value))
  {
    var end := w[2] + (comma + w[3]);
    var quoted := Quote(value) + end;
    var colon := ":" + (w[1] + quoted);
    QuotedOf(key, w[0] + colon);
    SkipWhite(w[0], colon);
    assert colon[1..] == w[1] + quoted;
    SkipWhite(w[1], quoted);
    QuotedOf(value, end);
    EndOf(w[2], comma, w[3]);
    hide SkipSpace, Quoted, White, EntryEnd, Quote;
  }

  lemma {:induction false} UpToQuoteOf(content: string, rest: string)
    requires '"' !in content
    ensures UpToQuote(content + "\"" + rest) == Some((content, rest))
  {
    var s := content + "\"" + rest;
    if content == "" {
      assert s[1..] == rest;
    } else {
      assert s[1..] == content[1..] + "\"" + rest;
      UpToQuoteOf(content[1..], rest);
      assert [s[0]] + content[1..] == content;
    }
  }

  lemma QuotedOf(content: string, rest: string)
    requires '"' !in content
    ensures Quoted(Quote(content) + rest) == Some((content, rest))
  {
    assert (Quote(content) + rest)[1..] == content + "\"" + rest;
    UpToQuoteOf(content, rest);
  }

  lemma {:induction false} SkipBlanks(n: nat, rest: string)
    requires rest != "" && !RegexSpace(rest[0])
    ensures SkipSpace(Blanks(n) + rest) == rest
  {
    if n == 0 {
      assert Blanks(n) + rest == rest;
    } else {
      assert (Blanks(n) + rest)[1..] == Blanks(n - 1) + rest;
      SkipBlanks(n - 1, rest);
    }
  }

  lemma EntryMatches(e: ClientEntry, pad: nat)
    requires '"' !in e.key && '"' !in e.image
    ensures MatchEntry(EntryText(e, pad)) == Some((e.key, e.image))
  {
    var tail := Quote(e.image) + ",";
    var rest := ":" + (Blanks(pad) + tail);
    assert EntryText(e, pad) == Quote(e.key) + rest;
    QuotedOf(e.key, rest);
    assert rest[1..] == Blanks(pad) + tail;
    SkipBlanks(pad, tail);
    QuotedOf(e.image, ",");
    assert ","[1..] == "";
  }

  lemma ShortLacks(s: string, w: string)
    requires |s| < |w|
    ensures !Contains(s, w)
  {
  }

  /** Which lines of any file close a chain, end the reading, or start the map. */
  lemma ClosingLines(names: map<string, Chain>, st: State, t: string)
    requires st.inChain ==> st.inMap
    ensures var (next, stop) := Step(names, st, t);
            && (stop <==> st.inMap && t == "}")
            && (st.inChain && !next.inChain <==> st.inChain && t in {"}", "},"})
            && (next.inMap <==> st.inMap || (Contains(t, "chainDefaultImages") && Contains(t, "{")))
  {
    if t in {"}", "},"} {
      ShortLacks(t, MAP_NAME);
      assert Quoted(t) == None && !OpensChain(t);
    }
    hide Contains, MatchEntry, Quoted;
  }

  lemma BraceIn(s: string)
    ensures Contains(s, "{") <==> '{' in s
  {
    if '{' in s {
      var i :| 0 <= i < |s| && s[i] == '{';
      assert At(s, "{", i);
    }
    if Contains(s, "{") { ContainsMembers(s, "{"); }
  }

  lemma BlanksLack(n: nat)
    ensures !Contains(":" + Blanks(n), MAP_NAME)
  {
    assert MAP_NAME[0] == 'c' && 'c' !in ":" + Blanks(n);
    if Contains(":" + Blanks(n), MAP_NAME) { ContainsMembers(":" + Blanks(n), MAP_NAME); }
  }

  lemma EntryNamesMap(e: ClientEntry, pad: nat)
    ensures Contains(EntryText(e, pad), MAP_NAME) <==> Contains(e.key, MAP_NAME) || Contains(e.image, MAP_NAME)
  {
    var mid := ":" + Blanks(pad);
    var r2 := e.image + ['"'] + ",";
    var r1 := mid + ['"'] + r2;
    var r0 := e.key + ['"'] + r1;
    assert EntryText(e, pad) == "" + ['"'] + r0;
    ContainsAcross("", '"', r0, MAP_NAME);
    ContainsAcross(e.key, '"', r1, MAP_NAME);
    ContainsAcross(mid, '"', r2, MAP_NAME);
    ContainsAcross(e.image, '"', ",", MAP_NAME);
    ShortLacks("", MAP_NAME);
    ShortLacks(",", MAP_NAME);
    BlanksLack(pad);
  }

  lemma EntryOpensMap(e: ClientEntry, pad: nat)
    ensures OpensMap(EntryText(e, pad)) <==> Confusing(e.key, e.image)
  {
    EntryNamesMap(e, pad);
    BraceIn(EntryText(e, pad));
    hide Contains;
  }

  lemma ConstLacksMap(constName: string)
    requires !Contains(constName, MAP_NAME)
    ensures !Contains(ChainHead(constName), MAP_NAME) && !Contains(ChainHead(constName) + "},", MAP_NAME)
  {
    var pkg := "chainsv1alpha2";
    assert ChainHead(constName) == pkg + ['.'] + (constName + [':'] + " {");
    assert ChainHead(constName) + "}," == pkg + ['.'] + (constName + [':'] + " {},");
    ContainsAcross(pkg, '.', constName + [':'] + " {", MAP_NAME);
    ContainsAcross(pkg, '.', constName + [':'] + " {},", MAP_NAME);
    ContainsAcross(constName, ':', " {", MAP_NAME);
    ContainsAcross(constName, ':', " {},", MAP_NAME);
    ShortLacks(pkg, MAP_NAME);
    ShortLacks(" {", MAP_NAME);
    ShortLacks(" {},", MAP_NAME);
  }

  lemma HeadOpensChain(constName: string)
    requires "Chain" <= constName
    ensures OpensChain(ChainHead(constName)) && ConstName(ChainHead(constName)) == constName
    ensures !OpensChain(ChainHead(constName) + "},")
  {
    var t := ChainHead(constName);
    assert t[..|t| - 3] == CONST_PACKAGE + constName;
    assert t[|t| - 3..] == ": {";
    assert (CONST_PACKAGE + constName)[|CONST_PACKAGE|..] == constName;
    NotSuffix(t + "},", ": {");
  }

  lemma NotSuffix(s: string, w: string)
    requires s != "" && w != "" && s[|s| - 1] != w[|w| - 1]
    ensures !HasSuffix(s, w)
  {
    assert |w| <= |s| ==> s[|s| - |w|..][|w| - 1] == s[|s| - 1];
  }

  // ---- What one line of the file does to the reader ----

  function InMap(table: Images): State { State(true, false, "", table) }

  function InChain(table: Images, chain: Chain): State { State(true, true, chain, table) }

  predicate GoodConst(constName: string) { "Chain" <= constName && !Contains(constName, MAP_NAME) && '\n' !in constName }

  lemma ReadEntry(names: map<string, Chain>, table: Images, chain: Chain, e: ClientEntry, pad: nat)
    requires Plain(e.key) && Plain(e.image)
    ensures Step(names, InChain(table, chain), TrimSpace("\t\t" + EntryText(e, pad)))
         == (InChain(if Confusing(e.key, e.image) then table else SetImage(table, chain, e.key, e.image), chain), false)
  {
    var t := EntryText(e, pad);
    TrimIndent("\t\t", t);
    EntryOpensMap(e, pad);
    EntryMatches(e, pad);
    assert t[0] == '"';
    assert CONST_PACKAGE[0] == 'c';
    assert !OpensChain(t);
    hide *;
  }

  lemma ReadHead(names: map<string, Chain>, table: Images, constName: string)
    requires GoodConst(constName)
    ensures Step(names, InMap(table), TrimSpace("\t" + ChainHead(constName)))
         == (InChain(table[LookupChain(names, constName) := map[]], LookupChain(names, constName)), false)
  {
    var t := ChainHead(constName);
    TrimIndent("\t", t);
    ConstLacksMap(constName);
    HeadOpensChain(constName);
    assert !OpensMap(t);
    hide ConstName, OpensMap, OpensChain, TrimSpace, ChainHead;
  }

  lemma ReadEmptyChain(names: map<string, Chain>, table: Images, constName: string)
    requires GoodConst(constName)
    ensures Step(names, InMap(table), TrimSpace("\t" + ChainHead(constName) + "},")) == (InMap(table), false)
  {
    var t := ChainHead(constName) + "},";
    assert "\t" + ChainHead(constName) + "}," == "\t" + t;
    TrimIndent("\t", t);
    ConstLacksMap(constName);
    HeadOpensChain(constName);
    assert !OpensMap(t);
    assert t[0] == 'c' && "}"[0] == '}';
    hide ConstName, OpensMap, OpensChain, TrimSpace, ChainHead;
  }

  lemma ReadChainEnd(names: map<string, Chain>, table: Images, chain: Chain)
    ensures Step(names, InChain(table, chain), TrimSpace("\t},")) == (InMap(table), false)
  {
    assert "\t}," == "\t" + "},";
    TrimIndent("\t", "},");
    ShortLacks("},", MAP_NAME);
    assert CONST_PACKAGE[0] == 'c';
  }

  lemma ReadMapEnd(names: map<string, Chain>, table: Images)
    ensures Step(names, InMap(table), TrimSpace("}")) == (InMap(table), true)
  {
    assert "}" == "" + "}";
    TrimIndent("", "}");
    ShortLacks("}", MAP_NAME);
    assert CONST_PACKAGE[0] == 'c';
  }

  /** A line without a brace does not open the map. */
  lemma ReadBefore(names: map<string, Chain>, line: string)
    requires '{' !in line
    ensures Step(names, START, TrimSpace(line)) == (START, false)
  {
    TrimMembers(line);
    BraceIn(TrimSpace(line));
  }

  lemma NamedLineOpensMap(tail: string)
    requires tail != "" && tail[|tail| - 1] == '{'
    ensures var line := "var " + MAP_NAME + tail; TrimSpace(line) == line && OpensMap(line)
  {
    var line := "var " + MAP_NAME + tail;
    assert line == "" + line && line == "var" + [' '] + (MAP_NAME + tail) && line[0] == 'v';
    TrimIndent("", line);
    ContainsAcross("var", ' ', MAP_NAME + tail, MAP_NAME);
    assert At(MAP_NAME + tail, MAP_NAME, 0);
    BraceIn(line);
    hide Contains, TrimSpace;
  }

  lemma ReadMapLine(names: map<string, Chain>)
    ensures Step(names, START, TrimSpace(MAP_LINE)) == (InMap(map[]), false)
  {
    var tail := " = map[" + CONST_PACKAGE + "Chain]map" + "[string]string{";
    assert tail[|tail| - 1] == '{';
    assert MAP_LINE == "var " + MAP_NAME + tail;
    NamedLineOpensMap(tail);
    hide OpensMap, TrimSpace;
  }

  // ---- The whole file ----

  function KeptClients(table: Images, chain: Chain, clients: seq<ClientEntry>): Images
    decreases |clients|
  {
    if clients == [] then table
    else
      var e := clients[0];
      KeptClients(if Confusing(e.key, e.image) then table else SetImage(table, chain, e.key, e.image), chain, clients[1..])
  }

  function KeptChain(names: map<string, Chain>, table: Images, e: ChainEntry): Images {
    var chain := LookupChain(names, e.constName);
    if e.clients == [] then table else KeptClients(table[chain := map[]], chain, e.clients)
  }

  function KeptChains(names: map<string, Chain>, table: Images, entries: seq<ChainEntry>): Images
    decreases |entries|
  {
    if entries == [] then table else KeptChains(names, KeptChain(names, table, entries[0]), entries[1..])
  }

  ghost predicate PlainClients(clients: seq<ClientEntry>) {
    forall e :: e in clients ==> Plain(e.key) && Plain(e.image)
  }

  ghost predicate PlainEntries(entries: seq<ChainEntry>) {
    forall e :: e in entries ==> GoodConst(e.constName) && PlainClients(e.clients)
  }

  lemma ReadOne(names: map<string, Chain>, st: State, line: string, next: State, rest: seq<string>)
    requires Step(names, st, TrimSpace(line)) == (next, false)
    ensures Read(names, st, [line] + rest) == Read(names, next, rest)
  {
    hide Step, TrimSpace;
    assert ([line] + rest)[1..] == rest;
  }

  lemma {:induction false} ReadClients(names: map<string, Chain>, table: Images, chain: Chain, constName: string,
                                       clients: seq<ClientEntry>, pad: Layout, rest: seq<string>)
    requires PlainClients(clients)
    ensures Read(names, InChain(table, chain), ClientLines(constName, clients, pad) + rest)
         == Read(names, InChain(KeptClients(table, chain, clients), chain), rest)
    decreases |clients|
  {
    var lines := ClientLines(constName, clients, pad);
    if clients == [] {
      assert lines + rest == rest;
    } else {
      var e := clients[0];
      var next := if Confusing(e.key, e.image) then table else SetImage(table, chain, e.key, e.image);
      ReadEntry(names, table, chain, e, pad(constName, e.key));
      hide Step, Confusing, SetImage, Plain, EntryText, Read;
      var after := ClientLines(constName, clients[1..], pad) + rest;
      assert lines + rest == [lines[0]] + after;
      ReadOne(names, InChain(table, chain), lines[0], InChain(next, chain), after);
      ReadClients(names, next, chain, constName, clients[1..], pad, rest);
    }
  }

  lemma ReadChain(names: map<string, Chain>, table: Images, e: ChainEntry, pad: Layout, rest: seq<string>)
    requires GoodConst(e.constName) && PlainClients(e.clients)
    ensures Read(names, InMap(table), ChainLines(e, pad) + rest) == Read(names, InMap(KeptChain(names, table, e)), rest)
  {
    var head, chain := "\t" + ChainHead(e.constName), LookupChain(names, e.constName);
    if e.clients == [] {
      ReadEmptyChain(names, table, e.constName);
      ReadOne(names, InMap(table), head + "},", InMap(table), rest);
      hide Read, Step;
    } else {
      var entered, body, last := table[chain := map[]], ClientLines(e.constName, e.clients, pad), ["\t},"] + rest;
      var kept := KeptClients(entered, chain, e.clients);
      assert kept == KeptChain(names, table, e) && ChainLines(e, pad) == [head] + body + ["\t},"];
      ReadHead(names, table, e.constName);
      hide *;
      assert [head] + body + ["\t},"] + rest == [head] + (body + last);
      ReadOne(names, InMap(table), head, InChain(entered, chain), body + last);
      ReadClients(names, entered, chain, e.constName, e.clients, pad, last);
      ReadChainEnd(names, kept, chain);
      ReadOne(names, InChain(kept, chain), "\t},", InMap(kept), rest);
    }
  }

  lemma {:induction false} ReadBody(names: map<string, Chain>, table: Images, entries: seq<ChainEntry>, pad: Layout,
                                    rest: seq<string>)
    requires PlainEntries(entries)
    ensures Read(names, InMap(table), BodyLines(entries, pad) + rest)
         == Read(names, InMap(KeptChains(names, table, entries)), rest)
    decreases |entries|
  {
    if entries == [] {
      Associate(rest, [], []);
    } else {
      var e, others := entries[0], entries[1..];
      assert e in entries && PlainEntries(others);
      hide KeptChain, Read, ChainLines, GoodConst, PlainClients;
      ReadChain(names, table, e, pad, BodyLines(others, pad) + rest);
      ReadBody(names, KeptChain(names, table, e), others, pad, rest);
      Associate(ChainLines(e, pad), BodyLines(others, pad), rest);
    }
  }

  lemma {:induction false} ReadHeader(names: map<string, Chain>, header: seq<string>, rest: seq<string>)
    requires forall l :: l in header ==> '{' !in l
    ensures Read(names, START, header + rest) == Read(names, START, rest)
  {
    if header == [] {
      assert header + rest == rest;
    } else {
      ReadBefore(names, header[0]);
      ReadOne(names, START, header[0], START, header[1..] + rest);
      ReadHeader(names, header[1..], rest);
      assert header + rest == [header[0]] + (header[1..] + rest);
    }
  }

  /** The lines up to the end of the map, whatever follows them. */
  lemma ReadFile(names: map<string, Chain>, header: seq<string>, entries: seq<ChainEntry>, pad: Layout, code: seq<string>)
    requires forall l :: l in header ==> '{' !in l
    requires PlainEntries(entries)
    ensures Read(names, START, header + [MAP_LINE] + BodyLines(entries, pad) + ["}"] + code)
         == KeptChains(names, map[], entries)
  {
    hide Step, KeptChains, TrimSpace, BodyLines, PlainEntries;
    var kept, body := KeptChains(names, map[], entries), BodyLines(entries, pad);
    var tail := body + (["}"] + code);
    assert header + [MAP_LINE] + body + ["}"] + code == header + ([MAP_LINE] + tail);
    ReadHeader(names, header, [MAP_LINE] + tail);
    ReadMapLine(names);
    ReadOne(names, START, MAP_LINE, InMap(map[]), tail);
    ReadBody(names, map[], entries, pad, ["}"] + code);
    ReadEnd(names, kept, code);
    hide *;
  }

  lemma ReadEnd(names: map<string, Chain>, table: Images, code: seq<string>)
    ensures Read(names, InMap(table), ["}"] + code) == table
  {
    ReadMapEnd(names, table);
    hide Step, TrimSpace;
  }

  // ---- Files as text ----

  /** No line of the file is broken by what it holds. */
  ghost predicate OneLiners(lines: seq<string>) { forall l :: l in lines ==> '\n' !in l }

  lemma {:induction false} ClientLinesWhole(constName: string, clients: seq<ClientEntry>, pad: Layout)
    requires PlainClients(clients)
    ensures OneLiners(ClientLines(constName, clients, pad))
  {
    if clients != [] { ClientLinesWhole(constName, clients[1..], pad); }
  }

  lemma {:induction false} BodyLinesWhole(entries: seq<ChainEntry>, pad: Layout)
    requires PlainEntries(entries)
    ensures OneLiners(BodyLines(entries, pad))
  {
    if entries != [] {
      ClientLinesWhole(entries[0].constName, entries[0].clients, pad);
      BodyLinesWhole(entries[1..], pad);
    }
  }

  lemma MapLineWhole()
    ensures OneLiners([MAP_LINE]) && OneLiners(["}"])
  {
    assert '\n' !in MAP_NAME && '\n' !in CONST_PACKAGE;
    assert '\n' !in "var " && '\n' !in " = map[" && '\n' !in "Chain]map" && '\n' !in "[string]string{";
  }

  lemma AppendWhole(a: seq<string>, b: seq<string>)
    requires OneLiners(a) && OneLiners(b)
    ensures OneLiners(a + b)
  {
  }

  /** Reading what was written keeps the entries, save empty chains and confusing lines. */
  lemma {:induction false} ReadWritten(names: map<string, Chain>, header: seq<string>, entries: seq<ChainEntry>, pad: Layout, code: string)
    requires OneLiners(header) && PlainEntries(entries) && forall l :: l in header ==> '{' !in l
    ensures Read(names, START, SplitLines(FileText(header, entries, pad, code))) == KeptChains(names, map[], entries)
  {
    var body := BodyLines(entries, pad);
    var lines := header + [MAP_LINE] + body + ["}"];
    assert FileText(header, entries, pad, code) == JoinLines(lines) + code;
    assert OneLiners(lines) by {
      BodyLinesWhole(entries, pad);
      MapLineWhole();
      hide *;
      AppendWhole(header, [MAP_LINE]);
      AppendWhole(header + [MAP_LINE], body);
      AppendWhole(header + [MAP_LINE] + body, ["}"]);
    }
    SplitJoined(lines, code);
    ReadFile(names, header, entries, pad, SplitLines(code));
    hide *;
  }
}
