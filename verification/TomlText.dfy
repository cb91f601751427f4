/** What the awk programs read off a line, by its text; and the merge by key text. */
module TomlText {
  import opened TomlLines
  import opened TomlMeaning
  import opened TomlMerge
  import opened TomlReading
  import opened TomlSet

  // ---- The text of a line ----

  predicate White(s: string) { forall i :: 0 <= i < |s| ==> s[i] == ' ' || s[i] == '\t' }

  /** Letters, digits, underscores, dots and dashes. */
  predicate Bare(k: string) {
    k != "" && forall c :: c in k ==> 'A' <= c <= 'Z' || 'a' <= c <= 'z' || '0' <= c <= '9' || c in "_.-"
  }

  /** `l` is an entry of key `k`: white space, the key, white space, an equals sign, anything. */
  ghost predicate Entry(l: Line, k: string) {
    Bare(k) && exists w, w', v :: White(w) && White(w') && l == EntryText(w, k, w', v)
  }

  function EntryText(w: string, k: string, w': string, v: string): Line { w + (k + (w' + ("=" + v))) }

  lemma {:induction false} SkipWhite(w: string, rest: string)
    requires White(w) && (rest == "" || !IsWs(rest[0]))
    ensures SkipWs(w + rest) == rest
  {
    if w == "" {
      assert w + rest == rest;
    } else {
      assert (w + rest)[1..] == w[1..] + rest;
      SkipWhite(w[1..], rest);
    }
  }

  lemma {:induction false} SkipKey(k: string, rest: string)
    requires (forall c :: c in k ==> IsBareKeyChar(c)) && (rest == "" || !IsBareKeyChar(rest[0]))
    ensures SkipBareKey(k + rest) == rest
  {
    if k == "" {
      assert k + rest == rest;
    } else {
      assert (k + rest)[1..] == k[1..] + rest;
      SkipKey(k[1..], rest);
    }
  }

  lemma {:induction false} TrimWhite(s: string, w: string)
    requires White(w) && (s == "" || !IsWs(s[|s| - 1]))
    ensures TrimEndWs(s + w) == s
  {
    if w == "" {
      assert s + w == s;
    } else {
      var n := |w| - 1;
      assert (s + w)[..|s + w| - 1] == s + w[..n];
      TrimWhite(s, w[..n]);
    }
  }

  /** What is skipped is white, or a key. */
  lemma {:induction false} SkippedWhite(l: Line) returns (w: string)
    ensures White(w) && l == w + SkipWs(l) && (SkipWs(l) == "" || !IsWs(SkipWs(l)[0]))
  {
    if l != "" && IsWs(l[0]) {
      var rest := SkippedWhite(l[1..]);
      w := [l[0]] + rest;
    } else {
      w := "";
    }
  }

  lemma {:induction false} SkippedKey(l: Line) returns (k: string)
    ensures (forall c :: c in k ==> IsBareKeyChar(c)) && l == k + SkipBareKey(l)
  {
    if l != "" && IsBareKeyChar(l[0]) {
      var rest := SkippedKey(l[1..]);
      k := [l[0]] + rest;
    } else {
      k := "";
    }
  }

  lemma BareIs(k: string)
    ensures Bare(k) <==> k != "" && forall c :: c in k ==> IsBareKeyChar(c)
    ensures Bare(k) ==> '=' !in k && !IsWs(k[0]) && !IsWs(k[|k| - 1])
  {
    if Bare(k) { assert k[0] in k && k[|k| - 1] in k; }
  }

  /** White space around a bare key and before the equals sign does not matter, and neither does the value. */
  lemma EntryReads(w: string, k: string, w': string, v: string)
    requires White(w) && White(w') && Bare(k)
    ensures IsBareEntry(EntryText(w, k, w', v)) && KeyOf(EntryText(w, k, w', v)) == k
  {
    var l, tail := EntryText(w, k, w', v), w' + ("=" + v);
    BareIs(k);
    SkipWhite(w, k + tail);
    assert if w' == "" then tail[0] == '=' else tail[0] == w'[0];
    SkipKey(k, tail);
    SkipWhite(w', "=" + v);
    assert IsBareEntry(l);
    var pre := w + k + w';
    assert l == pre + (['='] + v) && '=' !in pre;
    BeforeOf(pre, '=', v);
    assert (w + k)[|w + k| - 1] == k[|k| - 1];
    TrimWhite(w + k, w');
    SkipWhite(w, k);
  }

  lemma BareEntryText(l: Line) returns (w: string, j: string, w': string, v: string)
    requires IsBareEntry(l)
    ensures White(w) && White(w') && Bare(j) && l == EntryText(w, j, w', v)
  {
    var t := SkipWs(l);
    w := SkippedWhite(l);
    j := SkippedKey(t);
    w' := SkippedWhite(SkipBareKey(t));
    var rest := SkipWs(SkipBareKey(t));
    v := rest[1..];
    BareIs(j);
    assert rest == "=" + v;
    hide SkipWs, SkipBareKey;
  }

  /** The merge takes a line for an entry with a key exactly when its text is one. */
  lemma EntryIff(l: Line, k: string)
    ensures Entry(l, k) <==> IsBareEntry(l) && KeyOf(l) == k
  {
    hide IsBareEntry, KeyOf, EntryText, White, Bare;
    if IsBareEntry(l) {
      var w, j, w', v := BareEntryText(l);
      EntryReads(w, j, w', v);
    }
    if w, w', v :| Bare(k) && White(w) && White(w') && l == EntryText(w, k, w', v) {
      EntryReads(w, k, w', v);
    }
  }

  /** Two entries of one table share a slot exactly when their key texts are equal. */
  lemma SlotsByText(s: Line, l: Line, k: string, l': Line, k': string)
    requires Entry(l, k) && Entry(l', k')
    ensures Slot(s, KeyOf(l)) == Slot(s, KeyOf(l')) <==> k == k'
  {
    EntryIff(l, k);
    EntryIff(l', k');
  }

  /** Blank lines, headers and comments, by their first character that is not white. */
  lemma FirstCharacter(w: string, rest: string)
    requires White(w) && (rest == "" || !IsWs(rest[0]))
    ensures IsBlank(w + rest) <==> rest == ""
    ensures IsHeader(w + rest) <==> rest != "" && rest[0] == '['
    ensures IsIgnored(w + rest) <==> rest == "" || rest[0] == '#'
  {
    SkipWhite(w, rest);
  }

  /** The table of a header line is its text without white space and without a comment. */
  lemma HeaderReads(w: string, name: string, w': string, comment: string)
    requires White(w) && White(w') && name != "" && name[0] == '['
    requires forall c :: c in name ==> c != '#' && !IsWs(c)
    requires comment == "" || comment[0] == '#'
    ensures IsHeader(w + (name + (w' + comment))) && SectionOf(w + (name + (w' + comment))) == name
  {
    var text := w + name + w';
    var l := w + (name + (w' + comment));
    assert l == text + comment;
    FirstCharacter(w, name + (w' + comment));
    assert '#' !in text;
    if comment == "" {
      assert l == text;
      NoneBefore(text);
    } else {
      assert l == text + (['#'] + comment[1..]);
      BeforeOf(text, '#', comment[1..]);
    }
    assert Before(l, '#') == text;
    DropAround(w, name, w');
  }

  lemma {:induction false} NoneBefore(s: string)
    requires '#' !in s
    ensures Before(s, '#') == s
  {
    if s != "" { NoneBefore(s[1..]); }
  }

  lemma {:induction false} DropWsAppend(a: string, b: string)
    ensures DropWs(a + b) == DropWs(a) + DropWs(b)
  {
    if a == "" {
      assert a + b == b;
    } else {
      assert (a + b)[1..] == a[1..] + b;
      DropWsAppend(a[1..], b);
    }
  }

  lemma {:induction false} DropWhite(w: string)
    requires White(w)
    ensures DropWs(w) == ""
  {
    if w != "" { DropWhite(w[1..]); }
  }

  lemma DropAround(w: string, name: string, w': string)
    requires White(w) && White(w') && forall c :: c in name ==> c != '#' && !IsWs(c)
    ensures DropWs(w + name + w') == name
  {
    DropWsAppend(w + name, w');
    DropWsAppend(w, name);
    DropWhite(w);
    DropWhite(w');
    forall i | 0 <= i < |name| ensures !IsWs(name[i]) && name[i] != '#' { assert name[i] in name; }
    CleanUnchanged(name);
  }

  // ---- Files ----

  ghost predicate EntryAt(f: seq<Line>, cur: Line, section: Line, k: string, i: int) {
    0 <= i < |f| && Entry(f[i], k) && TableAt(f, cur, i) == section
  }

  /** The file has an entry of key `k` in the table. */
  ghost predicate HasKey(f: seq<Line>, cur: Line, section: Line, k: string) { exists i :: EntryAt(f, cur, section, k, i) }

  /** `f[i]` is the last of them. */
  ghost predicate LastAt(f: seq<Line>, cur: Line, section: Line, k: string, i: int) {
    EntryAt(f, cur, section, k, i) && forall j :: EntryAt(f, cur, section, k, j) ==> j <= i
  }

  lemma EntryAtFirst(f: seq<Line>, cur: Line, section: Line, k: string)
    requires f != []
    ensures var cur' := if IsHeader(f[0]) then SectionOf(f[0]) else cur;
            && (EntryAt(f, cur, section, k, 0) <==> Entry(f[0], k) && cur' == section)
            && forall i :: EntryAt(f[1..], cur', section, k, i) <==> 0 <= i && EntryAt(f, cur, section, k, i + 1)
  {
    hide Entry;
    var cur' := if IsHeader(f[0]) then SectionOf(f[0]) else cur;
    forall i ensures EntryAt(f[1..], cur', section, k, i) <==> 0 <= i && EntryAt(f, cur, section, k, i + 1) {
      if 0 <= i < |f| - 1 { assert f[1..][i] == f[i + 1]; }
    }
  }

  lemma LastAtFirst(f: seq<Line>, cur: Line, section: Line, k: string, i: nat)
    requires LastAt(f, cur, section, k, i) && i > 0
    ensures LastAt(f[1..], if IsHeader(f[0]) then SectionOf(f[0]) else cur, section, k, i - 1)
  {
    EntryAtFirst(f, cur, section, k);
    hide EntryAt, IsHeader, SectionOf;
    var cur' := if IsHeader(f[0]) then SectionOf(f[0]) else cur;
    assert EntryAt(f, cur, section, k, i - 1 + 1);
    forall j | EntryAt(f[1..], cur', section, k, j) ensures j <= i - 1 {
      assert EntryAt(f, cur, section, k, j + 1);
    }
  }

  /** The assignments of a file hold, for each table and key text, the last entry there is. */
  lemma {:induction false} AssignedByText(f: seq<Line>, cur: Line, section: Line, k: string)
    ensures Slot(section, k) in Assignments(f, cur) <==> HasKey(f, cur, section, k)
    ensures forall i :: LastAt(f, cur, section, k, i) ==>
              Slot(section, k) in Assignments(f, cur) && Assignments(f, cur)[Slot(section, k)] == f[i]
  {
    if f != [] {
      var cur' := if IsHeader(f[0]) then SectionOf(f[0]) else cur;
      AssignedByText(f[1..], cur', section, k);
      EntryAtFirst(f, cur, section, k);
      EntryIff(f[0], k);
      if IsBareEntry(f[0]) { BareEntryIsData(f[0]); }
      AssignedFirst(f, cur, section, k);
      hide Entry, EntryAt, IsHeader, SectionOf, IsBareEntry, KeyOf, Assignments, LastAt;
      if i :| EntryAt(f, cur, section, k, i) {
        if i > 0 { assert EntryAt(f[1..], cur', section, k, i - 1); }
      }
      if i :| EntryAt(f[1..], cur', section, k, i) { assert EntryAt(f, cur, section, k, i + 1); }
      forall i | LastAt(f, cur, section, k, i)
        ensures Slot(section, k) in Assignments(f, cur) && Assignments(f, cur)[Slot(section, k)] == f[i] {
        if i > 0 {
          LastAtFirst(f, cur, section, k, i);
        } else {
          LastMeans(f, cur, section, k);
        }
      }
    }
  }

  lemma LastMeans(f: seq<Line>, cur: Line, section: Line, k: string)
    requires f != [] && LastAt(f, cur, section, k, 0)
    ensures EntryAt(f, cur, section, k, 0)
    ensures !HasKey(f[1..], if IsHeader(f[0]) then SectionOf(f[0]) else cur, section, k)
  {
    EntryAtFirst(f, cur, section, k);
    var cur' := if IsHeader(f[0]) then SectionOf(f[0]) else cur;
    hide EntryAt, IsHeader, SectionOf;
    forall i ensures !EntryAt(f[1..], cur', section, k, i) {
      if i >= 0 { assert EntryAt(f, cur, section, k, i + 1) ==> i + 1 <= 0; }
    }
  }

  lemma AssignedFirst(f: seq<Line>, cur: Line, section: Line, k: string)
    requires f != []
    ensures var cur' := if IsHeader(f[0]) then SectionOf(f[0]) else cur;
            var slot, rest := Slot(section, k), Assignments(f[1..], cur');
            && (slot in Assignments(f, cur) <==>
                  slot in rest || (IsBareEntry(f[0]) && KeyOf(f[0]) == k && cur' == section))
            && (slot in rest ==> Assignments(f, cur)[slot] == rest[slot])
            && (slot !in rest && slot in Assignments(f, cur) ==> Assignments(f, cur)[slot] == f[0])
  {
    if IsBareEntry(f[0]) { BareEntryIsData(f[0]); }
  }

  lemma LastExists(f: seq<Line>, cur: Line, section: Line, k: string, i: int) returns (last: int)
    requires EntryAt(f, cur, section, k, i)
    ensures LastAt(f, cur, section, k, last)
    decreases |f| - i
  {
    last := i;
    if j :| EntryAt(f, cur, section, k, j) && j > i { last := LastExists(f, cur, section, k, j); }
  }

  /** `l` is the last entry of key `k` in the table: what the file says about it. */
  ghost predicate Says(f: seq<Line>, section: Line, k: string, l: Line) {
    exists i :: LastAt(f, "", section, k, i) && f[i] == l
  }

  lemma SaysIff(f: seq<Line>, section: Line, k: string, l: Line)
    ensures Says(f, section, k, l) <==> Slot(section, k) in Assignments(f, "") && Assignments(f, "")[Slot(section, k)] == l
  {
    AssignedByText(f, "", section, k);
    hide EntryAt;
    if i :| EntryAt(f, "", section, k, i) { var last := LastExists(f, "", section, k, i); }
  }

  /** Each line of the override file is blank, a comment, a header, or an entry with a bare key. */
  ghost predicate PlainOverrides(o: seq<Line>) {
    forall i :: 0 <= i < |o| ==> IsIgnored(o[i]) || IsHeader(o[i]) || exists k :: Entry(o[i], k)
  }

  lemma PlainRead(o: seq<Line>)
    requires PlainOverrides(o)
    ensures forall i :: 0 <= i < |o| ==> IsIgnored(o[i]) || IsHeader(o[i]) || IsBareEntry(o[i])
    ensures Parse(o).lines == Assignments(o, "") && Parse(o).Valid()
  {
    forall i | 0 <= i < |o| ensures IsIgnored(o[i]) || IsHeader(o[i]) || IsBareEntry(o[i]) {
      if k :| Entry(o[i], k) { EntryIff(o[i], k); }
    }
    hide IsIgnored, IsHeader, IsBareEntry, Entry;
    ReadAssigns(o, "", Overrides([], map[]));
    ParseValid(o);
  }

  lemma {:induction false} ObeyedAt(ov: Overrides, f: seq<Line>, cur: Line, section: Line, k: string, i: nat)
    requires Obeys(ov, f, cur) && EntryAt(f, cur, section, k, i) && Slot(section, k) in ov.lines
    ensures f[i] == ov.lines[Slot(section, k)]
  {
    EntryAtFirst(f, cur, section, k);
    EntryIff(f[0], k);
    if IsBareEntry(f[0]) { BareEntryIsData(f[0]); }
    hide Entry, EntryAt;
    if i > 0 {
      assert EntryAt(f, cur, section, k, i - 1 + 1);
      ObeyedAt(ov, f[1..], if IsHeader(f[0]) then SectionOf(f[0]) else cur, section, k, i - 1);
    }
  }

  /**
   By the text of keys: the merged file says of each key of each table what the override
   file says, and what the target says where the override file says nothing; and every
   entry of an overridden key holds the override.
   */
  lemma MergeByText(o: seq<Line>, t: seq<Line>, section: Line, k: string, l: Line)
    requires PlainOverrides(o)
    ensures Says(Merge(o, t), section, k, l)
       <==> Says(o, section, k, l) || (!HasKey(o, "", section, k) && Says(t, section, k, l))
    ensures Says(o, section, k, l) ==> forall i :: EntryAt(Merge(o, t), "", section, k, i) ==> Merge(o, t)[i] == l
  {
    PlainRead(o);
    MergeOverrides(o, t);
    MergeMeaning(o, t);
    AssignedByText(o, "", section, k);
    SaysIff(o, section, k, l);
    SaysIff(t, section, k, l);
    SaysIff(Merge(o, t), section, k, l);
    hide Says, HasKey, EntryAt, Assignments, Merge, Parse, Obeys;
    forall i | EntryAt(Merge(o, t), "", section, k, i) && Says(o, section, k, l) ensures Merge(o, t)[i] == l {
      ObeyedAt(Parse(o), Merge(o, t), "", section, k, i);
    }
  }

  // ---- Setting one key ----

  /** The same key, dashes and underscores written either way. */
  predicate SameKey(j: string, k: string) {
    |j| == |k| && forall i :: 0 <= i < |k| ==> j[i] == k[i] || (j[i] in {'_', '-'} && k[i] in {'_', '-'})
  }

  ghost predicate EntryLike(l: Line, k: string) {
    exists w, j, w', v :: White(w) && White(w') && SameKey(j, k) && l == EntryText(w, j, w', v)
  }

  lemma SameKeyClean(j: string, k: string)
    requires SameKey(j, k) && PlainKey(k)
    ensures j != "" && '=' !in j && !IsWs(j[0]) && StartsWithKey(j, k)
  {
    forall i | 0 <= i < |j| ensures j[i] != '=' && !IsWs(j[i]) && SameChar(j[i], k[i]) {
      assert k[i] in k && (j[i] == k[i] || j[i] == '_' || j[i] == '-');
    }
  }

  lemma EntryLikeAssigns(w: string, j: string, w': string, v: string, k: string)
    requires White(w) && White(w') && SameKey(j, k) && PlainKey(k)
    ensures Assigns(EntryText(w, j, w', v), k)
    ensures forall x :: WithValue(EntryText(w, j, w', v), x) == EntryText(w, j, w', " " + x)
  {
    var l, pre := EntryText(w, j, w', v), w + j + w';
    SameKeyClean(j, k);
    assert l == pre + (['='] + v) && '=' !in pre;
    SkipWhite(w, j + w');
    assert pre == w + (j + w');
    SkipWhite(w', "");
    assert w' + "" == w' && (j + w')[|k|..] == w';
    assert KeyText(pre, k);
    AssignsBy(pre, v, k);
    BeforeOf(pre, '=', v);
    forall x ensures WithValue(l, x) == EntryText(w, j, w', " " + x) {
      assert pre + ("= " + x) == w + (j + (w' + ("=" + (" " + x))));
    }
  }

  lemma AssignedText(l: Line, k: string) returns (w: string, j: string, w': string, v: string)
    requires Assigns(l, k)
    ensures White(w) && White(w') && SameKey(j, k) && l == EntryText(w, j, w', v)
  {
    var t := SkipWs(l);
    w := SkippedWhite(l);
    j := t[..|k|];
    w' := SkippedWhite(t[|k|..]);
    var rest := SkipWs(t[|k|..]);
    v := rest[1..];
    assert rest == "=" + v && t == j + t[|k|..];
    hide SkipWs;
  }

  /** A line is set exactly when its text is an entry of the key, with dashes and underscores either way. */
  lemma AssignsByText(l: Line, k: string)
    requires PlainKey(k)
    ensures Assigns(l, k) <==> EntryLike(l, k)
  {
    hide Assigns, EntryText, SameKey, White, PlainKey;
    if Assigns(l, k) { var w, j, w', v := AssignedText(l, k); }
    if w, j, w', v :| White(w) && White(w') && SameKey(j, k) && l == EntryText(w, j, w', v) {
      EntryLikeAssigns(w, j, w', v, k);
    }
  }

  /**
   By the text of lines: an entry of the key in the table, written "key = value" in whatever
   spacing, keeps all up to its equals sign and gets the value; any other line stays as it is.
   */
  lemma SetByText(ls: seq<Line>, section: Line, k: string, x: string, i: nat)
    requires PlainKey(k) && i < |ls|
    ensures |Set(ls, "", section, k, x)| == |ls|
    ensures forall w, j, w', v ::
              White(w) && White(w') && SameKey(j, k) && ls[i] == EntryText(w, j, w', v) && TableAt(ls, "", i) == section
              ==> Set(ls, "", section, k, x)[i] == EntryText(w, j, w', " " + x)
    ensures !EntryLike(ls[i], k) || TableAt(ls, "", i) != section ==> Set(ls, "", section, k, x)[i] == ls[i]
  {
    SetMeaning(ls, "", section, k, x);
    AssignsByText(ls[i], k);
    hide Set, Assigns, EntryLike;
    forall w, j, w', v | White(w) && White(w') && SameKey(j, k) && ls[i] == EntryText(w, j, w', v)
      ensures Assigns(ls[i], k) && WithValue(ls[i], x) == EntryText(w, j, w', " " + x) {
      EntryLikeAssigns(w, j, w', v, k);
    }
  }

  lemma PeersEntry()
    ensures PlainKey("persistent_peers") && SameKey("persistent-peers", "persistent_peers") && White("") && White(" ")
    ensures EntryText("", "persistent-peers", " ", " x") == "persistent-peers = x"
    ensures EntryText("", "persistent-peers", " ", " y") == "persistent-peers = y"
  {
  }

  /** A key written with dashes in the file is set through its name with underscores. */
  lemma PeersSet()
    ensures Assigns("persistent-peers = x", "persistent_peers")
    ensures WithValue("persistent-peers = x", "y") == "persistent-peers = y"
  {
    PeersEntry();
    EntryLikeAssigns("", "persistent-peers", " ", " x", "persistent_peers");
    assert " " + "y" == " y";
    hide *;
  }
}
