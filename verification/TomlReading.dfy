/**
 What a TOML file assigns, which of its lines are its own, and whether it obeys
 the overrides; and how each of these is read off a file that starts with a
 given line, with blank lines, with printed overrides, or with the new tables at
 the end of a merged file.
 */
module TomlReading {
  import opened TomlLines
  import opened TomlMerge

  /** The assignments of a file, later lines overriding earlier ones. */
  function Assignments(f: seq<Line>, cur: Line): map<Slot, Line> {
    if f == [] then map[]
    else if IsHeader(f[0]) then Assignments(f[1..], SectionOf(f[0]))
    else if IsBareEntry(f[0]) then map[Slot(cur, KeyOf(f[0])) := f[0]] + Assignments(f[1..], cur)
    else Assignments(f[1..], cur)
  }

  /** The overrides the second pass can read back. */
  function Readable(ov: Overrides): map<Slot, Line> {
    map k | k in ov.lines && IsBareEntry(ov.lines[k]) :: ov.lines[k]
  }

  /** The part of a file no override speaks about, blank lines written as empty ones. */
  function Own(ov: Overrides, f: seq<Line>, cur: Line): seq<Line> {
    if f == [] then []
    else if IsHeader(f[0]) then [f[0]] + Own(ov, f[1..], SectionOf(f[0]))
    else if IsBlank(f[0]) then [""] + Own(ov, f[1..], cur)
    else if IsBareEntry(f[0]) && Slot(cur, KeyOf(f[0])) in ov.lines then Own(ov, f[1..], cur)
    else [f[0]] + Own(ov, f[1..], cur)
  }

  /** An override that the second pass cannot read back. */
  ghost predicate Unreadable(ov: Overrides, l: Line) {
    !IsBareEntry(l) && exists k :: k in ov.lines && ov.lines[k] == l
  }

  /** Of those, the lines that do not spell an override themselves. */
  ghost function Kept(ov: Overrides, f: seq<Line>, cur: Line): seq<Line> {
    if f == [] then []
    else if IsHeader(f[0]) then [f[0]] + Kept(ov, f[1..], SectionOf(f[0]))
    else if IsBlank(f[0]) then [""] + Kept(ov, f[1..], cur)
    else if (IsBareEntry(f[0]) && Slot(cur, KeyOf(f[0])) in ov.lines) || Unreadable(ov, f[0]) then Kept(ov, f[1..], cur)
    else [f[0]] + Kept(ov, f[1..], cur)
  }

  /** The tables of `ks` in order of appearance, each behind an empty line. */
  function TableHeaders(ks: seq<Slot>, last: Line): seq<Line> {
    if ks == [] then []
    else (if ks[0].section != last then ["", ks[0].section] else []) + TableHeaders(ks[1..], ks[0].section)
  }

  /** Every occurrence of an overridden entry holds the override. */
  ghost predicate Obeys(ov: Overrides, f: seq<Line>, cur: Line) {
    f == [] ||
    if IsHeader(f[0]) then Obeys(ov, f[1..], SectionOf(f[0]))
    else
      && (IsBareEntry(f[0]) && Slot(cur, KeyOf(f[0])) in ov.lines ==> f[0] == ov.lines[Slot(cur, KeyOf(f[0]))])
      && Obeys(ov, f[1..], cur)
  }

  function TablesIn(f: seq<Line>): set<Line> {
    if f == [] then {}
    else (if IsHeader(f[0]) then {SectionOf(f[0])} else {}) + TablesIn(f[1..])
  }

  // ---- Reading one more line ----

  lemma OneMoreTable(l: Line, rest: seq<Line>)
    ensures TablesIn([l] + rest) == (if IsHeader(l) then {SectionOf(l)} else {}) + TablesIn(rest)
    ensures !IsHeader(l) ==> TablesIn([l] + rest) == TablesIn(rest)
  {
    assert ([l] + rest)[1..] == rest;
  }

  lemma ReadHeader(ov: Overrides, h: Line, rest: seq<Line>, cur: Line)
    requires IsHeader(h)
    ensures Assignments([h] + rest, cur) == Assignments(rest, SectionOf(h))
    ensures Obeys(ov, [h] + rest, cur) == Obeys(ov, rest, SectionOf(h))
    ensures Kept(ov, [h] + rest, cur) == [h] + Kept(ov, rest, SectionOf(h))
  {
    assert ([h] + rest)[1..] == rest;
  }

  lemma ReadBlank(ov: Overrides, l: Line, rest: seq<Line>, cur: Line)
    requires IsBlank(l)
    ensures Assignments([l] + rest, cur) == Assignments(rest, cur)
    ensures Obeys(ov, [l] + rest, cur) == Obeys(ov, rest, cur)
    ensures Kept(ov, [l] + rest, cur) == [""] + Kept(ov, rest, cur)
  {
    assert ([l] + rest)[1..] == rest;
  }

  /** A line of the target that no override replaces. */
  lemma ReadOther(ov: Overrides, l: Line, rest: seq<Line>, cur: Line)
    requires !IsBlank(l) && !IsHeader(l) && (IsBareEntry(l) ==> Slot(cur, KeyOf(l)) !in ov.lines)
    ensures Assignments([l] + rest, cur)
         == (if IsBareEntry(l) then map[Slot(cur, KeyOf(l)) := l] else map[]) + Assignments(rest, cur)
    ensures Obeys(ov, [l] + rest, cur) == Obeys(ov, rest, cur)
    ensures Kept(ov, [l] + rest, cur) == (if Unreadable(ov, l) then [] else [l]) + Kept(ov, rest, cur)
  {
    assert ([l] + rest)[1..] == rest;
  }

  /** An override as the merge prints it. */
  lemma ReadOverride(ov: Overrides, k: Slot, rest: seq<Line>)
    requires ov.Valid() && k in ov.lines
    ensures Assignments([ov.lines[k]] + rest, k.section) == ReadableOf(ov, [k]) + Assignments(rest, k.section)
    ensures Obeys(ov, [ov.lines[k]] + rest, k.section) == Obeys(ov, rest, k.section)
    ensures Kept(ov, [ov.lines[k]] + rest, k.section) == Kept(ov, rest, k.section)
  {
    assert ov.ValidEntry(k);
    assert ([ov.lines[k]] + rest)[1..] == rest;
  }

  function ReadableOf(ov: Overrides, ks: seq<Slot>): map<Slot, Line> {
    map k | k in ks && k in ov.lines && IsBareEntry(ov.lines[k]) :: ov.lines[k]
  }

  lemma ReadableSplit(ov: Overrides, ks: seq<Slot>)
    requires ks != []
    ensures ReadableOf(ov, [ks[0]]) + ReadableOf(ov, ks[1..]) == ReadableOf(ov, ks)
  {
    assert forall k :: k in ks <==> k == ks[0] || k in ks[1..];
  }

  lemma Regroup(x: map<Slot, Line>, y: map<Slot, Line>, z: map<Slot, Line>)
    ensures x + (y + z) == x + y + z
  {
  }

  // ---- Reading what the merge prints ----

  lemma {:induction false} BlanksAhead(ov: Overrides, n: nat, f: seq<Line>, cur: Line)
    ensures Assignments(Blanks(n) + f, cur) == Assignments(f, cur)
    ensures Obeys(ov, Blanks(n) + f, cur) == Obeys(ov, f, cur)
    ensures Kept(ov, Blanks(n) + f, cur) == Blanks(n) + Kept(ov, f, cur)
  {
    hide Assignments, Obeys, Kept;
    if n == 0 {
      assert Blanks(n) + f == f;
    } else {
      assert Blanks(n) + f == [""] + (Blanks(n - 1) + f);
      ReadBlank(ov, "", Blanks(n - 1) + f, cur);
      BlanksAhead(ov, n - 1, f, cur);
    }
  }

  lemma {:induction false} EntriesAhead(ov: Overrides, ks: seq<Slot>, f: seq<Line>, cur: Line)
    requires ov.Valid() && forall k :: k in ks ==> k in ov.lines && k.section == cur
    ensures Obeys(ov, LinesOf(ov, ks) + f, cur) == Obeys(ov, f, cur)
    ensures Assignments(LinesOf(ov, ks) + f, cur) == ReadableOf(ov, ks) + Assignments(f, cur)
    ensures Kept(ov, LinesOf(ov, ks) + f, cur) == Kept(ov, f, cur)
  {
    hide Assignments, Obeys, Kept, IsBareEntry, Overrides.Valid;
    if ks == [] {
      assert LinesOf(ov, ks) + f == f;
    } else {
      var rest := LinesOf(ov, ks[1..]) + f;
      assert LinesOf(ov, ks) + f == [ov.lines[ks[0]]] + rest;
      ReadOverride(ov, ks[0], rest);
      EntriesAhead(ov, ks[1..], f, cur);
      ReadableSplit(ov, ks);
      Regroup(ReadableOf(ov, [ks[0]]), ReadableOf(ov, ks[1..]), Assignments(f, cur));
    }
  }

  lemma {:induction false} TablesAhead(ov: Overrides, ks: seq<Slot>, last: Line)
    requires ov.Valid() && forall k :: k in ks ==> k in ov.lines && k.section != ""
    ensures Obeys(ov, NewTables(ov, ks, last), last)
    ensures Assignments(NewTables(ov, ks, last), last) == ReadableOf(ov, ks)
  {
    if ks == [] {
      assert ReadableOf(ov, ks) == map[];
    } else {
      hide *;
      TablesAhead(ov, ks[1..], ks[0].section);
      FirstTableAhead(ov, ks, last);
      ReadableSplit(ov, ks);
    }
  }

  lemma {:induction false} TablesKept(ov: Overrides, ks: seq<Slot>, last: Line)
    requires ov.Valid() && forall k :: k in ks ==> k in ov.lines && k.section != ""
    ensures Kept(ov, NewTables(ov, ks, last), last) == TableHeaders(ks, last)
  {
    if ks != [] {
      assert TableHeaders(ks, last)
          == (if ks[0].section != last then ["", ks[0].section] else []) + TableHeaders(ks[1..], ks[0].section);
      hide *;
      TablesKept(ov, ks[1..], ks[0].section);
      FirstTableAhead(ov, ks, last);
    }
  }

  lemma FirstTableAhead(ov: Overrides, ks: seq<Slot>, last: Line)
    requires ov.Valid() && ks != [] && forall k :: k in ks ==> k in ov.lines
    requires ks[0].section != ""
    ensures var k, s := ks[0], ks[0].section;
            var rest := NewTables(ov, ks[1..], s);
            && Obeys(ov, NewTables(ov, ks, last), last) == Obeys(ov, rest, s)
            && Assignments(NewTables(ov, ks, last), last) == ReadableOf(ov, [k]) + Assignments(rest, s)
            && Kept(ov, NewTables(ov, ks, last), last) == (if s == last then [] else ["", s]) + Kept(ov, rest, s)
  {
    FirstTable(ov, ks, last);
    assert ov.ValidEntry(ks[0]);
    hide Assignments, Obeys, Kept, IsBareEntry, IsHeader, SectionOf, NewTables, ReadableOf, Overrides.Valid;
    var l, s := ov.lines[ks[0]], ks[0].section;
    var rest := NewTables(ov, ks[1..], s);
    ReadOverride(ov, ks[0], rest);
    if s != last { NewHeaderAhead(ov, s, [l] + rest, last); }
  }

  lemma NewHeaderAhead(ov: Overrides, s: Line, rest: seq<Line>, cur: Line)
    requires IsHeader(s) && SectionOf(s) == s
    ensures Assignments([""] + ([s] + rest), cur) == Assignments(rest, s)
    ensures Obeys(ov, [""] + ([s] + rest), cur) == Obeys(ov, rest, s)
    ensures Kept(ov, [""] + ([s] + rest), cur) == ["", s] + Kept(ov, rest, s)
  {
    hide Assignments, Obeys, Kept, SectionOf;
    ReadHeader(ov, s, rest, cur);
    ReadBlank(ov, "", [s] + rest, cur);
  }
}
