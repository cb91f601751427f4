/** What a merged file says, and which of the target's own lines it keeps. */
module TomlMeaning {
  import opened Sequences
  import opened TomlLines
  import opened TomlMerge
  import opened TomlReading
  import opened TomlSteps

  // ---- Reading the whole result ----

  /** What the result says, from any point of the second pass. */
  ghost predicate Overridden(ov: Overrides, u: map<Slot, Line>, t: map<Slot, Line>, done: set<Slot>) {
    && (forall k :: k !in ov.lines ==> (k in u <==> k in t) && (k in t ==> u[k] == t[k]))
    && (forall k :: k in ov.lines && k in u ==> IsBareEntry(ov.lines[k]) && u[k] == ov.lines[k])
    && (forall k :: k in ov.lines && k !in done && IsBareEntry(ov.lines[k]) ==> k in u)
  }

  lemma MoreOverrides(ov: Overrides, ks: seq<Slot>, u: map<Slot, Line>, t: map<Slot, Line>, done: set<Slot>)
    requires forall k :: k in ks ==> k in ov.lines
    requires Overridden(ov, u, t, done + AsSet(ks))
    ensures Overridden(ov, ReadableOf(ov, ks) + u, t, done)
  {
  }

  lemma HitSays(ov: Overrides, k: Slot, l: Line, u: map<Slot, Line>, t: map<Slot, Line>, done: set<Slot>)
    requires k in ov.lines && Overridden(ov, u, t, done + {k})
    ensures Overridden(ov, ReadableOf(ov, [k]) + u, map[k := l] + t, done)
  {
  }

  lemma OtherSays(ov: Overrides, m: map<Slot, Line>, u: map<Slot, Line>, t: map<Slot, Line>, done: set<Slot>)
    requires (forall k :: k in m ==> k !in ov.lines) && Overridden(ov, u, t, done)
    ensures Overridden(ov, m + u, m + t, done)
  {
  }

  lemma {:induction false} RewriteSays(ov: Overrides, t: seq<Line>, cur: Line, done: set<Slot>, held: nat)
    requires ov.Valid()
    requires forall k :: k in ov.order && k.section == "" && cur != "" ==> k in done
    ensures Overridden(ov, Assignments(Rewrite(ov, t, cur, done, held), cur), Assignments(t, cur), done)
    ensures Obeys(ov, Rewrite(ov, t, cur, done, held), cur)
    decreases |t|
  {
    hide Rewrite, IsBareEntry, IsHeader, IsBlank, SectionOf, KeyOf, Assignments, Obeys, Overridden;
    if t == [] {
      EndSays(ov, cur, done, held);
      return;
    }
    var l, rest := t[0], t[1..];
    assert t == [l] + rest;
    if IsBlank(l) {
      StepBlank(ov, l, rest, cur, done, held);
      ReadBlank(ov, l, rest, cur);
      RewriteSays(ov, rest, cur, done, held + 1);
    } else if IsHeader(l) {
      var todo := Todo(ov.order, cur, done);
      TodoMembers(ov.order, cur, done);
      StepHeader(ov, l, rest, cur, done, held);
      var u := Rewrite(ov, rest, SectionOf(l), done + AsSet(todo), 0);
      EntriesAhead(ov, todo, Blanks(held) + ([l] + u), cur);
      BlanksAhead(ov, held, [l] + u, cur);
      ReadHeader(ov, l, u, cur);
      ReadHeader(ov, l, rest, cur);
      RewriteSays(ov, rest, SectionOf(l), done + AsSet(todo), 0);
      MoreOverrides(ov, todo, Assignments(u, SectionOf(l)), Assignments(rest, SectionOf(l)), done);
    } else if IsBareEntry(l) && Slot(cur, KeyOf(l)) in ov.lines {
      var k := Slot(cur, KeyOf(l));
      StepHit(ov, l, rest, cur, done, held);
      var u := Rewrite(ov, rest, cur, done + {k}, 0);
      BlanksAhead(ov, held, [ov.lines[k]] + u, cur);
      ReadOverride(ov, k, u);
      ReadEntry(l, rest, cur);
      RewriteSays(ov, rest, cur, done + {k}, 0);
      HitSays(ov, k, l, Assignments(u, cur), Assignments(rest, cur), done);
    } else {
      StepOther(ov, l, rest, cur, done, held);
      var u := Rewrite(ov, rest, cur, done, 0);
      BlanksAhead(ov, held, [l] + u, cur);
      ReadOther(ov, l, u, cur);
      ReadOther(ov, l, rest, cur);
      RewriteSays(ov, rest, cur, done, 0);
      var own := if IsBareEntry(l) then map[Slot(cur, KeyOf(l)) := l] else map[];
      OtherSays(ov, own, Assignments(u, cur), Assignments(rest, cur), done);
    }
  }

  lemma ReadEntry(l: Line, rest: seq<Line>, cur: Line)
    requires IsBareEntry(l)
    ensures Assignments([l] + rest, cur) == map[Slot(cur, KeyOf(l)) := l] + Assignments(rest, cur)
  {
    BareEntryIsData(l);
    assert ([l] + rest)[1..] == rest;
  }

  lemma EndSays(ov: Overrides, cur: Line, done: set<Slot>, held: nat)
    requires ov.Valid()
    requires forall k :: k in ov.order && k.section == "" && cur != "" ==> k in done
    ensures var u := Rewrite(ov, [], cur, done, held);
            Overridden(ov, Assignments(u, cur), Assignments([], cur), done) && Obeys(ov, u, cur)
  {
    var todo, left := StepLast(ov, cur, done, held);
    assert forall k :: k in ov.lines ==> k in todo || k in left || k in done;
    LeftSays(ov, left, done + AsSet(todo));
    assert forall k :: k in todo ==> k in ov.lines && k.section == cur;
    assert forall k :: k in left ==> k in ov.lines && k.section != "";
    hide *;
    var tail := NewTables(ov, left, "");
    EntriesAhead(ov, todo, Blanks(held) + tail, cur);
    BlanksAhead(ov, held, tail, cur);
    TablesAnywhere(ov, left, cur);
    MoreOverrides(ov, todo, ReadableOf(ov, left), map[], done);
    EmptySays(cur);
  }

  lemma LeftSays(ov: Overrides, left: seq<Slot>, done: set<Slot>)
    requires forall k :: k in ov.lines ==> k in left || k in done
    ensures Overridden(ov, ReadableOf(ov, left), map[], done)
  {
  }

  lemma EmptySays(cur: Line)
    ensures Assignments([], cur) == map[]
  {
  }

  /** New tables start with a header, so the table before them does not matter. */
  lemma {:induction false} TablesAnywhere(ov: Overrides, ks: seq<Slot>, cur: Line)
    requires ov.Valid() && forall k :: k in ks ==> k in ov.lines && k.section != ""
    ensures Obeys(ov, NewTables(ov, ks, ""), cur)
    ensures Assignments(NewTables(ov, ks, ""), cur) == ReadableOf(ov, ks)
    ensures Kept(ov, NewTables(ov, ks, ""), cur) == TableHeaders(ks, "")
  {
    TablesAhead(ov, ks, "");
    TablesKept(ov, ks, "");
    if ks != [] {
      FirstTable(ov, ks, "");
      assert ov.ValidEntry(ks[0]);
      var rest := [ov.lines[ks[0]]] + NewTables(ov, ks[1..], ks[0].section);
      NewHeaderAhead(ov, ks[0].section, rest, cur);
      NewHeaderAhead(ov, ks[0].section, rest, "");
    }
  }

  /**
   For every override file and target: the result assigns what the target
   assigned, except that overridden entries hold their override wherever they occur.
   */
  lemma MergeMeaning(o: seq<Line>, t: seq<Line>)
    ensures Assignments(Merge(o, t), "")
         == (Assignments(t, "") - Parse(o).lines.Keys) + Readable(Parse(o))
    ensures Obeys(Parse(o), Merge(o, t), "")
  {
    ParseValid(o);
    hide Assignments, Obeys, Overridden, Rewrite, Parse, Readable;
    RewriteSays(Parse(o), t, "", {}, 0);
    OverriddenMap(Parse(o), Assignments(Merge(o, t), ""), Assignments(t, ""));
  }

  lemma OverriddenMap(ov: Overrides, u: map<Slot, Line>, t: map<Slot, Line>)
    requires Overridden(ov, u, t, {})
    ensures u == (t - ov.lines.Keys) + Readable(ov)
  {
    hide IsBareEntry;
  }

  /** With bare keys only, that is the target's assignments overridden by the override file's. */
  lemma BareMergeMeaning(o: seq<Line>, t: seq<Line>)
    requires Parse(o).AllBare()
    ensures Assignments(Merge(o, t), "") == Assignments(t, "") + Parse(o).lines
  {
    MergeMeaning(o, t);
    assert Readable(Parse(o)) == Parse(o).lines;
  }

  // ---- The override file's own meaning ----

  lemma {:induction false} ReadAssigns(o: seq<Line>, section: Line, ov: Overrides)
    requires forall i :: 0 <= i < |o| ==> IsIgnored(o[i]) || IsHeader(o[i]) || IsBareEntry(o[i])
    ensures ReadOverrides(o, section, ov).lines == ov.lines + Assignments(o, section)
  {
    if o != [] {
      assert forall i :: 0 <= i < |o[1..]| ==> o[1..][i] == o[i + 1];
      if IsIgnored(o[0]) {
        if IsBareEntry(o[0]) { BareEntryIsData(o[0]); }
        ReadAssigns(o[1..], section, ov);
      } else if IsHeader(o[0]) {
        ReadAssigns(o[1..], SectionOf(o[0]), ov);
      } else {
        ReadAssigns(o[1..], section, Record(ov, Slot(section, KeyOf(o[0])), o[0]));
      }
    }
  }

  /** Both files read the same way: an override file of plain entries is applied as a file. */
  lemma MergeOverrides(o: seq<Line>, t: seq<Line>)
    requires forall i :: 0 <= i < |o| ==> IsIgnored(o[i]) || IsHeader(o[i]) || IsBareEntry(o[i])
    ensures Assignments(Merge(o, t), "") == Assignments(t, "") + Assignments(o, "")
  {
    ParseValid(o);
    ReadAssigns(o, "", Overrides([], map[]));
    AssignmentsBare(o, "");
    BareMergeMeaning(o, t);
  }

  lemma {:induction false} AssignmentsBare(f: seq<Line>, cur: Line)
    ensures forall k :: k in Assignments(f, cur) ==> IsBareEntry(Assignments(f, cur)[k])
  {
    if f != [] {
      AssignmentsBare(f[1..], if IsHeader(f[0]) then SectionOf(f[0]) else cur);
    }
  }

  // ---- The lines the target keeps ----

  function Absent(ks: seq<Slot>, tables: set<Line>, done: set<Slot>): seq<Slot> {
    if ks == [] then []
    else (if ks[0].section in tables || ks[0] in done then [] else [ks[0]]) + Absent(ks[1..], tables, done)
  }

  lemma {:induction false} SameAbsent(ks: seq<Slot>, x: set<Line>, xd: set<Slot>, y: set<Line>, yd: set<Slot>)
    requires forall k :: k in ks ==> (k.section in x || k in xd <==> k.section in y || k in yd)
    ensures Absent(ks, x, xd) == Absent(ks, y, yd)
  {
    if ks != [] { SameAbsent(ks[1..], x, xd, y, yd); }
  }

  lemma {:induction false} WithoutIsAbsent(ks: seq<Slot>, done: set<Slot>)
    ensures Without(ks, done) == Absent(ks, {}, done)
  {
    if ks != [] { WithoutIsAbsent(ks[1..], done); }
  }

  /** From any point of the second pass, the target's own lines are kept and the missing tables follow. */
  ghost predicate Keeps(ov: Overrides, t: seq<Line>, cur: Line, done: set<Slot>, held: nat)
    requires ov.Valid()
  {
    Kept(ov, Rewrite(ov, t, cur, done, held), cur)
    == Blanks(held) + (Kept(ov, t, cur) + TableHeaders(Absent(ov.order, {cur} + TablesIn(t), done), ""))
  }

  lemma {:induction false} RewriteKeeps(ov: Overrides, t: seq<Line>, cur: Line, done: set<Slot>, held: nat)
    requires ov.Valid()
    requires forall k :: k in ov.order && k.section == "" && cur != "" ==> k in done
    ensures Keeps(ov, t, cur, done, held)
    decreases |t|
  {
    if t == [] {
      EndKeeps(ov, cur, done, held);
      return;
    }
    var l, rest := t[0], t[1..];
    assert t == [l] + rest;
    hide Keeps;
    if IsBlank(l) {
      RewriteKeeps(ov, rest, cur, done, held + 1);
      BlankKeeps(ov, l, rest, cur, done, held);
    } else if IsHeader(l) {
      TodoMembers(ov.order, cur, done);
      RewriteKeeps(ov, rest, SectionOf(l), done + AsSet(Todo(ov.order, cur, done)), 0);
      HeaderKeeps(ov, l, rest, cur, done, held);
    } else if IsBareEntry(l) && Slot(cur, KeyOf(l)) in ov.lines {
      RewriteKeeps(ov, rest, cur, done + {Slot(cur, KeyOf(l))}, 0);
      HitKeeps(ov, l, rest, cur, done, held);
    } else {
      RewriteKeeps(ov, rest, cur, done, 0);
      OtherKeeps(ov, l, rest, cur, done, held);
    }
  }

  lemma BlankKeeps(ov: Overrides, l: Line, rest: seq<Line>, cur: Line, done: set<Slot>, held: nat)
    requires ov.Valid() && IsBlank(l) && Keeps(ov, rest, cur, done, held + 1)
    ensures Keeps(ov, [l] + rest, cur, done, held)
  {
    OneMoreTable(l, rest);
    BlankIsNoHeader(l);
    StepBlank(ov, l, rest, cur, done, held);
    ReadBlank(ov, l, rest, cur);
    var tables := TableHeaders(Absent(ov.order, {cur} + TablesIn(rest), done), "");
    OneMoreBlank(held, Kept(ov, rest, cur) + tables);
    Associate([""], Kept(ov, rest, cur), tables);
    hide Rewrite, Kept, TableHeaders, Absent, TablesIn, Blanks, Overrides.Valid;
  }

  lemma KeptAfterHeader(ov: Overrides, l: Line, rest: seq<Line>, cur: Line, done: set<Slot>, held: nat)
    requires ov.Valid() && IsHeader(l)
    ensures Kept(ov, Rewrite(ov, [l] + rest, cur, done, held), cur)
         == Blanks(held) + ([l] + Kept(ov, Rewrite(ov, rest, SectionOf(l), done + AsSet(Todo(ov.order, cur, done)), 0),
                                      SectionOf(l)))
  {
    var todo := Todo(ov.order, cur, done);
    TodoMembers(ov.order, cur, done);
    hide *;
    StepHeader(ov, l, rest, cur, done, held);
    var u := Rewrite(ov, rest, SectionOf(l), done + AsSet(todo), 0);
    EntriesAhead(ov, todo, Blanks(held) + ([l] + u), cur);
    BlanksAhead(ov, held, [l] + u, cur);
    ReadHeader(ov, l, u, cur);
  }

  lemma HeaderKeeps(ov: Overrides, l: Line, rest: seq<Line>, cur: Line, done: set<Slot>, held: nat)
    requires ov.Valid() && IsHeader(l)
    requires Keeps(ov, rest, SectionOf(l), done + AsSet(Todo(ov.order, cur, done)), 0)
    ensures Keeps(ov, [l] + rest, cur, done, held)
  {
    var todo, s := Todo(ov.order, cur, done), SectionOf(l);
    TodoMembers(ov.order, cur, done);
    OneMoreTable(l, rest);
    SameAbsent(ov.order, {s} + TablesIn(rest), done + AsSet(todo), {cur} + TablesIn([l] + rest), done);
    hide Rewrite, Kept, TableHeaders, Absent, TablesIn, Todo, SectionOf, Overrides.Valid, IsHeader, Blanks;
    KeptAfterHeader(ov, l, rest, cur, done, held);
    var tables := TableHeaders(Absent(ov.order, {s} + TablesIn(rest), done + AsSet(todo)), "");
    NoBlanks(Kept(ov, rest, s) + tables);
    Associate([l], Kept(ov, rest, s), tables);
    ReadHeader(ov, l, rest, cur);
  }

  lemma KeptAfterHit(ov: Overrides, l: Line, rest: seq<Line>, cur: Line, done: set<Slot>, held: nat)
    requires ov.Valid() && IsBareEntry(l) && Slot(cur, KeyOf(l)) in ov.lines
    ensures Kept(ov, Rewrite(ov, [l] + rest, cur, done, held), cur)
         == Blanks(held) + Kept(ov, Rewrite(ov, rest, cur, done + {Slot(cur, KeyOf(l))}, 0), cur)
  {
    var k := Slot(cur, KeyOf(l));
    hide *;
    StepHit(ov, l, rest, cur, done, held);
    var u := Rewrite(ov, rest, cur, done + {k}, 0);
    BlanksAhead(ov, held, [ov.lines[k]] + u, cur);
    ReadOverride(ov, k, u);
  }

  lemma HitKeeps(ov: Overrides, l: Line, rest: seq<Line>, cur: Line, done: set<Slot>, held: nat)
    requires ov.Valid() && IsBareEntry(l) && Slot(cur, KeyOf(l)) in ov.lines
    requires Keeps(ov, rest, cur, done + {Slot(cur, KeyOf(l))}, 0)
    ensures Keeps(ov, [l] + rest, cur, done, held)
  {
    var k := Slot(cur, KeyOf(l));
    OneMoreTable(l, rest);
    BareEntryIsData(l);
    SameAbsent(ov.order, {cur} + TablesIn(rest), done + {k}, {cur} + TablesIn([l] + rest), done);
    hide Rewrite, Kept, TableHeaders, Absent, TablesIn, Overrides.Valid, IsBareEntry, KeyOf, Blanks;
    KeptAfterHit(ov, l, rest, cur, done, held);
    NoBlanks(Kept(ov, rest, cur) + TableHeaders(Absent(ov.order, {cur} + TablesIn(rest), done + {k}), ""));
    DropEntry(ov, l, rest, cur);
  }

  lemma OtherKeeps(ov: Overrides, l: Line, rest: seq<Line>, cur: Line, done: set<Slot>, held: nat)
    requires ov.Valid() && !IsBlank(l) && !IsHeader(l)
    requires IsBareEntry(l) ==> Slot(cur, KeyOf(l)) !in ov.lines
    requires Keeps(ov, rest, cur, done, 0)
    ensures Keeps(ov, [l] + rest, cur, done, held)
  {
    OneMoreTable(l, rest);
    hide Rewrite, Kept, TableHeaders, Absent, TablesIn, Overrides.Valid, IsBareEntry, KeyOf, IsBlank, IsHeader;
    StepOther(ov, l, rest, cur, done, held);
    BlanksAhead(ov, held, [l] + Rewrite(ov, rest, cur, done, 0), cur);
    ReadOther(ov, l, Rewrite(ov, rest, cur, done, 0), cur);
    ReadOther(ov, l, rest, cur);
  }

  lemma DropEntry(ov: Overrides, l: Line, rest: seq<Line>, cur: Line)
    requires IsBareEntry(l) && Slot(cur, KeyOf(l)) in ov.lines
    ensures Kept(ov, [l] + rest, cur) == Kept(ov, rest, cur)
  {
    BareEntryIsData(l);
    assert ([l] + rest)[1..] == rest;
  }

  lemma KeptAtEnd(ov: Overrides, cur: Line, done: set<Slot>, held: nat) returns (todo: seq<Slot>, left: seq<Slot>)
    requires ov.Valid()
    requires forall k :: k in ov.order && k.section == "" && cur != "" ==> k in done
    ensures todo == Todo(ov.order, cur, done) && left == Without(ov.order, done + AsSet(todo))
    ensures Kept(ov, Rewrite(ov, [], cur, done, held), cur) == Blanks(held) + TableHeaders(left, "")
  {
    todo, left := StepLast(ov, cur, done, held);
    var tail := NewTables(ov, left, "");
    hide Rewrite, Kept, TableHeaders, Todo, Without, NewTables, IsBareEntry;
    EntriesAhead(ov, todo, Blanks(held) + tail, cur);
    BlanksAhead(ov, held, tail, cur);
    TablesAnywhere(ov, left, cur);
  }

  lemma EndKeeps(ov: Overrides, cur: Line, done: set<Slot>, held: nat)
    requires ov.Valid()
    requires forall k :: k in ov.order && k.section == "" && cur != "" ==> k in done
    ensures Keeps(ov, [], cur, done, held)
  {
    var todo, left := KeptAtEnd(ov, cur, done, held);
    TodoMembers(ov.order, cur, done);
    WithoutIsAbsent(ov.order, done + AsSet(todo));
    SameAbsent(ov.order, {}, done + AsSet(todo), {cur} + TablesIn([]), done);
    assert Kept(ov, [], cur) == [];
    hide Rewrite, Kept, TableHeaders, Absent, TablesIn, Todo, Without, Blanks, Overrides.Valid;
    NoBlanks(TableHeaders(left, ""));
    assert [] + TableHeaders(left, "") == TableHeaders(left, "");
  }

  lemma {:induction false} OwnIsKept(ov: Overrides, f: seq<Line>, cur: Line)
    requires ov.AllBare()
    ensures Kept(ov, f, cur) == Own(ov, f, cur)
  {
    if f != [] { OwnIsKept(ov, f[1..], if IsHeader(f[0]) then SectionOf(f[0]) else cur); }
  }

  /**
   Every line of the target that is no overridden entry survives, in order. All that is
   added to them is a header for each table the target lacks, and the overrides themselves:
   those with bare keys are no such lines, and any other line that spells one is left out.
   */
  lemma MergeKeeps(o: seq<Line>, t: seq<Line>)
    ensures var ov := Parse(o);
            Kept(ov, Merge(o, t), "")
            == Kept(ov, t, "") + TableHeaders(Absent(ov.order, {""} + TablesIn(t), {}), "")
    ensures var ov := Parse(o);
            ov.AllBare() ==>
              Own(ov, Merge(o, t), "") == Own(ov, t, "") + TableHeaders(Absent(ov.order, {""} + TablesIn(t), {}), "")
  {
    ParseValid(o);
    RewriteKeeps(Parse(o), t, "", {}, 0);
    NoBlanks(Kept(Parse(o), t, "") + TableHeaders(Absent(Parse(o).order, {""} + TablesIn(t), {}), ""));
    if Parse(o).AllBare() {
      OwnIsKept(Parse(o), t, "");
      OwnIsKept(Parse(o), Merge(o, t), "");
    }
    hide Kept, Own, TableHeaders, Absent, TablesIn, Parse, Rewrite;
  }
}
