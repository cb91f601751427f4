/**
 What a second merge does to the file that a first one has written: it replays
 what was printed, line by line, and adds to it exactly where a table was split
 or an entry cannot be read back. The theorems that follow from this are those
 of TomlStability.
 */
module TomlReplay {
  import opened Sequences
  import opened TomlLines
  import opened TomlMerge
  import opened TomlReading
  import opened TomlSteps

  // ---- Replaying a merged file ----

  lemma {:induction false} ReplayEntries(ov: Overrides, ks: seq<Slot>, rest: seq<Line>, cur: Line, done: set<Slot>)
    requires ov.Valid()
    requires forall k :: k in ks ==> k in ov.lines && IsBareEntry(ov.lines[k]) && k.section == cur
    ensures Rewrite(ov, LinesOf(ov, ks) + rest, cur, done, 0)
         == LinesOf(ov, ks) + Rewrite(ov, rest, cur, done + AsSet(ks), 0)
  {
    hide Rewrite;
    if ks == [] {
      assert LinesOf(ov, ks) + rest == rest;
      assert done + AsSet(ks) == done;
    } else {
      var l, k := ov.lines[ks[0]], ks[0];
      var tail := LinesOf(ov, ks[1..]) + rest;
      assert LinesOf(ov, ks) == [l] + LinesOf(ov, ks[1..]);
      assert done + {k} + AsSet(ks[1..]) == done + AsSet(ks);
      hide *;
      assert LinesOf(ov, ks) + rest == [l] + tail;
      StepEntry(ov, k, tail, cur, done, 0);
      NoBlanks([l] + Rewrite(ov, tail, cur, done + {k}, 0));
      ReplayEntries(ov, ks[1..], rest, cur, done + {k});
      Associate([l], LinesOf(ov, ks[1..]), Rewrite(ov, rest, cur, done + AsSet(ks), 0));
    }
  }

  /** The tail the first pass appends for missing tables is left alone by the second. */
  lemma {:induction false} ReplayNewTables(
    ov: Overrides, ks: seq<Slot>, last: Line, cur: Line, done: set<Slot>, held: nat)
    requires ov.Valid() && ov.AllBare() && Grouped(ks, last) && Distinct(ks)
    requires forall k :: k in ks ==> k in ov.lines && k.section != "" && k !in done
    requires forall k :: k in ov.order ==> k in ks || k in done
    requires if ks != [] && ks[0].section == last then cur == last && held == 0
             else forall k :: k in ov.order && k.section == cur ==> k in done
    ensures Rewrite(ov, NewTables(ov, ks, last), cur, done, held) == Blanks(held) + NewTables(ov, ks, last)
  {
    hide Rewrite, SectionOf, KeyOf, IsHeader, IsIgnored, IsBareEntry, Overrides.AllBare, Overrides.Valid;
    if ks == [] {
      StepEnd(ov, cur, done, held);
    } else {
      FirstTable(ov, ks, last);
      ReplayFirstTable(ov, ks, last, cur, done, held);
      hide NewTables;
      NextTable(ks, ov.order, last, done);
      hide Distinct, Grouped;
      ReplayNewTables(ov, ks[1..], ks[0].section, ks[0].section, done + {ks[0]}, 0);
    }
  }

  lemma {:induction false} ReplayFirstTable(ov: Overrides, ks: seq<Slot>, last: Line, cur: Line, done: set<Slot>, held: nat)
    requires ov.Valid() && ov.AllBare() && ks != []
    requires forall k :: k in ks ==> k in ov.lines
    requires ks[0].section != ""
    requires if ks[0].section == last then cur == last && held == 0
             else forall k :: k in ov.order && k.section == cur ==> k in done
    ensures var k, l, s := ks[0], ov.lines[ks[0]], ks[0].section;
            var again := [l] + Rewrite(ov, NewTables(ov, ks[1..], s), s, done + {k}, 0);
            Rewrite(ov, NewTables(ov, ks, last), cur, done, held)
            == Blanks(held) + (if s == last then again else [""] + ([s] + again))
  {
    var k, l, s := ks[0], ov.lines[ks[0]], ks[0].section;
    assert IsHeader(s) && SectionOf(s) == s by { assert ov.ValidEntry(k); }
    assert IsBareEntry(l) && IsBlank("");
    hide *;
    FirstTable(ov, ks, last);
    var rest := NewTables(ov, ks[1..], s);
    StepEntry(ov, k, rest, s, done, 0);
    var again := [l] + Rewrite(ov, rest, s, done + {k}, 0);
    NoBlanks(again);
    if s != last {
      StepBlank(ov, "", [s] + ([l] + rest), cur, done, held);
      StepFinished(ov, s, [l] + rest, cur, done, held + 1);
      OneMoreBlank(held, [s] + again);
    }
  }

  /** Each table that `t` lacks, if any, is printed in one piece at its end. */
  ghost predicate InOnePiece(ov: Overrides, t: seq<Line>, cur: Line, done: set<Slot>) {
    ov.Contiguous() || forall k :: k in ov.order ==> k in done || k.section == cur || k.section in TablesIn(t)
  }

  lemma PieceOfRest(ov: Overrides, l: Line, rest: seq<Line>, cur: Line, done: set<Slot>)
    requires InOnePiece(ov, [l] + rest, cur, done)
    ensures IsHeader(l) ==> InOnePiece(ov, rest, SectionOf(l), done + AsSet(Todo(ov.order, cur, done)))
    ensures !IsHeader(l) ==> forall more :: InOnePiece(ov, rest, cur, done + more)
    ensures !IsHeader(l) ==> InOnePiece(ov, rest, cur, done)
  {
    OneMoreTable(l, rest);
    TodoMembers(ov.order, cur, done);
    hide TablesIn, Todo, Overrides.Contiguous, SectionOf, IsHeader;
  }

  lemma {:induction false} RewriteStable(ov: Overrides, t: seq<Line>, cur: Line, done: set<Slot>, held: nat)
    requires ov.Valid() && ov.AllBare() && InOnePiece(ov, t, cur, done)
    requires forall k :: k in ov.order && k.section == "" && cur != "" ==> k in done
    ensures Rewrite(ov, Rewrite(ov, t, cur, done, held), cur, done, 0) == Rewrite(ov, t, cur, done, held)
    decreases |t|
  {
    hide Rewrite, SectionOf, KeyOf, IsBlank, IsHeader, IsBareEntry, InOnePiece;
    if t == [] {
      EndStable(ov, cur, done, held);
      return;
    }
    var l, rest := t[0], t[1..];
    assert t == [l] + rest;
    PieceOfRest(ov, l, rest, cur, done);
    if IsBlank(l) {
      BlankIsNoHeader(l);
      StepBlank(ov, l, rest, cur, done, held);
      RewriteStable(ov, rest, cur, done, held + 1);
    } else if IsHeader(l) {
      var todo := Todo(ov.order, cur, done);
      TodoMembers(ov.order, cur, done);
      StepHeader(ov, l, rest, cur, done, held);
      ReplayHeader(ov, todo, l, Rewrite(ov, rest, SectionOf(l), done + AsSet(todo), 0), cur, done, held);
      RewriteStable(ov, rest, SectionOf(l), done + AsSet(todo), 0);
    } else if IsBareEntry(l) && Slot(cur, KeyOf(l)) in ov.lines {
      var k := Slot(cur, KeyOf(l));
      BareEntryIsData(l);
      StepHit(ov, l, rest, cur, done, held);
      ReplayEntry(ov, k, Rewrite(ov, rest, cur, done + {k}, 0), done, held);
      RewriteStable(ov, rest, cur, done + {k}, 0);
    } else {
      StepOther(ov, l, rest, cur, done, held);
      ReplayOther(ov, l, Rewrite(ov, rest, cur, done, 0), cur, done, held);
      RewriteStable(ov, rest, cur, done, 0);
    }
  }

  lemma EndStable(ov: Overrides, cur: Line, done: set<Slot>, held: nat)
    requires ov.Valid() && ov.AllBare() && InOnePiece(ov, [], cur, done)
    requires forall k :: k in ov.order && k.section == "" && cur != "" ==> k in done
    ensures Rewrite(ov, Rewrite(ov, [], cur, done, held), cur, done, 0) == Rewrite(ov, [], cur, done, held)
  {
    var todo, left := StepLast(ov, cur, done, held);
    LastOnes(ov, todo, left, cur, done);
    hide *;
    var tail := NewTables(ov, left, "");
    ReplayEntries(ov, todo, Blanks(held) + tail, cur, done);
    ReplayBlanks(ov, held, tail, cur, done + AsSet(todo), 0);
    ReplayNewTables(ov, left, "", cur, done + AsSet(todo), held);
  }

  lemma LastOnes(ov: Overrides, todo: seq<Slot>, left: seq<Slot>, cur: Line, done: set<Slot>)
    requires ov.Valid() && ov.AllBare() && InOnePiece(ov, [], cur, done)
    requires forall k :: k in ov.order && k.section == "" && cur != "" ==> k in done
    requires todo == Todo(ov.order, cur, done) && left == Without(ov.order, done + AsSet(todo))
    ensures forall k :: k in todo ==> k in ov.lines && IsBareEntry(ov.lines[k]) && k.section == cur
    ensures forall k :: k in left ==> k in ov.lines && k.section != "" && k !in done + AsSet(todo)
    ensures forall k :: k in ov.order ==> k in left || k in done + AsSet(todo)
    ensures forall k :: k in ov.order && k.section == cur ==> k in done + AsSet(todo)
    ensures Grouped(left, "") && Distinct(left) && (left != [] ==> left[0].section != "")
  {
    TodoMembers(ov.order, cur, done);
    WithoutMembers(ov.order, done + AsSet(todo));
    if ov.Contiguous() { WithoutGrouped(ov.order, done + AsSet(todo), ""); }
    WithoutDistinct(ov.order, done + AsSet(todo));
    assert TablesIn([]) == {} && Grouped([], "");
    hide Grouped, IsBareEntry, Todo, Without;
    assert left != [] ==> left[0] in left;
  }

  lemma ReplayHeader(
    ov: Overrides, todo: seq<Slot>, h: Line, rest: seq<Line>, cur: Line, done: set<Slot>, held: nat)
    requires ov.Valid() && ov.AllBare() && IsHeader(h) && todo == Todo(ov.order, cur, done)
    requires forall k :: k in todo ==> k in ov.lines
    ensures Rewrite(ov, LinesOf(ov, todo) + (Blanks(held) + ([h] + rest)), cur, done, 0)
         == LinesOf(ov, todo) + (Blanks(held) + ([h] + Rewrite(ov, rest, SectionOf(h), done + AsSet(todo), 0)))
  {
    hide Rewrite;
    TodoMembers(ov.order, cur, done);
    var printed := done + AsSet(todo);
    ReplayEntries(ov, todo, Blanks(held) + ([h] + rest), cur, done);
    ReplayBlanks(ov, held, [h] + rest, cur, printed, 0);
    StepFinished(ov, h, rest, cur, printed, held);
  }

  lemma {:induction false} ReplayEntry(ov: Overrides, k: Slot, rest: seq<Line>, done: set<Slot>, held: nat)
    requires ov.Valid() && ov.AllBare() && k in ov.lines
    ensures Rewrite(ov, Blanks(held) + ([ov.lines[k]] + rest), k.section, done, 0)
         == Blanks(held) + ([ov.lines[k]] + Rewrite(ov, rest, k.section, done + {k}, 0))
  {
    hide Rewrite;
    ReplayBlanks(ov, held, [ov.lines[k]] + rest, k.section, done, 0);
    StepEntry(ov, k, rest, k.section, done, held);
  }

  lemma ReplayOther(ov: Overrides, l: Line, rest: seq<Line>, cur: Line, done: set<Slot>, held: nat)
    requires ov.Valid() && !IsBlank(l) && !IsHeader(l)
    requires IsBareEntry(l) ==> Slot(cur, KeyOf(l)) !in ov.lines
    ensures Rewrite(ov, Blanks(held) + ([l] + rest), cur, done, 0)
         == Blanks(held) + ([l] + Rewrite(ov, rest, cur, done, 0))
  {
    hide Rewrite;
    ReplayBlanks(ov, held, [l] + rest, cur, done, 0);
    StepOther(ov, l, rest, cur, done, held);
  }

  // ---- The condition is needed ----

  /** No line of `t` would be replaced by entry `k`. */
  ghost predicate NeverHit(t: seq<Line>, cur: Line, k: Slot) {
    t == [] ||
    if IsHeader(t[0]) then NeverHit(t[1..], SectionOf(t[0]), k)
    else !(IsBareEntry(t[0]) && Slot(cur, KeyOf(t[0])) == k) && NeverHit(t[1..], cur, k)
  }

  lemma {:induction false} NeverShrinks(ov: Overrides, t: seq<Line>, cur: Line, done: set<Slot>, held: nat)
    requires ov.Valid()
    ensures |Rewrite(ov, t, cur, done, held)| >= |t| + held
    decreases |t|
  {
    if t == [] {
    } else if IsBlank(t[0]) {
      NeverShrinks(ov, t[1..], cur, done, held + 1);
    } else if IsHeader(t[0]) {
      NeverShrinks(ov, t[1..], SectionOf(t[0]), done + AsSet(Todo(ov.order, cur, done)), 0);
    } else {
      var k := Slot(cur, KeyOf(t[0]));
      NeverShrinks(ov, t[1..], cur, if IsBareEntry(t[0]) && k in ov.lines then done + {k} else done, 0);
    }
  }

  lemma {:induction false} MissingEntryGrows(
    ov: Overrides, t: seq<Line>, cur: Line, done: set<Slot>, held: nat, k: Slot)
    requires ov.Valid() && k in ov.lines && k !in done && NeverHit(t, cur, k)
    ensures |Rewrite(ov, t, cur, done, held)| > |t| + held
    decreases |t|
  {
    var todo := Todo(ov.order, cur, done);
    TodoMembers(ov.order, cur, done);
    if t == [] {
      if k !in todo { WithoutMembers(ov.order, done + AsSet(todo)); assert k in Without(ov.order, done + AsSet(todo)); }
    } else if IsBlank(t[0]) {
      MissingEntryGrows(ov, t[1..], cur, done, held + 1, k);
    } else if IsHeader(t[0]) {
      if k in todo {
        NeverShrinks(ov, t[1..], SectionOf(t[0]), done + AsSet(todo), 0);
      } else {
        MissingEntryGrows(ov, t[1..], SectionOf(t[0]), done + AsSet(todo), 0, k);
      }
    } else {
      var j := Slot(cur, KeyOf(t[0]));
      MissingEntryGrows(ov, t[1..], cur, if IsBareEntry(t[0]) && j in ov.lines then done + {j} else done, 0, k);
    }
  }

  lemma {:induction false} EntriesNeverHit(ov: Overrides, ks: seq<Slot>, rest: seq<Line>, cur: Line, k: Slot)
    requires ov.Valid() && k in ov.lines && !IsBareEntry(ov.lines[k])
    requires forall j :: j in ks ==> j in ov.lines && j.section == cur
    requires NeverHit(rest, cur, k)
    ensures NeverHit(LinesOf(ov, ks) + rest, cur, k)
  {
    if ks == [] {
      assert LinesOf(ov, ks) + rest == rest;
    } else {
      assert ov.ValidEntry(ks[0]);
      assert (LinesOf(ov, ks) + rest)[1..] == LinesOf(ov, ks[1..]) + rest;
      EntriesNeverHit(ov, ks[1..], rest, cur, k);
    }
  }

  lemma {:induction false} TablesNeverHit(ov: Overrides, ks: seq<Slot>, last: Line, k: Slot)
    requires ov.Valid() && k in ov.lines && !IsBareEntry(ov.lines[k])
    requires forall j :: j in ks ==> j in ov.lines && j.section != ""
    ensures NeverHit(NewTables(ov, ks, last), last, k)
  {
    if ks != [] {
      FirstTable(ov, ks, last);
      hide NewTables, KeyOf, IsIgnored, SectionOf, IsBareEntry, IsHeader;
      var s, l := ks[0].section, ov.lines[ks[0]];
      var rest := NewTables(ov, ks[1..], s);
      assert ov.ValidEntry(ks[0]);
      TablesNeverHit(ov, ks[1..], s, k);
      DataNeverHit(l, rest, s, k);
      HeaderNeverHit(s, [l] + rest, last, k);
      BlankNeverHit([s] + ([l] + rest), last, k);
    }
  }

  lemma DataNeverHit(l: Line, rest: seq<Line>, cur: Line, k: Slot)
    requires !IsHeader(l) && !(IsBareEntry(l) && Slot(cur, KeyOf(l)) == k) && NeverHit(rest, cur, k)
    ensures NeverHit([l] + rest, cur, k)
  {
    assert ([l] + rest)[1..] == rest;
  }

  lemma HeaderNeverHit(h: Line, rest: seq<Line>, cur: Line, k: Slot)
    requires IsHeader(h) && NeverHit(rest, SectionOf(h), k)
    ensures NeverHit([h] + rest, cur, k)
  {
    assert ([h] + rest)[1..] == rest;
  }

  lemma BlankNeverHit(rest: seq<Line>, cur: Line, k: Slot)
    requires NeverHit(rest, cur, k)
    ensures NeverHit([""] + rest, cur, k)
  {
    DataNeverHit("", rest, cur, k);
  }

  /** With a table split in two, the second pass adds its later entries under its first header. */
  lemma {:induction false} SplitTableGrows(ov: Overrides, ks: seq<Slot>, last: Line, done: set<Slot>, held: nat)
    requires ov.Valid() && ov.AllBare() && !Grouped(ks, last)
    requires Distinct(ks)
    requires forall k :: k in ks ==> k in ov.lines && k.section != "" && k !in done
    ensures |Rewrite(ov, NewTables(ov, ks, last), last, done, held)| > |NewTables(ov, ks, last)| + held
  {
    FirstTable(ov, ks, last);
    hide Rewrite, SectionOf, KeyOf, IsHeader, IsIgnored, IsBareEntry, Todo, NewTables;
    var k, l, s := ks[0], ov.lines[ks[0]], ks[0].section;
    var rest := NewTables(ov, ks[1..], s);
    assert ov.ValidEntry(k);
    if s == last {
      StepEntry(ov, k, rest, last, done, held);
      TailOf(ks, done);
      hide Distinct, Sections;
      SplitTableGrows(ov, ks[1..], s, done + {k}, 0);
      return;
    }
    StepBlank(ov, "", [s] + ([l] + rest), last, done, held);
    if last in Sections(ks) {
      var j :| j in ks && j.section == last;
      UnfinishedTableGrows(ov, s, [l] + rest, last, done, held + 1, j);
    } else {
      var printed := done + AsSet(Todo(ov.order, last, done));
      TodoMembers(ov.order, last, done);
      StepHeader(ov, s, [l] + rest, last, done, held + 1);
      StepEntry(ov, k, rest, s, printed, 0);
      assert forall j :: j in ks ==> j.section in Sections(ks);
      TailOf(ks, printed);
      hide Distinct, Sections;
      SplitTableGrows(ov, ks[1..], s, printed + {k}, 0);
    }
  }

  lemma UnfinishedTableGrows(ov: Overrides, h: Line, rest: seq<Line>, cur: Line, done: set<Slot>, held: nat, k: Slot)
    requires ov.Valid() && IsHeader(h) && k in ov.order && k.section == cur && k !in done
    ensures |Rewrite(ov, [h] + rest, cur, done, held)| > |[h] + rest| + held
  {
    var todo := Todo(ov.order, cur, done);
    TodoMembers(ov.order, cur, done);
    assert k in todo;
    StepHeader(ov, h, rest, cur, done, held);
    NeverShrinks(ov, rest, SectionOf(h), done + AsSet(todo), 0);
  }

  /** Dropping the top-level entries keeps a split table split. */
  lemma {:induction false} TopDoesNotSplit(ks: seq<Slot>, top: set<Slot>, last: Line)
    requires forall k :: k in ks ==> (k in top <==> k.section == "")
    requires TopLevelFirst(ks)
    requires last != "" ==> forall k :: k in ks ==> k.section != ""
    requires Grouped(Without(ks, top), last)
    ensures Grouped(ks, last)
  {
    if ks != [] {
      if ks[0].section == "" {
        assert Without(ks, top) == Without(ks[1..], top);
        TopDoesNotSplit(ks[1..], top, last);
      } else {
        NothingDropped(ks, top);
      }
    }
  }

  lemma {:induction false} NothingDropped(ks: seq<Slot>, done: set<Slot>)
    requires forall k :: k in ks ==> k !in done
    ensures Without(ks, done) == ks
  {
    if ks != [] { NothingDropped(ks[1..], done); }
  }

  ghost predicate TopLevelFirst(ks: seq<Slot>) {
    forall i, j :: 0 <= i < j < |ks| && ks[j].section == "" ==> ks[i].section == ""
  }

  lemma {:induction false} TopFirst(o: seq<Line>, section: Line, ov: Overrides)
    requires section != "" ==> IsHeader(section) && SectionOf(section) == section
    requires TopLevelFirst(ov.order)
    requires section == "" ==> forall k :: k in ov.order ==> k.section == ""
    ensures TopLevelFirst(ReadOverrides(o, section, ov).order)
  {
    if o == [] {
    } else if IsIgnored(o[0]) {
      TopFirst(o[1..], section, ov);
    } else if IsHeader(o[0]) {
      SectionIsItsOwnHeader(o[0]);
      TopFirst(o[1..], SectionOf(o[0]), ov);
    } else {
      TopFirst(o[1..], section, Record(ov, Slot(section, KeyOf(o[0])), o[0]));
    }
  }

  // ---- Merging a merged file ----

  lemma {:induction false} TablesAppend(f: seq<Line>, g: seq<Line>)
    ensures TablesIn(f) <= TablesIn(f + g) && TablesIn(g) <= TablesIn(f + g)
  {
    hide IsHeader, SectionOf;
    if f == [] {
      assert f + g == g;
    } else {
      assert (f + g)[1..] == f[1..] + g;
      TablesAppend(f[1..], g);
    }
  }

  lemma {:induction false} NewTablesIn(ov: Overrides, ks: seq<Slot>, last: Line)
    requires ov.Valid() && forall k :: k in ks ==> k in ov.lines && k.section != ""
    ensures forall k :: k in ks ==> k.section == last || k.section in TablesIn(NewTables(ov, ks, last))
  {
    if ks != [] {
      var s, l := ks[0].section, ov.lines[ks[0]];
      var rest := NewTables(ov, ks[1..], s);
      assert IsHeader(s) && SectionOf(s) == s by { assert ov.ValidEntry(ks[0]); }
      FirstTable(ov, ks, last);
      NewTablesIn(ov, ks[1..], s);
      hide TablesIn, NewTables, IsHeader, SectionOf, Overrides.Valid;
      TablesAppend([l], rest);
      OneMoreTable(s, [l] + rest);
      TablesAppend([""], [s] + ([l] + rest));
    }
  }

  /** After a merge the file has every table of the overrides. */
  lemma {:induction false} RewriteHasTables(ov: Overrides, t: seq<Line>, cur: Line, done: set<Slot>, held: nat)
    requires ov.Valid()
    requires forall k :: k in ov.order && k.section == "" && cur != "" ==> k in done
    ensures forall k :: k in ov.order ==>
              k in done || k.section == cur || k.section in TablesIn(Rewrite(ov, t, cur, done, held))
    decreases |t|
  {
    hide Rewrite, SectionOf, KeyOf, IsBlank, IsHeader, IsBareEntry, TablesIn, NewTables, Todo, Without;
    if t == [] {
      var todo, left := StepLast(ov, cur, done, held);
      NewTablesIn(ov, left, "");
      TablesAppend(Blanks(held), NewTables(ov, left, ""));
      TablesAppend(LinesOf(ov, todo), Blanks(held) + NewTables(ov, left, ""));
      return;
    }
    var l, rest := t[0], t[1..];
    assert t == [l] + rest;
    if IsBlank(l) {
      StepBlank(ov, l, rest, cur, done, held);
      RewriteHasTables(ov, rest, cur, done, held + 1);
    } else if IsHeader(l) {
      var todo := Todo(ov.order, cur, done);
      TodoMembers(ov.order, cur, done);
      StepHeader(ov, l, rest, cur, done, held);
      var u := Rewrite(ov, rest, SectionOf(l), done + AsSet(todo), 0);
      RewriteHasTables(ov, rest, SectionOf(l), done + AsSet(todo), 0);
      OneMoreTable(l, u);
      TablesAppend(Blanks(held), [l] + u);
      TablesAppend(LinesOf(ov, todo), Blanks(held) + ([l] + u));
    } else if IsBareEntry(l) && Slot(cur, KeyOf(l)) in ov.lines {
      var k := Slot(cur, KeyOf(l));
      StepHit(ov, l, rest, cur, done, held);
      RewriteHasTables(ov, rest, cur, done + {k}, 0);
      TablesAppend([ov.lines[k]], Rewrite(ov, rest, cur, done + {k}, 0));
      TablesAppend(Blanks(held), [ov.lines[k]] + Rewrite(ov, rest, cur, done + {k}, 0));
    } else {
      StepOther(ov, l, rest, cur, done, held);
      RewriteHasTables(ov, rest, cur, done, 0);
      TablesAppend([l], Rewrite(ov, rest, cur, done, 0));
      TablesAppend(Blanks(held), [l] + Rewrite(ov, rest, cur, done, 0));
    }
  }

  lemma {:induction false} BlanksNeverHit(n: nat, rest: seq<Line>, cur: Line, k: Slot)
    requires NeverHit(rest, cur, k)
    ensures NeverHit(Blanks(n) + rest, cur, k)
  {
    if n == 0 {
      NoBlanks(rest);
    } else {
      BlanksNeverHit(n - 1, rest, cur, k);
      BlankNeverHit(Blanks(n - 1) + rest, cur, k);
      assert Blanks(n) + rest == [""] + (Blanks(n - 1) + rest);
    }
  }

  /** New tables start with a header, so the table before them does not matter. */
  lemma TablesNeverHitAnywhere(ov: Overrides, ks: seq<Slot>, cur: Line, k: Slot)
    requires ov.Valid() && k in ov.lines && !IsBareEntry(ov.lines[k])
    requires forall j :: j in ks ==> j in ov.lines && j.section != ""
    ensures NeverHit(NewTables(ov, ks, ""), cur, k)
  {
    if ks != [] {
      var s, l := ks[0].section, ov.lines[ks[0]];
      var rest := NewTables(ov, ks[1..], s);
      FirstTable(ov, ks, "");
      assert IsHeader(s) && SectionOf(s) == s && !IsHeader(l) && KeyOf(l) == ks[0].key by { assert ov.ValidEntry(ks[0]); }
      hide NewTables, NeverHit, IsHeader, SectionOf, KeyOf, IsBareEntry, Overrides.Valid;
      TablesNeverHit(ov, ks[1..], s, k);
      DataNeverHit(l, rest, s, k);
      HeaderNeverHit(s, [l] + rest, cur, k);
      BlankNeverHit([s] + ([l] + rest), cur, k);
    }
  }

  /** No line of a merged file would be replaced by an override that the merge cannot read back. */
  lemma {:induction false} RewriteNeverHit(ov: Overrides, t: seq<Line>, cur: Line, done: set<Slot>, held: nat, k: Slot)
    requires ov.Valid() && k in ov.lines && !IsBareEntry(ov.lines[k])
    requires forall j :: j in ov.order && j.section == "" && cur != "" ==> j in done
    ensures NeverHit(Rewrite(ov, t, cur, done, held), cur, k)
    decreases |t|
  {
    hide Rewrite, SectionOf, KeyOf, IsBlank, IsHeader, IsBareEntry, NeverHit, NewTables, Todo, Without;
    if t == [] {
      var todo, left := StepLast(ov, cur, done, held);
      TablesNeverHitAnywhere(ov, left, cur, k);
      BlanksNeverHit(held, NewTables(ov, left, ""), cur, k);
      EntriesNeverHit(ov, todo, Blanks(held) + NewTables(ov, left, ""), cur, k);
      return;
    }
    var l, rest := t[0], t[1..];
    assert t == [l] + rest;
    if IsBlank(l) {
      StepBlank(ov, l, rest, cur, done, held);
      RewriteNeverHit(ov, rest, cur, done, held + 1, k);
    } else if IsHeader(l) {
      var todo := Todo(ov.order, cur, done);
      TodoMembers(ov.order, cur, done);
      StepHeader(ov, l, rest, cur, done, held);
      var u := Rewrite(ov, rest, SectionOf(l), done + AsSet(todo), 0);
      RewriteNeverHit(ov, rest, SectionOf(l), done + AsSet(todo), 0, k);
      HeaderNeverHit(l, u, cur, k);
      BlanksNeverHit(held, [l] + u, cur, k);
      EntriesNeverHit(ov, todo, Blanks(held) + ([l] + u), cur, k);
    } else if IsBareEntry(l) && Slot(cur, KeyOf(l)) in ov.lines {
      var j := Slot(cur, KeyOf(l));
      StepHit(ov, l, rest, cur, done, held);
      RewriteNeverHit(ov, rest, cur, done + {j}, 0, k);
      var u := Rewrite(ov, rest, cur, done + {j}, 0);
      assert !IsHeader(ov.lines[j]) && KeyOf(ov.lines[j]) == j.key by { assert ov.ValidEntry(j); }
      DataNeverHit(ov.lines[j], u, cur, k);
      BlanksNeverHit(held, [ov.lines[j]] + u, cur, k);
    } else {
      StepOther(ov, l, rest, cur, done, held);
      RewriteNeverHit(ov, rest, cur, done, 0, k);
      DataNeverHit(l, Rewrite(ov, rest, cur, done, 0), cur, k);
      BlanksNeverHit(held, [l] + Rewrite(ov, rest, cur, done, 0), cur, k);
    }
  }
}
