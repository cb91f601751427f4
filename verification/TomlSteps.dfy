/**
 How the second pass of the merge goes on from any point, line by line: what a
 blank, a header, an overridden entry and any other line print, and what is
 printed at the end of the target; with the facts about lists of entries that
 the end needs.
 */
module TomlSteps {
  import opened TomlLines
  import opened TomlMerge

  // ---- One line of the second pass ----

  lemma StepBlank(ov: Overrides, l: Line, rest: seq<Line>, cur: Line, done: set<Slot>, held: nat)
    requires ov.Valid() && IsBlank(l)
    ensures Rewrite(ov, [l] + rest, cur, done, held) == Rewrite(ov, rest, cur, done, held + 1)
  {
    assert ([l] + rest)[1..] == rest;
  }

  lemma StepHit(ov: Overrides, l: Line, rest: seq<Line>, cur: Line, done: set<Slot>, held: nat)
    requires ov.Valid() && IsBareEntry(l) && Slot(cur, KeyOf(l)) in ov.lines
    ensures var k := Slot(cur, KeyOf(l));
            Rewrite(ov, [l] + rest, cur, done, held)
            == Blanks(held) + ([ov.lines[k]] + Rewrite(ov, rest, cur, done + {k}, 0))
  {
    BareEntryIsData(l);
    assert ([l] + rest)[1..] == rest;
  }

  lemma StepEntry(ov: Overrides, k: Slot, rest: seq<Line>, cur: Line, done: set<Slot>, held: nat)
    requires ov.Valid() && k in ov.lines && k.section == cur && IsBareEntry(ov.lines[k])
    ensures Rewrite(ov, [ov.lines[k]] + rest, cur, done, held)
         == Blanks(held) + ([ov.lines[k]] + Rewrite(ov, rest, cur, done + {k}, 0))
  {
    assert ov.ValidEntry(k);
    assert Slot(cur, KeyOf(ov.lines[k])) == k;
    StepHit(ov, ov.lines[k], rest, cur, done, held);
  }

  lemma {:induction false} StepHeader(ov: Overrides, h: Line, rest: seq<Line>, cur: Line, done: set<Slot>, held: nat)
    requires ov.Valid() && IsHeader(h)
    ensures forall k :: k in Todo(ov.order, cur, done) ==> k in ov.lines
    ensures var todo := Todo(ov.order, cur, done);
            Rewrite(ov, [h] + rest, cur, done, held)
            == LinesOf(ov, todo) + (Blanks(held) + ([h] + Rewrite(ov, rest, SectionOf(h), done + AsSet(todo), 0)))
  {
    TodoMembers(ov.order, cur, done);
    var todo := Todo(ov.order, cur, done);
    StepHeaderFlat(ov, h, rest, cur, done, held);
    Reassociate(LinesOf(ov, todo), Blanks(held), [h], Rewrite(ov, rest, SectionOf(h), done + AsSet(todo), 0));
  }

  lemma StepHeaderFlat(ov: Overrides, h: Line, rest: seq<Line>, cur: Line, done: set<Slot>, held: nat)
    requires ov.Valid() && IsHeader(h)
    requires forall k :: k in Todo(ov.order, cur, done) ==> k in ov.lines
    ensures var todo := Todo(ov.order, cur, done);
            Rewrite(ov, [h] + rest, cur, done, held)
            == LinesOf(ov, todo) + Blanks(held) + [h] + Rewrite(ov, rest, SectionOf(h), done + AsSet(todo), 0)
  {
    hide Todo, LinesOf, Blanks, SectionOf, KeyOf, IsBareEntry, Overrides.Valid;
    assert ([h] + rest)[1..] == rest;
  }

  lemma Reassociate(a: seq<Line>, b: seq<Line>, c: seq<Line>, d: seq<Line>)
    ensures a + b + c + d == a + (b + (c + d))
  {
  }

  /** A header met when its predecessor's table is complete. */
  lemma {:induction false} StepFinished(ov: Overrides, h: Line, rest: seq<Line>, cur: Line, done: set<Slot>, held: nat)
    requires ov.Valid() && IsHeader(h)
    requires forall k :: k in ov.order && k.section == cur ==> k in done
    ensures Rewrite(ov, [h] + rest, cur, done, held)
         == Blanks(held) + ([h] + Rewrite(ov, rest, SectionOf(h), done, 0))
  {
    hide Rewrite;
    StepHeader(ov, h, rest, cur, done, held);
    NothingTodo(ov.order, cur, done);
    assert done + AsSet([]) == done;
  }

  lemma StepOther(ov: Overrides, l: Line, rest: seq<Line>, cur: Line, done: set<Slot>, held: nat)
    requires ov.Valid() && !IsBlank(l) && !IsHeader(l)
    requires IsBareEntry(l) ==> Slot(cur, KeyOf(l)) !in ov.lines
    ensures Rewrite(ov, [l] + rest, cur, done, held) == Blanks(held) + ([l] + Rewrite(ov, rest, cur, done, 0))
  {
    assert ([l] + rest)[1..] == rest;
  }

  lemma StepEnd(ov: Overrides, cur: Line, done: set<Slot>, held: nat)
    requires ov.Valid() && forall k :: k in ov.order ==> k in done
    ensures Rewrite(ov, [], cur, done, held) == Blanks(held)
  {
    NothingTodo(ov.order, cur, done);
    assert done + AsSet([]) == done;
    NothingLeft(ov.order, done);
  }

  lemma NothingTodo(ks: seq<Slot>, section: Line, done: set<Slot>)
    requires forall k :: k in ks && k.section == section ==> k in done
    ensures Todo(ks, section, done) == []
  {
    TodoMembers(ks, section, done);
    if Todo(ks, section, done) != [] { assert Todo(ks, section, done)[0] in Todo(ks, section, done); }
  }

  lemma NothingLeft(ks: seq<Slot>, done: set<Slot>)
    requires forall k :: k in ks ==> k in done
    ensures Without(ks, done) == []
  {
    WithoutMembers(ks, done);
    if Without(ks, done) != [] { assert Without(ks, done)[0] in Without(ks, done); }
  }

  /** What the first pass prints at the end of the target. */
  lemma StepLast(ov: Overrides, cur: Line, done: set<Slot>, held: nat) returns (todo: seq<Slot>, left: seq<Slot>)
    requires ov.Valid()
    ensures todo == Todo(ov.order, cur, done) && left == Without(ov.order, done + AsSet(todo))
    ensures forall k :: k in todo <==> k in ov.order && k.section == cur && k !in done
    ensures forall k :: k in left <==> k in ov.order && k !in done && k.section != cur
    ensures Rewrite(ov, [], cur, done, held) == LinesOf(ov, todo) + (Blanks(held) + NewTables(ov, left, ""))
  {
    todo := Todo(ov.order, cur, done);
    left := Without(ov.order, done + AsSet(todo));
    TodoMembers(ov.order, cur, done);
    WithoutMembers(ov.order, done + AsSet(todo));
  }

  lemma {:induction false} ReplayBlanks(ov: Overrides, n: nat, rest: seq<Line>, cur: Line, done: set<Slot>, held: nat)
    requires ov.Valid()
    ensures Rewrite(ov, Blanks(n) + rest, cur, done, held) == Rewrite(ov, rest, cur, done, held + n)
  {
    if n == 0 {
      assert Blanks(n) + rest == rest;
    } else {
      assert Blanks(n) + rest == [""] + (Blanks(n - 1) + rest);
      StepBlank(ov, "", Blanks(n - 1) + rest, cur, done, held);
      ReplayBlanks(ov, n - 1, rest, cur, done, held + 1);
    }
  }

  lemma NoBlanks(rest: seq<Line>)
    ensures Blanks(0) + rest == rest
  {
  }

  lemma OneMoreBlank(n: nat, rest: seq<Line>)
    ensures Blanks(n + 1) + rest == Blanks(n) + ([""] + rest)
  {
    BlanksSucc(n);
  }

  lemma {:induction false} BlanksSucc(n: nat)
    ensures Blanks(n + 1) == Blanks(n) + [""]
  {
    if n > 0 { BlanksSucc(n - 1); }
  }

  // ---- Grouped entries ----

  /** `last` may stand for an earlier table that has no entry left in `ks`. */
  lemma {:induction false} GroupedAfterDrop(ks: seq<Slot>, x: Line, last: Line)
    requires Grouped(ks, x) && last !in Sections(ks)
    ensures Grouped(ks, last)
  {
    if ks != [] { assert ks[0].section in Sections(ks); }
  }

  lemma {:induction false} WithoutGrouped(ks: seq<Slot>, done: set<Slot>, last: Line)
    requires Grouped(ks, last)
    ensures Grouped(Without(ks, done), last)
    ensures Sections(Without(ks, done)) <= Sections(ks)
  {
    WithoutMembers(ks, done);
    if ks != [] {
      var rest := Without(ks[1..], done);
      WithoutGrouped(ks[1..], done, ks[0].section);
      assert forall k :: k in rest ==> k.section in Sections(ks);
      if ks[0] in done {
        assert Without(ks, done) == rest;
        if ks[0].section != last { GroupedAfterDrop(rest, ks[0].section, last); }
      } else {
        assert Without(ks, done) == [ks[0]] + rest;
      }
    }
  }

  lemma {:induction false} WithoutDistinct(ks: seq<Slot>, done: set<Slot>)
    requires Distinct(ks)
    ensures Distinct(Without(ks, done))
  {
    if ks != [] {
      var rest := Without(ks[1..], done);
      WithoutDistinct(ks[1..], done);
      WithoutMembers(ks[1..], done);
      if ks[0] !in done {
        var r := Without(ks, done);
        assert r == [ks[0]] + rest;
        forall i, j | 0 <= i < j < |r| ensures r[i] != r[j] {
          assert r[j] == rest[j - 1] && r[j] in ks[1..];
          var m :| 0 <= m < |ks[1..]| && ks[1..][m] == r[j];
          assert ks[m + 1] == r[j];
          if i > 0 { assert r[i] == rest[i - 1]; }
        }
      }
    }
  }

  lemma NextTable(ks: seq<Slot>, order: seq<Slot>, last: Line, done: set<Slot>)
    requires ks != [] && Grouped(ks, last) && Distinct(ks)
    requires forall k :: k in ks ==> k !in done
    requires forall k :: k in order ==> k in ks || k in done
    ensures Grouped(ks[1..], ks[0].section) && Distinct(ks[1..])
    ensures forall k :: k in ks[1..] ==> k in ks && k !in done + {ks[0]}
    ensures forall k :: k in order ==> k in ks[1..] || k in done + {ks[0]}
    ensures (ks[1..] != [] && ks[1..][0].section == ks[0].section)
            || forall k :: k in order && k.section == ks[0].section ==> k in done + {ks[0]}
  {
    TailOf(ks, done);
    assert forall k :: k in ks[1..] ==> k.section in Sections(ks[1..]);
  }

  lemma TailOf(ks: seq<Slot>, done: set<Slot>)
    requires ks != [] && Distinct(ks) && forall k :: k in ks ==> k !in done
    ensures Distinct(ks[1..])
    ensures forall k :: k in ks[1..] ==> k in ks && k !in done + {ks[0]}
    ensures forall k :: k in ks ==> k in ks[1..] || k in done + {ks[0]}
  {
  }
}
