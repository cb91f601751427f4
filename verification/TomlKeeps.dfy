/** The merge never loses or reorders a line of its target. */
module TomlKeeps {
  import opened Sequences
  import opened TomlLines
  import opened TomlMerge
  import opened TomlReading
  import opened TomlSteps

  /** One line of the output, whether it is the target's own or an override in its place. */
  lemma KeepsLine(before: seq<Line>, held: nat, l: Line, own: seq<Line>, out: seq<Line>)
    requires Within(Blanks(0) + own, out)
    ensures Within(Blanks(held) + ([l] + own), before + (Blanks(held) + ([l] + out)))
    ensures Within(Blanks(held) + own, Blanks(held) + ([l] + out))
  {
    NoBlanks(own);
    hide Within;
    WithinSame([l], own, out);
    WithinMore(own, l, out);
    WithinSame(Blanks(held), [l] + own, [l] + out);
    WithinSame(Blanks(held), own, [l] + out);
    WithinPrefix(Blanks(held) + ([l] + own), before, Blanks(held) + ([l] + out));
  }

  lemma NothingBefore(out: seq<Line>)
    ensures [] + out == out
  {
  }

  lemma OwnSteps(ov: Overrides, t: seq<Line>, cur: Line)
    requires t != []
    ensures Own(ov, t, cur) ==
      (if IsHeader(t[0]) then [t[0]] + Own(ov, t[1..], SectionOf(t[0]))
       else if IsBlank(t[0]) then [""] + Own(ov, t[1..], cur)
       else if IsBareEntry(t[0]) && Slot(cur, KeyOf(t[0])) in ov.lines then Own(ov, t[1..], cur)
       else [t[0]] + Own(ov, t[1..], cur))
  {
  }

  lemma EndWithin(ov: Overrides, cur: Line, done: set<Slot>, held: nat)
    requires ov.Valid()
    ensures Within(Blanks(held) + Own(ov, [], cur), Rewrite(ov, [], cur, done, held))
  {
    TodoMembers(ov.order, cur, done);
    var todo := Todo(ov.order, cur, done);
    var left := Without(ov.order, done + AsSet(todo));
    WithoutMembers(ov.order, done + AsSet(todo));
    assert Own(ov, [], cur) == [];
    var rest := Blanks(held) + NewTables(ov, left, "");
    assert Rewrite(ov, [], cur, done, held) == LinesOf(ov, todo) + rest;
    assert Within([], NewTables(ov, left, ""));
    hide *;
    WithinSame(Blanks(held), [], NewTables(ov, left, ""));
    WithinPrefix(Blanks(held) + [], LinesOf(ov, todo), rest);
  }

  lemma {:induction false} RewriteWithin(ov: Overrides, t: seq<Line>, cur: Line, done: set<Slot>, held: nat)
    requires ov.Valid()
    ensures Within(Blanks(held) + Own(ov, t, cur), Rewrite(ov, t, cur, done, held))
    decreases |t|, 0
  {
    hide Rewrite, Own, SectionOf, KeyOf, IsHeader, IsBareEntry, IsBlank, Within;
    if t == [] {
      EndWithin(ov, cur, done, held);
    } else {
      var l, rest := t[0], t[1..];
      assert t == [l] + rest;
      OwnSteps(ov, t, cur);
      if IsBlank(l) {
        BlankIsNoHeader(l);
        StepBlank(ov, l, rest, cur, done, held);
        RewriteWithin(ov, rest, cur, done, held + 1);
        OneMoreBlank(held, Own(ov, rest, cur));
      } else if IsHeader(l) {
        HeaderWithin(ov, l, rest, cur, done, held);
      } else if IsBareEntry(l) && Slot(cur, KeyOf(l)) in ov.lines {
        var k := Slot(cur, KeyOf(l));
        StepHit(ov, l, rest, cur, done, held);
        RewriteWithin(ov, rest, cur, done + {k}, 0);
        KeepsLine([], held, ov.lines[k], Own(ov, rest, cur), Rewrite(ov, rest, cur, done + {k}, 0));
      } else {
        StepOther(ov, l, rest, cur, done, held);
        RewriteWithin(ov, rest, cur, done, 0);
        KeepsLine([], held, l, Own(ov, rest, cur), Rewrite(ov, rest, cur, done, 0));
        NothingBefore(Blanks(held) + ([l] + Rewrite(ov, rest, cur, done, 0)));
      }
    }
  }

  lemma {:induction false} HeaderWithin(ov: Overrides, l: Line, rest: seq<Line>, cur: Line, done: set<Slot>, held: nat)
    requires ov.Valid() && IsHeader(l)
    ensures Within(Blanks(held) + ([l] + Own(ov, rest, SectionOf(l))), Rewrite(ov, [l] + rest, cur, done, held))
    decreases |rest|, 1
  {
    var todo := Todo(ov.order, cur, done);
    StepHeader(ov, l, rest, cur, done, held);
    hide *;
    RewriteWithin(ov, rest, SectionOf(l), done + AsSet(todo), 0);
    KeepsLine(LinesOf(ov, todo), held, l, Own(ov, rest, SectionOf(l)),
              Rewrite(ov, rest, SectionOf(l), done + AsSet(todo), 0));
  }

  /** Whatever the override file holds: the target's own lines all come out again, in order. */
  lemma MergeLosesNothing(o: seq<Line>, t: seq<Line>)
    ensures Within(Own(Parse(o), t, ""), Merge(o, t))
  {
    ParseValid(o);
    RewriteWithin(Parse(o), t, "", {}, 0);
    NoBlanks(Own(Parse(o), t, ""));
    hide Within, Own, Rewrite, Parse;
  }
}
