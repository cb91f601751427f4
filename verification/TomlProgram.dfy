/** The awk programs themselves, as loops, and the override files TOML allows. */
module TomlProgram {
  import opened Sequences
  import opened TomlLines
  import opened TomlMerge
  import opened TomlSteps

  /** First pass: the arrays `ov` and `order`. */
  method ReadOverrideFile(o: seq<Line>) returns (ov: Overrides)
    ensures ov == Parse(o)
  {
    var order: seq<Slot>, lines: map<Slot, Line>, section := [], map[], "";
    var i := 0;
    while i < |o|
      invariant 0 <= i <= |o|
      invariant ReadOverrides(o[i..], section, Overrides(order, lines)) == Parse(o)
    {
      assert o[i..][1..] == o[i + 1..];
      var l := o[i];
      if IsIgnored(l) {
      } else if IsHeader(l) {
        section := SectionOf(l);
      } else {
        var k := Slot(section, KeyOf(l));
        if k !in lines { order := order + [k]; }
        lines := lines[k := l];
      }
      i := i + 1;
    }
    ov := Overrides(order, lines);
  }

  /** `flush()` has looked at the first `i` entries of `order`. */
  ghost predicate Flushed(
    ov: Overrides, cur: Line, done: set<Slot>, i: nat, printed: seq<Line>, done': set<Slot>)
    requires ov.Valid()
  {
    TodoMembers(ov.order, cur, done);
    && i <= |ov.order|
    && (TodoMembers(ov.order[i..], cur, done);
        printed + LinesOf(ov, Todo(ov.order[i..], cur, done)) == LinesOf(ov, Todo(ov.order, cur, done)))
    && done' + AsSet(Todo(ov.order[i..], cur, done)) == done + AsSet(Todo(ov.order, cur, done))
    && done <= done' && forall k :: k in done' ==> k in done || k in ov.order[..i]
  }

  lemma FlushedStep(ov: Overrides, cur: Line, done: set<Slot>, i: nat, printed: seq<Line>, done': set<Slot>)
    requires ov.Valid() && Flushed(ov, cur, done, i, printed, done') && i < |ov.order|
    ensures ov.order[i] in ov.lines
    ensures var k := ov.order[i];
            if k.section == cur && k !in done'
            then Flushed(ov, cur, done, i + 1, printed + [ov.lines[k]], done' + {k})
            else Flushed(ov, cur, done, i + 1, printed, done')
  {
    var k := ov.order[i];
    NotBefore(ov.order, i);
    TodoStep(ov.order, i, cur, done);
    TodoMembers(ov.order[i + 1..], cur, done);
    var rest := Todo(ov.order[i + 1..], cur, done);
    assert k in ov.lines;
    if k.section == cur && k !in done' {
      LinesStep(ov, k, rest);
      Associate(printed, [ov.lines[k]], LinesOf(ov, rest));
    }
    hide Todo, LinesOf, Overrides.Valid, AsSet;
  }

  lemma LinesStep(ov: Overrides, k: Slot, ks: seq<Slot>)
    requires k in ov.lines && forall j :: j in ks ==> j in ov.lines
    ensures LinesOf(ov, [k] + ks) == [ov.lines[k]] + LinesOf(ov, ks)
  {
    assert ([k] + ks)[1..] == ks;
  }

  lemma TodoStep(ks: seq<Slot>, i: nat, cur: Line, done: set<Slot>)
    requires i < |ks|
    ensures var rest := Todo(ks[i + 1..], cur, done);
            if ks[i].section == cur && ks[i] !in done
            then Todo(ks[i..], cur, done) == [ks[i]] + rest && AsSet([ks[i]] + rest) == {ks[i]} + AsSet(rest)
            else Todo(ks[i..], cur, done) == rest
  {
    assert ks[i..][1..] == ks[i + 1..];
  }

  lemma NotBefore(ks: seq<Slot>, i: nat)
    requires Distinct(ks) && i < |ks|
    ensures ks[i] !in ks[..i]
    ensures forall k :: k in ks[..i + 1] <==> k in ks[..i] || k == ks[i]
  {
    assert ks[..i + 1] == ks[..i] + [ks[i]];
  }

  /** `flush()`: print what the table `cur` still lacks. */
  method Flush(ov: Overrides, cur: Line, done: set<Slot>) returns (printed: seq<Line>, done': set<Slot>)
    requires ov.Valid()
    ensures forall k :: k in Todo(ov.order, cur, done) ==> k in ov.lines
    ensures printed == LinesOf(ov, Todo(ov.order, cur, done))
    ensures done' == done + AsSet(Todo(ov.order, cur, done))
  {
    FlushedEnds(ov, cur, done);
    hide *;
    printed, done' := [], done;
    var i := 0;
    while i < |ov.order|
      invariant Flushed(ov, cur, done, i, printed, done')
    {
      FlushedStep(ov, cur, done, i, printed, done');
      var k := ov.order[i];
      if k.section == cur && k !in done' {
        printed := printed + [ov.lines[k]];
        done' := done' + {k};
      }
      i := i + 1;
    }
  }

  lemma {:induction false} FlushedEnds(ov: Overrides, cur: Line, done: set<Slot>)
    requires ov.Valid()
    ensures forall k :: k in Todo(ov.order, cur, done) ==> k in ov.lines
    ensures Flushed(ov, cur, done, 0, [], done)
    ensures forall i: nat, printed, done' :: Flushed(ov, cur, done, i, printed, done') ==>
              && i <= |ov.order|
              && (i == |ov.order| ==>
                    && printed == LinesOf(ov, Todo(ov.order, cur, done))
                    && done' == done + AsSet(Todo(ov.order, cur, done)))
  {
    TodoMembers(ov.order, cur, done);
    assert ov.order[0..] == ov.order && ov.order[|ov.order|..] == [];
    forall i: nat, printed, done' | Flushed(ov, cur, done, i, printed, done') && i == |ov.order|
      ensures printed == LinesOf(ov, Todo(ov.order, cur, done))
      ensures done' == done + AsSet(Todo(ov.order, cur, done))
    {
      assert printed + LinesOf(ov, []) == printed;
      assert done' + AsSet([]) == done';
    }
  }

  /** The first `i` lines of the target are merged into `out`. */
  ghost predicate Merged(
    o: seq<Line>, t: seq<Line>, i: nat, out: seq<Line>, cur: Line, done: set<Slot>, nb: nat)
  {
    ParseValid(o);
    i <= |t| && out + Rewrite(Parse(o), t[i..], cur, done, nb) == Merge(o, t)
  }

  lemma MergedStart(o: seq<Line>, t: seq<Line>)
    ensures Merged(o, t, 0, [], "", {}, 0)
  {
    assert t[0..] == t;
  }

  /** Reading line `i` prints `printed` and leaves the second pass in the given state. */
  lemma MergedStep(
    o: seq<Line>, t: seq<Line>, i: nat, out: seq<Line>, cur: Line, done: set<Slot>, nb: nat,
    printed: seq<Line>, cur': Line, done': set<Slot>, nb': nat)
    requires i < |t| && Merged(o, t, i, out, cur, done, nb) && Parse(o).Valid()
    requires Rewrite(Parse(o), [t[i]] + t[i + 1..], cur, done, nb)
          == printed + Rewrite(Parse(o), t[i + 1..], cur', done', nb')
    ensures Merged(o, t, i + 1, out + printed, cur', done', nb')
  {
    hide Rewrite, Merge, Parse;
    assert t[i..] == [t[i]] + t[i + 1..];
    Associate(out, printed, Rewrite(Parse(o), t[i + 1..], cur', done', nb'));
  }

  /**
   The second pass over the target. The override file is never empty: the
   script merges only when it has content.
   */
  method TMerge(o: seq<Line>, t: seq<Line>) returns (out: seq<Line>)
    requires o != []
    ensures out == Merge(o, t)
  {
    var ov := ReadOverrideFile(o);
    ParseValid(o);
    MergedStart(o, t);
    out := [];
    var cur: Line, done: set<Slot>, nb: nat, i := "", {}, 0, 0;
    while i < |t|
      invariant i <= |t| && Merged(o, t, i, out, cur, done, nb)
    {
      var printed, cur', done', nb' := MergeLine(ov, t[i], t[i + 1..], cur, done, nb);
      MergedStep(o, t, i, out, cur, done, nb, printed, cur', done', nb');
      hide *;
      out, cur, done, nb := out + printed, cur', done', nb';
      i := i + 1;
    }
    var tail := FinishMerge(ov, cur, done, nb);
    assert t[i..] == [];
    out := out + tail;
  }

  /** One line of the target. `rest` is what follows it. */
  method MergeLine(ov: Overrides, l: Line, ghost rest: seq<Line>, cur: Line, done: set<Slot>, nb: nat)
    returns (printed: seq<Line>, cur': Line, done': set<Slot>, nb': nat)
    requires ov.Valid()
    ensures Rewrite(ov, [l] + rest, cur, done, nb) == printed + Rewrite(ov, rest, cur', done', nb')
  {
    if IsBlank(l) {
      StepBlank(ov, l, rest, cur, done, nb);
      printed, cur', done', nb' := [], cur, done, nb + 1;
    } else if IsHeader(l) {
      StepHeader(ov, l, rest, cur, done, nb);
      printed, done' := Flush(ov, cur, done);
      cur', nb' := SectionOf(l), 0;
      Reassociate(printed, Blanks(nb), [l], Rewrite(ov, rest, cur', done', nb'));
      printed := printed + Blanks(nb) + [l];
    } else if IsBareEntry(l) && Slot(cur, KeyOf(l)) in ov.lines {
      StepHit(ov, l, rest, cur, done, nb);
      var k := Slot(cur, KeyOf(l));
      printed, cur', done', nb' := Blanks(nb) + [ov.lines[k]], cur, done + {k}, 0;
      Associate(Blanks(nb), [ov.lines[k]], Rewrite(ov, rest, cur', done', nb'));
    } else {
      StepOther(ov, l, rest, cur, done, nb);
      printed, cur', done', nb' := Blanks(nb) + [l], cur, done, 0;
      Associate(Blanks(nb), [l], Rewrite(ov, rest, cur', done', nb'));
    }
  }

  /** The END block. */
  method FinishMerge(ov: Overrides, cur: Line, done: set<Slot>, nb: nat) returns (out: seq<Line>)
    requires ov.Valid()
    ensures out == Rewrite(ov, [], cur, done, nb)
  {
    ghost var todo, left := StepLast(ov, cur, done, nb);
    var printed, done' := Flush(ov, cur, done);
    var tail := AppendTables(ov, done');
    hide *;
    Associate(printed, Blanks(nb), tail);
    out := printed + Blanks(nb) + tail;
  }

  /** The loop of the END block has looked at the first `i` entries of `order`. */
  ghost predicate Appended(ov: Overrides, done: set<Slot>, i: nat, last: Line, out: seq<Line>)
    requires ov.Valid()
  {
    WithoutMembers(ov.order, done);
    && i <= |ov.order|
    && (WithoutMembers(ov.order[i..], done);
        out + NewTables(ov, Without(ov.order[i..], done), last) == NewTables(ov, Without(ov.order, done), ""))
  }

  lemma AppendedStep(ov: Overrides, done: set<Slot>, i: nat, last: Line, out: seq<Line>)
    requires ov.Valid() && Appended(ov, done, i, last, out) && i < |ov.order|
    ensures ov.order[i] in ov.lines
    ensures var k := ov.order[i];
            if k in done then Appended(ov, done, i + 1, last, out)
            else Appended(ov, done, i + 1, k.section,
                          (if k.section != last then out + ["", k.section] else out) + [ov.lines[k]])
  {
    var k := ov.order[i];
    assert ov.order[i..][1..] == ov.order[i + 1..];
    WithoutMembers(ov.order[i..], done);
    WithoutMembers(ov.order[i + 1..], done);
    if k in done {
      assert Without(ov.order[i..], done) == Without(ov.order[i + 1..], done);
    } else {
      var rest := Without(ov.order[i + 1..], done);
      assert Without(ov.order[i..], done) == [k] + rest;
      Reassociate(out, if k.section != last then ["", k.section] else [], [ov.lines[k]],
                  NewTables(ov, rest, k.section));
      Associate(if k.section != last then ["", k.section] else [], [ov.lines[k]], NewTables(ov, rest, k.section));
      Associate(out, [], []);
    }
  }

  /** The end of the awk program: entries of tables the target lacks. */
  method AppendTables(ov: Overrides, done: set<Slot>) returns (out: seq<Line>)
    requires ov.Valid()
    ensures forall k :: k in Without(ov.order, done) ==> k in ov.lines
    ensures out == NewTables(ov, Without(ov.order, done), "")
  {
    WithoutMembers(ov.order, done);
    assert ov.order[0..] == ov.order;
    out := [];
    var last: Line := "";
    var i := 0;
    while i < |ov.order|
      invariant i <= |ov.order| && Appended(ov, done, i, last, out)
    {
      AppendedStep(ov, done, i, last, out);
      hide *;
      var k := ov.order[i];
      if k !in done {
        if k.section != last {
          out := out + ["", k.section];
          last := k.section;
        }
        out := out + [ov.lines[k]];
      }
      i := i + 1;
    }
  }

  // ---- Override files that define each table once ----

  ghost predicate TablesOnce(o: seq<Line>) {
    forall i, j :: 0 <= i < j < |o| && IsHeader(o[i]) && IsHeader(o[j]) ==> SectionOf(o[i]) != SectionOf(o[j])
  }

  lemma {:induction false} GroupedAppend(ks: seq<Slot>, k: Slot, last: Line)
    requires Grouped(ks, last)
    requires k.section == (if ks == [] then last else ks[|ks| - 1].section)
          || (k.section !in Sections(ks) && k.section != last)
    ensures Grouped(ks + [k], last)
  {
    if ks != [] {
      assert (ks + [k])[1..] == ks[1..] + [k] && (ks + [k])[0] == ks[0];
      assert forall x :: x in ks ==> x.section in Sections(ks);
      assert Sections(ks + [k]) == Sections(ks) + {k.section};
      GroupedAppend(ks[1..], k, ks[0].section);
    }
  }

  /** Where the reader stands in an override file that defines each table once. */
  ghost predicate ReadsOnce(o: seq<Line>, section: Line, ks: seq<Slot>) {
    && TablesOnce(o) && Grouped(ks, "")
    && (section in Sections(ks) ==> ks[|ks| - 1].section == section)
    && (section == "" ==> forall k :: k in ks ==> k.section == "")
    && (forall i :: 0 <= i < |o| && IsHeader(o[i]) ==> SectionOf(o[i]) !in Sections(ks) && SectionOf(o[i]) != section)
  }

  lemma ReadsOn(o: seq<Line>, section: Line, ks: seq<Slot>)
    requires o != [] && ReadsOnce(o, section, ks)
    ensures ReadsOnce(o[1..], section, ks)
    ensures IsHeader(o[0]) ==> ReadsOnce(o[1..], SectionOf(o[0]), ks)
  {
    hide IsHeader, Grouped, Sections;
    assert forall i :: 0 <= i < |o[1..]| ==> o[1..][i] == o[i + 1];
    if IsHeader(o[0]) { HeaderSurvives(o[0]); }
  }

  lemma ReadsEntry(o: seq<Line>, section: Line, ks: seq<Slot>, k: Slot)
    requires ReadsOnce(o, section, ks) && k.section == section
    ensures ReadsOnce(o, section, ks + [k])
  {
    assert forall x :: x in ks ==> x.section in Sections(ks);
    assert Sections(ks + [k]) == Sections(ks) + {section};
    GroupedAppend(ks, k, "");
  }

  lemma {:induction false} ReadOnceGrouped(o: seq<Line>, section: Line, ov: Overrides)
    requires ReadsOnce(o, section, ov.order)
    ensures Grouped(ReadOverrides(o, section, ov).order, "")
  {
    if o != [] {
      ReadsOn(o, section, ov.order);
      if IsIgnored(o[0]) {
        ReadOnceGrouped(o[1..], section, ov);
      } else if IsHeader(o[0]) {
        ReadOnceGrouped(o[1..], SectionOf(o[0]), ov);
      } else {
        var k := Slot(section, KeyOf(o[0]));
        ReadsEntry(o[1..], section, ov.order, k);
        ReadOnceGrouped(o[1..], section, Record(ov, k, o[0]));
      }
    }
  }

  /** TOML defines a table once, so no valid override file splits one. */
  lemma TablesOnceContiguous(o: seq<Line>)
    requires TablesOnce(o)
    ensures Parse(o).Contiguous()
  {
    forall i | 0 <= i < |o| && IsHeader(o[i]) ensures SectionOf(o[i]) != "" { HeaderSurvives(o[i]); }
    ReadOnceGrouped(o, "", Overrides([], map[]));
  }
}
