/**
 The `tmerge` awk program of the Cosmos start script: every key of an override
 file is written into a target file, in place where the target has it, at the
 end of its table otherwise.
 */
module TomlMerge {
  import opened TomlLines

  datatype Slot = Slot(section: Line, key: Line)

  /** The awk arrays `order` and `ov` after the first pass. */
  datatype Overrides = Overrides(order: seq<Slot>, lines: map<Slot, Line>) {
    ghost predicate Valid() {
      && Distinct(order)
      && (forall k :: k in order <==> k in lines)
      && (forall k :: k in lines ==> ValidEntry(k))
    }

    ghost predicate ValidEntry(k: Slot)
      requires k in lines
    {
      && !IsIgnored(lines[k]) && !IsHeader(lines[k])
      && KeyOf(lines[k]) == k.key
      && (k.section != "" ==> IsHeader(k.section) && SectionOf(k.section) == k.section)
    }

    /** Every override is an entry the second pass would recognise. */
    predicate AllBare() {
      forall k :: k in lines ==> IsBareEntry(lines[k])
    }

    /** The entries of each table are one contiguous run. */
    predicate Contiguous() { Grouped(order, "") }
  }

  ghost predicate Distinct(ks: seq<Slot>) {
    forall i, j :: 0 <= i < j < |ks| ==> ks[i] != ks[j]
  }

  function Sections(ks: seq<Slot>): set<Line> { set k | k in ks :: k.section }

  predicate Grouped(ks: seq<Slot>, last: Line) {
    ks == [] ||
    if ks[0].section == last then Grouped(ks[1..], last)
    else last !in Sections(ks) && Grouped(ks[1..], ks[0].section)
  }

  // ---- Specification ----

  function ReadOverrides(o: seq<Line>, section: Line, ov: Overrides): Overrides {
    if o == [] then ov
    else if IsIgnored(o[0]) then ReadOverrides(o[1..], section, ov)
    else if IsHeader(o[0]) then ReadOverrides(o[1..], SectionOf(o[0]), ov)
    else ReadOverrides(o[1..], section, Record(ov, Slot(section, KeyOf(o[0])), o[0]))
  }

  function Record(ov: Overrides, k: Slot, l: Line): Overrides {
    Overrides(if k in ov.lines then ov.order else ov.order + [k], ov.lines[k := l])
  }

  function Parse(o: seq<Line>): Overrides { ReadOverrides(o, "", Overrides([], map[])) }

  /** The entries of one table that no output line carries yet. */
  function Todo(ks: seq<Slot>, section: Line, done: set<Slot>): seq<Slot> {
    if ks == [] then []
    else (if ks[0].section == section && ks[0] !in done then [ks[0]] else []) + Todo(ks[1..], section, done)
  }

  function Without(ks: seq<Slot>, done: set<Slot>): seq<Slot> {
    if ks == [] then []
    else (if ks[0] in done then [] else [ks[0]]) + Without(ks[1..], done)
  }

  function LinesOf(ov: Overrides, ks: seq<Slot>): seq<Line>
    requires forall k :: k in ks ==> k in ov.lines
    ensures |LinesOf(ov, ks)| == |ks|
  {
    if ks == [] then [] else [ov.lines[ks[0]]] + LinesOf(ov, ks[1..])
  }

  function Blanks(n: nat): seq<Line>
    ensures |Blanks(n)| == n
  {
    if n == 0 then [] else [""] + Blanks(n - 1)
  }

  /** The tables the target lacks, each behind an empty line and its header. */
  function NewTables(ov: Overrides, ks: seq<Slot>, last: Line): seq<Line>
    requires forall k :: k in ks ==> k in ov.lines
  {
    if ks == [] then []
    else (if ks[0].section != last then ["", ks[0].section] else [])
         + [ov.lines[ks[0]]] + NewTables(ov, ks[1..], ks[0].section)
  }

  lemma FirstTable(ov: Overrides, ks: seq<Slot>, last: Line)
    requires ks != [] && forall k :: k in ks ==> k in ov.lines
    ensures var s, l, rest := ks[0].section, ov.lines[ks[0]], NewTables(ov, ks[1..], ks[0].section);
            NewTables(ov, ks, last) == if s == last then [l] + rest else [""] + ([s] + ([l] + rest))
  {
  }

  function AsSet(ks: seq<Slot>): set<Slot> { set k | k in ks }

  lemma TodoMembers(ks: seq<Slot>, section: Line, done: set<Slot>)
    ensures forall k :: k in Todo(ks, section, done) <==> k in ks && k.section == section && k !in done
  {
  }

  lemma WithoutMembers(ks: seq<Slot>, done: set<Slot>)
    ensures forall k :: k in Without(ks, done) <==> k in ks && k !in done
  {
  }

  /** The second pass from a given point: current table, entries printed so far, blank lines held back. */
  function Rewrite(ov: Overrides, t: seq<Line>, cur: Line, done: set<Slot>, held: nat): seq<Line>
    requires ov.Valid()
    decreases |t|
  {
    TodoMembers(ov.order, cur, done);
    var todo := Todo(ov.order, cur, done);
    if t == [] then
      WithoutMembers(ov.order, done + AsSet(todo));
      LinesOf(ov, todo) + Blanks(held) + NewTables(ov, Without(ov.order, done + AsSet(todo)), "")
    else if IsBlank(t[0]) then
      Rewrite(ov, t[1..], cur, done, held + 1)
    else if IsHeader(t[0]) then
      LinesOf(ov, todo) + Blanks(held) + [t[0]] + Rewrite(ov, t[1..], SectionOf(t[0]), done + AsSet(todo), 0)
    else
      var k := Slot(cur, KeyOf(t[0]));
      if IsBareEntry(t[0]) && k in ov.lines then
        Blanks(held) + [ov.lines[k]] + Rewrite(ov, t[1..], cur, done + {k}, 0)
      else
        Blanks(held) + [t[0]] + Rewrite(ov, t[1..], cur, done, 0)
  }

  lemma {:induction false} ReadValid(o: seq<Line>, section: Line, ov: Overrides)
    requires ov.Valid()
    requires section != "" ==> IsHeader(section) && SectionOf(section) == section
    ensures ReadOverrides(o, section, ov).Valid()
  {
    if o != [] {
      if IsIgnored(o[0]) {
        ReadValid(o[1..], section, ov);
      } else if IsHeader(o[0]) {
        SectionIsItsOwnHeader(o[0]);
        ReadValid(o[1..], SectionOf(o[0]), ov);
      } else {
        ReadValid(o[1..], section, Record(ov, Slot(section, KeyOf(o[0])), o[0]));
      }
    }
  }

  lemma ParseValid(o: seq<Line>)
    ensures Parse(o).Valid()
  {
    ReadValid(o, "", Overrides([], map[]));
  }

  function Merge(o: seq<Line>, t: seq<Line>): seq<Line> {
    ParseValid(o);
    Rewrite(Parse(o), t, "", {}, 0)
  }
}
