/** What a container's log and state say about a run. */
module LogVerdict {
  import opened Text

  /** The line patterns; none of them matches an empty line. */
  datatype Patterns = Patterns(
    diskFull: string -> bool, fail: string -> bool, recovered: string -> bool, warn: string -> bool) {
    predicate Sound() { !diskFull("") && !fail("") && !warn("") }

    function ClassOf(line: string): Class {
      if diskFull(line) then DiskFull
      else if fail(line) && !recovered(line) then Fail
      else if warn(line) then Warn
      else Plain
    }
  }

  datatype Class = DiskFull | Fail | Warn | Plain

  /** Empty strings stand for lines that were not seen. */
  datatype Scan = Scan(diskFull: string, failLine: string, warnCount: nat, firstWarn: string, lastWarn: string)

  const NOTHING := Scan("", "", 0, "", "")

  function Or(s: string, t: string): string { if s != "" then s else t }

  /** Two scans, the first of the earlier log. */
  function Merge(s: Scan, t: Scan): Scan {
    Scan(Or(s.diskFull, t.diskFull), Or(s.failLine, t.failLine), s.warnCount + t.warnCount,
         Or(s.firstWarn, t.firstWarn), Or(t.lastWarn, s.lastWarn))
  }

  function ScanLine(p: Patterns, line: string): Scan {
    match p.ClassOf(line)
    case DiskFull => NOTHING.(diskFull := line)
    case Fail => NOTHING.(failLine := line)
    case Warn => Scan("", "", 1, line, line)
    case Plain => NOTHING
  }

  function ScanLines(p: Patterns, lines: seq<string>): Scan {
    if lines == [] then NOTHING else Merge(ScanLine(p, TrimSpace(lines[0])), ScanLines(p, lines[1..]))
  }

  /** A piece after the last newline, if empty, matches nothing. */
  function ScanOf(p: Patterns, log: string): Scan { ScanLines(p, SplitLines(log)) }

  method ScanLog(p: Patterns, log: string) returns (s: Scan)
    requires p.Sound()
    ensures s == ScanOf(p, log)
  {
    s := NOTHING;
    var lines := SplitLines(log);
    assert lines[0..] == lines;
    for i := 0 to |lines|
      invariant Merge(s, ScanLines(p, lines[i..])) == ScanLines(p, lines)
    {
      var line := TrimSpace(lines[i]);
      assert lines[i..][1..] == lines[i + 1..];
      MergeAssociates(s, ScanLine(p, line), ScanLines(p, lines[i + 1..]));
      ghost var before := s;
      hide TrimSpace, ScanLines;
      if p.diskFull(line) {
        if s.diskFull == "" {
          s := s.(diskFull := line);
        }
      } else if p.fail(line) && !p.recovered(line) {
        if s.failLine == "" {
          s := s.(failLine := line);
        }
      } else if p.warn(line) {
        s := s.(warnCount := s.warnCount + 1);
        if s.firstWarn == "" {
          s := s.(firstWarn := line);
        }
        s := s.(lastWarn := line);
      }
      assert s == Merge(before, ScanLine(p, line));
    }
    assert lines[|lines|..] == [] && Merge(s, NOTHING) == s;
  }

  lemma MergeAssociates(s: Scan, t: Scan, u: Scan)
    ensures Merge(Merge(s, t), u) == Merge(s, Merge(t, u))
  {
  }

  lemma {:induction false} ScanAppend(p: Patterns, a: seq<string>, b: seq<string>)
    ensures ScanLines(p, a + b) == Merge(ScanLines(p, a), ScanLines(p, b))
  {
    if a == [] {
      assert a + b == b && Merge(NOTHING, ScanLines(p, b)) == ScanLines(p, b);
    } else {
      assert (a + b)[1..] == a[1..] + b;
      ScanAppend(p, a[1..], b);
      MergeAssociates(ScanLine(p, TrimSpace(a[0])), ScanLines(p, a[1..]), ScanLines(p, b));
      hide Merge, ScanLine, TrimSpace;
    }
  }

  lemma {:induction false} SplitAcross(a: string, b: string)
    ensures SplitLines(a + "\n" + b) == SplitLines(a) + SplitLines(b)
  {
    var s := a + "\n" + b;
    if a == "" {
      assert s[1..] == b;
    } else {
      assert s[1..] == a[1..] + "\n" + b;
      SplitAcross(a[1..], b);
    }
  }

  /** Scanning two logs one after the other is merging their scans. */
  lemma ScanConcatenated(p: Patterns, a: string, b: string)
    ensures ScanOf(p, a + "\n" + b) == Merge(ScanOf(p, a), ScanOf(p, b))
  {
    SplitAcross(a, b);
    ScanAppend(p, SplitLines(a), SplitLines(b));
  }

  // ---- What a scan tells ----

  /** The trimmed lines of one class, in order. */
  function OfClass(p: Patterns, lines: seq<string>, c: Class): seq<string> {
    if lines == [] then []
    else if p.ClassOf(TrimSpace(lines[0])) == c then [TrimSpace(lines[0])] + OfClass(p, lines[1..], c)
    else OfClass(p, lines[1..], c)
  }

  function FirstOf(s: seq<string>): string { if s == [] then "" else s[0] }

  function LastOf(s: seq<string>): string { if s == [] then "" else s[|s| - 1] }

  /** First disk-full line, first failure, number of warnings with the first and the last of them. */
  lemma {:induction false} ScanMeaning(p: Patterns, lines: seq<string>)
    requires p.Sound()
    ensures ScanLines(p, lines) == Scan(
              FirstOf(OfClass(p, lines, DiskFull)), FirstOf(OfClass(p, lines, Fail)), |OfClass(p, lines, Warn)|,
              FirstOf(OfClass(p, lines, Warn)), LastOf(OfClass(p, lines, Warn)))
    ensures forall c, l :: c != Plain && l in OfClass(p, lines, c) ==> l != ""
  {
    if lines != [] {
      var line := TrimSpace(lines[0]);
      ScanMeaning(p, lines[1..]);
      hide TrimSpace;
      forall c | c != Plain ensures FirstOf([line] + OfClass(p, lines[1..], c)) == line
                  && LastOf([line] + OfClass(p, lines[1..], c)) == Or(LastOf(OfClass(p, lines[1..], c)), line) {
        EndsOf(line, OfClass(p, lines[1..], c));
      }
      assert p.ClassOf(line) != Plain ==> line != "";
      hide FirstOf, LastOf;
    }
  }

  lemma EndsOf(line: string, rest: seq<string>)
    requires forall l :: l in rest ==> l != ""
    ensures FirstOf([line] + rest) == line && LastOf([line] + rest) == Or(LastOf(rest), line)
  {
    if rest != [] { assert rest[|rest| - 1] in rest; }
  }

  /** What puts a line in a class, by the four patterns. */
  predicate OfKind(p: Patterns, c: Class, l: string) {
    match c
    case DiskFull => p.diskFull(l)
    case Fail => !p.diskFull(l) && p.fail(l) && !p.recovered(l)
    case Warn => !p.diskFull(l) && (!p.fail(l) || p.recovered(l)) && p.warn(l)
    case Plain => !p.diskFull(l) && (!p.fail(l) || p.recovered(l)) && !p.warn(l)
  }

  /** Some line of the log, without the white space around it, is of class `c`. */
  ghost predicate Has(p: Patterns, log: string, c: Class) {
    exists l :: l in SplitLines(log) && OfKind(p, c, TrimSpace(l))
  }

  ghost predicate KindAt(p: Patterns, lines: seq<string>, c: Class, i: int) {
    0 <= i < |lines| && OfKind(p, c, TrimSpace(lines[i]))
  }

  /** `l` is the first line of class `c`, or the last one. */
  ghost predicate IsFirst(p: Patterns, lines: seq<string>, c: Class, l: string) {
    exists i :: KindAt(p, lines, c, i) && l == TrimSpace(lines[i]) && forall j :: KindAt(p, lines, c, j) ==> i <= j
  }

  ghost predicate IsLast(p: Patterns, lines: seq<string>, c: Class, l: string) {
    exists i :: KindAt(p, lines, c, i) && l == TrimSpace(lines[i]) && forall j :: KindAt(p, lines, c, j) ==> j <= i
  }

  /** How many lines are of class `c`. */
  ghost function Number(p: Patterns, lines: seq<string>, c: Class): nat { |set i | 0 <= i < |lines| && KindAt(p, lines, c, i)| }

  lemma KindIs(p: Patterns, c: Class, l: string)
    ensures p.ClassOf(l) == c <==> OfKind(p, c, l)
  {
  }

  lemma KindAtFirst(p: Patterns, lines: seq<string>, c: Class)
    requires lines != []
    ensures KindAt(p, lines, c, 0) <==> p.ClassOf(TrimSpace(lines[0])) == c
    ensures forall i :: KindAt(p, lines[1..], c, i) <==> 0 <= i && KindAt(p, lines, c, i + 1)
  {
    KindIs(p, c, TrimSpace(lines[0]));
    hide OfKind, TrimSpace;
    forall i ensures KindAt(p, lines[1..], c, i) <==> 0 <= i && KindAt(p, lines, c, i + 1) {
      if 0 <= i < |lines| - 1 { assert lines[1..][i] == lines[i + 1]; }
    }
  }

  lemma {:induction false} NumberFirst(p: Patterns, lines: seq<string>, c: Class)
    requires lines != []
    ensures Number(p, lines, c) == Number(p, lines[1..], c) + if KindAt(p, lines, c, 0) then 1 else 0
  {
    KindAtFirst(p, lines, c);
    hide KindAt;
    var rest := set i | 0 <= i < |lines[1..]| && KindAt(p, lines[1..], c, i);
    var all := set i | 0 <= i < |lines| && KindAt(p, lines, c, i);
    forall i | i in all - {0} ensures i in Shift(rest) {
      assert KindAt(p, lines, c, i - 1 + 1);
      assert i - 1 in rest;
    }
    assert all == Shift(rest) + if KindAt(p, lines, c, 0) then {0} else {};
    ShiftSize(rest);
    assert 0 !in Shift(rest);
  }

  ghost function Shift(s: set<int>): set<int> { set i | i in s :: i + 1 }

  lemma {:induction false} ShiftSize(s: set<int>)
    ensures |Shift(s)| == |s|
  {
    if s != {} {
      var x := AnyOf(s);
      ShiftWithout(s, x);
      ShiftSize(s - {x});
    }
  }

  lemma AnyOf<T>(s: set<T>) returns (x: T)
    requires s != {}
    ensures x in s
  {
    x :| x in s;
  }

  lemma ShiftWithout(s: set<int>, x: int)
    requires x in s
    ensures Shift(s) == Shift(s - {x}) + {x + 1} && x + 1 !in Shift(s - {x})
  {
    forall y | y in Shift(s) ensures y in Shift(s - {x}) + {x + 1} {
      assert y != x + 1 ==> y - 1 in s - {x};
    }
  }

  /** What is collected of a class: its first and last line, and how many there are. */
  lemma {:induction false} OfClassMeans(p: Patterns, lines: seq<string>, c: Class)
    ensures |OfClass(p, lines, c)| == Number(p, lines, c)
    ensures OfClass(p, lines, c) == [] <==> forall i :: !KindAt(p, lines, c, i)
    ensures OfClass(p, lines, c) != [] ==>
              IsFirst(p, lines, c, FirstOf(OfClass(p, lines, c))) && IsLast(p, lines, c, LastOf(OfClass(p, lines, c)))
  {
    if lines == [] {
      assert Number(p, lines, c) == 0;
    } else {
      var rest := OfClass(p, lines[1..], c);
      OfClassMeans(p, lines[1..], c);
      NumberFirst(p, lines, c);
      SomeKind(p, lines, c);
      KindIs(p, c, TrimSpace(lines[0]));
      hide TrimSpace, OfKind, Number, IsFirst, IsLast;
      assert OfClass(p, lines, c) == if KindAt(p, lines, c, 0) then [TrimSpace(lines[0])] + rest else rest;
      hide KindAt, OfClass;
      FirstFound(p, lines, c, rest);
      LastFound(p, lines, c, rest);
    }
  }

  lemma SomeKind(p: Patterns, lines: seq<string>, c: Class)
    requires lines != []
    ensures (forall i :: !KindAt(p, lines, c, i)) <==>
              !KindAt(p, lines, c, 0) && forall i :: !KindAt(p, lines[1..], c, i)
  {
    KindAtFirst(p, lines, c);
    if i :| KindAt(p, lines, c, i) {
      assert 0 <= i && (i == 0 || KindAt(p, lines, c, i - 1 + 1));
      hide KindAt;
      assert i != 0 ==> KindAt(p, lines[1..], c, i - 1);
    }
  }

  lemma SomeLater(p: Patterns, lines: seq<string>, c: Class)
    requires lines != []
    ensures (forall i :: !KindAt(p, lines[1..], c, i)) ==> forall j :: KindAt(p, lines, c, j) ==> j == 0
  {
    if j :| KindAt(p, lines, c, j) && j != 0 {
      KindAtFirst(p, lines, c);
      assert j > 0 && KindAt(p, lines, c, j - 1 + 1);
      assert KindAt(p, lines[1..], c, j - 1);
    }
  }

  lemma FirstFound(p: Patterns, lines: seq<string>, c: Class, rest: seq<string>)
    requires lines != [] && (rest != [] ==> IsFirst(p, lines[1..], c, FirstOf(rest)))
    ensures KindAt(p, lines, c, 0) ==> IsFirst(p, lines, c, TrimSpace(lines[0]))
    ensures !KindAt(p, lines, c, 0) && rest != [] ==> IsFirst(p, lines, c, FirstOf(rest))
  {
    KindAtFirst(p, lines, c);
    hide TrimSpace, OfKind;
    if !KindAt(p, lines, c, 0) && rest != [] {
      var i :| KindAt(p, lines[1..], c, i) && FirstOf(rest) == TrimSpace(lines[1..][i])
               && forall j :: KindAt(p, lines[1..], c, j) ==> i <= j;
      assert KindAt(p, lines, c, i + 1) && lines[i + 1] == lines[1..][i];
      forall j | KindAt(p, lines, c, j) ensures i + 1 <= j { assert KindAt(p, lines[1..], c, j - 1); }
    }
  }

  lemma LastFound(p: Patterns, lines: seq<string>, c: Class, rest: seq<string>)
    requires lines != [] && (rest != [] ==> IsLast(p, lines[1..], c, LastOf(rest)))
    requires rest == [] ==> forall i :: !KindAt(p, lines[1..], c, i)
    ensures rest != [] ==> IsLast(p, lines, c, LastOf(rest))
    ensures rest == [] && KindAt(p, lines, c, 0) ==> IsLast(p, lines, c, TrimSpace(lines[0]))
  {
    KindAtFirst(p, lines, c);
    hide TrimSpace, OfKind;
    if rest != [] {
      var i :| KindAt(p, lines[1..], c, i) && LastOf(rest) == TrimSpace(lines[1..][i])
               && forall j :: KindAt(p, lines[1..], c, j) ==> j <= i;
      assert KindAt(p, lines, c, i + 1) && lines[i + 1] == lines[1..][i];
      forall j | KindAt(p, lines, c, j) ensures j <= i + 1 {
        if j > 0 { assert KindAt(p, lines[1..], c, j - 1); }
      }
    } else {
      SomeLater(p, lines, c);
    }
  }

  lemma HasIff(p: Patterns, log: string, c: Class)
    ensures Has(p, log, c) <==> OfClass(p, SplitLines(log), c) != []
  {
    var lines := SplitLines(log);
    OfClassMeans(p, lines, c);
    hide TrimSpace, OfClass, Number, IsFirst, IsLast, OfKind;
    if l :| l in lines && OfKind(p, c, TrimSpace(l)) {
      var i :| 0 <= i < |lines| && lines[i] == l;
      assert KindAt(p, lines, c, i);
    }
    if i :| KindAt(p, lines, c, i) { assert lines[i] in lines; }
  }

  // ---- The verdict ----

  datatype Status = PASS | WARN | FAIL | SKIP

  datatype ContainerState = ContainerState(running: bool, exitCode: int, oomKilled: bool, error: string)

  /** The detail column; texts around the quoted lines are left out. */
  datatype Detail =
    | TmpfsTooSmall(line: string)
    | Exited(code: int, oomKilled: bool, error: string, reason: string)
    | FailLine(line: string)
    | ErrorLines(count: nat, first: string)
    | StillRunning

  function Verdict(st: ContainerState, s: Scan): (Status, Detail) {
    if s.diskFull != "" && s.failLine == "" then (WARN, TmpfsTooSmall(s.diskFull))
    else if !st.running then (FAIL, Exited(st.exitCode, st.oomKilled, st.error, Or(s.failLine, s.lastWarn)))
    else if s.failLine != "" then (FAIL, FailLine(s.failLine))
    else if s.warnCount > 0 then (WARN, ErrorLines(s.warnCount, s.firstWarn))
    else (PASS, StillRunning)
  }

  /** Each status, by the lines of the log and the state alone. */
  lemma VerdictIff(p: Patterns, st: ContainerState, log: string)
    requires p.Sound()
    ensures var status := Verdict(st, ScanOf(p, log)).0;
            && (status == FAIL <==> Has(p, log, Fail) || (!st.running && !Has(p, log, DiskFull)))
            && (status == PASS <==> st.running && !Has(p, log, DiskFull) && !Has(p, log, Fail) && !Has(p, log, Warn))
            && status != SKIP
  {
    ScanSeen(p, log);
    hide Has, ScanOf;
  }

  /** What the scan of a log holds, by the lines of each class. */
  lemma ScanSeen(p: Patterns, log: string)
    requires p.Sound()
    ensures var s := ScanOf(p, log);
            && (Has(p, log, DiskFull) <==> s.diskFull != "") && (Has(p, log, Fail) <==> s.failLine != "")
            && (Has(p, log, Warn) <==> s.warnCount > 0) && s.warnCount == Number(p, SplitLines(log), Warn)
            && (Has(p, log, DiskFull) ==> IsFirst(p, SplitLines(log), DiskFull, s.diskFull))
            && (Has(p, log, Fail) ==> IsFirst(p, SplitLines(log), Fail, s.failLine))
            && (if Has(p, log, Warn) then IsFirst(p, SplitLines(log), Warn, s.firstWarn) && IsLast(p, SplitLines(log), Warn, s.lastWarn)
                else s.lastWarn == "")
  {
    var lines := SplitLines(log);
    ScanMeaning(p, lines);
    forall c ensures Has(p, log, c) <==> OfClass(p, lines, c) != [] { HasIff(p, log, c); }
    forall c ensures |OfClass(p, lines, c)| == Number(p, lines, c)
             ensures OfClass(p, lines, c) != [] ==>
               IsFirst(p, lines, c, FirstOf(OfClass(p, lines, c))) && IsLast(p, lines, c, LastOf(OfClass(p, lines, c))) {
      OfClassMeans(p, lines, c);
    }
    hide Has, OfClass, IsFirst, IsLast, Number, ScanLines, SplitLines;
    forall c | c != Plain ensures OfClass(p, lines, c) != [] ==> FirstOf(OfClass(p, lines, c)) != "" {
      if OfClass(p, lines, c) != [] { assert OfClass(p, lines, c)[0] in OfClass(p, lines, c); }
    }
  }

  /** Which line each detail quotes, and when. */
  lemma VerdictDetail(p: Patterns, st: ContainerState, log: string)
    requires p.Sound()
    ensures var lines := SplitLines(log);
            match Verdict(st, ScanOf(p, log)).1
            case TmpfsTooSmall(l) => IsFirst(p, lines, DiskFull, l) && !Has(p, log, Fail)
            case Exited(code, oomKilled, error, reason) =>
              && !st.running && code == st.exitCode && oomKilled == st.oomKilled && error == st.error
              && (if Has(p, log, Fail) then IsFirst(p, lines, Fail, reason)
                  else if Has(p, log, Warn) then IsLast(p, lines, Warn, reason) else reason == "")
            case FailLine(l) => st.running && IsFirst(p, lines, Fail, l)
            case ErrorLines(count, first) => st.running && count == Number(p, lines, Warn) && IsFirst(p, lines, Warn, first)
            case StillRunning => st.running && !Has(p, log, DiskFull) && !Has(p, log, Fail) && !Has(p, log, Warn)
  {
    ScanSeen(p, log);
    hide Has, ScanOf, IsFirst, IsLast, Number;
  }
}
