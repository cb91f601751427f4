/**
 The string operations of the Go standard library that the reader of the
 generated version table, the reader of logs and the reader of overrides are
 built on: trimming white space, finding and cutting, splitting into lines.
 */
module Text {

  predicate At(s: string, w: string, i: nat) { i + |w| <= |s| && s[i..i + |w|] == w }

  predicate Contains(s: string, w: string) { exists i: nat | i <= |s| :: At(s, w, i) }

  predicate HasSuffix(s: string, w: string) { |w| <= |s| && s[|s| - |w|..] == w }

  /** Unicode white space, which `strings.TrimSpace` cuts. */
  predicate IsSpace(c: char) {
    || '\t' <= c <= '\r' || c == ' ' || c == '\U{85}' || c == '\U{A0}' || c == '\U{1680}'
    || '\U{2000}' <= c <= '\U{200A}' || c == '\U{2028}' || c == '\U{2029}' || c == '\U{202F}'
    || c == '\U{205F}' || c == '\U{3000}'
  }

  function TrimLeft(s: string): string { if s != "" && IsSpace(s[0]) then TrimLeft(s[1..]) else s }

  function TrimRight(s: string): string { if s != "" && IsSpace(s[|s| - 1]) then TrimRight(s[..|s| - 1]) else s }

  function TrimSpace(s: string): string { TrimRight(TrimLeft(s)) }

  /** The pieces of `s` between its newlines. */
  function SplitLines(s: string): (lines: seq<string>)
    ensures |lines| > 0
  {
    if s == "" then [""]
    else if s[0] == '\n' then [""] + SplitLines(s[1..])
    else var rest := SplitLines(s[1..]); [[s[0]] + rest[0]] + rest[1..]
  }

  /** Every line, closed by a newline. */
  function JoinLines(lines: seq<string>): string {
    if lines == [] then "" else lines[0] + "\n" + JoinLines(lines[1..])
  }

  lemma {:induction false} SplitOne(line: string, rest: string)
    requires '\n' !in line
    ensures SplitLines(line + "\n" + rest) == [line] + SplitLines(rest)
  {
    var s := line + "\n" + rest;
    if line == "" {
      assert s[1..] == rest;
    } else {
      assert s[1..] == line[1..] + "\n" + rest;
      SplitOne(line[1..], rest);
      assert [s[0]] + line[1..] == line;
    }
  }

  lemma {:induction false} SplitJoined(lines: seq<string>, rest: string)
    requires forall l :: l in lines ==> '\n' !in l
    ensures SplitLines(JoinLines(lines) + rest) == lines + SplitLines(rest)
  {
    if lines == [] {
      assert JoinLines(lines) + rest == rest;
    } else {
      var tail := JoinLines(lines[1..]);
      SplitJoined(lines[1..], rest);
      SplitOne(lines[0], tail + rest);
      hide SplitLines;
      assert lines[0] + "\n" + tail + rest == lines[0] + "\n" + (tail + rest);
      assert lines == [lines[0]] + lines[1..];
    }
  }

  lemma {:induction false} TrimIndent(indent: string, core: string)
    requires forall c :: c in indent ==> IsSpace(c)
    requires core != "" && !IsSpace(core[0]) && !IsSpace(core[|core| - 1])
    ensures TrimSpace(indent + core) == core
  {
    if indent == "" {
      assert indent + core == core;
    } else {
      assert (indent + core)[1..] == indent[1..] + core;
      assert indent[0] in indent;
      TrimIndent(indent[1..], core);
    }
  }

  lemma {:induction false} TrimEnd(core: string, w: string)
    requires (forall c :: c in w ==> IsSpace(c)) && (core == "" || !IsSpace(core[|core| - 1]))
    ensures TrimRight(core + w) == core
  {
    if w == "" {
      assert core + w == core;
    } else {
      var n := |w| - 1;
      assert (core + w)[..|core| + n] == core + w[..n];
      assert w[n] in w;
      TrimEnd(core, w[..n]);
    }
  }

  /** Trimming takes the white space off both ends and nothing else. */
  lemma {:induction false} TrimAround(w: string, core: string, w': string)
    requires forall c :: c in w + w' ==> IsSpace(c)
    requires core == "" || (!IsSpace(core[0]) && !IsSpace(core[|core| - 1]))
    ensures TrimSpace(w + core + w') == core
  {
    if w != "" {
      assert (w + core + w')[1..] == w[1..] + core + w';
      assert (w + w')[0] == w[0] && forall c :: c in w[1..] + w' ==> c in w + w';
      TrimAround(w[1..], core, w');
    } else {
      assert w + core + w' == core + w';
      assert forall c :: c in w' ==> c in w + w';
      if core != "" {
        TrimEnd(core, w');
      } else {
        TrimLeftBlank(w');
      }
    }
  }

  lemma {:induction false} TrimLeftBlank(w: string)
    requires forall c :: c in w ==> IsSpace(c)
    ensures TrimLeft(w) == "" && TrimLeft("" + w) == ""
  {
    assert "" + w == w;
    if w != "" { TrimLeftBlank(w[1..]); }
  }

  lemma SuffixIff(s: string, w: string)
    ensures HasSuffix(s, w) <==> exists p :: s == p + w
  {
    if HasSuffix(s, w) { assert s == s[..|s| - |w|] + w; }
    if p :| s == p + w { assert s[|p|..] == w; }
  }

  lemma {:induction false} TrimLeftMembers(s: string)
    ensures forall c :: c in TrimLeft(s) ==> c in s
  {
    if s != "" && IsSpace(s[0]) { TrimLeftMembers(s[1..]); }
  }

  lemma {:induction false} TrimRightMembers(s: string)
    ensures forall c :: c in TrimRight(s) ==> c in s
  {
    if s != "" && IsSpace(s[|s| - 1]) { TrimRightMembers(s[..|s| - 1]); }
  }

  lemma TrimMembers(s: string)
    ensures forall c :: c in TrimSpace(s) ==> c in s
  {
    TrimLeftMembers(s);
    TrimRightMembers(TrimLeft(s));
  }

  lemma ContainsMembers(s: string, w: string)
    requires Contains(s, w)
    ensures forall c :: c in w ==> c in s
  {
    var i: nat :| i <= |s| && At(s, w, i);
    forall c | c in w ensures c in s {
      var k :| 0 <= k < |w| && w[k] == c;
      assert s[i..i + |w|][k] == s[i + k];
    }
  }

  /** A word is found on one side or the other of a character it does not hold. */
  lemma ContainsAcross(a: string, c: char, b: string, w: string)
    requires c !in w
    ensures Contains(a + [c] + b, w) <==> Contains(a, w) || Contains(b, w)
  {
    var s := a + [c] + b;
    if Contains(s, w) {
      var i: nat :| i <= |s| && At(s, w, i);
      assert s[|a|] == c && forall k :: i <= k < i + |w| ==> s[k] == w[k - i];
      assert forall k :: i <= k < i + |w| ==> s[k] != c;
      if i + |w| <= |a| {
        assert a[i..i + |w|] == s[i..i + |w|];
        assert At(a, w, i);
      } else {
        assert i > |a|;
        assert s[|a| + 1..] == b;
        assert At(b, w, i - |a| - 1);
      }
    }
    if Contains(a, w) {
      var i: nat :| i <= |a| && At(a, w, i);
      assert s[i..i + |w|] == a[i..i + |w|];
      assert At(s, w, i);
    }
    if Contains(b, w) {
      var i: nat :| i <= |b| && At(b, w, i);
      assert s[|a| + 1 + i..|a| + 1 + i + |w|] == b[i..i + |w|];
      assert At(s, w, |a| + 1 + i);
    }
  }
}
