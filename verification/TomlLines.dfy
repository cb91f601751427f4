/**
 How the awk programs in the Cosmos start script read one line of a TOML file:
 blank, comment, table header, entry with a bare key, or anything else; and the
 table and the key they take from it.
 */
module TomlLines {

  type Line = string

  predicate IsWs(c: char) { c == ' ' || c == '\t' }

  predicate IsBareKeyChar(c: char) {
    'A' <= c <= 'Z' || 'a' <= c <= 'z' || '0' <= c <= '9' || c == '_' || c == '.' || c == '-'
  }

  function SkipWs(l: Line): Line {
    if l != "" && IsWs(l[0]) then SkipWs(l[1..]) else l
  }

  function SkipBareKey(l: Line): Line {
    if l != "" && IsBareKeyChar(l[0]) then SkipBareKey(l[1..]) else l
  }

  function TrimEndWs(l: Line): Line {
    if l != "" && IsWs(l[|l| - 1]) then TrimEndWs(l[..|l| - 1]) else l
  }

  /** The text before the first `c`, or the whole line. */
  function Before(l: Line, c: char): Line {
    if l == "" || l[0] == c then "" else [l[0]] + Before(l[1..], c)
  }

  function DropWs(l: Line): Line {
    if l == "" then ""
    else if IsWs(l[0]) then DropWs(l[1..])
    else [l[0]] + DropWs(l[1..])
  }

  predicate IsBlank(l: Line) { SkipWs(l) == "" }

  predicate IsHeader(l: Line) { SkipWs(l) != "" && SkipWs(l)[0] == '[' }

  /** Blank lines and comments, which the override reader ignores. */
  predicate IsIgnored(l: Line) { SkipWs(l) == "" || SkipWs(l)[0] == '#' }

  /** `key =` with a bare key: the only shape the merge recognises in its target. */
  predicate IsBareEntry(l: Line) {
    var s := SkipWs(l);
    var rest := SkipBareKey(s);
    |rest| < |s| && SkipWs(rest) != "" && SkipWs(rest)[0] == '='
  }

  /** A table header without its comment and its white space. */
  function SectionOf(l: Line): Line { DropWs(Before(l, '#')) }

  function KeyOf(l: Line): Line {
    SkipWs(if '=' in l then TrimEndWs(Before(l, '=')) else l)
  }

  lemma BareEntryIsData(l: Line)
    requires IsBareEntry(l)
    ensures !IsBlank(l) && !IsHeader(l) && !IsIgnored(l)
  {
  }

  lemma {:induction false} DropWsClean(l: Line)
    ensures forall i :: 0 <= i < |DropWs(l)| ==> !IsWs(DropWs(l)[i]) && DropWs(l)[i] in l
    ensures DropWs(l) == "" || (SkipWs(l) != "" && DropWs(l)[0] == SkipWs(l)[0])
  {
    if l != "" { DropWsClean(l[1..]); }
  }

  lemma {:induction false} BeforeClean(l: Line, c: char)
    ensures c !in Before(l, c)
  {
    if l != "" && l[0] != c { BeforeClean(l[1..], c); }
  }

  lemma {:induction false} CleanUnchanged(l: Line)
    requires forall i :: 0 <= i < |l| ==> !IsWs(l[i]) && l[i] != '#'
    ensures Before(l, '#') == l && DropWs(l) == l
  {
    if l != "" { CleanUnchanged(l[1..]); }
  }

  lemma {:induction false} HeaderSurvives(l: Line)
    requires IsHeader(l)
    ensures SectionOf(l) != "" && SectionOf(l)[0] == '['
  {
    if IsWs(l[0]) { HeaderSurvives(l[1..]); }
  }

  /** The merge prints a missing table as its section name, which reads back as that table. */
  lemma SectionIsItsOwnHeader(l: Line)
    requires IsHeader(l)
    ensures IsHeader(SectionOf(l)) && SectionOf(SectionOf(l)) == SectionOf(l)
  {
    var s := SectionOf(l);
    HeaderSurvives(l);
    BeforeClean(l, '#');
    DropWsClean(Before(l, '#'));
    CleanUnchanged(s);
  }

  lemma BlankIsNoHeader(l: Line)
    requires IsBlank(l)
    ensures !IsHeader(l)
  {
  }
}
