/** Quoting of logged commands, read back by the quoting rules of the POSIX shell, and only where quotes are needed. */
module ShellQuote {
  import opened Options

  // ---- What the log writer does ----

  /** Characters that force an argument into single quotes. */
  predicate Risky(c: char) { c in " \t\n'\"$`\\|&;()<>*?[]{}!#~" }

  function Escaped(a: string): string {
    if a == "" then ""
    else (if a[0] == '\'' then "'\\''" else [a[0]]) + Escaped(a[1..])
  }

  predicate Bare(a: string) { a != "" && forall c :: c in a ==> !Risky(c) }

  function Quoted(a: string): string { if Bare(a) then a else "'" + Escaped(a) + "'" }

  function Join(words: seq<string>): string {
    if words == [] then ""
    else if |words| == 1 then words[0]
    else words[0] + " " + Join(words[1..])
  }

  function QuotedAll(args: seq<string>): seq<string> {
    if args == [] then [] else [Quoted(args[0])] + QuotedAll(args[1..])
  }

  // ---- How a shell reads it ----

  /** Between two words, inside one, or inside its single quotes. */
  datatype Mode = Gap | Word(text: string) | Single(text: string)

  function Begun(m: Mode): string { if m.Gap? then "" else m.text }

  /** Unquoted characters that mean something other than themselves. */
  predicate Special(c: char) { c in "\n\"$`|&;()<>*?[]{}!#~" }

  /**
   The words of a line, by section 2.2 of the POSIX.1-2017 Shell Command
   Language; None when the line ends inside quotes or holds an unquoted
   character with a meaning of its own.
   */
  function Lex(s: string, m: Mode): Option<seq<string>>
    decreases |s|
  {
    if m.Single? then
      if s == "" then None
      else if s[0] == '\'' then Lex(s[1..], Word(m.text))
      else Lex(s[1..], Single(m.text + [s[0]]))
    else if s == "" then Some(if m.Word? then [m.text] else [])
    else if s[0] == ' ' || s[0] == '\t' then
      var rest := Lex(s[1..], Gap);
      if rest.Some? then Some((if m.Word? then [m.text] else []) + rest.value) else None
    else if s[0] == '\'' then Lex(s[1..], Single(Begun(m)))
    else if s[0] == '\\' then
      if |s| == 1 then None
      else if s[1] == '\n' then Lex(s[2..], m)
      else Lex(s[2..], Word(Begun(m) + [s[1]]))
    else if Special(s[0]) then None
    else Lex(s[1..], Word(Begun(m) + [s[0]]))
  }

  // ---- Reading what was written ----

  lemma LexInside(c: char, rest: string, begun: string)
    ensures Lex([c] + rest, Single(begun)) == Lex(rest, if c == '\'' then Word(begun) else Single(begun + [c]))
  {
    assert ([c] + rest)[1..] == rest;
  }

  lemma LexOpen(rest: string, m: Mode)
    requires !m.Single?
    ensures Lex(['\''] + rest, m) == Lex(rest, Single(Begun(m)))
  {
    assert (['\''] + rest)[1..] == rest;
  }

  lemma LexBackslash(c: char, rest: string, m: Mode)
    requires !m.Single? && c != '\n'
    ensures Lex(['\\', c] + rest, m) == Lex(rest, Word(Begun(m) + [c]))
  {
    assert (['\\', c] + rest)[2..] == rest;
  }

  lemma LexPlain(c: char, rest: string, m: Mode)
    requires !m.Single? && !Risky(c)
    ensures Lex([c] + rest, m) == Lex(rest, Word(Begun(m) + [c]))
  {
    NotRisky(c);
    assert ([c] + rest)[1..] == rest;
  }

  /** A quote inside single quotes: close them, escape one, open them again. */
  lemma LexQuote(tail: string, begun: string)
    ensures Lex("'\\''" + tail, Single(begun)) == Lex(tail, Single(begun + ['\'']))
  {
    LexInside('\'', ['\\', '\'', '\''] + tail, begun);
    LexBackslash('\'', ['\''] + tail, Word(begun));
    LexOpen(tail, Word(begun + ['\'']));
    hide Lex;
    assert "'\\''" + tail == ['\''] + (['\\', '\'', '\''] + tail);
    assert ['\\', '\'', '\''] + tail == ['\\', '\''] + (['\''] + tail);
  }

  lemma {:induction false} LexEscaped(a: string, rest: string, begun: string)
    ensures Lex(Escaped(a) + "'" + rest, Single(begun)) == Lex(rest, Word(begun + a))
    decreases |a|
  {
    hide Lex;
    if a == "" {
      LexInside('\'', rest, begun);
      assert Escaped(a) + "'" + rest == ['\''] + rest && begun + a == begun;
    } else {
      var c, tail := a[0], Escaped(a[1..]) + "'" + rest;
      var first := if c == '\'' then "'\\''" else [c];
      LexEscaped(a[1..], rest, begun + [c]);
      assert begun + [c] + a[1..] == begun + a;
      assert Escaped(a) + "'" + rest == first + tail;
      if c == '\'' { LexQuote(tail, begun); } else { LexInside(c, tail, begun); }
    }
  }

  lemma {:induction false} LexBare(a: string, rest: string, m: Mode)
    requires !m.Single? && forall c :: c in a ==> !Risky(c)
    ensures Lex(a + rest, m) == Lex(rest, if a == "" then m else Word(Begun(m) + a))
    decreases |a|
  {
    hide Lex;
    if a == "" {
      assert a + rest == rest;
    } else {
      var begun := Begun(m) + [a[0]];
      assert a + rest == [a[0]] + (a[1..] + rest);
      LexPlain(a[0], a[1..] + rest, m);
      LexBare(a[1..], rest, Word(begun));
      assert begun + a[1..] == Begun(m) + a;
      assert a[1..] == "" ==> begun == Begun(m) + a;
    }
  }

  lemma NotRisky(c: char)
    requires !Risky(c)
    ensures !Special(c) && c != ' ' && c != '\t' && c != '\'' && c != '\\'
  {
  }

  lemma LexQuoted(a: string, rest: string)
    ensures Lex(Quoted(a) + rest, Gap) == Lex(rest, Word(a))
  {
    hide Lex, Risky, Escaped;
    assert "" + a == a;
    if Bare(a) {
      LexBare(a, rest, Gap);
    } else {
      assert Quoted(a) + rest == ['\''] + (Escaped(a) + "'" + rest);
      LexOpen(Escaped(a) + "'" + rest, Gap);
      LexEscaped(a, rest, "");
    }
  }

  lemma LexBlank(line: string, word: string)
    ensures Lex(" " + line, Word(word))
         == (match Lex(line, Gap) case None => None case Some(words) => Some([word] + words))
  {
    assert (" " + line)[1..] == line;
  }

  lemma {:induction false} LexJoined(args: seq<string>)
    ensures Lex(Join(QuotedAll(args)), Gap) == Some(args)
    decreases |args|
  {
    if args != [] {
      var a, rest := args[0], QuotedAll(args[1..]);
      var line := Join(rest);
      LexJoined(args[1..]);
      assert args == [a] + args[1..];
      assert QuotedAll(args) == [Quoted(a)] + rest && QuotedAll(args)[1..] == rest;
      if |args| == 1 {
        assert Join(QuotedAll(args)) == Quoted(a) + "" && args == [a];
        LexQuoted(a, "");
      } else {
        assert Join(QuotedAll(args)) == Quoted(a) + (" " + line);
        hide Lex, Quoted, QuotedAll, Join;
        LexQuoted(a, " " + line);
        LexBlank(line, a);
      }
    }
  }

  /** `shellJoin`: a shell reads the logged command as exactly the words that were run. */
  method ShellJoin(args: seq<string>) returns (line: string)
    ensures Lex(line, Gap) == Some(args)
    ensures Lex("docker " + line, Gap) == Some(["docker"] + args)
  {
    var quoted := [];
    assert args[0..] == args;
    for i := 0 to |args|
      invariant quoted + QuotedAll(args[i..]) == QuotedAll(args)
    {
      var a := args[i];
      QuotedStep(args, i, quoted);
      hide QuotedAll, Escaped;
      if Bare(a) {
        quoted := quoted + [a];
      } else {
        quoted := quoted + ["'" + Escaped(a) + "'"];
      }
    }
    assert quoted == QuotedAll(args);
    line := Join(quoted);
    LexJoined(args);
    LexCommand(line);
    hide *;
  }

  lemma QuotedStep(args: seq<string>, i: nat, quoted: seq<string>)
    requires i < |args|
    ensures quoted + QuotedAll(args[i..]) == quoted + [Quoted(args[i])] + QuotedAll(args[i + 1..])
  {
    hide Quoted;
    assert args[i..][1..] == args[i + 1..];
  }

  lemma LexCommand(line: string)
    ensures Lex("docker " + line, Gap)
         == (match Lex(line, Gap) case None => None case Some(words) => Some(["docker"] + words))
  {
    hide Lex;
    assert forall c :: c in "docker" ==> 'c' <= c <= 'r' && !Risky(c);
    hide Risky;
    assert "docker " + line == "docker" + (" " + line) && "" + "docker" == "docker";
    LexBare("docker", " " + line, Gap);
    LexBlank(line, "docker");
  }

  lemma RiskyIs(c: char)
    ensures Risky(c) <==> Special(c) || c == ' ' || c == '\t' || c == '\'' || c == '\\'
  {
  }

  /** A character the shell reads as itself, on a line of its own. */
  lemma ReadAsItself(c: char)
    ensures Lex([c], Gap) == Some([[c]]) <==> c !in " \t\n'\"$`\\|&;()<>*?[]{}!#~"
    ensures Risky(c) <==> Lex([c], Gap) != Some([[c]])
  {
    RiskyIs(c);
    assert Risky(c) <==> c in " \t\n'\"$`\\|&;()<>*?[]{}!#~";
    hide Risky, Special;
    assert [c][1..] == "" && "" + [c] == [c] && |[[c]]| == 1;
    assert Lex("", Gap) == Some([]) && Lex("", Single("")) == None && Lex("", Word([c])) == Some([[c]]);
  }

  /** Just the arguments that need no quotes are logged without them. */
  lemma BareIff(a: string)
    ensures Quoted(a) == a <==> a != "" && forall c :: c in a ==> Lex([c], Gap) == Some([[c]])
  {
    forall c ensures Risky(c) <==> Lex([c], Gap) != Some([[c]]) { ReadAsItself(c); }
    hide Risky, Lex;
    EscapedLonger(a);
  }

  lemma {:induction false} EscapedLonger(a: string)
    ensures |Escaped(a)| >= |a|
  {
    if a != "" { EscapedLonger(a[1..]); }
  }

  /** Two commands are logged alike only if they are the same. */
  lemma LoggedApart(args: seq<string>, others: seq<string>)
    requires Join(QuotedAll(args)) == Join(QuotedAll(others))
    ensures args == others
  {
    LexJoined(args);
    LexJoined(others);
  }
}
