/** Expansion of $(VAR) references in a container's environment and command line. */
module Expansion {
  import opened Sequences

  type Env = map<string, string>

  // ---- The grammar of a value ----

  /** A character, `$$`, `$(name)`, or a `$(` that is never closed with all that follows it. */
  datatype Token = Char(c: char) | Escape | Ref(name: string) | Unclosed(text: string)

  function IndexByte(s: string, c: char): (i: int)
    ensures -1 <= i < |s|
  {
    if s == "" then -1
    else if s[0] == c then 0
    else var i := IndexByte(s[1..], c); if i < 0 then -1 else i + 1
  }

  lemma {:induction false} IndexByteMeaning(s: string, c: char)
    ensures var i := IndexByte(s, c);
            if i < 0 then c !in s else s[i] == c && c !in s[..i]
  {
    if s != "" && s[0] != c {
      IndexByteMeaning(s[1..], c);
      var i := IndexByte(s[1..], c);
      if i >= 0 { assert s[..i + 1] == [s[0]] + s[1..][..i]; }
    }
  }

  function First(s: string): Token
    requires s != ""
  {
    if s[0] != '$' || |s| == 1 then Char(s[0])
    else if s[1] == '$' then Escape
    else if s[1] == '(' then
      var end := IndexByte(s[2..], ')');
      if end < 0 then Unclosed(s[2..]) else Ref(s[2..][..end])
    else Char('$')
  }

  function Text(t: Token): string {
    match t
    case Char(c) => [c]
    case Escape => "$$"
    case Ref(name) => "$(" + name + ")"
    case Unclosed(text) => "$(" + text
  }

  lemma FirstIsPrefix(s: string)
    requires s != ""
    ensures Text(First(s)) <= s && Text(First(s)) != ""
  {
    if |s| > 1 { IndexByteMeaning(s[2..], ')'); }
    hide IndexByte;
  }

  function Tokens(s: string): seq<Token>
    decreases |s|
  {
    if s == "" then []
    else
      FirstIsPrefix(s);
      [First(s)] + Tokens(s[|Text(First(s))|..])
  }

  function Source(ts: seq<Token>): string {
    if ts == [] then "" else Text(ts[0]) + Source(ts[1..])
  }

  /** What a token stands for; a name without a value stays as it is written. */
  function Piece(t: Token, env: Env): string {
    if t.Escape? then "$"
    else if t.Ref? && t.name in env then env[t.name]
    else Text(t)
  }

  function Value(ts: seq<Token>, env: Env): string {
    if ts == [] then "" else Piece(ts[0], env) + Value(ts[1..], env)
  }

  function Expanded(s: string, env: Env): string { Value(Tokens(s), env) }

  // ---- The loop ----

  /** One token off the front of what is left. */
  lemma ValueFirst(s: string, env: Env)
    requires s != ""
    ensures |Text(First(s))| <= |s| && Expanded(s, env) == Piece(First(s), env) + Expanded(s[|Text(First(s))|..], env)
  {
    FirstIsPrefix(s);
  }

  lemma {:induction false} NoDollar(s: string, env: Env)
    requires '$' !in s
    ensures Expanded(s, env) == s
    decreases |s|
  {
    if s != "" {
      NoDollar(s[1..], env);
      assert First(s) == Char(s[0]);
      assert Tokens(s) == [Char(s[0])] + Tokens(s[1..]);
    }
  }

  lemma PlainStep(s: string, env: Env)
    requires s != "" && (s[0] != '$' || |s| == 1 || (s[1] != '$' && s[1] != '('))
    ensures Expanded(s, env) == [s[0]] + Expanded(s[1..], env)
  {
    ValueFirst(s, env);
    hide Expanded;
  }

  lemma EscapeStep(s: string, env: Env)
    requires |s| > 1 && s[0] == '$' && s[1] == '$'
    ensures Expanded(s, env) == "$" + Expanded(s[2..], env)
  {
    ValueFirst(s, env);
    hide Expanded;
  }

  lemma FirstReference(s: string)
    requires |s| > 1 && s[0] == '$' && s[1] == '('
    ensures var tail, end := s[2..], IndexByte(s[2..], ')');
            if end < 0 then First(s) == Unclosed(tail) && Text(First(s)) == s
            else First(s) == Ref(tail[..end]) && |Text(First(s))| == 3 + end && tail[end..][1..] == s[3 + end..]
  {
    hide IndexByte;
    var tail, end := s[2..], IndexByte(s[2..], ')');
    if end >= 0 {
      assert tail[end..][1..] == s[3 + end..];
    } else {
      assert s == "$(" + tail;
    }
  }

  lemma RefStep(s: string, env: Env)
    requires |s| > 1 && s[0] == '$' && s[1] == '('
    ensures var end := IndexByte(s[2..], ')');
            if end < 0 then Expanded(s, env) == s
            else Expanded(s, env) == Piece(Ref(s[2..][..end]), env) + Expanded(s[2..][end..][1..], env)
  {
    ValueFirst(s, env);
    FirstReference(s);
    ExpandedNone(env);
    UnclosedPiece(First(s), env);
    assert s[|s|..] == "";
    hide *;
  }

  lemma ExpandedNone(env: Env)
    ensures Expanded("", env) == ""
  {
  }

  lemma UnclosedPiece(t: Token, env: Env)
    ensures t.Unclosed? ==> Piece(t, env) == Text(t)
  {
  }

  /** What is left of `s` after its first `n` characters; slices of slices are slices. */
  lemma Left(s: string, i: nat, n: nat)
    requires i + n <= |s|
    ensures s[i..][n..] == s[i + n..] && |s[i..]| == |s| - i
    ensures n < |s| - i ==> s[i..][n] == s[i + n]
  {
  }

  /** `r` is the expansion of the first `i` characters of `s`, which end between tokens. */
  ghost predicate Expanding(s: string, i: nat, env: Env, r: string) {
    i <= |s| && r + Expanded(s[i..], env) == Expanded(s, env)
  }

  lemma PlainAt(s: string, i: nat, env: Env, r: string)
    requires Expanding(s, i, env, r) && i < |s|
    requires s[i] != '$' || i + 1 == |s| || (s[i + 1] != '$' && s[i + 1] != '(')
    ensures Expanding(s, i + 1, env, r + [s[i]])
  {
    Left(s, i, 0);
    Left(s, i, 1);
    PlainStep(s[i..], env);
    hide Expanded;
    Associate(r, [s[i]], Expanded(s[i + 1..], env));
  }

  lemma EscapeAt(s: string, i: nat, env: Env, r: string)
    requires Expanding(s, i, env, r) && i + 1 < |s| && s[i] == s[i + 1] == '$'
    ensures Expanding(s, i + 2, env, r + "$")
  {
    Left(s, i, 0);
    Left(s, i, 1);
    Left(s, i, 2);
    EscapeStep(s[i..], env);
    hide Expanded;
    Associate(r, "$", Expanded(s[i + 2..], env));
  }

  lemma RefLeft(s: string, i: nat, end: nat, env: Env)
    requires i + 1 < |s| && s[i] == '$' && s[i + 1] == '(' && end == IndexByte(s[i + 2..], ')')
    ensures Expanded(s[i..], env) == Piece(Ref(s[i + 2..][..end]), env) + Expanded(s[i + 2 + end + 1..], env)
  {
    var left, tail := s[i..], s[i + 2..];
    assert left[2..] == tail && |left| > 1 && left[0] == s[i] && left[1] == s[i + 1] by {
      Left(s, i, 2);
    }
    assert tail[end..][1..] == s[i + 2 + end + 1..] by {
      Left(s, i + 2, end);
      Left(s, i + 2 + end, 1);
    }
    hide *;
    RefStep(left, env);
  }

  lemma RefAt(s: string, i: nat, end: nat, env: Env, r: string)
    requires Expanding(s, i, env, r) && i + 1 < |s| && s[i] == '$' && s[i + 1] == '('
    requires end == IndexByte(s[i + 2..], ')')
    ensures Expanding(s, i + 2 + end + 1, env, r + Piece(Ref(s[i + 2..][..end]), env))
  {
    hide Expanded, IndexByte, Piece;
    RefLeft(s, i, end, env);
    Associate(r, Piece(Ref(s[i + 2..][..end]), env), Expanded(s[i + 2 + end + 1..], env));
  }

  lemma UnclosedAt(s: string, i: nat, env: Env, r: string)
    requires Expanding(s, i, env, r) && i + 1 < |s| && s[i] == '$' && s[i + 1] == '('
    requires IndexByte(s[i + 2..], ')') < 0
    ensures Expanding(s, |s|, env, r + s[i..])
  {
    Left(s, i, 0);
    Left(s, i, 1);
    Left(s, i, 2);
    RefStep(s[i..], env);
    ExpandingEnds(s, env, r);
    assert s[|s|..] == "" && Expanded("", env) == "" && r + s[i..] + "" == r + s[i..];
    hide Expanded, IndexByte;
  }

  lemma ExpandingEnds(s: string, env: Env, r: string)
    ensures Expanding(s, 0, env, "")
    ensures Expanding(s, |s|, env, r) ==> r == Expanded(s, env)
  {
    assert s[0..] == s && "" + Expanded(s, env) == Expanded(s, env);
    assert s[|s|..] == "" && Expanded("", env) == "" && r + "" == r;
  }

  /** The branch of a reference: what it becomes, and where it ends. */
  method ExpandReference(s: string, i: nat, env: Env, ghost r: string) returns (piece: string, next: nat)
    requires Expanding(s, i, env, r) && i + 1 < |s| && s[i] == '$' && s[i + 1] == '('
    ensures i < next <= |s| && Expanding(s, next, env, r + piece)
  {
    hide Expanding;
    var end := IndexByte(s[i + 2..], ')');
    if end < 0 {
      UnclosedAt(s, i, env, r);
      return s[i..], |s|;
    }
    var name := s[i + 2..][..end];
    RefAt(s, i, end, env, r);
    piece := if name in env then env[name] else "$(" + name + ")";
    next := i + 2 + end + 1;
  }

  method Expand(s: string, env: Env) returns (r: string)
    ensures r == Expanded(s, env)
  {
    if '$' !in s {
      NoDollar(s, env);
      return s;
    }
    r := "";
    var i := 0;
    ExpandingEnds(s, env, "");
    hide *;
    while i < |s|
      invariant 0 <= i <= |s| && Expanding(s, i, env, r)
    {
      if s[i] != '$' || i + 1 >= |s| {
        PlainAt(s, i, env, r);
        r, i := r + [s[i]], i + 1;
      } else if s[i + 1] == '$' {
        EscapeAt(s, i, env, r);
        r, i := r + "$", i + 2;
      } else if s[i + 1] == '(' {
        var piece, next := ExpandReference(s, i, env, r);
        r, i := r + piece, next;
      } else {
        PlainAt(s, i, env, r);
        r, i := r + "$", i + 1;
      }
    }
    ExpandingEnds(s, env, r);
  }

  // ---- What the grammar promises ----

  /** No character is lost or made up by reading. */
  lemma {:induction false} SourceOfTokens(s: string)
    ensures Source(Tokens(s)) == s
    decreases |s|
  {
    if s != "" {
      FirstIsPrefix(s);
      var t := Text(First(s));
      SourceOfTokens(s[|t|..]);
      assert s == t + s[|t|..];
    }
  }

  /** The token lists that some text reads as. */
  ghost predicate WellFormed(ts: seq<Token>) {
    forall i :: 0 <= i < |ts| ==> WellPlaced(ts[i], Source(ts[i + 1..]))
  }

  predicate WellPlaced(t: Token, rest: string) {
    match t
    case Char(c) => c == '$' ==> rest == "" || (rest[0] != '$' && rest[0] != '(')
    case Escape => true
    case Ref(name) => ')' !in name
    case Unclosed(text) => rest == "" && ')' !in text
  }

  lemma {:induction false} CloserOf(name: string, rest: string)
    requires ')' !in name
    ensures IndexByte(name + ([')'] + rest), ')') == |name|
    decreases |name|
  {
    var s := name + ([')'] + rest);
    if name != "" {
      assert s[1..] == name[1..] + ([')'] + rest);
      CloserOf(name[1..], rest);
    }
  }

  lemma FirstRef(name: string, rest: string)
    ensures First(Text(Ref(name)) + rest) == Ref(name) <==> ')' !in name
  {
    var s := Text(Ref(name)) + rest;
    assert s[2..] == name + ([')'] + rest);
    IndexByteMeaning(s[2..], ')');
    if ')' !in name { CloserOf(name, rest); }
    hide IndexByte;
    assert s[2..][..|name|] == name;
  }

  lemma FirstUnclosed(text: string, rest: string)
    ensures First(Text(Unclosed(text)) + rest) == Unclosed(text) <==> rest == "" && ')' !in text
  {
    var s := Text(Unclosed(text)) + rest;
    assert s[2..] == text + rest;
    IndexByteMeaning(s[2..], ')');
    hide IndexByte;
    assert text + rest == text <==> rest == "";
  }

  lemma FirstOf(t: Token, rest: string)
    ensures First(Text(t) + rest) == t <==> WellPlaced(t, rest)
  {
    var s := Text(t) + rest;
    match t
    case Char(c) => assert s[0] == c && (rest != "" ==> s[1] == rest[0]);
    case Escape =>
    case Ref(name) => FirstRef(name, rest);
    case Unclosed(text) => FirstUnclosed(text, rest);
  }

  /** Reading is the only way back: a token list is read from its own text exactly when it is well formed. */
  lemma {:induction false} TokensOfSource(ts: seq<Token>)
    ensures Tokens(Source(ts)) == ts <==> WellFormed(ts)
    decreases |ts|
  {
    if ts != [] {
      var t, rest := ts[0], Source(ts[1..]);
      var s := Text(t) + rest;
      assert Source(ts) == s;
      TokensOfSource(ts[1..]);
      FirstOf(t, rest);
      WellFormedFirst(ts);
      hide First, WellFormed, WellPlaced;
      assert ts == [t] + ts[1..];
      assert s[|Text(t)|..] == rest;
    }
  }

  lemma WellFormedFirst(ts: seq<Token>)
    requires ts != []
    ensures WellFormed(ts) <==> WellPlaced(ts[0], Source(ts[1..])) && WellFormed(ts[1..])
  {
    hide WellPlaced, Source;
    if WellFormed(ts) {
      forall i | 0 <= i < |ts| - 1 ensures WellPlaced(ts[1..][i], Source(ts[1..][i + 1..])) {
        assert WellPlaced(ts[i + 1], Source(ts[i + 1 + 1..]));
        assert ts[1..][i + 1..] == ts[i + 2..];
      }
    }
    if WellPlaced(ts[0], Source(ts[1..])) && WellFormed(ts[1..]) {
      forall i | 0 <= i < |ts| ensures WellPlaced(ts[i], Source(ts[i + 1..])) {
        if i > 0 {
          assert WellPlaced(ts[1..][i - 1], Source(ts[1..][i - 1 + 1..]));
          assert ts[1..][i..] == ts[i + 1..];
        }
      }
    }
  }

  // ---- Values are never read again ----

  /** The text ends where a token does: nothing that follows can change how it reads. */
  predicate Settled(s: string) {
    var ts := Tokens(s);
    ts == [] || (ts[|ts| - 1] != Char('$') && !ts[|ts| - 1].Unclosed?)
  }

  lemma FirstStands(a: string, b: string)
    requires a != ""
    requires First(a) == Char('$') ==> |a| > 1
    requires !First(a).Unclosed?
    ensures First(a + b) == First(a)
  {
    var s := a + b;
    if |a| > 1 && a[0] == '$' && a[1] == '(' {
      assert s[2..] == a[2..] + b;
      CloserStands(a[2..], b);
    }
    hide IndexByte;
  }

  lemma {:induction false} CloserStands(a: string, b: string)
    requires IndexByte(a, ')') >= 0
    ensures IndexByte(a + b, ')') == IndexByte(a, ')')
  {
    if a[0] != ')' {
      assert (a + b)[1..] == a[1..] + b;
      CloserStands(a[1..], b);
    }
  }

  lemma SettledRest(a: string)
    requires a != "" && Settled(a)
    ensures var n := |Text(First(a))|;
            0 < n <= |a| && Settled(a[n..]) && Tokens(a) == [First(a)] + Tokens(a[n..])
  {
    FirstIsPrefix(a);
    var n := |Text(First(a))|;
    var rest := Tokens(a[n..]);
    assert Tokens(a) == [First(a)] + rest;
    if rest != [] { assert Tokens(a)[|Tokens(a)| - 1] == rest[|rest| - 1]; }
  }

  /** Text is read piece by piece: a settled part reads the same whatever comes after it. */
  lemma {:induction false} TokensAppend(a: string, b: string)
    requires Settled(a)
    ensures Tokens(a + b) == Tokens(a) + Tokens(b)
    decreases |a|
  {
    hide First, Settled, Text, IndexByte;
    if a == "" {
      assert a + b == b && Tokens(a) + Tokens(b) == Tokens(b);
    } else {
      var t, n := First(a), |Text(First(a))|;
      SettledRest(a);
      FirstSettled(a);
      FirstStands(a, b);
      FirstIsPrefix(a + b);
      assert Tokens(a + b) == [t] + Tokens((a + b)[n..]);
      hide *;
      TokensAppend(a[n..], b);
      DropOf(a, b, n);
      Together(t, Tokens(a[n..]), Tokens(b));
    }
  }

  lemma DropOf(a: string, b: string, n: nat)
    requires n <= |a|
    ensures (a + b)[n..] == a[n..] + b
  {
  }

  lemma Together(t: Token, ts: seq<Token>, us: seq<Token>)
    ensures [t] + ts + us == [t] + (ts + us)
  {
  }

  lemma FirstSettled(a: string)
    requires a != "" && Settled(a)
    ensures !First(a).Unclosed? && (First(a) == Char('$') ==> |a| > 1)
  {
    FirstIsPrefix(a);
    var n := |Text(First(a))|;
    assert Tokens(a) == [First(a)] + Tokens(a[n..]);
    if First(a).Unclosed? || |a| == 1 { assert a[n..] == ""; }
  }

  lemma {:induction false} ValueAppend(ts: seq<Token>, us: seq<Token>, env: Env)
    ensures Value(ts + us, env) == Value(ts, env) + Value(us, env)
  {
    if ts == [] {
      assert ts + us == us;
    } else {
      assert (ts + us)[1..] == ts[1..] + us;
      ValueAppend(ts[1..], us, env);
      hide Piece;
    }
  }

  lemma ReferenceStands(before: string, name: string, after: string, env: Env)
    requires Settled(before) && ')' !in name
    ensures Expanded(before + ("$(" + name + ")" + after), env)
         == Expanded(before, env) + (Piece(Ref(name), env) + Expanded(after, env))
  {
    var s := Text(Ref(name)) + after;
    TokensAppend(before, s);
    FirstOf(Ref(name), after);
    assert s[|Text(Ref(name))|..] == after;
    assert Tokens(s) == [Ref(name)] + Tokens(after);
    ValueAppend(Tokens(before), Tokens(s), env);
    assert ([Ref(name)] + Tokens(after))[1..] == Tokens(after);
    hide Tokens, First;
  }

  /**
   A reference stands for the value of its name, letter for letter, whatever
   dollars that value holds; what comes before and after is expanded as if the
   reference were not there.
   */
  lemma NeverReadAgain(before: string, name: string, after: string, env: Env)
    requires Settled(before) && ')' !in name && name in env
    ensures Expanded(before + ("$(" + name + ")" + after), env)
         == Expanded(before, env) + (env[name] + Expanded(after, env))
  {
    ReferenceStands(before, name, after, env);
    hide Expanded;
  }

  /** A reference to a name without a value stays as it is written, wherever it stands. */
  lemma UnknownStays(before: string, name: string, after: string, env: Env)
    requires Settled(before) && ')' !in name && name !in env
    ensures Expanded(before + ("$(" + name + ")" + after), env)
         == Expanded(before, env) + ("$(" + name + ")" + Expanded(after, env))
  {
    ReferenceStands(before, name, after, env);
    hide Expanded;
  }

  /** A reference that is never closed stays as it is written, with all that follows it. */
  lemma UnclosedStays(before: string, text: string, env: Env)
    requires Settled(before) && ')' !in text
    ensures Expanded(before + ("$(" + text), env) == Expanded(before, env) + ("$(" + text)
  {
    var s := "$(" + text;
    TokensAppend(before, s);
    IndexByteMeaning(text, ')');
    assert s[2..] == text;
    assert First(s) == Unclosed(text) && s[|s|..] == "";
    assert Tokens(s) == [Unclosed(text)];
    ValueAppend(Tokens(before), Tokens(s), env);
    assert Value([Unclosed(text)], env) == s;
    hide *;
  }

  function Doubled(s: string): string {
    if s == "" then "" else (if s[0] == '$' then "$$" else [s[0]]) + Doubled(s[1..])
  }

  lemma DoubledFirst(c: char, rest: string, env: Env)
    ensures Expanded((if c == '$' then "$$" else [c]) + rest, env) == [c] + Expanded(rest, env)
  {
    if c == '$' {
      EscapeStep("$$" + rest, env);
      assert ("$$" + rest)[2..] == rest;
    } else {
      PlainStep([c] + rest, env);
      assert ([c] + rest)[1..] == rest;
    }
    hide *;
  }

  /** Doubling every dollar protects a string from expansion. */
  lemma {:induction false} DoubledStays(s: string, env: Env)
    ensures Expanded(Doubled(s), env) == s
  {
    if s != "" {
      DoubledStays(s[1..], env);
      DoubledFirst(s[0], Doubled(s[1..]), env);
      hide Expanded;
    }
  }
}
