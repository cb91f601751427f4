/** The `tset` program: one key of one table gets a value. */
module TomlSet {
  import opened TomlLines

  /** A key of letters, digits, dashes and underscores, which is also its own regular expression. */
  predicate PlainKey(k: string) {
    k != "" && forall c :: c in k ==> IsBareKeyChar(c) && c != '.'
  }

  predicate Dash(c: char) { c == '_' || c == '-' }

  predicate SameChar(a: char, b: char) { a == b || (Dash(a) && Dash(b)) }

  predicate StartsWithKey(l: Line, k: string) { |k| <= |l| && forall i :: 0 <= i < |k| ==> SameChar(l[i], k[i]) }

  /** The line assigns `k`, whichever way its dashes are written. */
  predicate Assigns(l: Line, k: string) {
    var t := SkipWs(l);
    StartsWithKey(t, k) && SkipWs(t[|k|..]) != "" && SkipWs(t[|k|..])[0] == '='
  }

  /** The value's text stands for itself: no `&` and no backslash. */
  function WithValue(l: Line, v: string): Line { Before(l, '=') + ("= " + v) }

  function Set(ls: seq<Line>, cur: Line, section: Line, k: string, v: string): seq<Line> {
    if ls == [] then []
    else
      var cur' := if IsHeader(ls[0]) then SectionOf(ls[0]) else cur;
      [if cur' == section && Assigns(ls[0], k) then WithValue(ls[0], v) else ls[0]] + Set(ls[1..], cur', section, k, v)
  }

  method Tset(ls: seq<Line>, section: Line, k: string, v: string) returns (out: seq<Line>)
    ensures out == Set(ls, "", section, k, v)
  {
    out := [];
    var cur := "";
    assert ls[0..] == ls;
    for i := 0 to |ls|
      invariant out + Set(ls[i..], cur, section, k, v) == Set(ls, "", section, k, v)
    {
      SetStep(ls, i, cur, section, k, v, out);
      hide Set, Assigns, WithValue, IsHeader, SectionOf;
      var l := ls[i];
      if IsHeader(l) {
        cur := SectionOf(l);
      }
      if cur == section && Assigns(l, k) {
        l := WithValue(l, v);
      }
      out := out + [l];
    }
    assert ls[|ls|..] == [];
  }

  lemma SetStep(ls: seq<Line>, i: nat, cur: Line, section: Line, k: string, v: string, out: seq<Line>)
    requires i < |ls|
    ensures var cur' := if IsHeader(ls[i]) then SectionOf(ls[i]) else cur;
            var l := if cur' == section && Assigns(ls[i], k) then WithValue(ls[i], v) else ls[i];
            out + Set(ls[i..], cur, section, k, v) == out + [l] + Set(ls[i + 1..], cur', section, k, v)
  {
    hide Assigns, WithValue, IsHeader, SectionOf;
    assert ls[i..][1..] == ls[i + 1..];
  }

  // ---- One line ----

  lemma {:induction false} SkipWsAppend(a: Line, b: Line)
    requires b != "" && !IsWs(b[0])
    ensures SkipWs(a + b) == SkipWs(a) + b
  {
    if a == "" {
      assert a + b == b;
    } else if IsWs(a[0]) {
      assert (a + b)[1..] == a[1..] + b;
      SkipWsAppend(a[1..], b);
    }
  }

  lemma {:induction false} BeforeSplits(l: Line, c: char)
    requires c in l
    ensures Before(l, c) + [c] <= l && c !in Before(l, c)
  {
    if l[0] != c { BeforeSplits(l[1..], c); }
  }

  lemma {:induction false} BeforeOf(pre: Line, c: char, rest: Line)
    requires c !in pre
    ensures Before(pre + ([c] + rest), c) == pre
  {
    if pre != "" {
      assert (pre + ([c] + rest))[1..] == pre[1..] + ([c] + rest);
      BeforeOf(pre[1..], c, rest);
    }
  }

  lemma {:induction false} SkipWsMembers(l: Line)
    ensures forall c :: c in SkipWs(l) ==> c in l
  {
    if l != "" && IsWs(l[0]) { SkipWsMembers(l[1..]); }
  }

  /** What stands before the equals sign decides which key a line assigns. */
  predicate KeyText(pre: Line, k: string) {
    var t := SkipWs(pre);
    StartsWithKey(t, k) && SkipWs(t[|k|..]) == ""
  }

  lemma AssignsBy(pre: Line, rest: Line, k: string)
    requires '=' !in pre && PlainKey(k)
    ensures Assigns(pre + (['='] + rest), k) <==> KeyText(pre, k)
  {
    var b := ['='] + rest;
    var t := SkipWs(pre);
    SkipWsAppend(pre, b);
    SkipWsMembers(pre);
    assert SkipWs(pre + b) == t + b;
    assert forall c :: c in k ==> !SameChar('=', c);
    if StartsWithKey(t + b, k) {
      assert (t + b)[|t|] == '=';
      assert forall i :: 0 <= i < |k| ==> k[i] in k && (t + b)[i] != '=';
      assert StartsWithKey(t, k);
    }
    if StartsWithKey(t, k) {
      assert (t + b)[|k|..] == t[|k|..] + b;
      SkipWsAppend(t[|k|..], b);
      NoEquals(t, |k|);
      assert forall i :: 0 <= i < |k| ==> (t + b)[i] == t[i];
    }
  }

  lemma NoEquals(t: Line, n: nat)
    requires n <= |t| && '=' !in t
    ensures SkipWs(t[n..]) == "" || SkipWs(t[n..])[0] != '='
  {
    SkipWsMembers(t[n..]);
    var rest := SkipWs(t[n..]);
    assert forall c :: c in t[n..] ==> c in t;
    if rest != "" { assert rest[0] in rest; }
  }

  lemma AssignsIff(l: Line, k: string)
    requires PlainKey(k)
    ensures Assigns(l, k) <==> '=' in l && KeyText(Before(l, '='), k)
  {
    if '=' in l {
      BeforeSplits(l, '=');
      var pre := Before(l, '=');
      assert l == pre + (['='] + l[|pre| + 1..]);
      AssignsBy(pre, l[|pre| + 1..], k);
    } else {
      var t := SkipWs(l);
      SkipWsMembers(l);
      if StartsWithKey(t, k) { NoEquals(t, |k|); }
    }
  }

  /** A new value changes neither the key a line assigns nor what may be put in its place. */
  lemma SetLine(l: Line, k: string, v: string)
    requires PlainKey(k) && Assigns(l, k)
    ensures Before(WithValue(l, v), '=') == Before(l, '=')
    ensures forall j :: PlainKey(j) ==> (Assigns(WithValue(l, v), j) <==> Assigns(l, j))
    ensures !IsHeader(l) && !IsHeader(WithValue(l, v))
    ensures WithValue(l, v) == Before(l, '=') + (['='] + (" " + v))
  {
    var pre := Before(l, '=');
    AssignsIff(l, k);
    BeforeSplits(l, '=');
    assert WithValue(l, v) == pre + (['='] + (" " + v));
    BeforeOf(pre, '=', " " + v);
    forall j | PlainKey(j) ensures Assigns(WithValue(l, v), j) <==> Assigns(l, j) {
      AssignsBy(pre, " " + v, j);
      AssignsIff(l, j);
    }
    AssignmentIsNoHeader(l, k);
    AssignmentIsNoHeader(WithValue(l, v), k);
  }

  lemma AssignmentIsNoHeader(l: Line, k: string)
    requires PlainKey(k) && Assigns(l, k)
    ensures !IsHeader(l)
  {
    assert SameChar(SkipWs(l)[0], k[0]) && k[0] in k;
  }

  // ---- What setting does to a file ----

  /** The table each line belongs to, header lines included. */
  function TableAt(ls: seq<Line>, cur: Line, i: nat): Line
    requires i < |ls|
  {
    var cur' := if IsHeader(ls[0]) then SectionOf(ls[0]) else cur;
    if i == 0 then cur' else TableAt(ls[1..], cur', i - 1)
  }

  /** Line by line: an assignment of the key in the table gets the value, everything else stays. */
  lemma {:induction false} SetMeaning(ls: seq<Line>, cur: Line, section: Line, k: string, v: string)
    requires PlainKey(k)
    ensures var out := Set(ls, cur, section, k, v);
            && |out| == |ls|
            && forall i :: 0 <= i < |ls| ==>
                 && TableAt(out, cur, i) == TableAt(ls, cur, i)
                 && out[i] == if TableAt(ls, cur, i) == section && Assigns(ls[i], k) then WithValue(ls[i], v) else ls[i]
  {
    if ls != [] {
      var cur' := if IsHeader(ls[0]) then SectionOf(ls[0]) else cur;
      var out, rest := Set(ls, cur, section, k, v), Set(ls[1..], cur', section, k, v);
      SetMeaning(ls[1..], cur', section, k, v);
      if Assigns(ls[0], k) { SetLine(ls[0], k, v); }
      hide Set, Assigns, WithValue, SectionOf, IsHeader, PlainKey;
      assert out[1..] == rest;
    }
  }

  /** The last value wins: setting twice is setting once, with the later value. */
  lemma {:induction false} SetTwice(ls: seq<Line>, cur: Line, section: Line, k: string, v: string, w: string)
    requires PlainKey(k)
    ensures Set(Set(ls, cur, section, k, v), cur, section, k, w) == Set(ls, cur, section, k, w)
  {
    if ls != [] {
      var cur' := if IsHeader(ls[0]) then SectionOf(ls[0]) else cur;
      SetTwice(ls[1..], cur', section, k, v, w);
      if Assigns(ls[0], k) { SetLine(ls[0], k, v); }
      hide Assigns, SectionOf, IsHeader, PlainKey;
    }
  }

  /** Settings of different tables, or of keys that no line assigns together, do not disturb each other. */
  lemma {:induction false} SetsCommute(ls: seq<Line>, cur: Line, section: Line, k: string, v: string,
                                       section': Line, k': string, v': string)
    requires PlainKey(k) && PlainKey(k')
    requires section == section' ==> forall l :: !(Assigns(l, k) && Assigns(l, k'))
    ensures Set(Set(ls, cur, section, k, v), cur, section', k', v')
         == Set(Set(ls, cur, section', k', v'), cur, section, k, v)
  {
    if ls != [] {
      var cur' := if IsHeader(ls[0]) then SectionOf(ls[0]) else cur;
      SetsCommute(ls[1..], cur', section, k, v, section', k', v');
      if Assigns(ls[0], k) { SetLine(ls[0], k, v); }
      if Assigns(ls[0], k') { SetLine(ls[0], k', v'); }
      hide Assigns, SectionOf, IsHeader, PlainKey, WithValue;
    }
  }

  lemma AfterKey(l: Line, k: string)
    requires Assigns(l, k)
    ensures |k| < |SkipWs(l)| && (IsWs(SkipWs(l)[|k|]) || SkipWs(l)[|k|] == '=')
  {
  }

  /** One line assigns two keys only if they differ in their dashes alone. */
  lemma KeysApart(l: Line, k: string, k': string)
    requires PlainKey(k) && PlainKey(k') && Assigns(l, k) && Assigns(l, k')
    ensures |k| == |k'| && forall i :: 0 <= i < |k| ==> SameChar(k[i], k'[i])
  {
    var t := SkipWs(l);
    AfterKey(l, k);
    AfterKey(l, k');
    assert forall i :: 0 <= i < |k| ==> SameChar(t[i], k[i]) && k[i] in k;
    assert forall i :: 0 <= i < |k'| ==> SameChar(t[i], k'[i]) && k'[i] in k';
    assert forall i :: 0 <= i < |k| || 0 <= i < |k'| ==> !IsWs(t[i]) && t[i] != '=';
  }
}
