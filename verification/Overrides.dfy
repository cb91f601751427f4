/** The --image flag: overrides of the default image table, as they are read and as they are shown to the user. */
module Overrides {
  import opened Options
  import opened Text

  datatype Override = Override(chain: string, client: string, ref: string)

  /** Lower case, character by character. */
  datatype Case = Case(lower: char -> char) {
    /** What reading an override needs of it. */
    ghost predicate Sound() {
      && (forall c :: lower(lower(c)) == lower(c))
      && (forall c :: lower(c) == '=' <==> c == '=')
      && (forall c :: IsSpace(lower(c)) <==> IsSpace(c))
    }

    function Of(s: string): (r: string)
      ensures |r| == |s| && forall i :: 0 <= i < |s| ==> r[i] == lower(s[i])
    {
      seq(|s|, i requires 0 <= i < |s| => lower(s[i]))
    }
  }

  /** The parts around the first `c`; the flag tells whether there is one. */
  function Cut(s: string, c: char): (string, string, bool) {
    if s == "" then ("", "", false)
    else if s[0] == c then ("", s[1..], true)
    else var (before, after, found) := Cut(s[1..], c); ([s[0]] + before, after, found)
  }

  /** `chain[/client]=ref`; None when a part is missing. */
  function Parse(cs: Case, s: string): Option<Override> {
    var (left, right, ok) := Cut(s, '=');
    var key, ref := TrimSpace(left), TrimSpace(right);
    if !ok || key == "" || ref == "" then None
    else
      var (chain, client, _) := Cut(key, '/');
      if chain == "" then None else Some(Override(chain, cs.Of(client), ref))
  }

  function Key(o: Override): string { if o.client == "" then o.chain else o.chain + "/" + o.client }

  function Show(o: Override): string { Key(o) + "=" + o.ref }

  lemma {:induction false} CutMeaning(s: string, c: char)
    ensures var (before, after, found) := Cut(s, c);
            c !in before && s == (if found then before + [c] + after else before) && (!found ==> after == "")
  {
    if s != "" && s[0] != c { CutMeaning(s[1..], c); }
  }

  lemma {:induction false} CutAt(before: string, c: char, after: string)
    requires c !in before
    ensures Cut(before + [c] + after, c) == (before, after, true)
    ensures Cut(before, c) == (before, "", false)
  {
    var s := before + [c] + after;
    if before == "" {
      assert s[1..] == after;
    } else {
      assert s[1..] == before[1..] + [c] + after;
      CutAt(before[1..], c, after);
      assert [before[0]] + before[1..] == before;
    }
  }

  /** Trimmed text neither starts nor ends with white space. */
  predicate Trim(s: string) { s == "" || (!IsSpace(s[0]) && !IsSpace(s[|s| - 1])) }

  lemma {:induction false} TrimLeftStarts(s: string)
    ensures TrimLeft(s) == "" || !IsSpace(TrimLeft(s)[0])
  {
    if s != "" && IsSpace(s[0]) { TrimLeftStarts(s[1..]); }
  }

  lemma {:induction false} TrimRightEnds(s: string)
    requires s == "" || !IsSpace(s[0])
    ensures Trim(TrimRight(s))
  {
    if s != "" && IsSpace(s[|s| - 1]) { TrimRightEnds(s[..|s| - 1]); }
  }

  lemma TrimmedIsTrim(s: string)
    ensures Trim(TrimSpace(s)) && TrimSpace(TrimSpace(s)) == TrimSpace(s)
    ensures Trim(s) ==> TrimSpace(s) == s
  {
    TrimLeftStarts(s);
    TrimRightEnds(TrimLeft(s));
    var t := TrimSpace(s);
    if t != "" {
      assert "" + t == t;
      TrimIndent("", t);
    }
    if s != "" && Trim(s) {
      assert "" + s == s;
      TrimIndent("", s);
    }
  }

  /** `s` is `left=right` around its first equals sign, and `left` is a chain, or a chain and a client behind a slash. */
  ghost predicate Spells(cs: Case, s: string, o: Override, left: string, right: string, client: string) {
    && s == left + ['='] + right && '=' !in left
    && o.chain != "" && '/' !in o.chain && o.client == cs.Of(client) && o.ref == TrimSpace(right) != ""
    && (TrimSpace(left) == o.chain + ['/'] + client || (client == "" && TrimSpace(left) == o.chain))
  }

  /** Which strings are read as which override; lower case is made of the client alone. */
  lemma ParseIff(cs: Case, s: string, o: Override)
    ensures Parse(cs, s) == Some(o) <==> exists left, right, client :: Spells(cs, s, o, left, right, client)
  {
    if Parse(cs, s) == Some(o) {
      var (left, right, ok) := Cut(s, '=');
      var (chain, client, slash) := Cut(TrimSpace(left), '/');
      CutMeaning(s, '=');
      CutMeaning(TrimSpace(left), '/');
      hide Cut, TrimSpace;
      assert Spells(cs, s, o, left, right, client);
    }
    if left, right, client :| Spells(cs, s, o, left, right, client) {
      CutAt(left, '=', right);
      CutAt(o.chain, '/', client);
      hide Cut, TrimSpace;
    }
  }

  /** What is known of an override that was read. */
  lemma ParsedParts(cs: Case, s: string)
    requires cs.Sound() && Parse(cs, s).Some?
    ensures var o := Parse(cs, s).value;
            && o.chain != "" && '/' !in o.chain && '=' !in o.chain && !IsSpace(o.chain[0])
            && '=' !in o.client && (o.client != "" ==> !IsSpace(o.client[|o.client| - 1])) && cs.Of(o.client) == o.client
            && o.ref != "" && Trim(o.ref)
  {
    var o := Parse(cs, s).value;
    var (left, right, ok) := Cut(s, '=');
    CutMeaning(s, '=');
    var key := TrimSpace(left);
    TrimmedIsTrim(left);
    TrimmedIsTrim(right);
    TrimMembers(left);
    var (chain, client, slash) := Cut(key, '/');
    CutMeaning(key, '/');
    hide Cut, TrimSpace;
    assert chain[0] == key[0];
    assert '=' !in key && forall c :: c in client ==> c in key;
    if client != "" { assert client[|client| - 1] == key[|key| - 1]; }
  }

  /** Reading back what is shown gives the same override, unless a chain without client ends in a blank. */
  lemma ShownThenParsed(cs: Case, s: string)
    requires cs.Sound() && Parse(cs, s).Some?
    ensures var o := Parse(cs, s).value;
            Parse(cs, Show(o)) == Some(o) <==> !(o.client == "" && IsSpace(o.chain[|o.chain| - 1]))
  {
    var o := Parse(cs, s).value;
    ParsedParts(cs, s);
    hide Parse, Cut;
    var key := Key(o);
    CutAt(key, '=', o.ref);
    assert Show(o) == key + ['='] + o.ref;
    TrimmedIsTrim(o.ref);
    TrimmedIsTrim(key);
    ReparsedKey(cs, o);
  }

  lemma ReparsedKey(cs: Case, o: Override)
    requires o.chain != "" && '/' !in o.chain && !IsSpace(o.chain[0]) && cs.Of(o.client) == o.client
    requires o.client != "" ==> !IsSpace(o.client[|o.client| - 1])
    requires '=' !in o.chain && '=' !in o.client && o.ref != "" && TrimSpace(o.ref) == o.ref
    ensures Parse(cs, Key(o) + ['='] + o.ref) == Some(o) <==> !(o.client == "" && IsSpace(o.chain[|o.chain| - 1]))
  {
    var key := Key(o);
    CutAt(key, '=', o.ref);
    TrimmedIsTrim(key);
    if o.client == "" && IsSpace(o.chain[|o.chain| - 1]) {
      TrimmedIsTrim(o.chain);
      var t := TrimSpace(o.chain);
      CutMeaning(t, '/');
      TrimMembers(o.chain);
      hide TrimSpace, Cut;
      assert t != o.chain;
    } else {
      assert Trim(key);
      hide TrimSpace;
      if o.client == "" {
        CutAt(o.chain, '/', "");
      } else {
        assert key == o.chain + ['/'] + o.client;
        CutAt(o.chain, '/', o.client);
      }
      hide Cut;
    }
  }

  lemma ReadsAs(cs: Case, left: string, chain: string, ref: string)
    requires '=' !in left && chain != "" && ref != "" && TrimSpace(ref) == ref
    requires TrimSpace(left) != "" && Cut(TrimSpace(left), '/').0 == chain && Cut(TrimSpace(left), '/').1 == ""
    ensures Parse(cs, left + ['='] + ref) == Some(Override(chain, "", ref))
  {
    CutAt(left, '=', ref);
    hide Cut, TrimSpace;
    assert cs.Of("") == "";
  }

  lemma BlankTrimmed()
    ensures TrimSpace("a ") == "a" && TrimSpace("a /") == "a /" && TrimSpace("r") == "r"
  {
    TrimmedIsTrim("a /");
    TrimmedIsTrim("r");
    assert "a "[..1] == "a";
  }

  /** "a /=r" names the chain "a ", which is shown as "a =r" and read back as "a". */
  lemma BlankLost(cs: Case)
    ensures Parse(cs, "a /=r") == Some(Override("a ", "", "r"))
    ensures Show(Override("a ", "", "r")) == "a =r" && Parse(cs, "a =r") == Some(Override("a", "", "r"))
  {
    BlankTrimmed();
    CutAt("a ", '/', "");
    CutAt("a", '/', "");
    assert "a /" + ['='] + "r" == "a /=r" && "a " + ['='] + "r" == "a =r" == "a " + "=" + "r" && "a " + ['/'] + "" == "a /";
    hide Cut, TrimSpace, Parse;
    ReadsAs(cs, "a /", "a ", "r");
    ReadsAs(cs, "a ", "a", "r");
  }
}
