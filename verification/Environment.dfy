/** The environment of one container, from its declarations. */
module Environment {
  import opened Expansion

  /** A literal value to expand, or a value taken from elsewhere as it is. */
  datatype Source = Literal(text: string) | Taken(value: string)
  datatype EnvVar = EnvVar(name: string, source: Source)

  function Meaning(source: Source, env: Env): string {
    if source.Literal? then Expanded(source.text, env) else source.value
  }

  /** The values once all of `vars` are declared, each seeing only those before it. */
  function Values(vars: seq<EnvVar>): Env {
    if vars == [] then map[]
    else
      var before, last := Values(vars[..|vars| - 1]), vars[|vars| - 1];
      before[last.name := Meaning(last.source, before)]
  }

  function Order(vars: seq<EnvVar>): seq<string> {
    if vars == [] then []
    else
      var before, name := vars[..|vars| - 1], vars[|vars| - 1].name;
      Order(before) + (if name in Values(before) then [] else [name])
  }

  function Pairs(order: seq<string>, values: Env): seq<string>
    requires forall n :: n in order ==> n in values
  {
    if order == [] then [] else [order[0] + "=" + values[order[0]]] + Pairs(order[1..], values)
  }

  lemma {:induction false} OrderNames(vars: seq<EnvVar>)
    ensures forall n :: n in Order(vars) <==> n in Values(vars)
    ensures forall n :: n in Values(vars) <==> exists v :: v in vars && v.name == n
    ensures forall i, j :: 0 <= i < j < |Order(vars)| ==> Order(vars)[i] != Order(vars)[j]
  {
    if vars != [] {
      var before, last := vars[..|vars| - 1], vars[|vars| - 1];
      OrderNames(before);
      hide Meaning;
      forall n ensures n in Values(vars) <==> exists v :: v in vars && v.name == n {
        if n in Values(before) {
          var v :| v in before && v.name == n;
          assert v in vars;
        }
        if n == last.name { assert last in vars; }
        assert forall v :: v in vars <==> v in before || v == last;
      }
    }
  }

  /** Where a name is first and last declared. */
  function FirstDeclared(vars: seq<EnvVar>, name: string): nat {
    if vars == [] || vars[0].name == name then 0 else 1 + FirstDeclared(vars[1..], name)
  }

  lemma {:induction false} FirstOfPrefix(vars: seq<EnvVar>, k: nat, name: string)
    requires k <= |vars|
    ensures (exists i :: 0 <= i < k && vars[i].name == name)
        ==> FirstDeclared(vars[..k], name) == FirstDeclared(vars, name) < k
    ensures (forall i :: 0 <= i < k ==> vars[i].name != name) ==> FirstDeclared(vars, name) >= k
  {
    if k > 0 && vars[0].name != name {
      assert vars[..k][1..] == vars[1..][..k - 1];
      FirstOfPrefix(vars[1..], k - 1, name);
      assert forall i :: 0 < i < k ==> vars[i] == vars[1..][i - 1];
      assert forall i :: 0 <= i < k - 1 ==> vars[1..][i] == vars[i + 1];
    }
  }

  /** Names come in the order of their first declarations. */
  lemma {:induction false} FirstOccurrenceOrder(vars: seq<EnvVar>)
    ensures forall i, j :: 0 <= i < j < |Order(vars)| ==>
              FirstDeclared(vars, Order(vars)[i]) < FirstDeclared(vars, Order(vars)[j])
  {
    if vars != [] {
      var k := |vars| - 1;
      var before, name, order := vars[..k], vars[k].name, Order(vars[..k]);
      FirstOccurrenceOrder(before);
      OrderNames(before);
      forall n | n in order ensures FirstDeclared(vars, n) == FirstDeclared(before, n) < k {
        DeclaredIn(before, n);
        FirstOfPrefix(vars, k, n);
      }
      if name !in Values(before) {
        assert forall i :: 0 <= i < k ==> vars[i] in before;
        FirstOfPrefix(vars, k, name);
      }
      hide FirstDeclared;
      assert forall i :: 0 <= i < |order| ==> order[i] in order && Order(vars)[i] == order[i];
    }
  }

  lemma DeclaredIn(vars: seq<EnvVar>, name: string)
    requires exists v :: v in vars && v.name == name
    ensures exists i :: 0 <= i < |vars| && vars[i].name == name
  {
    var v :| v in vars && v.name == name;
    var i :| 0 <= i < |vars| && vars[i] == v;
  }

  /**
   A name has the value of its last declaration: a literal expanded against the
   declarations before it and no others, or what was taken from elsewhere as it is.
   */
  lemma {:induction false} LastDeclarationWins(vars: seq<EnvVar>, i: nat)
    requires i < |vars| && forall j :: i < j < |vars| ==> vars[j].name != vars[i].name
    ensures vars[i].name in Values(vars)
    ensures match vars[i].source
            case Literal(text) => Values(vars)[vars[i].name] == Expanded(text, Values(vars[..i]))
            case Taken(value) => Values(vars)[vars[i].name] == value
  {
    hide Expanded;
    if i < |vars| - 1 {
      var before := vars[..|vars| - 1];
      assert before[i] == vars[i] && before[..i] == vars[..i];
      LastDeclarationWins(before, i);
    }
  }

  lemma {:induction false} PairAt(order: seq<string>, values: Env, i: nat)
    requires i < |order| && forall n :: n in order ==> n in values
    ensures |Pairs(order, values)| == |order| && Pairs(order, values)[i] == order[i] + "=" + values[order[i]]
  {
    PairsLength(order, values);
    if i > 0 { PairAt(order[1..], values, i - 1); }
  }

  lemma {:induction false} PairsLength(order: seq<string>, values: Env)
    requires forall n :: n in order ==> n in values
    ensures |Pairs(order, values)| == |order|
  {
    if order != [] { PairsLength(order[1..], values); }
  }

  method ResolveEnv(vars: seq<EnvVar>) returns (out: seq<string>, values: Env)
    ensures values == Values(vars)
    ensures forall n :: n in Order(vars) ==> n in Values(vars)
    ensures |out| == |Order(vars)|
    ensures forall i :: 0 <= i < |out| ==> out[i] == Order(vars)[i] + "=" + Values(vars)[Order(vars)[i]]
  {
    values := map[];
    var order := [];
    for i := 0 to |vars|
      invariant values == Values(vars[..i]) && order == Order(vars[..i])
    {
      assert vars[..i + 1][..i] == vars[..i];
      var e := vars[i];
      var v: string;
      if e.source.Taken? {
        v := e.source.value;
      } else {
        v := Expand(e.source.text, values);
      }
      if e.name !in values {
        order := order + [e.name];
      }
      values := values[e.name := v];
      hide Expanded;
    }
    assert vars[..|vars|] == vars;
    OrderNames(vars);
    out := Rendered(order, values);
    PairsLength(order, values);
    forall i | 0 <= i < |order| ensures out[i] == order[i] + "=" + values[order[i]] { PairAt(order, values, i); }
  }

  method Rendered(order: seq<string>, values: Env) returns (out: seq<string>)
    requires forall n :: n in order ==> n in values
    ensures out == Pairs(order, values)
  {
    out := [];
    assert order[0..] == order;
    for i := 0 to |order|
      invariant out + Pairs(order[i..], values) == Pairs(order, values)
    {
      assert order[i..][1..] == order[i + 1..];
      out := out + [order[i] + "=" + values[order[i]]];
    }
    assert order[|order|..] == [];
  }
}
