/** Sync progress of clients that report a list of stages. */
module StageSync {

  datatype Stage = Stage(name: string, block: nat)

  /** Stages of Polygon that stay at block 0. */
  predicate Excluded(name: string) { name == "BorHeimdall" || name == "Translation" }

  /** Indexing that Erigon does once all blocks are there. */
  predicate PostSync(name: string) {
    name in {"IndexStorageHistory", "IndexAccountHistory", "IndexLogAddressTopics", "LogIndex", "TxLookup", "CallTraces", "Finish"}
  }

  predicate Counts(s: Stage) { !Excluded(s.name) }

  // ---- What is reported ----

  /** Neither of the two stages that stay at block 0. */
  ghost predicate Moves(s: Stage) { s.name != "BorHeimdall" && s.name != "Translation" }

  /** The greatest counted block, 0 if there is none. */
  ghost predicate IsHighest(ss: seq<Stage>, highest: nat) {
    && (forall s :: s in ss && Moves(s) ==> s.block <= highest)
    && (highest > 0 ==> exists s :: s in ss && Moves(s) && s.block == highest)
  }

  /** The least counted block above 0, 0 if there is none. */
  ghost predicate IsLeastPositive(ss: seq<Stage>, least: nat) {
    && (forall s :: s in ss && Moves(s) && s.block > 0 ==> 0 < least <= s.block)
    && (least > 0 ==> exists s :: s in ss && Moves(s) && s.block == least)
  }

  method EvmStages(ss: seq<Stage>) returns (current: nat, highest: nat)
    ensures IsLeastPositive(ss, current) && IsHighest(ss, highest) && current <= highest
  {
    var least := -1;
    highest := 0;
    for i := 0 to |ss|
      invariant -1 <= least && least != 0
      invariant IsHighest(ss[..i], highest)
      invariant IsLeastPositive(ss[..i], if least < 0 then 0 else least)
    {
      var s := ss[i];
      assert ss[..i + 1] == ss[..i] + [s];
      assert forall x :: x in ss[..i + 1] <==> x in ss[..i] || x == s;
      if Excluded(s.name) {
        continue;
      }
      var n := s.block;
      if n > highest {
        highest := n;
      }
      if n > 0 && (least < 0 || n < least) {
        least := n;
      }
    }
    assert ss[..|ss|] == ss;
    current := if least < 0 then 0 else least;
  }

  /** The answer depends on which stages there are, not on how they are listed. */
  lemma EvmIgnoresOrder(ss: seq<Stage>, ts: seq<Stage>, c: nat, c': nat, h: nat, h': nat)
    requires forall s :: s in ss <==> s in ts
    requires IsLeastPositive(ss, c) && IsHighest(ss, h)
    requires IsLeastPositive(ts, c') && IsHighest(ts, h')
    ensures c == c' && h == h'
  {
  }

  // ---- The Ethereum rule ----

  function Highest(ss: seq<Stage>): nat {
    if ss == [] then 0
    else
      var rest := Highest(ss[1..]);
      if Counts(ss[0]) && ss[0].block > rest then ss[0].block else rest
  }

  /** The first counted stage with the least block. */
  function Bottleneck(ss: seq<Stage>): seq<Stage> {
    if ss == [] then []
    else if !Counts(ss[0]) then Bottleneck(ss[1..])
    else
      var rest := Bottleneck(ss[1..]);
      if rest == [] || ss[0].block <= rest[0].block then [ss[0]] else rest
  }

  function EthCurrent(ss: seq<Stage>): nat {
    var b := Bottleneck(ss);
    if b == [] then 0
    else if Highest(ss) > 0 && PostSync(b[0].name) then Highest(ss)
    else b[0].block
  }

  /** What the loop has found in the stages before it. */
  ghost predicate Found(ss: seq<Stage>, current: int, name: string, highest: nat) {
    && highest == Highest(ss)
    && (if Bottleneck(ss) == [] then current == -1 && name == "" else current >= 0 && Bottleneck(ss) == [Stage(name, current)])
  }

  lemma {:induction false} FoundNext(ss: seq<Stage>, s: Stage)
    ensures Highest(ss + [s]) == if Counts(s) && s.block > Highest(ss) then s.block else Highest(ss)
    ensures var b := Bottleneck(ss);
            Bottleneck(ss + [s]) == if Counts(s) && (b == [] || s.block < b[0].block) then [s] else b
  {
    if ss == [] {
      assert ss + [s] == [s];
      assert Bottleneck([s][1..]) == [];
    } else {
      assert (ss + [s])[1..] == ss[1..] + [s];
      FoundNext(ss[1..], s);
      hide Counts;
    }
  }

  method EthStages(ss: seq<Stage>) returns (current: nat, highest: nat)
    ensures highest == Highest(ss) && current == EthCurrent(ss)
  {
    var least: int := -1;
    var name := "";
    highest := 0;
    for i := 0 to |ss|
      invariant -1 <= least && Found(ss[..i], least, name, highest)
    {
      var s := ss[i];
      assert ss[..i + 1] == ss[..i] + [s];
      FoundNext(ss[..i], s);
      hide Highest, Bottleneck;
      if Excluded(s.name) {
        continue;
      }
      if s.block > highest {
        highest := s.block;
      }
      if least < 0 || s.block < least {
        least, name := s.block, s.name;
      }
    }
    assert ss[..|ss|] == ss;
    current := if least < 0 then 0 else least;
    if highest > 0 && PostSync(name) {
      current := highest;
    }
  }

  ghost predicate IsMinimum(ss: seq<Stage>, m: Stage) {
    m in ss && Moves(m) && forall s :: s in ss && Moves(s) ==> m.block <= s.block
  }

  /** A stage that only indexes blocks that are there. */
  ghost predicate Indexes(s: Stage) {
    || s.name == "IndexStorageHistory" || s.name == "IndexAccountHistory" || s.name == "IndexLogAddressTopics"
    || s.name == "LogIndex" || s.name == "TxLookup" || s.name == "CallTraces" || s.name == "Finish"
  }

  lemma {:induction false} HighestMeaning(ss: seq<Stage>)
    ensures IsHighest(ss, Highest(ss))
  {
    if ss != [] {
      HighestMeaning(ss[1..]);
      assert forall s :: s in ss <==> s == ss[0] || s in ss[1..];
    }
  }

  lemma {:induction false} BottleneckMeaning(ss: seq<Stage>)
    ensures Bottleneck(ss) == [] <==> forall s :: s in ss ==> !Moves(s)
    ensures Bottleneck(ss) != [] ==> IsMinimum(ss, Bottleneck(ss)[0])
  {
    if ss != [] {
      BottleneckMeaning(ss[1..]);
      assert forall s :: s in ss <==> s == ss[0] || s in ss[1..];
      assert Counts(ss[0]) <==> Moves(ss[0]);
    }
  }

  /** With only post-sync stages at the bottom the node is at its highest block; with none, at the bottom. */
  lemma {:induction false} EthMeaning(ss: seq<Stage>)
    ensures EthCurrent(ss) <= Highest(ss)
    ensures (forall m :: IsMinimum(ss, m) ==> Indexes(m)) ==> EthCurrent(ss) == Highest(ss)
    ensures forall m :: IsMinimum(ss, m) && (forall l :: IsMinimum(ss, l) ==> !Indexes(l))
              ==> EthCurrent(ss) == m.block
  {
    HighestMeaning(ss);
    BottleneckMeaning(ss);
    assert forall s: Stage :: PostSync(s.name) <==> Indexes(s);
    hide PostSync, Indexes, Highest, Bottleneck;
  }

  /** Stages at the bottom disagree on whether the blocks are all there. */
  ghost predicate MixedBottom(ss: seq<Stage>) {
    exists m, l :: IsMinimum(ss, m) && IsMinimum(ss, l) && Indexes(m) && !Indexes(l) && m.block < Highest(ss)
  }

  /** Only then does it matter which of them is listed first. */
  lemma EthOrderMattersIff(ss: seq<Stage>)
    ensures (exists ts :: multiset(ts) == multiset(ss) && EthCurrent(ts) != EthCurrent(ss)) <==> MixedBottom(ss)
  {
    if ts :| multiset(ts) == multiset(ss) && EthCurrent(ts) != EthCurrent(ss) {
      OrderMattersOnlyIf(ss, ts);
    }
    if MixedBottom(ss) {
      var m, l :| IsMinimum(ss, m) && IsMinimum(ss, l) && Indexes(m) && !Indexes(l) && m.block < Highest(ss);
      assert PostSync(m.name) && !PostSync(l.name);
      var first := if EthCurrent(ss) == Highest(ss) then l else m;
      var ts := MinimumFirst(ss, first);
    }
  }

  lemma {:induction false} SameMembers(ss: seq<Stage>, ts: seq<Stage>)
    requires multiset(ts) == multiset(ss)
    ensures forall s :: s in ss <==> s in ts
    ensures Highest(ss) == Highest(ts)
    ensures forall m :: IsMinimum(ss, m) <==> IsMinimum(ts, m)
  {
    assert forall s :: s in ss <==> s in multiset(ss);
    assert forall s :: s in ts <==> s in multiset(ts);
    HighestMeaning(ss);
    HighestMeaning(ts);
    hide Highest, Moves;
  }

  lemma OrderMattersOnlyIf(ss: seq<Stage>, ts: seq<Stage>)
    requires multiset(ts) == multiset(ss) && EthCurrent(ts) != EthCurrent(ss)
    ensures MixedBottom(ss)
  {
    SameMembers(ss, ts);
    BottleneckMeaning(ss);
    BottleneckMeaning(ts);
    HighestMeaning(ss);
    assert forall s: Stage :: PostSync(s.name) <==> Indexes(s);
    hide PostSync, Indexes, Moves, Highest, Bottleneck;
    var b, d := Bottleneck(ss), Bottleneck(ts);
    if b != [] && d != [] {
      assert IsMinimum(ss, b[0]) && IsMinimum(ss, d[0]) && b[0].block == d[0].block;
    }
  }

  /** A node whose execution and whose last index stage are both at 5, with headers at 9. */
  lemma OrderMatters()
    ensures EthCurrent([Stage("Execution", 5), Stage("Finish", 5), Stage("Headers", 9)]) == 5
    ensures EthCurrent([Stage("Finish", 5), Stage("Execution", 5), Stage("Headers", 9)]) == 9
  {
    var execution, finish, headers := Stage("Execution", 5), Stage("Finish", 5), Stage("Headers", 9);
    assert [execution, finish, headers][1..] == [finish, headers] && [finish, execution, headers][1..] == [execution, headers];
    assert [finish, headers][1..] == [headers] == [execution, headers][1..] && [headers][1..] == [];
    assert Highest([headers]) == 9 && Bottleneck([headers]) == [headers];
    assert Highest([finish, headers]) == 9 == Highest([execution, headers]);
    assert Bottleneck([finish, headers]) == [finish] && Bottleneck([execution, headers]) == [execution];
    assert execution.name != "Finish";
  }

  lemma MinimumFirst(ss: seq<Stage>, m: Stage) returns (ts: seq<Stage>)
    requires IsMinimum(ss, m)
    ensures multiset(ts) == multiset(ss)
    ensures EthCurrent(ts) == if Highest(ss) > 0 && PostSync(m.name) then Highest(ss) else m.block
  {
    var j :| 0 <= j < |ss| && ss[j] == m;
    assert ss == ss[..j] + [m] + ss[j + 1..];
    ts := [m] + (ss[..j] + ss[j + 1..]);
    SameMembers(ss, ts);
    assert ts[1..] == ss[..j] + ss[j + 1..];
    BottleneckMeaning(ts[1..]);
    assert forall s :: s in ts[1..] ==> s in ts;
    assert Counts(m);
    assert forall s :: s in ss ==> (Counts(s) <==> Moves(s));
    hide Highest, PostSync, Counts, Moves;
  }

  // ---- Progress ----

  function Progress(current: int, highest: int): real {
    if highest <= 0 || current <= 0 then 0.0
    else if current >= highest then 100.0
    else current as real / highest as real * 100.0
  }

  /** Progress is a percentage, complete exactly at the tip, and never falls as blocks come in. */
  lemma ProgressMeaning(current: int, later: int, highest: int)
    requires current <= later
    ensures 0.0 <= Progress(current, highest) <= 100.0
    ensures Progress(current, highest) == 100.0 <==> 0 < highest <= current
    ensures Progress(current, highest) == 0.0 <==> highest <= 0 || current <= 0
    ensures Progress(current, highest) <= Progress(later, highest)
    ensures 0 < current < highest ==> Progress(current, highest) * highest as real == 100.0 * current as real
  {
    if 0 < current < highest {
      var share := current as real / highest as real;
      assert share * highest as real == current as real;
      assert share * 100.0 * highest as real == 100.0 * (share * highest as real);
    }
    if highest > 0 {
      Share(current, highest);
      Share(later, highest);
      if 0 < current < later < highest { ShareGrows(current, later, highest); }
    }
  }

  lemma Share(x: int, h: int)
    requires h > 0
    ensures 0 < x < h ==> 0.0 < x as real / h as real * 100.0 < 100.0
  {
    var r := x as real / h as real;
    assert r * (h as real) == x as real;
    assert r <= 0.0 ==> r * (h as real) <= 0.0;
    assert r >= 1.0 ==> r * (h as real) >= h as real;
  }

  lemma ShareGrows(x: int, y: int, h: int)
    requires 0 < x < y && h > 0
    ensures x as real / h as real * 100.0 < y as real / h as real * 100.0
  {
    var r, q := x as real / h as real, y as real / h as real;
    assert r * (h as real) == x as real && q * (h as real) == y as real;
    assert r >= q ==> r * (h as real) >= q * (h as real);
  }
}
