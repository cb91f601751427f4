/** Restarts: when a merged file merges to itself, for every target. */
module TomlStability {
  import opened TomlLines
  import opened TomlMerge
  import opened TomlReplay
  import opened TomlSteps

  // ---- Merging a merged file ----

  /** With an entry that cannot be read back, every merge of a merged file is longer. */
  lemma UnreadableGrows(o: seq<Line>, t: seq<Line>)
    requires !Parse(o).AllBare()
    ensures |Merge(o, Merge(o, t))| > |Merge(o, t)|
  {
    ParseValid(o);
    var ov := Parse(o);
    var k :| k in ov.lines && !IsBareEntry(ov.lines[k]);
    hide Rewrite, IsBareEntry, NeverHit, Parse;
    RewriteNeverHit(ov, t, "", {}, 0, k);
    MissingEntryGrows(ov, Merge(o, t), "", {}, 0, k);
  }

  /** Without one, the second merge is the last that changes anything. */
  lemma SecondMergeSettles(o: seq<Line>, t: seq<Line>)
    requires Parse(o).AllBare()
    ensures Merge(o, Merge(o, Merge(o, t))) == Merge(o, Merge(o, t))
  {
    ParseValid(o);
    var ov, u := Parse(o), Merge(o, t);
    RewriteHasTables(ov, t, "", {}, 0);
    assert InOnePiece(ov, u, "", {});
    hide Rewrite, Parse;
    RewriteStable(ov, u, "", {}, 0);
  }

  // ---- Main results ----

  /** The witness target for the converse is the empty file. */
  lemma UnstableOnEmpty(o: seq<Line>)
    requires !(Parse(o).AllBare() && Parse(o).Contiguous())
    ensures |Merge(o, Merge(o, []))| > |Merge(o, [])|
  {
    ParseValid(o);
    if Parse(o).AllBare() {
      TopFirst(o, "", Overrides([], map[]));
      SplitTableUnstable(Parse(o));
    } else {
      UnreadableGrows(o, []);
    }
  }

  lemma SplitTableUnstable(ov: Overrides)
    requires ov.Valid() && ov.AllBare() && !ov.Contiguous() && TopLevelFirst(ov.order)
    ensures var u := Rewrite(ov, [], "", {}, 0); |Rewrite(ov, u, "", {}, 0)| > |u|
  {
    var top, tables := StepLast(ov, "", {}, 0);
    hide Rewrite, NewTables, LinesOf, Todo, Without, Grouped, TopLevelFirst;
    assert {} + AsSet(top) == AsSet(top);
    var tail := NewTables(ov, tables, "");
    assert Blanks(0) + tail == tail;
    if Grouped(tables, "") { TopDoesNotSplit(ov.order, AsSet(top), ""); }
    WithoutDistinct(ov.order, AsSet(top));
    ReplayEntries(ov, top, tail, "", {});
    SplitTableGrows(ov, tables, "", AsSet(top), 0);
  }

  /**
   A merge is a fixpoint on every target exactly when every override line is a
   bare-key entry and no table of the override file is split.
   */
  lemma StableIff(o: seq<Line>)
    ensures (forall t :: Merge(o, Merge(o, t)) == Merge(o, t))
       <==> Parse(o).AllBare() && Parse(o).Contiguous()
  {
    ParseValid(o);
    if Parse(o).AllBare() && Parse(o).Contiguous() {
      forall t ensures Merge(o, Merge(o, t)) == Merge(o, t) {
        RewriteStable(Parse(o), t, "", {}, 0);
      }
    } else {
      UnstableOnEmpty(o);
    }
  }

  /** Two merges are enough on every target exactly when every override line is a bare-key entry. */
  lemma SettlesIff(o: seq<Line>)
    ensures (forall t :: Merge(o, Merge(o, Merge(o, t))) == Merge(o, Merge(o, t))) <==> Parse(o).AllBare()
  {
    if Parse(o).AllBare() {
      forall t ensures Merge(o, Merge(o, Merge(o, t))) == Merge(o, Merge(o, t)) { SecondMergeSettles(o, t); }
    } else {
      UnreadableGrows(o, Merge(o, []));
      assert |Merge(o, Merge(o, Merge(o, [])))| > |Merge(o, Merge(o, []))|;
    }
  }

  function Restarts(o: seq<Line>, t: seq<Line>, n: nat): seq<Line> {
    if n == 0 then t else Merge(o, Restarts(o, t, n - 1))
  }

  /** Any number of restarts leaves the file at its first merge. */
  lemma {:induction false} RestartsSettle(o: seq<Line>, t: seq<Line>, n: nat)
    requires Parse(o).AllBare() && Parse(o).Contiguous()
    ensures Restarts(o, t, n + 1) == Merge(o, t)
  {
    if n > 0 {
      RestartsSettle(o, t, n - 1);
      StableIff(o);
    }
  }

  /** With split tables it is left at the second; with an unreadable entry it grows with every restart, without bound. */
  lemma {:induction false} RestartsSettleOrGrow(o: seq<Line>, t: seq<Line>, n: nat)
    ensures Parse(o).AllBare() ==> Restarts(o, t, n + 2) == Merge(o, Merge(o, t))
    ensures !Parse(o).AllBare() ==> |Restarts(o, t, n + 1)| >= |Merge(o, t)| + n
  {
    assert Restarts(o, t, n + 2) == Merge(o, Restarts(o, t, n + 1)) && Restarts(o, t, n + 1) == Merge(o, Restarts(o, t, n));
    hide Restarts, Merge, Parse, Overrides.AllBare;
    if n == 0 {
      RestartsFirst(o, t);
    } else {
      RestartsSettleOrGrow(o, t, n - 1);
      if Parse(o).AllBare() {
        SecondMergeSettles(o, t);
      } else {
        RestartsNext(o, t, n - 1);
        UnreadableGrows(o, Restarts(o, t, n - 1));
      }
    }
  }

  lemma RestartsNext(o: seq<Line>, t: seq<Line>, n: nat)
    ensures Restarts(o, t, n + 1) == Merge(o, Restarts(o, t, n))
  {
  }

  lemma RestartsFirst(o: seq<Line>, t: seq<Line>)
    ensures Restarts(o, t, 0) == t
  {
  }
}
