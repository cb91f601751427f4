/** The worker pool of the smoke runner, under every interleaving of its workers. */
module WorkerPool {
  import opened Counting
  import opened Options

  /** A worker waits for a slot, runs its item, counts itself as done and gives the slot back. */
  datatype Pc = Waiting | Running | Stored | Counted | Left {
    predicate Inside() { Running? || Stored? || Counted? }
    predicate HasResult() { Stored? || Counted? || Left? }
    predicate IsCounted() { Counted? || Left? }
    function ToGo(): nat {
      match this
      case Waiting => 4
      case Running => 3
      case Stored => 2
      case Counted => 1
      case Left => 0
    }
  }

  datatype Pool<!T, R> = Pool(n: nat, items: seq<T>, fn: T -> R) {
    predicate Valid(w: World<R>) { |w.pcs| == |w.out| == |items| }

    ghost predicate Init(w: World<R>) {
      && Valid(w) && w.slots == 0 && w.done == 0
      && forall i :: 0 <= i < |items| ==> w.pcs[i] == Waiting && w.out[i] == None
    }

    /** One step of worker `i`. The slots are a channel of capacity `n`: sending blocks when it is full. */
    ghost predicate Step(w: World<R>, w': World<R>, i: nat) {
      && Valid(w) && i < |items|
      && match w.pcs[i]
         case Waiting => w.slots < n && w' == w.(slots := w.slots + 1, pcs := w.pcs[i := Running])
         case Running => w' == w.(out := w.out[i := Some(fn(items[i]))], pcs := w.pcs[i := Stored])
         case Stored => w' == w.(done := w.done + 1, pcs := w.pcs[i := Counted])
         case Counted => w' == w.(slots := w.slots - 1, pcs := w.pcs[i := Left])
         case Left => false
    }

    ghost predicate Next(w: World<R>, w': World<R>) { exists i: nat :: Step(w, w', i) }

    ghost predicate Run(ws: seq<World<R>>) {
      && |ws| > 0 && Init(ws[0])
      && forall k :: 0 <= k < |ws| - 1 ==> Next(ws[k], ws[k + 1])
    }

    predicate Finished(w: World<R>) { forall i :: 0 <= i < |w.pcs| ==> w.pcs[i] == Left }

    ghost predicate Inv(w: World<R>) {
      && Valid(w)
      && w.slots == Count(Insides(w.pcs)) <= n
      && w.done == Count(Counteds(w.pcs))
      && forall i :: 0 <= i < |items| ==> w.out[i] == if w.pcs[i].HasResult() then Some(fn(items[i])) else None
    }
  }

  datatype World<R> = World(slots: int, out: seq<Option<R>>, pcs: seq<Pc>, done: nat)

  function Insides(pcs: seq<Pc>): seq<bool> { seq(|pcs|, i requires 0 <= i < |pcs| => pcs[i].Inside()) }

  function Counteds(pcs: seq<Pc>): seq<bool> { seq(|pcs|, i requires 0 <= i < |pcs| => pcs[i].IsCounted()) }

  lemma StepInv<T, R>(p: Pool<T, R>, w: World<R>, w': World<R>, i: nat)
    requires p.Inv(w) && p.Step(w, w', i)
    ensures p.Inv(w')
  {
    assert Insides(w'.pcs) == Insides(w.pcs)[i := w'.pcs[i].Inside()];
    assert Counteds(w'.pcs) == Counteds(w.pcs)[i := w'.pcs[i].IsCounted()];
    CountUpdate(Insides(w.pcs), i, w'.pcs[i].Inside());
    CountUpdate(Counteds(w.pcs), i, w'.pcs[i].IsCounted());
    hide Count, Insides, Counteds;
  }

  lemma NextInv<T, R>(p: Pool<T, R>, w: World<R>, w': World<R>)
    requires p.Inv(w) && p.Next(w, w')
    ensures p.Inv(w')
  {
    var i: nat :| p.Step(w, w', i);
    StepInv(p, w, w', i);
  }

  lemma InitInv<T, R>(p: Pool<T, R>, w: World<R>)
    requires p.Init(w)
    ensures p.Inv(w)
  {
    CountNone(Insides(w.pcs));
    CountNone(Counteds(w.pcs));
  }

  /** In every reachable state no more than `n` items are in flight, and every result is that of its own item. */
  lemma RunInv<T, R>(p: Pool<T, R>, ws: seq<World<R>>)
    requires p.Run(ws)
    ensures forall k :: 0 <= k < |ws| ==> p.Inv(ws[k])
  {
    InitInv(p, ws[0]);
    var k := 0;
    while k < |ws| - 1
      invariant 0 <= k < |ws| && forall j :: 0 <= j <= k ==> p.Inv(ws[j])
    {
      assert p.Next(ws[k], ws[k + 1]);
      NextInv(p, ws[k], ws[k + 1]);
      k := k + 1;
    }
  }

  /** When all workers have left, the output is `fn` of the input, in order, and every item was counted. */
  lemma ResultsInOrder<T, R>(p: Pool<T, R>, w: World<R>)
    requires p.Inv(w) && p.Finished(w)
    ensures w.out == seq(|p.items|, i requires 0 <= i < |p.items| => Some(p.fn(p.items[i])))
    ensures w.done == |p.items| && w.slots == 0
  {
    CountAll(Counteds(w.pcs));
    CountNone(Insides(w.pcs));
  }

  /** Until then some worker can move, exactly when the pool has a slot at all. */
  lemma NoDeadlockIff<T, R>(p: Pool<T, R>, w: World<R>)
    requires p.Inv(w) && !p.Finished(w)
    ensures (exists w' :: p.Next(w, w')) <==> p.n > 0
  {
    var bs := Insides(w.pcs);
    CountNone(bs);
    if p.n == 0 {
      forall i: nat, w' ensures !p.Step(w, w', i) {
        if i < |p.items| { assert !bs[i]; }
      }
    } else if Count(bs) == 0 {
      var i: nat :| i < |w.pcs| && w.pcs[i] != Left;
      assert !bs[i];
      Moves(p, w, w.(slots := w.slots + 1, pcs := w.pcs[i := Running]), i);
    } else {
      var i: nat :| i < |bs| && bs[i];
      match w.pcs[i]
      case Running =>
        var w' := w.(out := w.out[i := Some(p.fn(p.items[i]))], pcs := w.pcs[i := Stored]);
        Moves(p, w, w', i);
        assert p.Next(w, w');
      case Stored => Moves(p, w, w.(done := w.done + 1, pcs := w.pcs[i := Counted]), i);
      case Counted => Moves(p, w, w.(slots := w.slots - 1, pcs := w.pcs[i := Left]), i);
    }
  }

  lemma Moves<T, R>(p: Pool<T, R>, w: World<R>, w': World<R>, i: nat)
    requires p.Step(w, w', i)
    ensures p.Next(w, w')
  {
  }

  function Rests(pcs: seq<Pc>): seq<int> { seq(|pcs|, i requires 0 <= i < |pcs| => pcs[i].ToGo()) }

  function ToGo(pcs: seq<Pc>): int { Sum(Rests(pcs)) }

  /** Every step brings the end nearer, so no run is longer than four steps an item. */
  lemma {:induction false} RunsEnd<T, R>(p: Pool<T, R>, ws: seq<World<R>>, k: nat)
    requires p.Run(ws) && k < |ws|
    ensures k + ToGo(ws[k].pcs) == 4 * |p.items| && ToGo(ws[k].pcs) >= 0
  {
    RunInv(p, ws);
    if k == 0 {
      SumOfSame(Rests(ws[0].pcs), 4);
    } else {
      RunsEnd(p, ws, k - 1);
      assert p.Next(ws[k - 1], ws[k - 1 + 1]);
      Nearer(p, ws[k - 1], ws[k]);
    }
    SumAtMost(Rests(ws[k].pcs), Rests(ws[k].pcs));
  }

  lemma Nearer<T, R>(p: Pool<T, R>, w: World<R>, w': World<R>)
    requires p.Next(w, w')
    ensures ToGo(w'.pcs) == ToGo(w.pcs) - 1
  {
    var i: nat :| p.Step(w, w', i);
    assert Rests(w'.pcs) == Rests(w.pcs)[i := w'.pcs[i].ToGo()];
    SumUpdate(Rests(w.pcs), i, w'.pcs[i].ToGo());
  }
}
