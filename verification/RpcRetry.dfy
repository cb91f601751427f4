/** Retries of an RPC call with exponential backoff. */
module RpcRetry {

  datatype Outcome<V, E> = Ok(value: V) | Err(error: E)

  /** Neither a value nor an error comes back when no call was allowed. */
  datatype Result<V, E> = Success(value: V) | Failure(error: E) | Nothing

  function Pow2(k: nat): nat { if k == 0 then 1 else 2 * Pow2(k - 1) }

  /** The world: what each call yields, which errors are transient, and whether the wait after a call is cut short. */
  datatype World<V, !E> = World(call: nat -> Outcome<V, E>, transient: E -> bool, cancelled: nat -> bool) {

    /** Another call follows the i-th, unless it was the last one allowed. */
    ghost predicate Retries(i: nat) { call(i).Err? && transient(call(i).error) && !cancelled(i) }

    /** `n` calls are made: all but the last are retried, and the last is not, or is the last one allowed. */
    ghost predicate Makes(n: nat, maxRetries: int) {
      && 1 <= n <= maxRetries + 1
      && (forall i :: 0 <= i < n - 1 ==> Retries(i))
      && (n == maxRetries + 1 || !Retries(n - 1))
    }

    function Yield(i: nat): Result<V, E> {
      if call(i).Ok? then Success(call(i).value) else Failure(call(i).error)
    }
  }

  lemma {:induction false} Pow2Grows(j: nat, k: nat)
    requires j <= k
    ensures 1 <= Pow2(j) <= Pow2(k)
  {
    if j > 0 { Pow2Grows(j - 1, k - 1); } else if k > 0 { Pow2Grows(0, k - 1); }
  }

  /** The number of calls is settled by the outcomes; what is returned is the first success, or the error of the last call. */
  lemma CallsSettled<V, E>(w: World<V, E>, n: nat, m: nat, maxRetries: int)
    requires w.Makes(n, maxRetries) && w.Makes(m, maxRetries)
    ensures n == m && 2 * (Pow2(n - 1) - 1) <= 2 * (Pow2(maxRetries) - 1)
    ensures forall i :: 0 <= i < n - 1 ==> w.call(i).Err?
    ensures (exists i :: 0 <= i <= maxRetries && w.call(i).Ok? && forall j :: 0 <= j < i ==> w.Retries(j))
       <==> w.call(n - 1).Ok?
  {
    var last: nat, last': nat := n - 1, m - 1;
    assert last < m - 1 ==> w.Retries(last);
    assert last' < n - 1 ==> w.Retries(last');
    Pow2Grows(n - 1, maxRetries);
    if i :| 0 <= i <= maxRetries && w.call(i).Ok? && forall j :: 0 <= j < i ==> w.Retries(j) {
      assert !w.Retries(i);
      assert i > last ==> w.Retries(last);
    }
    forall i | 0 <= i < n - 1 ensures w.call(i).Err? { assert w.Retries(i); }
  }

  /** `waited` adds up the waits that were not cut short, in seconds. */
  method CallWithRetry<V(0), E(0)>(w: World<V, E>, maxRetries: int) returns (r: Result<V, E>, calls: nat, waited: nat)
    ensures maxRetries < 0 ==> r == Nothing && calls == 0 && waited == 0
    ensures maxRetries >= 0 ==> w.Makes(calls, maxRetries) && r == w.Yield(calls - 1) && waited == 2 * (Pow2(calls - 1) - 1)
    ensures forall i :: 0 <= i < calls - 1 ==> w.call(i).Err? && w.transient(w.call(i).error) && !w.cancelled(i)
    ensures 0 < calls <= maxRetries ==>
              w.call(calls - 1).Ok? || !w.transient(w.call(calls - 1).error) || w.cancelled(calls - 1)
    ensures calls > 0 ==> r == match w.call(calls - 1) case Ok(v) => Success(v) case Err(e) => Failure(e)
  {
    var delay := 2;
    calls, waited, r := 0, 0, Nothing;
    var attempt := 0;
    while attempt <= maxRetries
      invariant 0 <= attempt && (maxRetries >= 0 ==> attempt <= maxRetries) && (maxRetries < 0 ==> attempt == 0)
      invariant calls == attempt && delay == 2 * Pow2(attempt) && waited == delay - 2
      invariant attempt == 0 ==> r == Nothing
      invariant forall i :: 0 <= i < attempt ==> w.call(i).Err? && w.transient(w.call(i).error) && !w.cancelled(i)
    {
      var outcome := w.call(attempt);
      calls := calls + 1;
      if outcome.Ok? {
        return Success(outcome.value), calls, waited;
      }
      r := Failure(outcome.error);
      if !w.transient(outcome.error) || attempt == maxRetries {
        return;
      }
      if w.cancelled(attempt) {
        return;
      }
      waited := waited + delay;
      delay := delay * 2;
      attempt := attempt + 1;
    }
  }
}
