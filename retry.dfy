/**
 * The two retry runners of the library.
 *
 * `Retry` is the top-level `retry(func, times = 5, verify = null)` of functions.user.js:
 * the budget is `times || 5`, the counter is decremented before each call, and an
 * optional `verify` may turn a returned response into a failure by throwing.
 *
 * `RetryNested` is the `retry(func, times)` declared inside `request` in
 * tampermonkey-tools.js and tools.js: a `while (use--)` loop with no validation step.
 *
 * The wrapped operation is given as the outcomes of its successive calls, so the
 * number of calls, the first success and the last error can be stated exactly.
 */
module Retry {
  import opened Wrappers

  /** What one call of the wrapped operation does: its promise fulfils or rejects. */
  datatype Attempt<V, E> = Returned(value: V) | Threw(error: E)

  /** How the promise returned by a runner ends. */
  datatype Settlement<V, E> =
    | Resolved(value: V)
    | Rejected(reason: E)
      /** The loop ended without calling `resolve` or `reject`: the promise stays pending. */
    | NeverSettles
      /** Every supplied outcome was used and the runner calls the operation once more. */
    | StillRetrying

  /** A settlement together with the number of calls of the operation that led to it. */
  datatype Run<V, E> = Run(settlement: Settlement<V, E>, calls: nat)

  function Later<V, E>(r: Run<V, E>): Run<V, E>
  {
    Run(r.settlement, r.calls + 1)
  }

  /** The default budget of the top-level `retry`. */
  const DefaultTimes := 5

  /**
   * `times || 5`. `None` stands for `undefined` and `null`; among numbers only 0 is falsy
   * here (NaN is not modelled).
   */
  function Budget(times: Option<int>): (n: int)
    ensures n != 0
    ensures times.Some? && times.value != 0 ==> n == times.value
    ensures times == None || times == Some(0) ==> n == DefaultTimes
  {
    match times
    case Some(t) => if t != 0 then t else DefaultTimes
    case None => DefaultTimes
  }

  /**
   * The attempt as the runner judges it after `verify?.(response)`: a `verify` that throws
   * makes a returned response a failure carrying what `verify` threw; a `verify` that returns
   * normally leaves the attempt a success whatever it returns. `verify` maps a response to
   * `Some(error)` when it throws `error`.
   */
  function Checked<V, E>(a: Attempt<V, E>, verify: Option<V -> Option<E>>): (c: Attempt<V, E>)
    ensures a.Threw? ==> c == a
    ensures a.Returned? && (verify.None? || verify.value(a.value).None?) ==> c == a
    ensures a.Returned? && verify.Some? && verify.value(a.value).Some? ==>
              c == Threw(verify.value(a.value).value)
  {
    match a
    case Threw(_) => a
    case Returned(v) =>
      if verify.Some? && verify.value(v).Some? then Threw(verify.value(v).value) else a
  }

  predicate Passes<V, E>(a: Attempt<V, E>, verify: Option<V -> Option<E>>)
  {
    Checked(a, verify).Returned?
  }

  /**
   * What the top-level runner does from a loop iteration on, `use` being the counter before
   * that iteration's `use--`. Its contract is the runner's promise: at most `use` calls when
   * `use` is positive, every call but the last failed, the last call decides, a rejection
   * carries the error of the last attempt and happens only when the budget is spent.
   */
  function RunFrom<V, E>(use: int, attempts: seq<Attempt<V, E>>, verify: Option<V -> Option<E>>)
    : (r: Run<V, E>)
    ensures r.calls <= |attempts|
    ensures use >= 1 ==> r.calls <= use
    ensures !r.settlement.NeverSettles?
    ensures forall k :: 0 <= k < r.calls - 1 ==> !Passes(attempts[k], verify)
    ensures r.settlement.Resolved? ==>
              1 <= r.calls && Checked(attempts[r.calls - 1], verify) == Returned(r.settlement.value)
    ensures r.settlement.Rejected? ==>
              1 <= r.calls == use && Checked(attempts[r.calls - 1], verify) == Threw(r.settlement.reason)
    ensures r.settlement.StillRetrying? ==>
              && r.calls == |attempts|
              && (use < 1 || |attempts| < use)
              && (r.calls == 0 || !Passes(attempts[r.calls - 1], verify))
    decreases |attempts|
  {
    if attempts == [] then Run(StillRetrying, 0)
    else
      var left := use - 1;
      match Checked(attempts[0], verify)
      case Returned(v) => Run(Resolved(v), 1)
      case Threw(e) =>
        if left != 0 then Later(RunFrom(left, attempts[1..], verify)) else Run(Rejected(e), 1)
  }

  /** functions.user.js `retry`: the `while (true)` loop with its `use--` and try/catch. */
  method Retry<V, E>(times: Option<int>, attempts: seq<Attempt<V, E>>, verify: Option<V -> Option<E>>)
    returns (settlement: Settlement<V, E>, calls: nat)
    ensures Run(settlement, calls) == RunFrom(Budget(times), attempts, verify)
  {
    var use := Budget(times);
    calls := 0;
    while true
      invariant calls <= |attempts|
      invariant RunFrom(Budget(times), attempts, verify)
                == Run(RunFrom(use, attempts[calls..], verify).settlement,
                       RunFrom(use, attempts[calls..], verify).calls + calls)
      decreases |attempts| - calls
    {
      if calls == |attempts| {
        settlement := StillRetrying;
        return;
      }
      assert attempts[calls..][1..] == attempts[calls + 1..];
      use := use - 1;
      var response := attempts[calls];
      calls := calls + 1;
      var failure: Option<E> := None;
      match response {
        case Threw(e) =>
          failure := Some(e);
        case Returned(v) =>
          if verify.Some? && verify.value(v).Some? {
            failure := verify.value(v);
          }
      }
      if failure.None? {
        settlement := Resolved(response.value);
        return;
      }
      if use != 0 {
        continue;
      }
      settlement := Rejected(failure.value);
      return;
    }
  }

  /**
   * What the nested runner does from a test of `while (use--)` on. A zero counter ends the
   * loop before any call, so the promise never settles; otherwise the contract is that of
   * the top-level runner without validation.
   */
  function NestedFrom<V, E>(use: int, attempts: seq<Attempt<V, E>>): (r: Run<V, E>)
    ensures r.settlement.NeverSettles? <==> use == 0
    ensures r.settlement.NeverSettles? ==> r.calls == 0
    ensures r.calls <= |attempts|
    ensures use >= 0 ==> r.calls <= use
    ensures forall k :: 0 <= k < r.calls - 1 ==> attempts[k].Threw?
    ensures r.settlement.Resolved? ==>
              1 <= r.calls && attempts[r.calls - 1] == Returned(r.settlement.value)
    ensures r.settlement.Rejected? ==>
              1 <= r.calls == use && attempts[r.calls - 1] == Threw(r.settlement.reason)
    ensures r.settlement.StillRetrying? ==>
              && r.calls == |attempts|
              && (use < 0 || |attempts| < use)
              && (r.calls == 0 || attempts[r.calls - 1].Threw?)
    decreases |attempts|
  {
    if use == 0 then Run(NeverSettles, 0)
    else if attempts == [] then Run(StillRetrying, 0)
    else
      match attempts[0]
      case Returned(v) => Run(Resolved(v), 1)
      case Threw(e) =>
        if use - 1 == 0 then Run(Rejected(e), 1) else Later(NestedFrom(use - 1, attempts[1..]))
  }

  /**
   * tampermonkey-tools.js / tools.js nested `retry`: `while (use--)`, resolve and break on
   * success, reject (without breaking) once the counter reaches 0 after a failure.
   */
  method RetryNested<V, E>(times: int, attempts: seq<Attempt<V, E>>)
    returns (settlement: Settlement<V, E>, calls: nat)
    ensures Run(settlement, calls) == NestedFrom(times, attempts)
  {
    var use := times;
    calls := 0;
    settlement := NeverSettles;
    while use != 0
      invariant calls <= |attempts|
      invariant settlement.NeverSettles? ==>
                  NestedFrom(times, attempts)
                  == Run(NestedFrom(use, attempts[calls..]).settlement,
                         NestedFrom(use, attempts[calls..]).calls + calls)
      invariant settlement.NeverSettles? || (settlement.Rejected? && use == 0)
      invariant settlement.Rejected? ==> Run(settlement, calls) == NestedFrom(times, attempts)
      decreases |attempts| - calls
    {
      use := use - 1;
      if calls == |attempts| {
        settlement := StillRetrying;
        return;
      }
      assert attempts[calls..][1..] == attempts[calls + 1..];
      var response := attempts[calls];
      calls := calls + 1;
      match response {
        case Returned(v) =>
          settlement := Resolved(v);
          break;
        case Threw(e) =>
          if use == 0 {
            settlement := Rejected(e);
          }
      }
    }
  }

  /**
   * With a non-zero count the nested runner behaves as the top-level one called with that
   * count and no `verify`; they differ only at 0, where the top-level runner falls back to
   * 5 attempts and the nested one never settles.
   */
  lemma {:induction false} NestedAgreesWithTopLevel<V, E>(times: int, attempts: seq<Attempt<V, E>>)
    requires times != 0
    ensures NestedFrom(times, attempts) == RunFrom(Budget(Some(times)), attempts, None)
    decreases |attempts|
  {
    if attempts != [] && attempts[0].Threw? && times - 1 != 0 {
      NestedAgreesWithTopLevel(times - 1, attempts[1..]);
    }
  }

  /**
   * The top-level runner resolves exactly when some attempt within the budget returns and
   * passes `verify` (both directions), and then it stops at the first such attempt.
   */
  lemma ResolvesIffSomeAttemptPasses<V, E>(use: int, attempts: seq<Attempt<V, E>>,
                                           verify: Option<V -> Option<E>>)
    ensures var r := RunFrom(use, attempts, verify);
            r.settlement.Resolved? <==>
              exists k :: 0 <= k < |attempts| && (use < 1 || k < use) && Passes(attempts[k], verify)
    ensures var r := RunFrom(use, attempts, verify);
            r.settlement.Resolved? ==>
              forall k :: 0 <= k < r.calls - 1 ==> !Passes(attempts[k], verify)
  {
    var r := RunFrom(use, attempts, verify);
    if !r.settlement.Resolved? {
      forall k | 0 <= k < |attempts| && (use < 1 || k < use)
        ensures !Passes(attempts[k], verify)
      {
        if k < r.calls - 1 {
        } else {
          assert k == r.calls - 1;
        }
      }
    }
  }

  /**
   * After `n` failed attempts (n >= 1) the top-level runner rejects with the last attempt's
   * error (the operation's, or what `verify` threw) and has called the operation `n` times.
   */
  lemma ExhaustedRejectsWithLastError<V, E>(n: int, attempts: seq<Attempt<V, E>>,
                                            verify: Option<V -> Option<E>>)
    requires 1 <= n <= |attempts|
    requires forall k :: 0 <= k < n ==> !Passes(attempts[k], verify)
    ensures var last := Checked(attempts[n - 1], verify);
            last.Threw? && RunFrom(n, attempts, verify) == Run(Rejected(last.error), n)
  {
    assert !Passes(attempts[n - 1], verify);
  }

  /** `retry(op, 3)` where `op` fails twice and then succeeds: three calls, then the result. */
  lemma FailsTwiceThenSucceeds<V, E>(e1: E, e2: E, v: V)
    ensures RunFrom(Budget(Some(3)), [Threw(e1), Threw(e2), Returned(v)], None) == Run(Resolved(v), 3)
  {
    var a: seq<Attempt<V, E>> := [Threw(e1), Threw(e2), Returned(v)];
    assert a[1..][1..] == [Returned(v)];
  }

  /**
   * A `verify` that always throws, with a budget of 2 and an operation that always returns:
   * exactly two calls and a rejection with what `verify` threw the second time.
   */
  lemma VerifyFailureIsRetried<V, E>(v1: V, v2: V, v3: V, verify: V -> Option<E>)
    requires forall v :: verify(v).Some?
    ensures RunFrom(Budget(Some(2)), [Returned(v1), Returned(v2), Returned(v3)], Some(verify))
            == Run(Rejected(verify(v2).value), 2)
  {
    var a: seq<Attempt<V, E>> := [Returned(v1), Returned(v2), Returned(v3)];
    assert a[1..] == [Returned(v2), Returned(v3)];
  }

  /** A zero or missing `times` gives 5 attempts, all used when every attempt fails. */
  lemma DefaultBudgetIsFive<V, E>(times: Option<int>, attempts: seq<Attempt<V, E>>,
                                  verify: Option<V -> Option<E>>)
    requires times == None || times == Some(0)
    requires 5 <= |attempts|
    requires forall k :: 0 <= k < |attempts| ==> !Passes(attempts[k], verify)
    ensures var last := Checked(attempts[4], verify);
            last.Threw? && RunFrom(Budget(times), attempts, verify) == Run(Rejected(last.error), 5)
  {
    ExhaustedRejectsWithLastError(5, attempts, verify);
  }
}
