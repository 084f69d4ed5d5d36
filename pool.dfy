/**
 * `asyncPool(limit, arr, func, ...args)`, the bounded task pool. The three library files
 * carry the same code (functions.user.js:93-125, tampermonkey-tools.js:94-126,
 * tools.js:37-68); this module models it once.
 *
 * The pool is a state machine over the values the source keeps: `all` (the launched tasks,
 * in input order), `executing` (the tracking handles of tasks not yet fulfilled) and the
 * status of every task. `Launch` is one iteration of the `for…of` loop up to its
 * `await Promise.race(executing)`; `Complete` is the environment settling one pending task,
 * the only nondeterminism; `Join` is the final `Promise.all(all)`.
 */
module Pool {
  import opened Wrappers

  /** How a task's promise settles. */
  datatype Outcome<V, E> = Fulfilled(value: V) | Rejected(reason: E)

  datatype Status<V, E> = Pending | Settled(outcome: Outcome<V, E>)

  predicate IsFulfilled<V, E>(s: Status<V, E>)
  {
    s.Settled? && s.outcome.Fulfilled?
  }

  predicate IsRejected<V, E>(s: Status<V, E>)
  {
    s.Settled? && s.outcome.Rejected?
  }

  /**
   * Where the pool's own control is: free to launch or join (`Running`), suspended in
   * `Promise.race` (`Racing`), suspended in `Promise.all` (`Joining`), or its promise settled.
   */
  datatype Phase<V, E> = Running | Racing | Joining | Done(result: Outcome<seq<V>, E>)

  function Max(a: int, b: int): int
  {
    if a < b then b else a
  }

  predicate NoDuplicates(s: seq<nat>)
  {
    forall i, j :: 0 <= i < j < |s| ==> s[i] != s[j]
  }

  /** `Array.prototype.indexOf`: the first position of `x`, or -1. */
  function IndexOf(s: seq<nat>, x: nat): (k: int)
    ensures -1 <= k < |s|
    ensures k == -1 <==> x !in s
    ensures 0 <= k ==> s[k] == x && x !in s[..k]
  {
    if s == [] then -1
    else if s[0] == x then 0
    else
      var k := IndexOf(s[1..], x);
      if k == -1 then -1 else k + 1
  }

  /**
   * `s.splice(start, 1)`, as the array it leaves behind: a negative start counts from the end
   * (so -1 removes the last element), a start past the end removes nothing.
   */
  function SpliceOne<T>(s: seq<T>, start: int): (r: seq<T>)
    ensures 0 <= start < |s| ==> r == s[..start] + s[start + 1..]
    ensures start == -1 && s != [] ==> r == s[..|s| - 1]
    ensures start >= |s| ==> r == s
  {
    var from := if start < 0 then Max(|s| + start, 0) else start;
    if from < |s| then s[..from] + s[from + 1..] else s
  }

  /** `s` with every occurrence of `x` taken out, everything else kept in order. */
  function Without(s: seq<nat>, x: nat): (r: seq<nat>)
    ensures x !in r
    ensures forall y :: y != x ==> (y in r <==> y in s)
    ensures |r| <= |s|
  {
    if s == [] then []
    else (if s[0] == x then [] else [s[0]]) + Without(s[1..], x)
  }

  lemma {:induction false} WithoutAbsent(s: seq<nat>, x: nat)
    requires x !in s
    ensures Without(s, x) == s
  {
    if s != [] {
      WithoutAbsent(s[1..], x);
    }
  }

  lemma NoDuplicatesTail(s: seq<nat>)
    requires NoDuplicates(s) && s != []
    ensures NoDuplicates(s[1..]) && s[0] !in s[1..]
  {
    forall i, j | 0 <= i < j < |s| - 1 ensures s[1..][i] != s[1..][j] {
      assert s[1..][i] == s[i + 1] && s[1..][j] == s[j + 1];
    }
    forall k | 0 <= k < |s| - 1 ensures s[1..][k] != s[0] {
      assert s[1..][k] == s[k + 1];
    }
  }

  lemma NoDuplicatesCons(a: nat, s: seq<nat>)
    requires NoDuplicates(s) && a !in s
    ensures NoDuplicates([a] + s)
  {
    var t := [a] + s;
    forall i, j | 0 <= i < j < |t| ensures t[i] != t[j] {
      if i == 0 {
        assert t[j] == s[j - 1];
      } else {
        assert t[i] == s[i - 1] && t[j] == s[j - 1];
      }
    }
  }

  lemma NoDuplicatesSnoc(s: seq<nat>, a: nat)
    requires NoDuplicates(s) && a !in s
    ensures NoDuplicates(s + [a])
  {
    var t := s + [a];
    forall i, j | 0 <= i < j < |t| ensures t[i] != t[j] {
      if j == |s| {
        assert t[i] == s[i];
      } else {
        assert t[i] == s[i] && t[j] == s[j];
      }
    }
  }

  lemma {:induction false} WithoutKeepsNoDuplicates(s: seq<nat>, x: nat)
    requires NoDuplicates(s)
    ensures NoDuplicates(Without(s, x))
  {
    if s != [] {
      NoDuplicatesTail(s);
      WithoutKeepsNoDuplicates(s[1..], x);
      if s[0] != x {
        NoDuplicatesCons(s[0], Without(s[1..], x));
      }
    }
  }

  lemma {:induction false} SpliceAtIndexOf(s: seq<nat>, x: nat)
    requires NoDuplicates(s) && x in s
    ensures SpliceOne(s, IndexOf(s, x)) == Without(s, x)
    ensures |Without(s, x)| == |s| - 1
  {
    NoDuplicatesTail(s);
    if s[0] == x {
      WithoutAbsent(s[1..], x);
    } else {
      var t := s[1..];
      SpliceAtIndexOf(t, x);
      var k := IndexOf(t, x);
      calc {
        SpliceOne(s, IndexOf(s, x));
        SpliceOne(s, k + 1);
        s[..k + 1] + s[k + 2..];
        { assert s[..k + 1] == [s[0]] + t[..k]; assert s[k + 2..] == t[k + 1..]; }
        [s[0]] + (t[..k] + t[k + 1..]);
        [s[0]] + SpliceOne(t, k);
      }
    }
  }

  /**
   * The `wrap` callback's `executing.splice(executing.indexOf(wrap), 1)` removes exactly its
   * own entry when that entry is present once, and keeps the other entries in order.
   */
  lemma SpliceRemovesOwnEntry(s: seq<nat>, x: nat)
    requires NoDuplicates(s) && x in s
    ensures SpliceOne(s, IndexOf(s, x)) == Without(s, x)
    ensures |Without(s, x)| == |s| - 1
    ensures NoDuplicates(Without(s, x))
  {
    SpliceAtIndexOf(s, x);
    WithoutKeepsNoDuplicates(s, x);
  }

  /**
   * If the entry is missing, `indexOf` gives -1 and the splice removes another task's entry.
   * This is why `Tracked` must keep every unfulfilled task's handle present exactly once: it
   * is what makes the splice in `Complete` remove the task's own handle.
   */
  lemma SpliceOfMissingEntryDropsLast(s: seq<nat>, x: nat)
    requires x !in s && s != []
    ensures SpliceOne(s, IndexOf(s, x)) == s[..|s| - 1]
    ensures s[|s| - 1] !in SpliceOne(s, IndexOf(s, x)) || !NoDuplicates(s)
  {
  }

  predicate AllFulfilled<V, E>(st: seq<Status<V, E>>)
  {
    forall k :: 0 <= k < |st| ==> IsFulfilled(st[k])
  }

  /** The values of fully fulfilled tasks, position by position. */
  function Values<V, E>(st: seq<Status<V, E>>): (vs: seq<V>)
    requires AllFulfilled(st)
    ensures |vs| == |st|
    ensures forall k :: 0 <= k < |st| ==> st[k] == Settled(Fulfilled(vs[k]))
  {
    seq(|st|, k requires 0 <= k < |st| => st[k].outcome.value)
  }

  /**
   * How `Promise.race(ids)` starts: the first contender, in array order, that has already
   * settled decides it; `None` when all are still pending.
   */
  function FirstSettled<V, E>(ids: seq<nat>, st: seq<Status<V, E>>): (r: Option<Outcome<V, E>>)
    requires forall k :: 0 <= k < |ids| ==> ids[k] < |st|
    ensures r.None? <==> forall id :: id in ids ==> st[id].Pending?
    ensures r.Some? ==> exists k :: 0 <= k < |ids| && st[ids[k]] == Settled(r.value)
                                    && forall j :: 0 <= j < k ==> st[ids[j]].Pending?
  {
    if ids == [] then None
    else if st[ids[0]].Settled? then Some(st[ids[0]].outcome)
    else
      var r := FirstSettled(ids[1..], st);
      assert forall k :: 1 <= k < |ids| ==> ids[k] == ids[1..][k - 1];
      r
  }

  /**
   * How `Promise.all(ids)` starts: the first already rejected task, in array order, decides
   * it; `None` when none has rejected.
   */
  function FirstRejection<V, E>(ids: seq<nat>, st: seq<Status<V, E>>): (r: Option<E>)
    requires forall k :: 0 <= k < |ids| ==> ids[k] < |st|
    ensures r.None? <==> forall id :: id in ids ==> !IsRejected(st[id])
    ensures r.Some? ==> exists k :: 0 <= k < |ids| && st[ids[k]] == Settled(Rejected(r.value))
                                    && forall j :: 0 <= j < k ==> !IsRejected(st[ids[j]])
  {
    if ids == [] then None
    else if IsRejected(st[ids[0]]) then Some(st[ids[0]].outcome.reason)
    else
      var r := FirstRejection(ids[1..], st);
      assert forall k :: 1 <= k < |ids| ==> ids[k] == ids[1..][k - 1];
      r
  }

  /** What the pool does once a race has settled with `first`. */
  function AfterRace<V, E>(first: Option<Outcome<V, E>>): Phase<V, E>
  {
    match first
    case None => Racing
    case Some(Fulfilled(_)) => Running
    case Some(Rejected(e)) => Done(Rejected(e))
  }

  function Elements(s: seq<nat>): set<nat>
  {
    set x | x in s
  }

  lemma {:induction false} ElementsCardinality(s: seq<nat>)
    ensures |Elements(s)| <= |s|
  {
    if s != [] {
      ElementsCardinality(s[1..]);
      assert Elements(s) == {s[0]} + Elements(s[1..]);
    }
  }

  lemma {:induction false} SubsetCardinality(a: set<nat>, b: set<nat>)
    requires a <= b
    ensures |a| <= |b|
    decreases a
  {
    if a != {} {
      var x :| x in a;
      SubsetCardinality(a - {x}, b - {x});
    }
  }

  /**
   * The bookkeeping `executing` keeps in gated mode: each handle at most once, only for
   * launched tasks, and present exactly while its task is not fulfilled (a rejected task's
   * handle is never spliced out). Outside gated mode nothing is tracked.
   */
  ghost predicate TrackedIn<V, E>(gated: bool, executing: seq<nat>, status: seq<Status<V, E>>)
  {
    && NoDuplicates(executing)
    && (forall k :: 0 <= k < |executing| ==> executing[k] < |status|)
    && (!gated ==> executing == [])
    && (gated ==> forall id :: 0 <= id < |status| ==> (id in executing <==> !IsFulfilled(status[id])))
  }

  /** Launching a task and pushing its handle keeps the bookkeeping. */
  lemma TrackLaunch<V, E>(executing: seq<nat>, status: seq<Status<V, E>>)
    requires TrackedIn(true, executing, status)
    ensures TrackedIn(true, executing + [|status|], status + [Pending])
  {
    var id := |status|;
    assert id !in executing;
    NoDuplicatesSnoc(executing, id);
    var ex, st := executing + [id], status + [Pending];
    forall x | 0 <= x < |st| ensures x in ex <==> !IsFulfilled(st[x]) {
      if x < id {
        assert st[x] == status[x];
      }
    }
  }

  /**
   * Settling a pending task keeps the bookkeeping when a fulfilled task's handle splices its
   * own entry out and a rejected task's handle stays.
   */
  lemma TrackComplete<V, E>(gated: bool, executing: seq<nat>, status: seq<Status<V, E>>, id: nat, outcome: Outcome<V, E>)
    requires TrackedIn(gated, executing, status) && id < |status| && status[id].Pending?
    ensures gated ==> id in executing
    ensures gated && outcome.Fulfilled? ==> SpliceOne(executing, IndexOf(executing, id)) == Without(executing, id)
    ensures gated && outcome.Fulfilled? ==> |Without(executing, id)| == |executing| - 1
    ensures TrackedIn(gated, if gated && outcome.Fulfilled? then Without(executing, id) else executing,
                      status[id := Settled(outcome)])
  {
    var st := status[id := Settled(outcome)];
    if gated {
      assert !IsFulfilled(status[id]);
      var ex := if outcome.Fulfilled? then Without(executing, id) else executing;
      if outcome.Fulfilled? {
        SpliceRemovesOwnEntry(executing, id);
        forall k | 0 <= k < |ex| ensures ex[k] < |st| {
          assert ex[k] in ex;
        }
      }
      forall x | 0 <= x < |st| ensures x in ex <==> !IsFulfilled(st[x]) {
        if x != id {
          assert st[x] == status[x];
        }
      }
    }
  }

  /**
   * A race over the handles can only be decided by a rejection (a fulfilled task's handle is
   * already gone), and an existing rejection always decides it.
   */
  lemma RaceIsDecidedByRejection<V, E>(executing: seq<nat>, status: seq<Status<V, E>>)
    requires TrackedIn(true, executing, status)
    ensures FirstSettled(executing, status).None? || FirstSettled(executing, status).value.Rejected?
    ensures (exists id :: 0 <= id < |status| && IsRejected(status[id])) ==>
              FirstSettled(executing, status).Some?
  {
    var first := FirstSettled(executing, status);
    if first.Some? {
      var id :| id in executing && status[id] == Settled(first.value);
      assert !IsFulfilled(status[id]);
    }
    if exists id :: 0 <= id < |status| && IsRejected(status[id]) {
      var id :| 0 <= id < |status| && IsRejected(status[id]);
      assert id in executing;
    }
  }

  /** Every task in flight still has its handle, so the handles bound the tasks in flight. */
  lemma TrackedBoundsPending<V, E>(executing: seq<nat>, status: seq<Status<V, E>>)
    requires TrackedIn(true, executing, status)
    ensures |set id | 0 <= id < |status| && status[id].Pending?| <= |executing|
  {
    var pending := set id | 0 <= id < |status| && status[id].Pending?;
    forall x | x in pending ensures x in Elements(executing) {
      assert !IsFulfilled(status[x]);
    }
    SubsetCardinality(pending, Elements(executing));
    ElementsCardinality(executing);
  }

  /**
   * What each phase implies about the handles and the tasks, for a pool with the given
   * gating, bound max(limit, 1), and whether every item has been launched.
   */
  ghost predicate PhaseFits<V, E>(phase: Phase<V, E>, gated: bool, bound: int, allLaunched: bool,
                                  executing: seq<nat>, status: seq<Status<V, E>>)
  {
    && (phase.Running? && gated ==> |executing| < bound)
    && (phase.Racing? ==>
          && gated
          && |executing| <= bound
          && (forall id :: id in executing && id < |status| ==> status[id].Pending?))
    && (phase.Joining? ==>
          && allLaunched
          && (forall id :: 0 <= id < |status| ==> !IsRejected(status[id]))
          && !AllFulfilled(status))
    && (phase.Done? && phase.result.Fulfilled? ==>
          && allLaunched
          && AllFulfilled(status)
          && phase.result.value == Values(status))
    && (phase.Done? && phase.result.Rejected? ==>
          exists id :: 0 <= id < |status| && status[id] == Settled(Rejected(phase.result.reason)))
  }

  /**
   * How the pool's control reacts when a task settles with `outcome`, leaving `status`: a
   * pending race is decided by it, a pending `Promise.all` rejects on it or resolves once
   * every task is fulfilled; a running or finished pool does not react.
   */
  function AfterSettle<V, E>(phase: Phase<V, E>, outcome: Outcome<V, E>, status: seq<Status<V, E>>): Phase<V, E>
  {
    match phase
    case Racing => if outcome.Fulfilled? then Running else Done(Rejected(outcome.reason))
    case Joining =>
      if outcome.Rejected? then Done(Rejected(outcome.reason))
      else if AllFulfilled(status) then Done(Fulfilled(Values(status)))
      else Joining
    case _ => phase
  }

  /** Settling a pending task keeps every phase's guarantees. */
  lemma SettleKeepsPhase<V, E>(phase: Phase<V, E>, gated: bool, bound: int, allLaunched: bool,
                               executing: seq<nat>, status: seq<Status<V, E>>, id: nat, outcome: Outcome<V, E>)
    requires PhaseFits(phase, gated, bound, allLaunched, executing, status)
    requires TrackedIn(gated, executing, status) && id < |status| && status[id].Pending?
    ensures var st := status[id := Settled(outcome)];
            var ex := if gated && outcome.Fulfilled? then Without(executing, id) else executing;
            PhaseFits(AfterSettle(phase, outcome, st), gated, bound, allLaunched, ex, st)
  {
    TrackComplete(gated, executing, status, id, outcome);
    var st := status[id := Settled(outcome)];
    var next := AfterSettle(phase, outcome, st);
    if next.Done? && next.result.Rejected? {
      if phase.Done? {
        var w :| 0 <= w < |status| && status[w] == Settled(Rejected(next.result.reason));
        assert st[w] == status[w];
      } else {
        assert st[id] == Settled(Rejected(next.result.reason));
      }
    }
    if next.Joining? {
      forall x | 0 <= x < |st| ensures !IsRejected(st[x]) {
        if x != id {
          assert st[x] == status[x];
        }
      }
    }
  }

  class AsyncPool<T, V, E> {
    /** The `limit` argument. */
    const limit: int
    /** The `arr` argument: one task per item. */
    const items: seq<T>
    /** `all`: ids of the launched tasks (an id is its item's index), in launch order. */
    var all: seq<nat>
    /** `executing`: ids of the tracked tasks whose tracking handle is still registered. */
    var executing: seq<nat>
    /** The state of each launched task's promise, indexed by id. */
    var status: seq<Status<V, E>>
    /** The items the worker `func` has been called with, in call order. */
    var invoked: seq<T>
    var phase: Phase<V, E>

    /** Tracking and racing happen only when `limit >= arr.length` is false. */
    predicate Gated()
    {
      limit < |items|
    }

    /** The launched tasks that have not settled: the tasks in flight. */
    ghost function InFlight(): set<nat>
      reads this
    {
      set id | 0 <= id < |status| && status[id].Pending?
    }

    /** `all` and `invoked` record one launch per item, in input order. */
    ghost predicate Launched()
      reads this
    {
      && |status| == |all| == |invoked| <= |items|
      && (forall k :: 0 <= k < |all| ==> all[k] == k)
      && invoked == items[..|all|]
    }

    /**
     * `executing` holds each tracked task's handle at most once, and exactly while the task
     * is not fulfilled; nothing is tracked when the pool is not gated.
     */
    ghost predicate Tracked()
      reads this
    {
      TrackedIn(Gated(), executing, status)
    }

    /** What each phase implies about the handles and the tasks. */
    ghost predicate PhaseConsistent()
      reads this
    {
      PhaseFits(phase, Gated(), Max(limit, 1), |all| == |items|, executing, status)
    }

    ghost predicate Valid()
      reads this
    {
      Launched() && Tracked() && PhaseConsistent()
    }

    /** The call `asyncPool(limit, items, func)`, before its loop starts. */
    constructor (limit: int, items: seq<T>)
      ensures Valid()
      ensures this.limit == limit && this.items == items
      ensures all == [] && executing == [] && status == [] && invoked == [] && phase == Running
    {
      this.limit := limit;
      this.items := items;
      all, executing, status, invoked := [], [], [], [];
      phase := Running;
    }

    /**
     * One iteration of the `for…of` loop: start the next item's task, and in gated mode
     * register its tracking handle and race the handles once there are `limit` of them.
     */
    method Launch()
      requires Valid() && phase.Running? && |all| < |items|
      modifies this
      ensures Valid()
      ensures all == old(all) + [|old(all)|]
      ensures status == old(status) + [Pending]
      ensures invoked == old(invoked) + [items[|old(all)|]]
      ensures executing == if Gated() then old(executing) + [|old(all)|] else old(executing)
      ensures !Gated() || |executing| < limit ==> phase == Running
      ensures Gated() && |executing| >= limit ==> phase == AfterRace(FirstSettled(executing, status))
      ensures Gated() ==> |executing| <= Max(limit, 1) && |InFlight()| <= Max(limit, 1)
      ensures Gated() && |executing| >= limit && (exists id :: 0 <= id < |status| && IsRejected(status[id])) ==>
                phase.Done? && phase.result.Rejected?
    {
      var id := |all|;
      if Gated() {
        TrackLaunch(executing, status);
      }
      all := all + [id];
      status := status + [Pending];
      invoked := invoked + [items[id]];
      assert invoked == items[..|all|];
      if limit >= |items| {
        return;
      }
      executing := executing + [id];
      TrackedBoundsPending(executing, status);
      if |executing| < limit {
        return;
      }
      // `await Promise.race(executing)`
      RaceIsDecidedByRejection(executing, status);
      var first := FirstSettled(executing, status);
      phase := AfterRace(first);
    }

    /**
     * The environment settles the pending task `id`. A fulfilled tracked task's handle
     * splices its own entry out of `executing`; a rejected task's handle stays. A pending
     * `Promise.race` or `Promise.all` reacts to the settlement.
     */
    method Complete(id: nat, outcome: Outcome<V, E>)
      requires Valid() && id < |status| && status[id].Pending?
      modifies this
      ensures Valid()
      ensures all == old(all) && invoked == old(invoked)
      ensures status == old(status)[id := Settled(outcome)]
      ensures executing == if Gated() && outcome.Fulfilled? then Without(old(executing), id) else old(executing)
      ensures Gated() && outcome.Fulfilled? ==> |executing| == |old(executing)| - 1
      ensures old(phase).Racing? ==> phase == (if outcome.Fulfilled? then Running else Done(Rejected(outcome.reason)))
      ensures old(phase).Joining? ==>
                phase == (if outcome.Rejected? then Done(Rejected(outcome.reason))
                          else if AllFulfilled(status) then Done(Fulfilled(Values(status)))
                          else Joining)
      ensures old(phase).Running? || old(phase).Done? ==> phase == old(phase)
    {
      TrackComplete(Gated(), executing, status, id, outcome);
      SettleKeepsPhase(phase, Gated(), Max(limit, 1), |all| == |items|, executing, status, id, outcome);
      status := status[id := Settled(outcome)];
      if outcome.Fulfilled? && limit < |items| {
        // the tracking handle's callback: `executing.splice(executing.indexOf(wrap), 1)`
        executing := SpliceOne(executing, IndexOf(executing, id));
      }
      phase := AfterSettle(phase, outcome, status);
    }

    /** After the loop: `return Promise.all(all)`. */
    method Join()
      requires Valid() && phase.Running? && |all| == |items|
      modifies this`phase
      ensures Valid()
      ensures invoked == items
      ensures phase == match FirstRejection(all, status)
                       case Some(e) => Done(Rejected(e))
                       case None => if AllFulfilled(status) then Done(Fulfilled(Values(status))) else Joining
    {
      assert forall id :: id in all ==> id < |status|;
      var first := FirstRejection(all, status);
      if first.Some? {
        phase := Done(Rejected(first.value));
      } else {
        forall x | 0 <= x < |status| ensures !IsRejected(status[x]) {
          assert all[x] == x;
        }
        if AllFulfilled(status) {
          phase := Done(Fulfilled(Values(status)));
        } else {
          phase := Joining;
        }
      }
    }

    /**
     * In gated mode the tasks in flight never outnumber the handles in `executing`; with
     * `Launch`'s bound on the handles, this is the pool's promise that at most `limit` tasks
     * run at once.
     */
    lemma TrackedBoundsInFlight()
      requires Valid() && Gated()
      ensures |InFlight()| <= |executing|
    {
      TrackedBoundsPending(executing, status);
    }

    /**
     * A rejected task is never removed, so once one exists the pool can no longer be racing,
     * joining or fulfilled: it is either still launching (and rejects at its next race or at
     * `Promise.all`) or has already rejected.
     */
    lemma RejectionEndsPool(id: nat)
      requires Valid() && id < |status| && IsRejected(status[id])
      ensures phase.Running? || (phase.Done? && phase.result.Rejected?)
      ensures Gated() ==> id in executing
    {
    }
  }

  /**
   * Items launched with `limit >= arr.length` and completing in the order B, C, A still give
   * their results in input order.
   */
  method ResultsKeepInputOrder<T, V, E>(a: T, b: T, c: T, ra: V, rb: V, rc: V)
    returns (pool: AsyncPool<T, V, E>)
    ensures pool.phase == Done(Fulfilled([ra, rb, rc]))
    ensures pool.invoked == [a, b, c]
  {
    pool := new AsyncPool(3, [a, b, c]);
    pool.Launch();
    pool.Launch();
    pool.Launch();
    assert pool.status == [Pending, Pending, Pending];
    pool.Join();
    assert pool.phase == Joining by {
      assert !IsFulfilled(pool.status[0]);
    }
    pool.Complete(1, Fulfilled(rb));
    assert pool.status == [Pending, Settled(Fulfilled(rb)), Pending];
    assert pool.phase == Joining by {
      assert !IsFulfilled(pool.status[0]);
    }
    pool.Complete(2, Fulfilled(rc));
    assert pool.status == [Pending, Settled(Fulfilled(rb)), Settled(Fulfilled(rc))];
    assert pool.phase == Joining by {
      assert !IsFulfilled(pool.status[0]);
    }
    pool.Complete(0, Fulfilled(ra));
    assert pool.status == [Settled(Fulfilled(ra)), Settled(Fulfilled(rb)), Settled(Fulfilled(rc))];
    assert Values(pool.status) == [ra, rb, rc];
  }

  /** An empty input resolves to `[]` without calling the worker. */
  method EmptyInputResolvesAtOnce<T, V, E>(limit: int) returns (pool: AsyncPool<T, V, E>)
    ensures pool.phase == Done(Fulfilled([]))
    ensures pool.invoked == []
  {
    pool := new AsyncPool(limit, []);
    pool.Join();
  }

  /**
   * With `limit` 1 and two items, the first task is raced at once; if it rejects, the pool
   * rejects and the second item is never launched.
   */
  method RejectionStopsLaunching<T, V, E>(a: T, b: T, e: E) returns (pool: AsyncPool<T, V, E>)
    ensures pool.phase == Done(Rejected(e))
    ensures pool.invoked == [a]
  {
    pool := new AsyncPool(1, [a, b]);
    pool.Launch();
    assert pool.phase == Racing;
    pool.Complete(0, Rejected(e));
  }
}
