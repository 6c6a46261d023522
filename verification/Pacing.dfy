/** How often a worker calls the coordinator, and when its checks wait: backoff, zero-grant pacing and
    negative caching, over every interleaving. */
module Pacing {
  import opened Pools
  import opened Coordinator
  import opened Nodes
  import opened NodeTheorems
  import opened TokenBucket

  // Backoff.

  function Pow2(k: nat): real {
    if k == 0 then 1.0 else 2.0 * Pow2(k - 1)
  }

  /** The backoff after `k` consecutive errors: 250 ms, doubled each time, up to 2 s. */
  function BackoffAfter(k: nat): real {
    if k == 0 then 0.0 else Min(0.25 * Pow2(k - 1), 2.0)
  }

  lemma {:induction false} Pow2AtLeast(k: nat)
    ensures Pow2(k) >= 1.0
  {
    if k > 0 {
      Pow2AtLeast(k - 1);
    }
  }

  lemma {:induction false} NextBackoffIs(k: nat)
    ensures NextBackoff(BackoffAfter(k)) == BackoffAfter(k + 1)
    ensures BACKOFF_MIN <= BackoffAfter(k + 1) <= BACKOFF_MAX
  {
    Pow2AtLeast(k);
    if k > 0 {
      Pow2AtLeast(k - 1);
    }
  }

  /** Errors since the last answer; a 404 neither counts nor resets. */
  ghost function Streak(c: Params, n: Node, es: seq<Event>, k: nat): nat
    requires ValidRun(c, n, es)
    decreases |es|
  {
    if es == [] then k
    else
      var k' := if es[0].Crash? then 0 else match ReturnOf(c, n, es[0])
                     case Some(Failed) => k + 1
                     case Some(Answered(_, _, _)) => 0
                     case _ => k;
      Streak(c, Step(c, n, es[0]), es[1..], k')
  }

  /** After k consecutive transport errors the backoff is min(250 ms x 2^(k-1), 2 s). */
  lemma {:induction false} BackoffIsExact(c: Params, n: Node, es: seq<Event>, k: nat)
    requires ValidRun(c, n, es) && n.pool.backoff == BackoffAfter(k)
    ensures Run(c, n, es).pool.backoff == BackoffAfter(Streak(c, n, es, k))
    decreases |es|
  {
    if es != [] {
      NextBackoffIs(k);
      var k' := if es[0].Crash? then 0 else match ReturnOf(c, n, es[0])
                     case Some(Failed) => k + 1
                     case Some(Answered(_, _, _)) => 0
                     case _ => k;
      BackoffIsExact(c, Step(c, n, es[0]), es[1..], k');
    }
  }

  predicate ErrorAtMost(o: Option<Outcome>) {
    o.Some? ==> o.value.Failed?
  }

  /** Every return of a lease call is an error, and the process stays up. */
  ghost predicate Outage(c: Params, n: Node, es: seq<Event>)
    requires ValidRun(c, n, es)
    decreases |es|
  {
    es == [] ||
    (!es[0].Crash? && ErrorAtMost(ReturnOf(c, n, es[0])) && Outage(c, Step(c, n, es[0]), es[1..]))
  }

  /** The sum of the backoffs after errors j+1 .. j+k. */
  function BackoffSum(j: nat, k: nat): real
    decreases k
  {
    if k == 0 then 0.0 else BackoffAfter(j + 1) + BackoffSum(j + 1, k - 1)
  }

  /** The reading of the check that starts a lease call in this step, if one does. */
  function StartOf(n: Node, e: Event): Option<real> {
    if e.CheckBegin? && Begin(n.pool, e.cost, e.now).renew then Some(e.now) else None
  }

  function Log(t: Option<real>): seq<real> {
    if t.Some? then [t.value] else []
  }

  /** The readings of the checks that start lease calls in a run, in the order of the calls. */
  ghost function StartTimes(c: Params, n: Node, es: seq<Event>): seq<real>
    requires ValidRun(c, n, es)
    decreases |es|
  {
    if es == [] then [] else Log(StartOf(n, es[0])) + StartTimes(c, Step(c, n, es[0]), es[1..])
  }

  lemma {:induction false} StartsAreCounted(c: Params, n: Node, es: seq<Event>)
    requires ValidRun(c, n, es)
    ensures |StartTimes(c, n, es)| == Run(c, n, es).counts.leaseCalls - n.counts.leaseCalls
    decreases |es|
  {
    if es != [] {
      StartsAreCounted(c, Step(c, n, es[0]), es[1..]);
    }
  }

  /** The earliest reading at which an idle pool can start a lease call. */
  function Gate(p: PoolState): real {
    Max(p.nextTry, p.unknownUntil)
  }

  /** What a step from `n` to `m` does to the pacing of lease calls; `start` is the reading of the check
      that starts a call in it, `back` that of the return it makes, if any. */
  ghost predicate Paces(n: Node, m: Node, start: Option<real>, back: Option<real>) {
    && m.clock >= n.clock && Since(n) <= n.clock
    && (n.pool.renewing ==> n.up) && (m.up ==> n.up)
    && (start.Some? ==>
          && n.up && m.up && !n.pool.renewing && m.pool.renewing && back.None?
          && start.value >= Gate(n.pool) && Since(m) == Max(n.clock, start.value))
    && (start.None? && back.None? && m.up ==>
          m.pool.renewing == n.pool.renewing && Gate(m.pool) == Gate(n.pool) && Since(m) == Since(n))
    && (back.Some? ==> n.pool.renewing && !m.pool.renewing && back.value >= Since(n) && m.up)
  }

  ghost function BackOf(c: Params, n: Node, e: Event): Option<real>
    requires Enabled(c, n, e)
  {
    if e.Deliver? || e.Fail? then Some(e.now) else None
  }

  lemma {:induction false} BeginPaces(c: Params, n: Node, cost: int, now: real)
    requires c.Valid() && Inv(c, n) && Enabled(c, n, CheckBegin(cost, now))
    ensures Paces(n, AfterBegin(n, cost, now), StartOf(n, CheckBegin(cost, now)), None)
  {
  }

  lemma {:induction false} ReturnPaces(n: Node, i: nat, now: real, o: Outcome, jitter: real, gone: int)
    requires Singleflight(n) && n.up && i < |n.calls| && n.calls[i].live && now >= n.calls[i].since && Since(n) <= n.clock
    ensures Paces(n, AfterReturn(n, i, now, o, jitter, gone), None, Some(now))
  {
    assert i == |n.calls| - 1;
  }

  lemma {:induction false} StepPaces(c: Params, n: Node, e: Event)
    requires c.Valid() && Inv(c, n) && Enabled(c, n, e)
    ensures Paces(n, Step(c, n, e), StartOf(n, e), BackOf(c, n, e))
  {
    match e
    case CheckBegin(cost, now) => BeginPaces(c, n, cost, now);
    case Deliver(i, now, j) => ReturnPaces(n, i, now, ToOutcome(n.calls[i].reply.value), j, 0);
    case Fail(i, now, j) => ReturnPaces(n, i, now, Failed, j, TokensIn(n.calls[i].reply));
    case _ =>
  }

  /** All calls fail, after `j` errors: the readings `s` of further starts are backed off from one another,
      and from the call that is out. */
  ghost predicate BackedOff(n: Node, j: nat, s: seq<real>) {
    && (n.pool.renewing ==> forall i :: 0 <= i < |s| ==> s[i] >= Since(n) + 0.75 * BackoffSum(j, i + 1))
    && (!n.pool.renewing && s != [] ==> s[0] >= Gate(n.pool))
    && (!n.pool.renewing ==> forall i :: 0 <= i < |s| ==> s[i] >= s[0] + 0.75 * BackoffSum(j, i))
  }

  lemma {:induction false} OutageBack(n: Node, m: Node, start: Option<real>, back: Option<real>, j: nat, s: seq<real>)
    requires n.up && m.up && Paces(n, m, start, back)
    requires back.Some? ==> Gate(m.pool) >= back.value + 0.75 * BackoffAfter(j + 1)
    requires BackedOff(m, if back.Some? then j + 1 else j, s)
    ensures BackedOff(n, j, Log(start) + s)
  {
    var r := Log(start) + s;
    if start.Some? {
      forall i | 0 <= i < |r|
        ensures r[i] >= r[0] + 0.75 * BackoffSum(j, i)
      {
        if i > 0 {
          assert r[i] == s[i - 1];
        }
      }
    } else {
      assert r == s;
    }
  }

  lemma {:induction false} OutageStep(c: Params, n: Node, e: Event, j: nat)
    requires c.Valid() && Inv(c, n) && n.up && Enabled(c, n, e) && !e.Crash?
    requires ErrorAtMost(ReturnOf(c, n, e)) && n.pool.backoff == BackoffAfter(j)
    ensures var m := Step(c, n, e);
            && m.up
            && m.pool.backoff == BackoffAfter(if BackOf(c, n, e).Some? then j + 1 else j)
            && (BackOf(c, n, e).Some? ==> Gate(m.pool) >= e.now + 0.75 * BackoffAfter(j + 1))
  {
    NextBackoffIs(j);
    if BackOf(c, n, e).Some? {
      JitterBounds(BackoffAfter(j + 1), e.jitter);
    }
  }

  lemma {:induction false} OutageFrom(c: Params, n: Node, es: seq<Event>, j: nat)
    requires c.Valid() && Inv(c, n) && n.up && ValidRun(c, n, es) && Outage(c, n, es)
    requires n.pool.backoff == BackoffAfter(j)
    ensures BackedOff(n, j, StartTimes(c, n, es))
    decreases |es|
  {
    if es != [] {
      var e, m := es[0], Step(c, n, es[0]);
      var j' := if BackOf(c, n, e).Some? then j + 1 else j;
      InvStep(c, n, e);
      OutageStep(c, n, e, j);
      StepPaces(c, n, e);
      OutageFrom(c, m, es[1..], j');
      OutageBack(n, m, StartOf(n, e), BackOf(c, n, e), j, StartTimes(c, m, es[1..]));
    }
  }

  /** In an outage that a healthy pool runs into, the check that makes attempt k + 1 reads the clock at
      least three quarters of the first k backoffs after the one that made the first attempt - after
      everything seen by then, if the first attempt is already out when the outage is entered. */
  lemma {:induction false} OutageIsPaced(c: Params, n: Node, es: seq<Event>)
    requires c.Valid() && Inv(c, n) && n.up && ValidRun(c, n, es) && Outage(c, n, es) && n.pool.backoff == 0.0
    ensures var s := StartTimes(c, n, es);
            && (!n.pool.renewing ==> forall k :: 0 <= k < |s| ==> s[k] - s[0] >= 0.75 * BackoffSum(0, k))
            && (n.pool.renewing ==> forall k :: 0 <= k < |s| ==> s[k] - Since(n) >= 0.75 * BackoffSum(0, k + 1))
  {
    OutageFrom(c, n, es, 0);
  }

  /** Nothing but returns of lease calls moves `nextTry` and `unknownUntil`. */
  lemma {:induction false} NextTryKept(c: Params, n: Node, es: seq<Event>)
    requires ValidRun(c, n, es) && Quiet(c, n, es)
    ensures Run(c, n, es).pool.nextTry == n.pool.nextTry && Run(c, n, es).pool.unknownUntil == n.pool.unknownUntil
    decreases |es|
  {
    if es != [] {
      NextTryKept(c, Step(c, n, es[0]), es[1..]);
    }
  }

  /** No lease call returns and the process stays up. */
  ghost predicate Quiet(c: Params, n: Node, es: seq<Event>)
    requires ValidRun(c, n, es)
    decreases |es|
  {
    es == [] || (!es[0].Crash? && ReturnOf(c, n, es[0]).None? && Quiet(c, Step(c, n, es[0]), es[1..]))
  }

  /** Backing off never gives up: at least 2.5 s after the last error, a check that the pool cannot
      serve finds a renewal outstanding or starts one. */
  lemma {:induction false} RetriesAfterBackoff(c: Params, n: Node, e: Event, es: seq<Event>, cost: int, now: real)
    requires c.Valid() && Inv(c, n) && n.up && Enabled(c, n, e) && ReturnOf(c, n, e) == Some(Failed)
    requires ValidRun(c, Step(c, n, e), es) && Quiet(c, Step(c, n, e), es)
    requires now >= e.now + 2.5 && now >= Run(c, Step(c, n, e), es).pool.unknownUntil
    ensures var b := Begin(Run(c, Step(c, n, e), es).pool, cost, now);
            b.verdict == Decided(Admit) || b.pool.renewing
  {
    NextTryKept(c, Step(c, n, e), es);
    JitterBounds(NextBackoff(n.pool.backoff), e.jitter);
    var p := Run(c, Step(c, n, e), es).pool;
    if Begin(p, cost, now).verdict != Decided(Admit) {
      InsufficientFindsOrStartsRenewal(p, cost, now);
    }
  }

  /** After a zero grant the next lease call starts no sooner than the coordinator's hint, and no sooner
      than 200 ms, after it. */
  lemma {:induction false} ZeroGrantIsHonored(c: Params, n: Node, e: Event, es: seq<Event>, cost: int, now: real)
    requires c.Valid() && Inv(c, n) && Enabled(c, n, e) && e.Deliver?
    requires ReturnOf(c, n, e).value.Answered? && Arrived(c, n, e) == 0
    requires ValidRun(c, Step(c, n, e), es) && Quiet(c, Step(c, n, e), es)
    requires Begin(Run(c, Step(c, n, e), es).pool, cost, now).renew
    ensures now >= e.now + 0.2 && now >= e.now + ReturnOf(c, n, e).value.retryAfter
  {
    NextTryKept(c, Step(c, n, e), es);
  }

  /** The reply that a return brings; none if the call failed. */
  function ReplyIn(n: Node, e: Event): Option<Reply>
    requires e.Deliver? ==> e.call < |n.calls|
  {
    if e.Deliver? then n.calls[e.call].reply else None
  }

  /** Whether a return with this reply at reading `at` lets the next lease call start at reading `now`, when
      the error that it may be is the `k`-th in a row: ten seconds after a 404, the jittered backoff
      after an error or a refusal, the hint but at least 200 ms after a zero grant, and at any time
      after a grant. */
  predicate Due(reply: Option<Reply>, at: real, jitter: real, k: nat, now: real) {
    match reply
    case Some(NotFound) => now >= at + 10.0
    case Some(Leased(granted, _, retryAfter)) => granted > 0 || now >= at + Max(0.2, retryAfter)
    case _ => now >= at + jitter * BackoffAfter(k)
  }

  lemma {:induction false} DueIs(c: Params, n: Node, e: Event, k: nat, now: real)
    requires Enabled(c, n, e) && BackOf(c, n, e).Some? && n.pool.backoff == BackoffAfter(k) && now > ZERO_TIME
    ensures var p, q := n.pool, Step(c, n, e).pool;
            if ReplyIn(n, e) == Some(NotFound)
            then (now >= q.unknownUntil <==> Due(ReplyIn(n, e), e.now, e.jitter, k + 1, now)) && q.nextTry == p.nextTry
            else (now >= q.nextTry <==> Due(ReplyIn(n, e), e.now, e.jitter, k + 1, now)) && q.unknownUntil == p.unknownUntil
  {
    NextBackoffIs(k);
  }

  /** The next call, exactly. After any return of a lease call, and until another returns, a check that the
      pool cannot serve and that finds no renewal outstanding starts one exactly when the reply lets
      it; what earlier returns hold back besides stays in force. */
  lemma {:induction false} NextCallExactly(c: Params, n: Node, e: Event, k: nat, es: seq<Event>, cost: int, now: real)
    requires Enabled(c, n, e) && BackOf(c, n, e).Some? && n.pool.backoff == BackoffAfter(k)
    requires ValidRun(c, Step(c, n, e), es) && Quiet(c, Step(c, n, e), es)
    requires var p := Run(c, Step(c, n, e), es).pool;
             now > ZERO_TIME && !p.renewing && !Servable(p, cost, now)
    ensures var r := ReplyIn(n, e);
            Begin(Run(c, Step(c, n, e), es).pool, cost, now).renew
            <==> && Due(r, e.now, e.jitter, k + 1, now)
                 && now >= if r == Some(NotFound) then n.pool.nextTry else n.pool.unknownUntil
  {
    var m := Step(c, n, e);
    var p := Run(c, m, es).pool;
    DueIs(c, n, e, k, now);
    NextTryKept(c, m, es);
    AdmitsIff(p, cost, now);
    RenewsIff(p, cost, now);
  }

  /** Pacing never gives up either: from the hint on, but at least 200 ms after a zero grant, a check that
      the pool cannot serve finds a renewal outstanding or starts one. */
  lemma {:induction false} RetriesAfterZeroGrant(c: Params, n: Node, e: Event, es: seq<Event>, cost: int, now: real)
    requires c.Valid() && Inv(c, n) && Enabled(c, n, e) && e.Deliver?
    requires ReturnOf(c, n, e).value.Answered? && Arrived(c, n, e) == 0
    requires ValidRun(c, Step(c, n, e), es) && Quiet(c, Step(c, n, e), es)
    requires now >= e.now + 0.2 && now >= e.now + ReturnOf(c, n, e).value.retryAfter
    requires now >= Run(c, Step(c, n, e), es).pool.unknownUntil
    ensures var b := Begin(Run(c, Step(c, n, e), es).pool, cost, now);
            b.verdict == Decided(Admit) || b.pool.renewing
  {
    NextTryKept(c, Step(c, n, e), es);
    var p := Run(c, Step(c, n, e), es).pool;
    if Begin(p, cost, now).verdict != Decided(Admit) {
      InsufficientFindsOrStartsRenewal(p, cost, now);
    }
  }

  // Coordinator load.

  /** The step keeps pace, and a return that brings no tokens holds the next start back by at least `delta`. */
  ghost predicate PacedStep(c: Params, n: Node, e: Event, delta: real)
    requires Enabled(c, n, e)
  {
    && Paces(n, Step(c, n, e), StartOf(n, e), BackOf(c, n, e))
    && (BackOf(c, n, e).Some? && Arrived(c, n, e) == 0 ==> Gate(Step(c, n, e).pool) >= e.now + delta)
  }

  ghost predicate PacedBy(c: Params, n: Node, es: seq<Event>, delta: real)
    requires ValidRun(c, n, es)
    decreases |es|
  {
    es == [] || (PacedStep(c, n, es[0], delta) && PacedBy(c, Step(c, n, es[0]), es[1..], delta))
  }

  /** Further starts at readings `s` up to `t1`, while `r` tokens arrive: one for free, one for every
      token, and one for every `delta` of time after the first of them, or after the call that is out. */
  ghost predicate StartsBound(n: Node, s: seq<real>, r: nat, t1: real, delta: real) {
    s != [] ==>
      && n.up
      && (!n.pool.renewing ==> s[0] >= Gate(n.pool))
      && Flow(delta, (|s| - 1) as real) <= Flow(delta, r as real) + Max(0.0, t1 - Max(n.clock, s[0]))
      && (n.pool.renewing ==> Flow(delta, |s| as real) <= Flow(delta, r as real) + Max(0.0, t1 - Since(n)))
  }

  lemma {:induction false} StartsBack(
      n: Node, m: Node, start: Option<real>, back: Option<real>, a: nat, s: seq<real>, r: nat, t1: real, delta: real)
    requires Paces(n, m, start, back) && delta >= 0.0
    requires back.Some? && a == 0 ==> Gate(m.pool) >= back.value + delta
    requires (start.Some? ==> start.value <= t1) && (s != [] ==> s[0] <= t1)
    requires StartsBound(m, s, r, t1, delta)
    ensures StartsBound(n, Log(start) + s, a + r, t1, delta)
  {
    var k', r', a' := |s| as real, r as real, a as real;
    FlowAdd(delta, a', r');
    FlowAdd(delta, k' - 1.0, 1.0);
    FlowMono(delta, 0.0, r');
    FlowMono(delta, 0.0, a');
    if a >= 1 {
      FlowMono(delta, 1.0, a');
    }
    assert (a + r) as real == a' + r' && (|s| - 1) as real == k' - 1.0;
    if start.None? {
      assert Log(start) + s == s;
    }
  }

  ghost predicate UpTo(s: seq<real>, t1: real) {
    forall i :: 0 <= i < |s| ==> s[i] <= t1
  }

  lemma {:induction false} UpToSplit(start: Option<real>, s: seq<real>, t1: real)
    requires UpTo(Log(start) + s, t1)
    ensures UpTo(s, t1) && (start.Some? ==> start.value <= t1)
  {
    var h := Log(start);
    forall i | 0 <= i < |s|
      ensures s[i] <= t1
    {
      assert (h + s)[|h| + i] == s[i];
    }
    assert start.Some? ==> (h + s)[0] == start.value;
  }

  lemma {:induction false} StartsStep(c: Params, n: Node, e: Event, s: seq<real>, r: nat, t1: real, delta: real)
    requires Enabled(c, n, e) && PacedStep(c, n, e, delta) && delta >= 0.0 && UpTo(Log(StartOf(n, e)) + s, t1)
    requires StartsBound(Step(c, n, e), s, r, t1, delta)
    ensures StartsBound(n, Log(StartOf(n, e)) + s, Arrived(c, n, e) + r, t1, delta)
  {
    UpToSplit(StartOf(n, e), s, t1);
    StartsBack(n, Step(c, n, e), StartOf(n, e), BackOf(c, n, e), Arrived(c, n, e), s, r, t1, delta);
  }

  /** Unfolding the first step of a run. */
  lemma {:induction false} Unfold(c: Params, n: Node, es: seq<Event>)
    requires ValidRun(c, n, es) && es != []
    ensures var m := Step(c, n, es[0]);
            && StartTimes(c, n, es) == Log(StartOf(n, es[0])) + StartTimes(c, m, es[1..])
            && Received(c, n, es) == Arrived(c, n, es[0]) + Received(c, m, es[1..])
  {
  }

  lemma {:induction false} StartsArePaced(
      c: Params, n: Node, es: seq<Event>, s: seq<real>, r: nat, t1: real, delta: real)
    requires ValidRun(c, n, es) && delta >= 0.0 && PacedBy(c, n, es, delta)
    requires s == StartTimes(c, n, es) && r == Received(c, n, es) && UpTo(s, t1)
    ensures StartsBound(n, s, r, t1, delta)
    decreases |es|
  {
    if es != [] {
      var e, m := es[0], Step(c, n, es[0]);
      var s', r' := StartTimes(c, m, es[1..]), Received(c, m, es[1..]);
      Unfold(c, n, es);
      UpToSplit(StartOf(n, e), s', t1);
      StartsArePaced(c, m, es[1..], s', r', t1, delta);
      StartsStep(c, n, e, s', r', t1, delta);
    }
  }

  /** The least any fruitless return holds back the next call: three quarters of the first backoff. */
  const MIN_PACE: real := 0.1875

  lemma {:induction false} EveryStepIsPaced(c: Params, n: Node, e: Event)
    requires c.Valid() && Inv(c, n) && Enabled(c, n, e)
    ensures PacedStep(c, n, e, MIN_PACE)
  {
    StepPaces(c, n, e);
    if BackOf(c, n, e).Some? && Arrived(c, n, e) == 0 {
      FruitlessReturnPaces(c, n, e);
    }
  }

  lemma {:induction false} EveryRunIsPaced(c: Params, n: Node, es: seq<Event>)
    requires c.Valid() && Inv(c, n) && ValidRun(c, n, es)
    ensures PacedBy(c, n, es, MIN_PACE)
    decreases |es|
  {
    if es != [] {
      EveryStepIsPaced(c, n, es[0]);
      InvStep(c, n, es[0]);
      EveryRunIsPaced(c, Step(c, n, es[0]), es[1..]);
    }
  }

  lemma {:induction false} FruitlessReturnPaces(c: Params, n: Node, e: Event)
    requires c.Valid() && Inv(c, n) && Enabled(c, n, e)
    requires BackOf(c, n, e).Some? && Arrived(c, n, e) == 0
    ensures Gate(Step(c, n, e).pool) >= e.now + MIN_PACE
  {
    JitterBounds(NextBackoff(n.pool.backoff), e.jitter);
  }

  lemma {:induction false} ArrivalLeavesFlight(c: Params, n: Node, e: Event)
    requires c.Valid() && Inv(c, n) && Enabled(c, n, e)
    ensures var m := Step(c, n, e);
            Arrived(c, n, e) + InFlight(m.calls) <= InFlight(n.calls) + m.debited - n.debited
  {
    SingleflightStep(c, n, e);
    InFlightOf(n);
    InFlightOf(Step(c, n, e));
  }

  lemma {:induction false} ReceivedWasDebited(c: Params, n: Node, es: seq<Event>)
    requires c.Valid() && Inv(c, n) && ValidRun(c, n, es)
    ensures Received(c, n, es) <= InFlight(n.calls) + Run(c, n, es).debited - n.debited
    decreases |es|
  {
    if es != [] {
      InvStep(c, n, es[0]);
      ArrivalLeavesFlight(c, n, es[0]);
      ReceivedWasDebited(c, Step(c, n, es[0]), es[1..]);
    }
  }

  /** Coordinator load is bounded whatever the request rate: from any reachable state, the lease calls
      started by checks that read the clock in a window are at most one, plus one per token received,
      plus one per 187.5 ms of what is left of the window after the readings seen before. The tokens
      received are in turn at most one lease size in flight at the start and what the coordinator debits
      for this worker meanwhile. */
  lemma {:induction false} LeaseCallsBounded(c: Params, n: Node, es: seq<Event>, t0: real, t1: real)
    requires c.Valid() && Inv(c, n) && ValidRun(c, n, es)
    requires forall i :: 0 <= i < |StartTimes(c, n, es)| ==> t0 <= StartTimes(c, n, es)[i] <= t1
    ensures var m, k := Run(c, n, es), |StartTimes(c, n, es)|;
            && MIN_PACE * (k - 1 - Received(c, n, es)) as real <= Max(0.0, t1 - Max(n.clock, t0))
            && Received(c, n, es) <= c.leaseSize + m.debited - n.debited
            && k == m.counts.leaseCalls - n.counts.leaseCalls
  {
    EveryRunIsPaced(c, n, es);
    StartsArePaced(c, n, es, StartTimes(c, n, es), Received(c, n, es), t1, MIN_PACE);
    StartsAreCounted(c, n, es);
    ReceivedWasDebited(c, n, es);
    InFlightOf(n);
    var k, r := |StartTimes(c, n, es)|, Received(c, n, es);
    assert MIN_PACE * (k - 1 - r) as real == MIN_PACE * (k - 1) as real - MIN_PACE * r as real;
  }

  // Negative caching.

  /** While the latest reading lies before `unknownUntil`, the pool is empty and no call is out. */
  lemma {:induction false} NegativeCacheIsIdle(c: Params, n: Node)
    requires c.Valid() && Reachable(c, n) && n.clock < n.pool.unknownUntil
    ensures n.pool.tokens == 0 && !n.pool.renewing && (forall i :: 0 <= i < |n.calls| ==> !n.calls[i].live)
  {
    ReachableInv(c, n);
  }

  /** Every lease call returns 404. */
  ghost predicate AlwaysUnknown(c: Params, n: Node, es: seq<Event>)
    requires ValidRun(c, n, es)
    decreases |es|
  {
    es == [] ||
    (ReturnOf(c, n, es[0]) in {None, Some(UnknownTenant)} && AlwaysUnknown(c, Step(c, n, es[0]), es[1..]))
  }

  /** The starts at readings `s` are ten seconds apart, and from the call that is out. */
  ghost predicate TenApart(n: Node, s: seq<real>) {
    && (forall i :: 0 < i < |s| ==> s[i] - s[i - 1] >= 10.0)
    && (s != [] ==> n.up && s[0] >= if n.pool.renewing then Since(n) + 10.0 else Gate(n.pool))
  }

  lemma {:induction false} TenApartBack(n: Node, m: Node, start: Option<real>, back: Option<real>, s: seq<real>)
    requires Paces(n, m, start, back) && TenApart(m, s)
    requires back.Some? ==> Gate(m.pool) >= back.value + 10.0
    ensures TenApart(n, Log(start) + s)
  {
    var r := Log(start) + s;
    if start.Some? {
      forall i | 0 < i < |r|
        ensures r[i] - r[i - 1] >= 10.0
      {
        assert r[i] == s[i - 1];
        assert i > 1 ==> r[i - 1] == s[i - 2];
      }
    } else {
      assert r == s;
    }
  }

  /** Lease calls for a tenant that always gets 404 are at least ten seconds apart: each is started by a
      check that reads the clock ten seconds or more after the check that started the one before - after
      everything seen by then, if that one is out when the run begins. */
  lemma {:induction false} UnknownTenantCallsTenSecondsApart(c: Params, n: Node, es: seq<Event>)
    requires c.Valid() && Inv(c, n) && ValidRun(c, n, es) && AlwaysUnknown(c, n, es)
    ensures TenApart(n, StartTimes(c, n, es))
    decreases |es|
  {
    if es != [] {
      var e, m := es[0], Step(c, n, es[0]);
      InvStep(c, n, e);
      StepPaces(c, n, e);
      UnknownTenantCallsTenSecondsApart(c, m, es[1..]);
      TenApartBack(n, m, StartOf(n, e), BackOf(c, n, e), StartTimes(c, m, es[1..]));
    }
  }

  // Waiting.

  lemma {:induction false} PacedStepDoesNotWait(c: Params, n: Node, e: Event)
    requires c.Valid() && Inv(c, n) && Enabled(c, n, e) && Arrived(c, n, e) == 0
    requires n.up ==> n.pool.nextTry > ZERO_TIME
    ensures var m := Step(c, n, e);
            |m.waiters| <= |n.waiters| && (m.up ==> m.pool.nextTry > ZERO_TIME)
  {
    if e.Deliver? || e.Fail? {
      JitterBounds(NextBackoff(n.pool.backoff), e.jitter);
    }
  }

  lemma {:induction false} PacedChecksDoNotWait(c: Params, n: Node, es: seq<Event>)
    requires c.Valid() && Inv(c, n) && ValidRun(c, n, es) && NoGrant(c, n, es)
    requires n.up ==> n.pool.nextTry > ZERO_TIME
    ensures |Run(c, n, es).waiters| <= |n.waiters|
    decreases |es|
  {
    if es != [] {
      InvStep(c, n, es[0]);
      PacedStepDoesNotWait(c, n, es[0]);
      PacedChecksDoNotWait(c, Step(c, n, es[0]), es[1..]);
    }
  }

  /** Between a zero grant or an error and the next positive grant, no check waits. */
  lemma {:induction false} NoWaitUntilNextGrant(c: Params, n: Node, e: Event, es: seq<Event>)
    requires c.Valid() && Inv(c, n) && Enabled(c, n, e)
    requires ReturnOf(c, n, e).Some? && !ReturnOf(c, n, e).value.UnknownTenant? && Arrived(c, n, e) == 0
    requires ValidRun(c, Step(c, n, e), es) && NoGrant(c, Step(c, n, e), es)
    ensures |Run(c, Step(c, n, e), es).waiters| <= |n.waiters|
  {
    JitterBounds(NextBackoff(n.pool.backoff), e.jitter);
    InvStep(c, n, e);
    PacedChecksDoNotWait(c, Step(c, n, e), es);
  }
}
