/** Runs of one worker that show its bounds to be exact and its expiry to be pool-wide. */
module Scenarios {
  import opened Pools
  import opened Coordinator
  import opened Nodes
  import opened NodeTheorems
  import opened Pacing

  /** A worker at time `t` with `tokens` in its pool, good until after `t`; a renewal is outstanding and
      unanswered, or there is none; nothing holds renewals back. */
  ghost predicate Calm(c: Params, n: Node, t: real, tokens: int, out: bool) {
    && n.up && n.clock <= t && t > ZERO_TIME
    && n.pool.tokens == tokens && n.pool.renewing == out
    && n.pool.nextTry == ZERO_TIME && n.pool.unknownUntil == ZERO_TIME
    && ((n.pool.lastGrant == c.leaseSize && t < n.pool.expiry) || (n.pool.lastGrant == 0 && tokens == 0))
    && (out ==> n.calls != [] && n.calls[|n.calls| - 1] == Call(None, true, Since(n)) && Since(n) <= t)
  }

  ghost function Newest(n: Node): nat {
    if n.calls == [] then 0 else |n.calls| - 1
  }

  /** A unit check spends a token; a renewal goes out once the pool is below the watermark. */
  lemma {:induction false} SpendOne(c: Params, n: Node, t: real, tokens: int, out: bool)
    requires c.Valid() && Calm(c, n, t, tokens, out) && 1 <= tokens
    ensures Enabled(c, n, CheckBegin(1, t))
    ensures var m := Step(c, n, CheckBegin(1, t));
            && Calm(c, m, t, tokens - 1, out || tokens - 1 < Watermark(c.leaseSize))
            && m.counts.admittedTokens == n.counts.admittedTokens + 1 && m.pool.expiry == n.pool.expiry
  {
  }

  /** A check that the pool cannot serve sends out a renewal. */
  lemma {:induction false} Refuse(c: Params, n: Node, t: real, tokens: int)
    requires c.Valid() && Calm(c, n, t, tokens, false) && 0 <= tokens < c.maxCost
    ensures Enabled(c, n, CheckBegin(c.maxCost, t))
    ensures var m := Step(c, n, CheckBegin(c.maxCost, t));
            && Calm(c, m, t, tokens, true) && Since(m) == t && m.pool.expiry == n.pool.expiry
            && m.counts.admittedTokens == n.counts.admittedTokens
  {
  }

  ghost function WithAnswer(c: Params, n: Node): Node
    requires n.calls != []
  {
    AfterAnswer(n, Newest(n), Leased(c.leaseSize, c.ttl, 0.0))
  }

  /** The renewal is answered with a full lease, which lands at a later reading - past the old expiry or
      not: all tokens are then good for a TTL. */
  lemma {:induction false} Land(c: Params, n: Node, t: real, now: real, tokens: int)
    requires c.Valid() && Calm(c, n, t, tokens, true) && t <= now
    ensures Enabled(c, n, Answer(Newest(n), Leased(c.leaseSize, c.ttl, 0.0)))
    ensures var a := WithAnswer(c, n);
            && a.pool == n.pool && Since(a) == Since(n) && Enabled(c, a, Deliver(Newest(n), now, 1.0))
            && var m := Step(c, a, Deliver(Newest(n), now, 1.0));
            && Calm(c, m, now, tokens + c.leaseSize, false) && m.pool.expiry == now + c.ttl
            && m.counts == n.counts && m.waiters == n.waiters
            && (n.pool.renewDone.Some? ==> n.pool.renewDone.value in m.closes)
  {
  }

  lemma {:induction false} LandReachable(c: Params, n: Node, t: real, now: real, tokens: int) returns (m: Node)
    requires c.Valid() && Reachable(c, n) && Calm(c, n, t, tokens, true) && t <= now
    ensures Reachable(c, m) && Calm(c, m, now, tokens + c.leaseSize, false) && m.pool.expiry == now + c.ttl
    ensures m.counts == n.counts && m.waiters == n.waiters
    ensures n.pool.renewDone.Some? ==> n.pool.renewDone.value in m.closes
  {
    Land(c, n, t, now, tokens);
    ReachableStep(c, n, Answer(Newest(n), Leased(c.leaseSize, c.ttl, 0.0)));
    ReachableStep(c, WithAnswer(c, n), Deliver(Newest(n), now, 1.0));
    m := Step(c, WithAnswer(c, n), Deliver(Newest(n), now, 1.0));
  }

  lemma {:induction false} RefuseReachable(c: Params, n: Node, t: real, tokens: int) returns (m: Node)
    requires c.Valid() && Reachable(c, n) && Calm(c, n, t, tokens, false) && 0 <= tokens < c.maxCost
    ensures Reachable(c, m) && Calm(c, m, t, tokens, true) && Since(m) == t && m.pool.expiry == n.pool.expiry
  {
    Refuse(c, n, t, tokens);
    ReachableStep(c, n, CheckBegin(c.maxCost, t));
    m := Step(c, n, CheckBegin(c.maxCost, t));
  }

  lemma {:induction false} CalmAdmits(c: Params, n: Node, t: real, tokens: int, out: bool, cost: int)
    requires Calm(c, n, t, tokens, out) && 1 <= cost <= tokens
    ensures Admits(n.pool, cost, t)
  {
  }

  lemma {:induction false} FreshIsCalm(c: Params)
    ensures Calm(c, FRESH, 1.0, 0, false)
  {
  }

  /** A refusal on an empty pool brings the first lease. */
  lemma {:induction false} FirstLease(c: Params) returns (m: Node)
    requires c.Valid()
    ensures Reachable(c, m) && Calm(c, m, 1.0, c.leaseSize, false) && m.pool.expiry == 1.0 + c.ttl
  {
    FreshReachable(c);
    FreshIsCalm(c);
    m := RefuseReachable(c, FRESH, 1.0, 0);
    m := LandReachable(c, m, 1.0, 1.0, 0);
  }

  // Cold start.

  /** In every configuration, a worker that has never leased for a tenant makes its first request wait,
      and admits it once the first lease has landed. */
  lemma {:induction false} ColdStartIsAdmitted(c: Params) returns (n: Node)
    requires c.Valid()
    ensures Begin(FRESH.pool, 1, 1.0).verdict.Waiting?
    ensures Reachable(c, n) && n.counts == Counts(1, 1, 0, 1, 0) && n.pool.tokens == c.leaseSize - 1
  {
    FreshReachable(c);
    ReachableStep(c, FRESH, CheckBegin(1, 1.0));
    n := AfterBegin(FRESH, 1, 1.0);
    FirstCheck(c);
    n := LandReachable(c, n, 1.0, 1.0, 0);
    ReachableStep(c, n, CheckWake(0, 1.0));
    WakeAdmitsIff(n.pool, 1, 1.0);
    n := Step(c, n, CheckWake(0, 1.0));
  }

  lemma {:induction false} FirstCheck(c: Params)
    requires c.Valid()
    ensures var n := AfterBegin(FRESH, 1, 1.0);
            && Calm(c, n, 1.0, 0, true) && n.waiters == [Waiter(1, 0, true)] && n.counts == Counts(0, 0, 0, 1, 0)
            && n.pool.renewDone == Some(0)
  {
  }

  /** When the first lease lands too late, the request that waited is rejected, and the next is admitted. */
  lemma {:induction false} LateLeaseServesTheNext(c: Params) returns (n: Node)
    requires c.Valid()
    ensures Reachable(c, n) && n.counts.admitted == 1 && n.counts.rejected == 1
  {
    FreshReachable(c);
    ReachableStep(c, FRESH, CheckBegin(1, 1.0));
    n := AfterBegin(FRESH, 1, 1.0);
    FirstCheck(c);
    ReachableStep(c, n, CheckTimeout(0));
    n := Step(c, n, CheckTimeout(0));
    n := LandReachable(c, n, 1.0, 1.0, 0);
    SpendOne(c, n, 1.0, c.leaseSize, false);
    ReachableStep(c, n, CheckBegin(1, 1.0));
    n := Step(c, n, CheckBegin(1, 1.0));
  }

  // Stale tokens.

  /** In every configuration that allows a request for two leases, a lease that has expired is spent
      together with the next one: the second lease is asked for before the first expires, arrives within
      the worker's timeout but after that expiry, and a request for both is admitted at once. */
  lemma {:induction false} StaleTokensRevive(c: Params) returns (n: Node, e: Event)
    requires c.Valid() && c.maxCost >= 2 * c.leaseSize
    ensures Reachable(c, n) && e.Deliver? && Enabled(c, n, e)
    ensures n.pool.tokens == c.leaseSize && n.pool.expiry < e.now <= Since(n) + LEASE_TIMEOUT
    ensures Admits(Step(c, n, e).pool, 2 * c.leaseSize, e.now)
  {
    n := FirstLease(c);
    var d := if c.ttl < 1.0 then c.ttl / 2.0 else 0.5;
    var t, now := 1.0 + c.ttl - d, 1.0 + c.ttl + d;
    n := RefuseReachable(c, n, t, c.leaseSize);
    Land(c, n, t, now, c.leaseSize);
    ReachableStep(c, n, Answer(Newest(n), Leased(c.leaseSize, c.ttl, 0.0)));
    e := Deliver(Newest(n), now, 1.0);
    n := WithAnswer(c, n);
    CalmAdmits(c, Step(c, n, e), now, 2 * c.leaseSize, false, 2 * c.leaseSize);
  }

  // The pace of an outage is attained.

  /** An idle worker with an empty pool after `j` errors in a row, free to call at `t`. */
  ghost predicate Broke(n: Node, t: real, j: nat) {
    && n.up && n.clock <= t && t > ZERO_TIME && n.pool.tokens == 0 && !n.pool.renewing
    && n.pool.nextTry <= t && n.pool.unknownUntil <= t && n.pool.backoff == BackoffAfter(j)
  }

  /** The clock after the next error, with the least jitter. */
  function NextAttempt(t: real, j: nat): real {
    t + 0.75 * BackoffAfter(j + 1)
  }

  /** A check starts a call that fails at once. */
  function AfterFailure(n: Node, t: real): Node
    requires |AfterBegin(n, 1, t).calls| > |n.calls|
  {
    AfterReturn(AfterBegin(n, 1, t), |n.calls|, t, Failed, 0.75, 0)
  }

  lemma {:induction false} FailOnce(n: Node, t: real, j: nat)
    requires Broke(n, t, j)
    ensures StartOf(n, CheckBegin(1, t)) == Some(t) && |AfterBegin(n, 1, t).calls| > |n.calls|
    ensures Broke(AfterFailure(n, t), NextAttempt(t, j), j + 1)
  {
    NextBackoffIs(j);
  }

  /** A run of errors with one more before it. */
  lemma {:induction false} ConsOutage(c: Params, n: Node, e: Event, es: seq<Event>)
    requires Enabled(c, n, e) && !e.Crash? && ErrorAtMost(ReturnOf(c, n, e))
    requires ValidRun(c, Step(c, n, e), es) && Outage(c, Step(c, n, e), es)
    ensures ValidRun(c, n, [e] + es) && Outage(c, n, [e] + es)
    ensures StartTimes(c, n, [e] + es) == Log(StartOf(n, e)) + StartTimes(c, Step(c, n, e), es)
  {
    assert ([e] + es)[1..] == es;
  }

  /** Attempts at readings `s`, each three quarters of its backoff after the one before. */
  ghost predicate AtPace(s: seq<real>, t: real, j: nat) {
    forall i :: 0 <= i < |s| ==> s[i] == t + 0.75 * BackoffSum(j, i)
  }

  lemma {:induction false} AtPaceCons(s: seq<real>, t: real, j: nat)
    requires AtPace(s, NextAttempt(t, j), j + 1)
    ensures AtPace([t] + s, t, j)
  {
    forall i | 0 <= i < |[t] + s|
      ensures ([t] + s)[i] == t + 0.75 * BackoffSum(j, i)
    {
      if i > 0 {
        assert ([t] + s)[i] == s[i - 1];
      }
    }
  }

  lemma {:induction false} FailureSteps(c: Params, n: Node, t: real, j: nat)
    requires c.Valid() && Broke(n, t, j) && |AfterBegin(n, 1, t).calls| > |n.calls|
    ensures var e, f := CheckBegin(1, t), Fail(|n.calls|, t, 0.75);
            && Enabled(c, n, e) && ReturnOf(c, n, e) == None
            && var m := Step(c, n, e);
            && Enabled(c, m, f) && ReturnOf(c, m, f) == Some(Failed) && StartOf(m, f) == None
            && Step(c, m, f) == AfterFailure(n, t)
  {
    assert |AfterBegin(n, 1, t).calls| == |n.calls| + 1;
    assert AfterBegin(n, 1, t).calls[|n.calls|] == Call(None, true, t);
  }

  /** A run of errors with two more steps before it. */
  lemma {:induction false} ConsTwo(c: Params, n: Node, e: Event, m: Node, f: Event, l: Node, es: seq<Event>)
    requires Enabled(c, n, e) && !e.Crash? && ReturnOf(c, n, e) == None && Step(c, n, e) == m
    requires Enabled(c, m, f) && !f.Crash? && ReturnOf(c, m, f) == Some(Failed) && Step(c, m, f) == l
    requires ValidRun(c, l, es) && Outage(c, l, es) && StartOf(m, f) == None
    ensures ValidRun(c, n, [e] + ([f] + es)) && Outage(c, n, [e] + ([f] + es))
    ensures StartTimes(c, n, [e] + ([f] + es)) == Log(StartOf(n, e)) + StartTimes(c, l, es)
  {
    ConsOutage(c, m, f, es);
    ConsOutage(c, n, e, [f] + es);
  }

  lemma {:induction false} OutagePaceFrom(c: Params, n: Node, t: real, j: nat, k: nat) returns (es: seq<Event>)
    requires c.Valid() && Broke(n, t, j)
    ensures ValidRun(c, n, es) && Outage(c, n, es)
    ensures |StartTimes(c, n, es)| == k && AtPace(StartTimes(c, n, es), t, j)
    decreases k
  {
    if k == 0 {
      es := [];
    } else {
      FailOnce(n, t, j);
      var l := AfterFailure(n, t);
      var rest := OutagePaceFrom(c, l, NextAttempt(t, j), j + 1, k - 1);
      var e, f := CheckBegin(1, t), Fail(|n.calls|, t, 0.75);
      FailureSteps(c, n, t, j);
      ConsTwo(c, n, e, Step(c, n, e), f, l, rest);
      AtPaceCons(StartTimes(c, l, rest), t, j);
      es := [e] + ([f] + rest);
    }
  }

  /** The pace of an outage is exact: for every number of attempts there is a run in which each comes
      exactly three quarters of its backoff after the one before. */
  lemma {:induction false} OutagePaceIsAttained(c: Params, k: nat) returns (es: seq<Event>)
    requires c.Valid()
    ensures ValidRun(c, FRESH, es) && Outage(c, FRESH, es)
    ensures var s := StartTimes(c, FRESH, es);
            |s| == k && forall i :: 0 <= i < k ==> s[i] - s[0] == 0.75 * BackoffSum(0, i)
  {
    es := OutagePaceFrom(c, FRESH, 1.0, 0, k);
  }

  // The pool bound is attained.

  /** Refusals top the pool up, a lease at a time, to `keep` tokens or more. */
  lemma {:induction false} TopUp(c: Params, n: Node, tokens: int, keep: int) returns (m: Node, held: int)
    requires c.Valid() && Reachable(c, n) && Calm(c, n, 1.0, tokens, false) && 0 <= tokens && keep < c.maxCost
    ensures Reachable(c, m) && Calm(c, m, 1.0, held, false) && held >= keep && held >= tokens
    decreases keep - tokens
  {
    if tokens >= keep {
      m, held := n, tokens;
    } else {
      m := RefuseReachable(c, n, 1.0, tokens);
      m := LandReachable(c, m, 1.0, 1.0, tokens);
      m, held := TopUp(c, m, tokens + c.leaseSize, keep);
    }
  }

  /** Unit checks bring the pool down to `keep` tokens. */
  lemma {:induction false} DrawDown(c: Params, n: Node, tokens: int, out: bool, keep: int) returns (m: Node)
    requires c.Valid() && Reachable(c, n) && Calm(c, n, 1.0, tokens, out) && 0 <= keep <= tokens
    requires out ==> tokens < Watermark(c.leaseSize)
    ensures Reachable(c, m) && Calm(c, m, 1.0, keep, if keep == tokens then out else keep < Watermark(c.leaseSize))
    decreases tokens
  {
    if keep == tokens {
      m := n;
    } else {
      SpendOne(c, n, 1.0, tokens, out);
      ReachableStep(c, n, CheckBegin(1, 1.0));
      m := Step(c, n, CheckBegin(1, 1.0));
      m := DrawDown(c, m, tokens - 1, tokens - 1 < Watermark(c.leaseSize), keep);
    }
  }

  /** The bound of the pool is exact: for every lease size, TTL and largest cost, some reachable pool
      holds max(C, watermark) - 1 tokens with a renewal outstanding, and max(C, watermark) - 1 + lease
      size once it has landed. */
  lemma {:induction false} PoolSlackIsAttained(c: Params) returns (n: Node, m: Node)
    requires c.Valid()
    ensures Reachable(c, n) && n.pool.renewing && n.pool.tokens == c.Floor()
    ensures Reachable(c, m) && m.pool.tokens == c.Floor() + c.leaseSize
  {
    n := FirstLease(c);
    if c.maxCost > Watermark(c.leaseSize) {
      var held;
      n, held := TopUp(c, n, c.leaseSize, c.Floor());
      n := DrawDown(c, n, held, false, c.Floor());
      n := RefuseReachable(c, n, 1.0, c.Floor());
    } else {
      n := DrawDown(c, n, c.leaseSize, false, c.Floor());
    }
    m := LandReachable(c, n, 1.0, 1.0, c.Floor());
  }
}
