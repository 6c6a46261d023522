/** Leasing follows demand: costly requests are not starved, and lease calls are batched. */
module Demand {
  import opened Pools
  import opened Coordinator
  import opened Nodes
  import opened NodeTheorems

  // Starvation guard.

  /** What a sole client that repeats a request of this cost meets in a step, when `k` of its checks came
      before. It checks when no renewal is out, at a reading when the tenant is not negatively cached
      and - the first check apart - the tokens that have landed are still good; every lease call that
      returns brings at least `g` tokens. Checks that wait may wake or time out, in any order. */
  ghost predicate ServedStep(c: Params, n: Node, e: Event, cost: int, g: nat, k: nat)
    requires Enabled(c, n, e)
  {
    match e
    case CheckBegin(q, now) =>
      q == cost && !n.pool.renewing && now >= n.pool.unknownUntil && (k > 0 ==> now < n.pool.expiry)
    case CheckWake(w, _) => n.waiters[w].cost == cost
    case Deliver(_, _, _) => Arrived(c, n, e) >= g
    case Fail(_, _, _) => false
    case Crash => false
    case _ => true
  }

  ghost predicate Served(c: Params, n: Node, es: seq<Event>, cost: int, g: nat, k: nat)
    requires ValidRun(c, n, es)
    decreases |es|
  {
    es == [] ||
    (ServedStep(c, n, es[0], cost, g, k) && Served(c, Step(c, n, es[0]), es[1..], cost, g, k + ChecksIn(es[0])))
  }

  function CeilDiv(x: nat, d: nat): nat
    requires d >= 1
  {
    (x + d - 1) / d
  }

  lemma {:induction false} CeilDivCovers(x: nat, d: nat, k: int)
    requires d >= 1 && k >= CeilDiv(x, d)
    ensures d * k >= x
  {
    assert d * CeilDiv(x, d) >= x;
    assert d * (k - CeilDiv(x, d)) >= 0;
  }

  /** After `k` checks, none admitted: every one left a renewal, and all that returned are in the pool. */
  ghost predicate Saving(n: Node, g: nat, k: nat) {
    && n.up && n.pool.nextTry == ZERO_TIME && n.pool.tokens >= 0
    && (k > 0 ==> n.pool.tokens >= g * (if n.pool.renewing then k - 1 else k))
  }

  lemma {:induction false} SavingCheck(n: Node, cost: int, now: real, g: nat, k: nat)
    requires Saving(n, g, k) && !n.pool.renewing && now > ZERO_TIME && now >= n.pool.unknownUntil && (k > 0 ==> now < n.pool.expiry)
    ensures var m := AfterBegin(n, cost, now);
            if Admits(n.pool, cost, now)
            then m.counts.admitted == n.counts.admitted + 1
            else m.counts.admitted == n.counts.admitted && Saving(m, g, k + 1) && g * k < Charge(cost)
  {
  }

  lemma {:induction false} SavingReturn(n: Node, i: nat, now: real, o: Outcome, jitter: real, g: nat, k: nat)
    requires Saving(n, g, k) && n.pool.renewing && i < |n.calls| && o.Answered? && o.tokens >= g >= 1
    ensures var m := AfterReturn(n, i, now, o, jitter, 0);
            m.counts.admitted == n.counts.admitted && Saving(m, g, k)
  {
    assert k > 0 ==> g * k == g * (k - 1) + g;
  }

  lemma {:induction false} SavingStep(c: Params, n: Node, e: Event, cost: int, g: nat, k: nat)
    requires c.Valid() && Inv(c, n) && Enabled(c, n, e) && g >= 1
    requires Saving(n, g, k) && ServedStep(c, n, e, cost, g, k)
    ensures var m := Step(c, n, e);
            || m.counts.admitted > n.counts.admitted
            || (&& m.counts.admitted == n.counts.admitted && Saving(m, g, k + ChecksIn(e))
                && (e.CheckBegin? ==> g * k < Charge(cost)))
  {
    match e
    case CheckBegin(_, now) => SavingCheck(n, cost, now, g, k);
    case Deliver(i, now, j) => SavingReturn(n, i, now, ToOutcome(n.calls[i].reply.value), j, g, k);
    case _ =>
  }

  lemma {:induction false} AdmittedGrows(c: Params, n: Node, es: seq<Event>)
    requires ValidRun(c, n, es)
    ensures Run(c, n, es).counts.admitted >= n.counts.admitted
    decreases |es|
  {
    if es != [] {
      AdmittedGrows(c, Step(c, n, es[0]), es[1..]);
    }
  }

  lemma {:induction false} SavingRun(c: Params, n: Node, es: seq<Event>, cost: int, g: nat, k: nat)
    requires c.Valid() && Inv(c, n) && ValidRun(c, n, es) && g >= 1
    requires Saving(n, g, k) && Served(c, n, es, cost, g, k)
    ensures || Run(c, n, es).counts.admitted > n.counts.admitted
            || CheckCount(es) == 0
            || g * (k + CheckCount(es) - 1) < Charge(cost)
    decreases |es|
  {
    if es != [] {
      var e, m := es[0], Step(c, n, es[0]);
      InvStep(c, n, e);
      SavingStep(c, n, e, cost, g, k);
      if m.counts.admitted > n.counts.admitted {
        AdmittedGrows(c, m, es[1..]);
      } else {
        SavingRun(c, m, es[1..], cost, g, k + ChecksIn(e));
      }
    }
  }

  /** A sole client that repeats a request of cost C from an unpaced pool is admitted by its
      (ceil(C / g) + 1)-th check, directly or by waking, when every renewal grants at least g tokens and
      lands before the next check, which comes before the grant expires. */
  lemma {:induction false} CostlyRequestIsNotStarved(c: Params, n: Node, es: seq<Event>, cost: int, g: nat)
    requires c.Valid() && Inv(c, n) && n.up && n.pool.nextTry == ZERO_TIME && g >= 1
    requires ValidRun(c, n, es) && Served(c, n, es, cost, g, 0)
    requires CheckCount(es) >= CeilDiv(Charge(cost), g) + 1
    ensures Run(c, n, es).counts.admitted > n.counts.admitted
  {
    SavingRun(c, n, es, cost, g, 0);
    CeilDivCovers(Charge(cost), g, CheckCount(es) - 1);
  }

  // Lease batching.

  /** No crash, and every call that returns brings a full lease. */
  ghost predicate FullGrants(c: Params, n: Node, es: seq<Event>)
    requires ValidRun(c, n, es)
    decreases |es|
  {
    es == [] ||
    (&& !es[0].Crash?
     && (ReturnOf(c, n, es[0]).Some? ==> Arrived(c, n, es[0]) == c.leaseSize)
     && FullGrants(c, Step(c, n, es[0]), es[1..]))
  }

  /** Tokens that have reached the pool so far. */
  function Accounted(n: Node): int {
    n.counts.admittedTokens + n.pool.tokens + n.expired + n.cleared
  }

  /** From `n` to `m`, each closed channel stands for one full lease that reached the pool. */
  ghost predicate Batches(c: Params, n: Node, m: Node) {
    && m.up && m.cleared == n.cleared
    && Accounted(m) - Accounted(n) == c.leaseSize * (|m.closes| - |n.closes|)
    && m.counts.leaseCalls - |m.calls| == n.counts.leaseCalls - |n.calls|
  }

  lemma {:induction false} BatchesTrans(c: Params, n: Node, m: Node, o: Node)
    requires Batches(c, n, m) && Batches(c, m, o)
    ensures Batches(c, n, o)
  {
    var x, y, z := |n.closes|, |m.closes|, |o.closes|;
    assert c.leaseSize * (y - x) + c.leaseSize * (z - y) == c.leaseSize * (z - x);
  }

  lemma {:induction false} BeginBatches(c: Params, n: Node, cost: int, now: real)
    requires n.up
    ensures Batches(c, n, AfterBegin(n, cost, now))
  {
    BeginTakesCostOrNothing(n.pool, cost, now);
  }

  lemma {:induction false} FullGrantsStep(c: Params, n: Node, e: Event)
    requires c.Valid() && Inv(c, n) && n.up && Enabled(c, n, e) && !e.Crash?
    requires ReturnOf(c, n, e).Some? ==> Arrived(c, n, e) == c.leaseSize
    ensures Batches(c, n, Step(c, n, e))
  {
    if e.CheckBegin? {
      BeginBatches(c, n, e.cost, e.now);
    }
  }

  lemma {:induction false} FullGrantsRun(c: Params, n: Node, es: seq<Event>)
    requires c.Valid() && Inv(c, n) && n.up && ValidRun(c, n, es) && FullGrants(c, n, es)
    ensures Batches(c, n, Run(c, n, es)) && Inv(c, Run(c, n, es))
    decreases |es|
  {
    if es != [] {
      var m := Step(c, n, es[0]);
      FullGrantsStep(c, n, es[0]);
      InvStep(c, n, es[0]);
      FullGrantsRun(c, m, es[1..]);
      BatchesTrans(c, n, m, Run(c, m, es[1..]));
    }
  }

  ghost predicate ReachableByFullGrants(c: Params, m: Node) {
    exists es :: ValidRun(c, FRESH, es) && FullGrants(c, FRESH, es) && Run(c, FRESH, es) == m
  }

  /** With full grants, when the k-th lease call is outstanding at least (k - 1) leases minus
      max(C, watermark) - 1 tokens have been admitted or have expired - for unit costs and no expiry,
      (k - 1) x lease size - (watermark - 1) admitted. */
  lemma {:induction false} LeasesAreBatched(c: Params, m: Node)
    requires c.Valid() && ReachableByFullGrants(c, m) && m.pool.renewing
    ensures m.counts.admittedTokens + m.expired >= c.leaseSize * (m.counts.leaseCalls - 1) - c.Floor()
  {
    BatchesFromFresh(c, m);
  }

  lemma {:induction false} BatchesFromFresh(c: Params, m: Node)
    requires c.Valid() && ReachableByFullGrants(c, m)
    ensures Inv(c, m) && Batches(c, FRESH, m)
  {
    var es :| ValidRun(c, FRESH, es) && FullGrants(c, FRESH, es) && Run(c, FRESH, es) == m;
    FreshInv(c);
    FullGrantsRun(c, FRESH, es);
  }
}
