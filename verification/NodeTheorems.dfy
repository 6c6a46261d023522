/** What one worker promises about one tenant, over every interleaving of its steps. */
module NodeTheorems {
  import opened Pools
  import opened Coordinator
  import opened Nodes

  /** What a lease call returned with, if `e` is such a return. */
  ghost function ReturnOf(c: Params, n: Node, e: Event): Option<Outcome>
    requires Enabled(c, n, e)
  {
    match e
    case Deliver(i, _, _) => Some(ToOutcome(n.calls[i].reply.value))
    case Fail(_, _, _) => Some(Failed)
    case _ => None
  }

  /** Tokens that reach the pool in this step. */
  ghost function Arrived(c: Params, n: Node, e: Event): nat
    requires Enabled(c, n, e)
  {
    match ReturnOf(c, n, e)
    case Some(Answered(g, _, _)) => g
    case _ => 0
  }

  ghost function Received(c: Params, n: Node, es: seq<Event>): nat
    requires ValidRun(c, n, es)
    decreases |es|
  {
    if es == [] then 0 else Arrived(c, n, es[0]) + Received(c, Step(c, n, es[0]), es[1..])
  }

  function ChecksIn(e: Event): nat {
    if e.CheckBegin? then 1 else 0
  }

  /** Checks begun in a run. */
  function CheckCount(es: seq<Event>): nat
    decreases |es|
  {
    if es == [] then 0 else ChecksIn(es[0]) + CheckCount(es[1..])
  }

  // Pool slack.

  /** In every reachable state a pool and the grant on its way to it hold at most
      max(C, watermark) - 1 + lease size, and while a renewal is outstanding the pool alone holds at
      most max(C, watermark) - 1. */
  lemma {:induction false} PoolSlack(c: Params, n: Node)
    requires c.Valid() && Reachable(c, n)
    ensures 0 <= Held(n) <= c.Floor() + c.leaseSize
    ensures n.pool.renewing ==> n.pool.tokens <= c.Floor()
  {
    ReachableInv(c, n);
    HeldBound(c, n);
  }

  lemma {:induction false} HeldBound(c: Params, n: Node)
    requires c.Valid() && Inv(c, n)
    ensures 0 <= Held(n) <= if n.up then c.Floor() + c.leaseSize else 0
  {
    InFlightOf(n);
  }

  // Singleflight and wakeups.

  /** In every reachable state: `renewing` holds exactly when a call is outstanding, there is never
      more than one, no channel has been closed twice, the channel about to be closed is still open,
      and every waiting check waits on the current channel or on one already closed. */
  lemma {:induction false} SingleflightHolds(c: Params, n: Node)
    requires c.Valid() && Reachable(c, n)
    ensures forall i, j :: 0 <= i < |n.calls| && 0 <= j < |n.calls| && n.calls[i].live && n.calls[j].live ==> i == j
    ensures n.pool.renewing <==> exists i :: 0 <= i < |n.calls| && n.calls[i].live
    ensures n.pool.renewing <==> n.pool.renewDone.Some?
    ensures n.up ==> forall i, j :: 0 <= i < j < |n.closes| ==> n.closes[i] != n.closes[j]
    ensures n.pool.renewDone.Some? ==> n.pool.renewDone.value !in n.closes
    ensures forall w :: 0 <= w < |n.waiters| ==>
              n.waiters[w].gen in n.closes || n.pool.renewDone == Some(n.waiters[w].gen)
  {
    ReachableInv(c, n);
    OneLiveCall(n);
    ChannelsClosedOnce(n);
  }

  lemma {:induction false} OneLiveCall(n: Node)
    requires Singleflight(n)
    ensures forall i, j :: 0 <= i < |n.calls| && 0 <= j < |n.calls| && n.calls[i].live && n.calls[j].live ==> i == j
    ensures n.pool.renewing <==> exists i :: 0 <= i < |n.calls| && n.calls[i].live
  {
    if n.pool.renewing {
      assert n.calls[|n.calls| - 1].live;
    }
  }

  lemma {:induction false} ChannelsClosedOnce(n: Node)
    requires Singleflight(n)
    ensures n.pool.renewing <==> n.pool.renewDone.Some?
    ensures n.up ==> forall i, j :: 0 <= i < j < |n.closes| ==> n.closes[i] != n.closes[j]
    ensures n.pool.renewDone.Some? ==> n.pool.renewDone.value !in n.closes
    ensures forall w :: 0 <= w < |n.waiters| ==>
              n.waiters[w].gen in n.closes || n.pool.renewDone == Some(n.waiters[w].gen)
  {
    forall w | 0 <= w < |n.waiters|
      ensures n.waiters[w].gen in n.closes || n.pool.renewDone == Some(n.waiters[w].gen)
    {
      if n.waiters[w].gen < |n.closes| {
        assert n.closes[n.waiters[w].gen] == n.waiters[w].gen;
      }
    }
  }

  /** No wakeup is lost: when the outstanding call returns, every check still waiting can wake. */
  lemma {:induction false} ReturnWakesAllWaiters(c: Params, n: Node, e: Event)
    requires c.Valid() && Inv(c, n) && Enabled(c, n, e) && ReturnOf(c, n, e).Some?
    ensures var m := Step(c, n, e);
            forall w :: 0 <= w < |m.waiters| ==> m.waiters[w].gen in m.closes
  {
    SingleflightStep(c, n, e);
    var m := Step(c, n, e);
    forall w | 0 <= w < |m.waiters|
      ensures m.waiters[w].gen in m.closes
    {
      assert m.closes[m.waiters[w].gen] == m.waiters[w].gen;
    }
  }

  /** A check waits exactly when its pool is cold - never filled, or past its expiry - and nothing
      says that waiting is in vain: no zero-grant pacing, no backoff, no negative cache. A waiting
      check leaves the pool empty and finds a renewal under way. */
  lemma {:induction false} WaitsIffCold(c: Params, n: Node, cost: int, now: real)
    requires c.Valid() && Reachable(c, n) && Enabled(c, n, CheckBegin(cost, now))
    ensures var b := Begin(n.pool, cost, now);
            && (b.verdict.Waiting? <==>
                  && now >= n.pool.unknownUntil && n.pool.nextTry == ZERO_TIME
                  && (n.pool.lastGrant == 0 || now >= n.pool.expiry))
            && (b.verdict.Waiting? ==> b.pool.tokens == 0 && b.pool.renewing && b.pool.renewDone == Some(b.verdict.gen))
  {
    ReachableInv(c, n);
  }

  // Fail closed.

  ghost predicate NoGrant(c: Params, n: Node, es: seq<Event>)
    requires ValidRun(c, n, es)
    decreases |es|
  {
    es == [] || (Arrived(c, n, es[0]) == 0 && NoGrant(c, Step(c, n, es[0]), es[1..]))
  }

  ghost predicate ReadsAtLeast(e: Event, t: real) {
    match e
    case CheckBegin(_, now) => now >= t
    case CheckWake(_, now) => now >= t
    case _ => false
  }

  /** Tokens admitted by steps whose clock reading is at least `t`. */
  ghost function AdmittedFrom(c: Params, n: Node, es: seq<Event>, t: real): int
    requires ValidRun(c, n, es)
    decreases |es|
  {
    if es == [] then 0
    else
      var m := Step(c, n, es[0]);
      (if ReadsAtLeast(es[0], t) then m.counts.admittedTokens - n.counts.admittedTokens else 0)
      + AdmittedFrom(c, m, es[1..], t)
  }

  /** With no grant, tokens only leave the pool and its expiry never moves. */
  lemma {:induction false} NoGrantStep(c: Params, n: Node, e: Event, t: real)
    requires c.Valid() && Inv(c, n) && Enabled(c, n, e) && Arrived(c, n, e) == 0
    requires n.pool.expiry <= t
    ensures var m := Step(c, n, e);
            && m.pool.tokens + m.counts.admittedTokens <= n.pool.tokens + n.counts.admittedTokens
            && m.pool.expiry <= Max(t, ZERO_TIME)
            && (ReadsAtLeast(e, t) ==> m.counts.admittedTokens == n.counts.admittedTokens)
  {
  }

  lemma {:induction false} FailClosedFrom(c: Params, n: Node, es: seq<Event>, t: real)
    requires c.Valid() && Inv(c, n) && ValidRun(c, n, es) && NoGrant(c, n, es)
    requires n.pool.expiry <= t && ZERO_TIME <= t
    ensures var m := Run(c, n, es);
            0 <= m.pool.tokens && m.counts.admittedTokens + m.pool.tokens <= n.counts.admittedTokens + n.pool.tokens
    ensures AdmittedFrom(c, n, es, t) == 0
    decreases |es|
  {
    if es != [] {
      NoGrantStep(c, n, es[0], t);
      InvStep(c, n, es[0]);
      FailClosedFrom(c, Step(c, n, es[0]), es[1..], t);
    }
  }

  /** From any reachable state, if no grant arrives any more, at most the tokens now in the pool are
      ever admitted, and none by a step that reads the clock a TTL or more after the latest reading
      so far - neither directly nor after waiting. */
  lemma {:induction false} FailClosed(c: Params, n: Node, es: seq<Event>)
    requires c.Valid() && Reachable(c, n) && ValidRun(c, n, es) && NoGrant(c, n, es)
    ensures Run(c, n, es).counts.admittedTokens <= n.counts.admittedTokens + n.pool.tokens
    ensures AdmittedFrom(c, n, es, n.clock + c.ttl) == 0
  {
    ReachableInv(c, n);
    FailClosedFrom(c, n, es, n.clock + c.ttl);
  }
}
