/** One worker's side of one tenant: its pool, its lease calls, its waiting checks.

  Each critical section of internal/worker/limiter.go is one atomic step, taken in any order and at
  any clock readings: checks read the clock before they take the lock, so the readings of successive
  steps need not be ordered. The one ordering assumed is causal: `renew` reads the clock after the
  check that started it released the lock, hence not before any reading seen by then. */
module Nodes {
  import opened Pools
  import opened Coordinator

  /** Lease size and TTL, and the largest cost any request carries. */
  datatype Params = Params(leaseSize: nat, ttl: real, maxCost: int) {
    ghost predicate Valid() {
      leaseSize >= 1 && ttl > 0.0 && maxCost >= 1
    }

    /** The most a pool holds while a renewal is outstanding. */
    function Floor(): int {
      (if maxCost > Watermark(leaseSize) then maxCost else Watermark(leaseSize)) - 1
    }
  }

  /** A lease call: the reply once the coordinator has handled it, whether the worker still waits
      for it, and the highest clock reading seen when it was started. */
  datatype Call = Call(reply: Option<Reply>, live: bool, since: real)

  datatype Waiter = Waiter(cost: int, gen: nat, pending: bool)

  /** `debited` and the four losses are history: tokens taken from the bucket for this worker, and
      tokens that left it without being admitted. `closes` is the log of closed channels. */
  datatype Node = Node(
    up: bool,
    pool: PoolState,
    calls: seq<Call>,
    waiters: seq<Waiter>,
    closes: seq<nat>,
    clock: real,
    counts: Counts,
    debited: nat,
    expired: int,
    cleared: int,
    lost: int,
    crashed: int)

  const FRESH := Node(true, EMPTY_POOL, [], [], [], ZERO_TIME, NO_COUNTS, 0, 0, 0, 0, 0)

  datatype Event =
    | CheckBegin(cost: int, now: real)
    | CheckWake(waiter: nat, now: real)
    | CheckTimeout(waiter: nat)
    | Answer(call: nat, reply: Reply)                  // the coordinator handles the call
    | Deliver(call: nat, now: real, jitter: real)      // its reply reaches renew
    | Fail(call: nat, now: real, jitter: real)         // renew gets a timeout or an error instead
    | Crash

  function Max(x: real, y: real): real {
    if x >= y then x else y
  }

  function TokensIn(r: Option<Reply>): nat {
    if r.Some? && r.value.Leased? then r.value.granted else 0
  }

  /** Tokens in replies that can still be delivered. */
  function InFlight(calls: seq<Call>): nat {
    if calls == [] then 0
    else
      var last := calls[|calls| - 1];
      InFlight(calls[..|calls| - 1]) + if last.live then TokensIn(last.reply) else 0
  }

  function Held(n: Node): int {
    n.pool.tokens + InFlight(n.calls)
  }

  /** The highest reading seen when the newest call was started; at least that of its own check. */
  function Since(n: Node): real {
    if n.calls == [] then ZERO_TIME else n.calls[|n.calls| - 1].since
  }

  function ToOutcome(r: Reply): Outcome {
    match r
    case BadRequest => Failed
    case NotFound => UnknownTenant
    case Leased(g, ttl, ra) => Answered(g, ttl, ra)
  }

  ghost predicate ReplyOk(c: Params, r: Reply) {
    r.Leased? ==> r.granted <= c.leaseSize && r.ttl == c.ttl
  }

  ghost predicate Enabled(c: Params, n: Node, e: Event) {
    match e
    case CheckBegin(cost, now) => n.up && now > ZERO_TIME && cost <= c.maxCost
    case CheckWake(w, now) =>
      n.up && now > ZERO_TIME && w < |n.waiters| && n.waiters[w].pending && n.waiters[w].gen in n.closes
    case CheckTimeout(w) => n.up && w < |n.waiters| && n.waiters[w].pending
    case Answer(i, r) => i < |n.calls| && n.calls[i].reply.None? && ReplyOk(c, r)
    case Deliver(i, now, j) =>
      && n.up && i < |n.calls| && n.calls[i].live && n.calls[i].reply.Some?
      && now > ZERO_TIME && now >= n.calls[i].since && IsJitter(j)
    case Fail(i, now, j) =>
      n.up && i < |n.calls| && n.calls[i].live && now > ZERO_TIME && now >= n.calls[i].since && IsJitter(j)
    case Crash => n.up
  }

  function AfterBegin(n: Node, cost: int, now: real): Node {
    var b := Begin(n.pool, cost, now);
    var stale := if now >= n.pool.unknownUntil && Expired(n.pool, now) then n.pool.tokens else 0;
    n.(pool := b.pool,
       calls := if b.renew then n.calls + [Call(None, true, Max(n.clock, now))] else n.calls,
       waiters := if b.verdict.Waiting? then n.waiters + [Waiter(cost, b.verdict.gen, true)] else n.waiters,
       clock := Max(n.clock, now),
       counts := CountVerdict(if b.renew then CountLeaseCall(n.counts) else n.counts, b.verdict, cost),
       expired := n.expired + stale)
  }

  /** `renew` comes back from call `i` with outcome `o`; `gone` tokens of its reply never arrived. */
  function AfterReturn(n: Node, i: nat, now: real, o: Outcome, jitter: real, gone: int): Node
    requires i < |n.calls|
  {
    n.(pool := Apply(n.pool, now, o, jitter),
       calls := n.calls[i := n.calls[i].(live := false)],
       closes := if n.pool.renewDone.Some? then n.closes + [n.pool.renewDone.value] else n.closes,
       clock := Max(n.clock, now),
       counts := CountOutcome(n.counts, o),
       cleared := n.cleared + (if o.UnknownTenant? then n.pool.tokens else 0),
       lost := n.lost + gone)
  }

  /** The coordinator handles call `i`. If the worker no longer waits, the grant is lost. */
  function AfterAnswer(n: Node, i: nat, r: Reply): Node
    requires i < |n.calls|
  {
    var g := TokensIn(Some(r));
    n.(calls := n.calls[i := n.calls[i].(reply := Some(r))],
       debited := n.debited + g,
       lost := n.lost + if n.calls[i].live then 0 else g)
  }

  /** No worker waits for these calls any more. */
  function Orphaned(calls: seq<Call>): (r: seq<Call>)
    ensures |r| == |calls| && forall i :: 0 <= i < |calls| ==> r[i] == calls[i].(live := false)
  {
    if calls == [] then [] else Orphaned(calls[..|calls| - 1]) + [calls[|calls| - 1].(live := false)]
  }

  function AfterCrash(n: Node): Node {
    n.(up := false,
       pool := EMPTY_POOL,
       calls := Orphaned(n.calls),
       waiters := [],
       crashed := n.crashed + Held(n))
  }

  ghost function Step(c: Params, n: Node, e: Event): Node
    requires Enabled(c, n, e)
  {
    match e
    case CheckBegin(cost, now) => AfterBegin(n, cost, now)
    case CheckWake(w, now) =>
      var cost := n.waiters[w].cost;
      n.(pool := AfterWake(n.pool, cost, now),
         waiters := n.waiters[w := n.waiters[w].(pending := false)],
         clock := Max(n.clock, now),
         counts := Count(n.counts, WakeDecision(n.pool, cost, now), cost))
    case CheckTimeout(w) =>
      n.(waiters := n.waiters[w := n.waiters[w].(pending := false)],
         counts := Count(n.counts, Reject, n.waiters[w].cost))
    case Answer(i, r) => AfterAnswer(n, i, r)
    case Deliver(i, now, j) => AfterReturn(n, i, now, ToOutcome(n.calls[i].reply.value), j, 0)
    case Fail(i, now, j) => AfterReturn(n, i, now, Failed, j, TokensIn(n.calls[i].reply))
    case Crash => AfterCrash(n)
  }

  ghost predicate ValidRun(c: Params, n: Node, es: seq<Event>)
    decreases |es|
  {
    es == [] || (Enabled(c, n, es[0]) && ValidRun(c, Step(c, n, es[0]), es[1..]))
  }

  ghost function Run(c: Params, n: Node, es: seq<Event>): Node
    requires ValidRun(c, n, es)
    decreases |es|
  {
    if es == [] then n else Run(c, Step(c, n, es[0]), es[1..])
  }

  // The invariant, in four parts.

  /** Singleflight: a renewal is outstanding exactly when `renewing` says so, only the newest call can
      be, `renewDone` is its channel, and the channels before it have been closed once each, in order. */
  ghost predicate Singleflight(n: Node) {
    && (forall i :: 0 <= i < |n.calls| - 1 ==> !n.calls[i].live)
    && (n.up ==>
          && n.pool.made == |n.calls|
          && (n.pool.renewing <==> |n.calls| > 0 && n.calls[|n.calls| - 1].live)
          && n.pool.renewDone == (if n.pool.renewing then Some((|n.calls| - 1) as nat) else None)
          && |n.closes| == |n.calls| - (if n.pool.renewing then 1 else 0)
          && (forall i :: 0 <= i < |n.closes| ==> n.closes[i] == i)
          && (forall w :: 0 <= w < |n.waiters| ==> n.waiters[w].gen < |n.calls|))
    && (!n.up ==> n.pool == EMPTY_POOL && n.waiters == [] && (forall i :: 0 <= i < |n.calls| ==> !n.calls[i].live))
  }

  /** Every token debited for this worker is admitted, held, on its way, or lost for a recorded reason. */
  ghost predicate Conserved(n: Node) {
    && n.expired >= 0 && n.cleared >= 0 && n.lost >= 0 && n.crashed >= 0
    && n.debited == n.counts.admittedTokens + Held(n) + n.expired + n.cleared + n.lost + n.crashed
  }

  ghost predicate Bounded(c: Params, n: Node) {
    && 0 <= n.pool.tokens
    && 0 <= n.pool.lastGrant <= c.leaseSize
    && (n.pool.lastGrant == 0 ==> n.pool.tokens == 0)
    && n.pool.tokens <= c.Floor() + (if n.pool.renewing then 0 else c.leaseSize)
    && (forall i :: 0 <= i < |n.calls| && n.calls[i].reply.Some? ==> ReplyOk(c, n.calls[i].reply.value))
    && (forall w :: 0 <= w < |n.waiters| ==> n.waiters[w].cost <= c.maxCost)
  }

  ghost predicate Clocked(c: Params, n: Node) {
    && n.clock >= ZERO_TIME
    && n.pool.nextTry >= ZERO_TIME && (n.pool.backoff == 0.0 || BACKOFF_MIN <= n.pool.backoff <= BACKOFF_MAX)
    && n.pool.expiry <= n.clock + c.ttl
    && (n.clock < n.pool.unknownUntil ==> n.pool.tokens == 0 && !n.pool.renewing)
    && (forall i :: 0 <= i < |n.calls| ==> n.calls[i].since <= n.clock)
  }

  ghost predicate Inv(c: Params, n: Node) {
    Singleflight(n) && Conserved(n) && Bounded(c, n) && Clocked(c, n)
  }

  lemma {:induction false} InFlightNone(calls: seq<Call>)
    requires forall i :: 0 <= i < |calls| ==> !calls[i].live
    ensures InFlight(calls) == 0
  {
    if calls != [] {
      InFlightNone(calls[..|calls| - 1]);
    }
  }

  /** Only the newest call counts. */
  lemma {:induction false} InFlightLast(calls: seq<Call>)
    requires calls != [] && forall i :: 0 <= i < |calls| - 1 ==> !calls[i].live
    ensures InFlight(calls) == if calls[|calls| - 1].live then TokensIn(calls[|calls| - 1].reply) else 0
  {
    InFlightNone(calls[..|calls| - 1]);
  }

  lemma {:induction false} InFlightOf(n: Node)
    requires Singleflight(n)
    ensures InFlight(n.calls) == if |n.calls| > 0 && n.calls[|n.calls| - 1].live then TokensIn(n.calls[|n.calls| - 1].reply) else 0
  {
    if n.calls != [] {
      InFlightLast(n.calls);
    }
  }

  lemma {:induction false} FreshInv(c: Params)
    requires c.Valid()
    ensures Inv(c, FRESH)
  {
    EmptyInv(c, FRESH);
  }

  lemma {:induction false} EmptyInv(c: Params, n: Node)
    requires c.Valid() && n.up && n.pool == EMPTY_POOL && n.calls == [] && n.waiters == [] && n.closes == []
    requires n.clock == ZERO_TIME && n.counts == NO_COUNTS && n.debited == 0
    requires n.expired == n.cleared == n.lost == n.crashed == 0
    ensures Inv(c, n)
  {
    assert c.Floor() >= 0;
  }

  // One lemma per part and kind of step: checks, returns of lease calls, and the rest.

  lemma {:induction false} SingleflightBegin(n: Node, cost: int, now: real)
    requires Singleflight(n) && n.up
    ensures Singleflight(AfterBegin(n, cost, now))
  {
  }

  lemma {:induction false} SingleflightReturn(n: Node, i: nat, now: real, o: Outcome, jitter: real, gone: int)
    requires Singleflight(n) && n.up && i < |n.calls| && n.calls[i].live
    ensures Singleflight(AfterReturn(n, i, now, o, jitter, gone))
  {
    assert i == |n.calls| - 1;
  }

  lemma {:induction false} SingleflightStep(c: Params, n: Node, e: Event)
    requires Singleflight(n) && Enabled(c, n, e)
    ensures Singleflight(Step(c, n, e))
  {
    match e
    case CheckBegin(cost, now) => SingleflightBegin(n, cost, now);
    case Deliver(i, now, j) => SingleflightReturn(n, i, now, ToOutcome(n.calls[i].reply.value), j, 0);
    case Fail(i, now, j) => SingleflightReturn(n, i, now, Failed, j, TokensIn(n.calls[i].reply));
    case _ =>
  }

  lemma {:induction false} BoundedBegin(c: Params, n: Node, cost: int, now: real)
    requires c.Valid() && Bounded(c, n) && cost <= c.maxCost
    ensures Bounded(c, AfterBegin(n, cost, now))
  {
  }

  lemma {:induction false} BoundedReturn(c: Params, n: Node, i: nat, now: real, o: Outcome, jitter: real, gone: int)
    requires c.Valid() && Bounded(c, n) && n.pool.renewing && i < |n.calls|
    requires o.Answered? ==> o.tokens <= c.leaseSize
    ensures Bounded(c, AfterReturn(n, i, now, o, jitter, gone))
  {
  }

  lemma {:induction false} BoundedStep(c: Params, n: Node, e: Event)
    requires c.Valid() && Inv(c, n) && Enabled(c, n, e)
    ensures Bounded(c, Step(c, n, e))
  {
    match e
    case CheckBegin(cost, now) => BoundedBegin(c, n, cost, now);
    case Deliver(i, now, j) => BoundedReturn(c, n, i, now, ToOutcome(n.calls[i].reply.value), j, 0);
    case Fail(i, now, j) => BoundedReturn(c, n, i, now, Failed, j, TokensIn(n.calls[i].reply));
    case _ =>
  }

  lemma {:induction false} ConservedBegin(c: Params, n: Node, cost: int, now: real)
    requires c.Valid() && Inv(c, n) && Enabled(c, n, CheckBegin(cost, now))
    ensures Conserved(AfterBegin(n, cost, now))
  {
    SingleflightStep(c, n, CheckBegin(cost, now));
    InFlightOf(n);
    InFlightOf(AfterBegin(n, cost, now));
    BeginTakesCostOrNothing(n.pool, cost, now);
  }

  lemma {:induction false} ConservedStep(c: Params, n: Node, e: Event)
    requires c.Valid() && Inv(c, n) && Enabled(c, n, e)
    ensures Conserved(Step(c, n, e))
  {
    if e.CheckBegin? {
      ConservedBegin(c, n, e.cost, e.now);
    } else {
      SingleflightStep(c, n, e);
      InFlightOf(n);
      InFlightOf(Step(c, n, e));
    }
  }

  lemma {:induction false} ClockedBegin(c: Params, n: Node, cost: int, now: real)
    requires c.Valid() && Clocked(c, n)
    ensures Clocked(c, AfterBegin(n, cost, now))
  {
  }

  lemma {:induction false} ClockedReturn(c: Params, n: Node, i: nat, now: real, o: Outcome, jitter: real, gone: int)
    requires c.Valid() && Clocked(c, n) && n.pool.renewing && i < |n.calls| && now > ZERO_TIME && IsJitter(jitter)
    requires o.Answered? ==> o.ttl == c.ttl
    ensures Clocked(c, AfterReturn(n, i, now, o, jitter, gone))
  {
    JitterBounds(NextBackoff(n.pool.backoff), jitter);
  }

  lemma {:induction false} ClockedStep(c: Params, n: Node, e: Event)
    requires c.Valid() && Inv(c, n) && Enabled(c, n, e)
    ensures Clocked(c, Step(c, n, e))
  {
    match e
    case CheckBegin(cost, now) => ClockedBegin(c, n, cost, now);
    case Deliver(i, now, j) => ClockedReturn(c, n, i, now, ToOutcome(n.calls[i].reply.value), j, 0);
    case Fail(i, now, j) => ClockedReturn(c, n, i, now, Failed, j, TokensIn(n.calls[i].reply));
    case _ =>
  }

  lemma {:induction false} InvStep(c: Params, n: Node, e: Event)
    requires c.Valid() && Inv(c, n) && Enabled(c, n, e)
    ensures Inv(c, Step(c, n, e))
  {
    SingleflightStep(c, n, e);
    BoundedStep(c, n, e);
    ConservedStep(c, n, e);
    ClockedStep(c, n, e);
  }

  lemma {:induction false} InvRun(c: Params, n: Node, es: seq<Event>)
    requires c.Valid() && Inv(c, n) && ValidRun(c, n, es)
    ensures Inv(c, Run(c, n, es))
    decreases |es|
  {
    if es != [] {
      InvStep(c, n, es[0]);
      InvRun(c, Step(c, n, es[0]), es[1..]);
    }
  }

  ghost predicate Reachable(c: Params, n: Node) {
    exists es :: ValidRun(c, FRESH, es) && Run(c, FRESH, es) == n
  }

  lemma {:induction false} ReachableInv(c: Params, n: Node)
    requires c.Valid() && Reachable(c, n)
    ensures Inv(c, n)
  {
    var es :| ValidRun(c, FRESH, es) && Run(c, FRESH, es) == n;
    FreshInv(c);
    InvRun(c, FRESH, es);
  }

  lemma {:induction false} RunSnoc(c: Params, n: Node, es: seq<Event>, e: Event)
    requires ValidRun(c, n, es) && Enabled(c, Run(c, n, es), e)
    ensures ValidRun(c, n, es + [e]) && Run(c, n, es + [e]) == Step(c, Run(c, n, es), e)
    decreases |es|
  {
    if es == [] {
      assert ([e])[1..] == [];
      assert es + [e] == [e];
    } else {
      RunSnoc(c, Step(c, n, es[0]), es[1..], e);
      assert (es + [e])[1..] == es[1..] + [e];
    }
  }

  lemma {:induction false} ReachableStep(c: Params, n: Node, e: Event)
    requires Reachable(c, n) && Enabled(c, n, e)
    ensures Reachable(c, Step(c, n, e))
  {
    var es :| ValidRun(c, FRESH, es) && Run(c, FRESH, es) == n;
    RunSnoc(c, FRESH, es, e);
  }

  lemma {:induction false} FreshReachable(c: Params)
    ensures Reachable(c, FRESH)
  {
    assert ValidRun(c, FRESH, []) && Run(c, FRESH, []) == FRESH;
  }
}
