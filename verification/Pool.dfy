/** One tenant's pool of leased tokens on one worker (internal/worker/limiter.go).

  Every critical section of `Check` and `renew` is a step of the value `PoolState`.
  The zero value of Go's time.Time is `ZERO_TIME`; clocks read more than that. */
module Pools {

  datatype Option<+T> = None | Some(value: T)

  const ZERO_TIME: real := 0.0
  const MIN_RETRY_AFTER: real := 0.2
  const BACKOFF_MIN: real := 0.25
  const BACKOFF_MAX: real := 2.0
  const UNKNOWN_TENANT_TTL: real := 10.0
  const LEASE_TIMEOUT: real := 1.5

  /** `renewDone` names the channel by its number; `made` counts the channels made so far and so
      gives the next one its identity. */
  datatype PoolState = PoolState(
    tokens: int,
    expiry: real,
    lastGrant: int,
    renewing: bool,
    renewDone: Option<nat>,
    made: nat,
    nextTry: real,
    backoff: real,
    unknownUntil: real)

  const EMPTY_POOL := PoolState(0, ZERO_TIME, 0, false, None, 0, ZERO_TIME, 0.0, ZERO_TIME)

  datatype Decision = Admit | Reject | Unknown

  /** The first critical section of a check decides it or leaves it waiting on a channel. */
  datatype Verdict = Decided(decision: Decision) | Waiting(gen: nat)

  datatype Begun = Begun(pool: PoolState, verdict: Verdict, renew: bool)

  /** What a lease call returned, as `renew` tells the cases apart. */
  datatype Outcome = UnknownTenant | Failed | Answered(tokens: nat, ttl: real, retryAfter: real)

  function Charge(cost: int): int {
    if cost < 1 then 1 else cost
  }

  /** A fifth of the last grant, rounded down, but at least one token. (The double nearest 0.2 lies
      above it, so the source's float product never rounds below the integer quotient.) */
  function Watermark(grant: int): int {
    if grant / 5 < 1 then 1 else grant / 5
  }

  predicate ShouldRenew(p: PoolState, now: real, insufficient: bool) {
    if p.renewing || now < p.nextTry then false
    else if insufficient || p.lastGrant == 0 then true
    else p.tokens < Watermark(p.lastGrant)
  }

  predicate Expired(p: PoolState, now: real) {
    p.tokens > 0 && now >= p.expiry
  }

  function DropExpired(p: PoolState, now: real): PoolState {
    if Expired(p, now) then p.(tokens := 0) else p
  }

  function Begin(p: PoolState, cost: int, now: real): Begun {
    if now < p.unknownUntil then Begun(p, Decided(Unknown), false)
    else
      var c := Charge(cost);
      var q := DropExpired(p, now);
      var admitted := q.tokens >= c;
      var r := if admitted then q.(tokens := q.tokens - c) else q;
      var need := ShouldRenew(r, now, !admitted);
      var s := if need then r.(renewing := true, renewDone := Some(r.made), made := r.made + 1) else r;
      var cold := s.lastGrant == 0 || now >= s.expiry;
      var canWait := !admitted && s.renewing && s.nextTry == ZERO_TIME && cold;
      var verdict := if canWait && s.renewDone.Some? then Waiting(s.renewDone.value)
                     else Decided(if admitted then Admit else Reject);
      Begun(s, verdict, need)
  }

  function WakeDecision(p: PoolState, cost: int, now: real): Decision {
    if now < p.unknownUntil then Unknown
    else if p.tokens >= Charge(cost) && now < p.expiry then Admit
    else Reject
  }

  function AfterWake(p: PoolState, cost: int, now: real): PoolState {
    if WakeDecision(p, cost, now).Admit? then p.(tokens := p.tokens - Charge(cost)) else p
  }

  function NextBackoff(backoff: real): real {
    if backoff == 0.0 then BACKOFF_MIN
    else if backoff * 2.0 > BACKOFF_MAX then BACKOFF_MAX
    else backoff * 2.0
  }

  /** 1 + (rand - 0.5) / 2 for rand in [0, 1). */
  ghost predicate IsJitter(j: real) {
    0.75 <= j < 1.25
  }

  function Jittered(backoff: real, jitter: real): real {
    backoff * jitter
  }

  lemma {:induction false} JitterBounds(backoff: real, jitter: real)
    requires backoff > 0.0 && IsJitter(jitter)
    ensures 0.75 * backoff <= Jittered(backoff, jitter) < 1.25 * backoff
  {
    assert backoff * (jitter - 0.75) >= 0.0;
    assert backoff * (1.25 - jitter) > 0.0;
  }

  function Apply(p: PoolState, now: real, o: Outcome, jitter: real): PoolState {
    var q := p.(renewing := false, renewDone := None);
    match o
    case UnknownTenant =>
      q.(tokens := 0, unknownUntil := now + UNKNOWN_TENANT_TTL)
    case Failed =>
      var b := NextBackoff(q.backoff);
      q.(backoff := b, nextTry := now + Jittered(b, jitter))
    case Answered(n, ttl, retryAfter) =>
      if n == 0 then
        q.(backoff := 0.0, nextTry := now + if retryAfter < MIN_RETRY_AFTER then MIN_RETRY_AFTER else retryAfter)
      else
        q.(backoff := 0.0, nextTry := ZERO_TIME, tokens := q.tokens + n, expiry := now + ttl, lastGrant := n)
  }

  // Counters.

  datatype Counts = Counts(admitted: nat, admittedTokens: nat, rejected: nat, leaseCalls: nat, leaseErrs: nat)

  const NO_COUNTS := Counts(0, 0, 0, 0, 0)

  function Count(c: Counts, d: Decision, cost: int): Counts {
    match d
    case Admit => c.(admitted := c.admitted + 1, admittedTokens := c.admittedTokens + Charge(cost))
    case Reject => c.(rejected := c.rejected + 1)
    case Unknown => c
  }

  function CountVerdict(c: Counts, v: Verdict, cost: int): Counts {
    if v.Decided? then Count(c, v.decision, cost) else c
  }

  function CountLeaseCall(c: Counts): Counts {
    c.(leaseCalls := c.leaseCalls + 1)
  }

  function CountOutcome(c: Counts, o: Outcome): Counts {
    if o.Failed? then c.(leaseErrs := c.leaseErrs + 1) else c
  }

  // What one step does, in the terms the theorems use.

  /** The first critical section takes the whole cost when it admits and nothing otherwise; what
      else leaves the pool is expired budget. A waiting check has taken nothing. */
  lemma {:induction false} BeginTakesCostOrNothing(p: PoolState, cost: int, now: real)
    ensures var b := Begin(p, cost, now);
            var stale := if now >= p.unknownUntil && Expired(p, now) then p.tokens else 0;
            b.pool.tokens == p.tokens - stale - (if b.verdict == Decided(Admit) then Charge(cost) else 0)
  {
  }

  /** A check that waited is decided by its second critical section alone: over both sections it
      takes its cost exactly when it is admitted, whatever happened to the pool in between. */
  lemma {:induction false} WaitedCheckTakesCostOrNothing(p: PoolState, q: PoolState, cost: int, now: real, later: real)
    requires Begin(p, cost, now).verdict.Waiting?
    ensures var b := Begin(p, cost, now);
            var taken := (DropExpired(p, now).tokens - b.pool.tokens) + (q.tokens - AfterWake(q, cost, later).tokens);
            taken == if WakeDecision(q, cost, later).Admit? then Charge(cost) else 0
  {
  }

  /** An unadmitted check at a time when nothing holds renewals back finds one in flight or starts one. */
  lemma {:induction false} InsufficientFindsOrStartsRenewal(p: PoolState, cost: int, now: real)
    requires now >= p.unknownUntil && now >= p.nextTry
    requires Begin(p, cost, now).verdict != Decided(Admit)
    ensures Begin(p, cost, now).pool.renewing
  {
  }

  predicate Admits(p: PoolState, cost: int, now: real) {
    Begin(p, cost, now).verdict == Decided(Admit)
  }

  /** What a request of this cost needs of the pool: as many unexpired tokens, and at least one. Neither
      pacing nor backoff nor an outstanding renewal matters. */
  predicate Servable(p: PoolState, cost: int, now: real) {
    cost <= p.tokens && 1 <= p.tokens && now < p.expiry
  }

  /** A check is answered Unknown exactly while the tenant is negatively cached, and is otherwise admitted
      at once exactly when the pool can serve it. */
  lemma {:induction false} AdmitsIff(p: PoolState, cost: int, now: real)
    ensures Begin(p, cost, now).verdict == Decided(Unknown) <==> now < p.unknownUntil
    ensures Admits(p, cost, now) <==> now >= p.unknownUntil && Servable(p, cost, now)
  {
  }

  /** A check that waited is answered Unknown exactly while the tenant is negatively cached, and is
      otherwise admitted exactly when the pool can serve it; then it takes its cost, and otherwise it
      leaves the pool as it was. */
  lemma {:induction false} WakeAdmitsIff(p: PoolState, cost: int, now: real)
    ensures WakeDecision(p, cost, now) == Unknown <==> now < p.unknownUntil
    ensures WakeDecision(p, cost, now) == Admit <==> now >= p.unknownUntil && Servable(p, cost, now)
    ensures var q := AfterWake(p, cost, now);
            if WakeDecision(p, cost, now) == Admit
            then q == p.(tokens := q.tokens) && p.tokens - q.tokens == if cost > 1 then cost else 1
            else q == p
  {
  }

  /** A check starts a renewal exactly when none is outstanding, nothing holds renewals back, and it was
      not admitted, or there was no grant yet, or what it leaves is nothing or less than a whole fifth
      of the last grant. */
  lemma {:induction false} RenewsIff(p: PoolState, cost: int, now: real)
    ensures var b := Begin(p, cost, now);
            b.renew <==>
              && now >= p.unknownUntil && !p.renewing && now >= p.nextTry
              && (!Admits(p, cost, now) || p.lastGrant == 0 || b.pool.tokens < 1 || 5 * (b.pool.tokens + 1) <= p.lastGrant)
  {
  }

  /** The first critical section touches the budget and the renewal flag alone. An admitted check takes
      its cost, any other drops the budget if it is past its expiry. */
  lemma {:induction false} BeginLeaves(p: PoolState, cost: int, now: real)
    requires p.tokens >= 0
    ensures var q := Begin(p, cost, now).pool;
            && q == p.(tokens := q.tokens, renewing := q.renewing, renewDone := q.renewDone, made := q.made)
            && q.tokens == (if Admits(p, cost, now) then p.tokens - (if cost > 1 then cost else 1)
                            else if p.unknownUntil <= now && p.expiry <= now then 0
                            else p.tokens)
            && (q.renewing <==> p.renewing || Begin(p, cost, now).renew)
  {
  }

  /** A grant of `n` tokens at `landed` serves, with what was left, until `landed + ttl` and no longer;
      from then on the watermark is a fifth of that grant, full or partial. */
  lemma {:induction false} GrantServes(p: PoolState, n: nat, ttl: real, hint: real, jitter: real, landed: real, cost: int, u: real)
    requires p.tokens >= 0 && n >= 1 && u > ZERO_TIME
    ensures var q := Apply(p, landed, Answered(n, ttl, hint), jitter);
            var left := p.tokens + n - if cost > 1 then cost else 1;
            && (Admits(q, cost, u) <==> u >= p.unknownUntil && cost <= p.tokens + n && u < landed + ttl)
            && (Admits(q, cost, u) ==> (Begin(q, cost, u).renew <==> left < 1 || 5 * (left + 1) <= n))
  {
    var q := Apply(p, landed, Answered(n, ttl, hint), jitter);
    AdmitsIff(q, cost, u);
    RenewsIff(q, cost, u);
    BeginLeaves(q, cost, u);
  }

  /** Expiry is pool-wide: a grant that lands on leftovers extends them too, even ones already past
      their expiry. After the old expiry the pool serves no more than the new grant - as it would if
      every grant expired by itself - exactly when it was empty when the grant landed. */
  lemma {:induction false} GrantExpiresAloneIffPoolWasEmpty(p: PoolState, n: nat, ttl: real, landed: real, u: real)
    requires p.tokens >= 0 && n >= 1 && p.unknownUntil <= u && p.expiry <= u < landed + ttl
    ensures var q := Apply(p, landed, Answered(n, ttl, 0.0), 1.0);
            (forall cost :: Admits(q, cost, u) <==> Charge(cost) <= n) <==> p.tokens == 0
  {
    var q := Apply(p, landed, Answered(n, ttl, 0.0), 1.0);
    assert forall cost :: Admits(q, cost, u) <==> Charge(cost) <= p.tokens + n;
    if p.tokens > 0 {
      assert Admits(q, n + p.tokens, u) && Charge(n + p.tokens) > n;
    }
  }
}
