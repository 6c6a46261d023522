/** The worker's in-memory state as internal/worker/limiter.go keeps it: pool objects and counter
    objects updated in place, both created on first use. */
module Limiters {
  import opened Pools

  class Pool {
    var tokens: int
    var expiry: real
    var lastGrant: int
    var renewing: bool
    var renewDone: Option<nat>
    var made: nat
    var nextTry: real
    var backoff: real
    var unknownUntil: real

    ghost function View(): PoolState
      reads this
    {
      PoolState(tokens, expiry, lastGrant, renewing, renewDone, made, nextTry, backoff, unknownUntil)
    }

    constructor ()
      ensures View() == EMPTY_POOL
    {
      tokens, expiry, lastGrant := 0, ZERO_TIME, 0;
      renewing, renewDone, made := false, None, 0;
      nextTry, backoff, unknownUntil := ZERO_TIME, 0.0, ZERO_TIME;
    }

    method ShouldRenewLocked(now: real, insufficient: bool) returns (need: bool)
      ensures need == ShouldRenew(View(), now, insufficient)
    {
      if renewing || now < nextTry {
        return false;
      }
      if insufficient || lastGrant == 0 {
        return true;
      }
      var watermark := lastGrant / 5;
      if watermark < 1 {
        watermark := 1;
      }
      return tokens < watermark;
    }

    /** The first critical section of Check. */
    method CheckBegin(cost: int, now: real) returns (verdict: Verdict, renew: bool)
      modifies this
      ensures Begun(View(), verdict, renew) == Begin(old(View()), cost, now)
    {
      if now < unknownUntil {
        return Decided(Unknown), false;
      }
      var c := Charge(cost);
      if tokens > 0 && now >= expiry {
        tokens := 0;
      }
      var admitted := tokens >= c;
      if admitted {
        tokens := tokens - c;
      }
      renew := ShouldRenewLocked(now, !admitted);
      if renew {
        renewing := true;
        renewDone := Some(made);
        made := made + 1;
      }
      var cold := lastGrant == 0 || now >= expiry;
      var canWait := !admitted && renewing && nextTry == ZERO_TIME && cold;
      if canWait && renewDone.Some? {
        verdict := Waiting(renewDone.value);
      } else {
        verdict := Decided(if admitted then Admit else Reject);
      }
    }

    /** The second critical section of Check, after its channel was closed. */
    method CheckWake(cost: int, now: real) returns (d: Decision)
      modifies this
      ensures d == WakeDecision(old(View()), cost, now)
      ensures View() == AfterWake(old(View()), cost, now)
    {
      if now < unknownUntil {
        return Unknown;
      }
      if tokens >= Charge(cost) && now < expiry {
        tokens := tokens - Charge(cost);
        return Admit;
      }
      return Reject;
    }

    /** The critical section of renew; `closed` is the channel it closes. */
    method RenewApply(now: real, o: Outcome, jitter: real) returns (closed: Option<nat>)
      modifies this
      ensures closed == old(renewDone)
      ensures View() == Apply(old(View()), now, o, jitter)
    {
      renewing := false;
      closed := renewDone;
      if renewDone.Some? {
        renewDone := None;
      }
      match o
      case UnknownTenant =>
        tokens := 0;
        unknownUntil := now + UNKNOWN_TENANT_TTL;
      case Failed =>
        if backoff == 0.0 {
          backoff := BACKOFF_MIN;
        } else {
          backoff := backoff * 2.0;
          if backoff > BACKOFF_MAX {
            backoff := BACKOFF_MAX;
          }
        }
        nextTry := now + Jittered(backoff, jitter);
      case Answered(n, ttl, retryAfter) =>
        backoff := 0.0;
        if n == 0 {
          var ra := retryAfter;
          if ra < MIN_RETRY_AFTER {
            ra := MIN_RETRY_AFTER;
          }
          nextTry := now + ra;
        } else {
          nextTry := ZERO_TIME;
          tokens := tokens + n;
          expiry := now + ttl;
          lastGrant := n;
        }
    }
  }

  class Counters {
    var admitted: nat
    var admittedTokens: nat
    var rejected: nat
    var leaseCalls: nat
    var leaseErrs: nat

    ghost function View(): Counts
      reads this
    {
      Counts(admitted, admittedTokens, rejected, leaseCalls, leaseErrs)
    }

    constructor ()
      ensures View() == NO_COUNTS
    {
      admitted, admittedTokens, rejected, leaseCalls, leaseErrs := 0, 0, 0, 0, 0;
    }

    method Record(d: Decision, cost: int)
      modifies this
      ensures View() == Count(old(View()), d, cost)
    {
      match d
      case Admit =>
        admitted := admitted + 1;
        admittedTokens := admittedTokens + Charge(cost);
      case Reject =>
        rejected := rejected + 1;
      case Unknown =>
    }
  }

  class Limiter {
    var pools: map<string, Pool>
    var counts: map<string, Counters>

    ghost function Footprint(): set<object>
      reads this
    {
      (set t | t in pools :: pools[t] as object) + (set t | t in counts :: counts[t] as object)
    }

    /** No two tenants share a pool or a counter. */
    ghost predicate Valid()
      reads this
    {
      && (forall t, u :: t in pools && u in pools && t != u ==> pools[t] != pools[u])
      && (forall t, u :: t in counts && u in counts && t != u ==> counts[t] != counts[u])
    }

    /** A tenant not yet seen stands for one with an empty pool and zero counters. */
    ghost function PoolOf(t: string): PoolState
      reads this, Footprint()
    {
      if t in pools then pools[t].View() else EMPTY_POOL
    }

    ghost function CountsOf(t: string): Counts
      reads this, Footprint()
    {
      if t in counts then counts[t].View() else NO_COUNTS
    }

    constructor ()
      ensures Valid() && Footprint() == {}
      ensures forall t :: PoolOf(t) == EMPTY_POOL && CountsOf(t) == NO_COUNTS
    {
      pools, counts := map[], map[];
    }

    /** Creation on first use is invisible to every tenant, this one included. */
    method PoolFor(tenant: string) returns (p: Pool)
      requires Valid()
      modifies this`pools
      ensures Valid() && tenant in pools && pools[tenant] == p && p.View() == old(PoolOf(tenant))
      ensures forall t :: PoolOf(t) == old(PoolOf(t))
      ensures fresh(Footprint() - old(Footprint()))
      ensures forall o :: o in Footprint() && o !in old(Footprint()) ==> o == p
    {
      if tenant in pools {
        p := pools[tenant];
      } else {
        p := new Pool();
        pools := pools[tenant := p];
      }
    }

    method CountersFor(tenant: string) returns (c: Counters)
      requires Valid()
      modifies this`counts
      ensures Valid() && tenant in counts && counts[tenant] == c && c.View() == old(CountsOf(tenant))
      ensures forall t :: CountsOf(t) == old(CountsOf(t))
      ensures fresh(Footprint() - old(Footprint()))
    {
      if tenant in counts {
        c := counts[tenant];
      } else {
        c := new Counters();
        counts := counts[tenant := c];
      }
    }

    method RecordDecision(tenant: string, d: Decision, cost: int)
      requires Valid()
      modifies this`counts, Footprint()
      ensures Valid()
      ensures forall t :: PoolOf(t) == old(PoolOf(t))
      ensures CountsOf(tenant) == Count(old(CountsOf(tenant)), d, cost)
      ensures forall t :: t != tenant ==> CountsOf(t) == old(CountsOf(t))
      ensures fresh(Footprint() - old(Footprint()))
    {
      if d != Unknown {
        var c := CountersFor(tenant);
        c.Record(d, cost);
      }
    }

    method RecordOutcome(tenant: string, o: Outcome)
      requires Valid()
      modifies this`counts, Footprint()
      ensures Valid()
      ensures forall t :: PoolOf(t) == old(PoolOf(t))
      ensures CountsOf(tenant) == CountOutcome(old(CountsOf(tenant)), o)
      ensures forall t :: t != tenant ==> CountsOf(t) == old(CountsOf(t))
      ensures fresh(Footprint() - old(Footprint()))
    {
      var c := CountersFor(tenant);
      if o.Failed? {
        c.leaseErrs := c.leaseErrs + 1;
      }
    }

    /** What renew does before its lease call. */
    method RenewStart(tenant: string)
      requires Valid()
      modifies this`counts, Footprint()
      ensures Valid()
      ensures forall t :: PoolOf(t) == old(PoolOf(t))
      ensures CountsOf(tenant) == CountLeaseCall(old(CountsOf(tenant)))
      ensures forall t :: t != tenant ==> CountsOf(t) == old(CountsOf(t))
      ensures fresh(Footprint() - old(Footprint()))
    {
      var c := CountersFor(tenant);
      c.leaseCalls := c.leaseCalls + 1;
    }

    /** The first half of Check: other tenants' pools and counters are untouched. */
    method CheckBegin(tenant: string, cost: int, now: real) returns (verdict: Verdict, renew: bool)
      requires Valid()
      modifies this, Footprint()
      ensures Valid() && fresh(Footprint() - old(Footprint()))
      ensures Begun(PoolOf(tenant), verdict, renew) == Begin(old(PoolOf(tenant)), cost, now)
      ensures CountsOf(tenant) == CountVerdict(old(CountsOf(tenant)), verdict, cost)
      ensures forall t :: t != tenant ==> PoolOf(t) == old(PoolOf(t)) && CountsOf(t) == old(CountsOf(t))
    {
      var p := PoolFor(tenant);
      verdict, renew := p.CheckBegin(cost, now);
      if verdict.Decided? {
        RecordDecision(tenant, verdict.decision, cost);
      }
    }

    /** The second half of a Check that waited and whose channel was closed. */
    method CheckWake(tenant: string, cost: int, now: real) returns (d: Decision)
      requires Valid()
      modifies this, Footprint()
      ensures Valid() && fresh(Footprint() - old(Footprint()))
      ensures d == WakeDecision(old(PoolOf(tenant)), cost, now)
      ensures PoolOf(tenant) == AfterWake(old(PoolOf(tenant)), cost, now)
      ensures CountsOf(tenant) == Count(old(CountsOf(tenant)), d, cost)
      ensures forall t :: t != tenant ==> PoolOf(t) == old(PoolOf(t)) && CountsOf(t) == old(CountsOf(t))
    {
      var p := PoolFor(tenant);
      d := p.CheckWake(cost, now);
      RecordDecision(tenant, d, cost);
    }

    /** What renew does once its lease call has returned. */
    method RenewApply(tenant: string, now: real, o: Outcome, jitter: real) returns (closed: Option<nat>)
      requires Valid()
      modifies this, Footprint()
      ensures Valid() && fresh(Footprint() - old(Footprint()))
      ensures closed == old(PoolOf(tenant)).renewDone
      ensures PoolOf(tenant) == Apply(old(PoolOf(tenant)), now, o, jitter)
      ensures CountsOf(tenant) == CountOutcome(old(CountsOf(tenant)), o)
      ensures forall t :: t != tenant ==> PoolOf(t) == old(PoolOf(t)) && CountsOf(t) == old(CountsOf(t))
    {
      var p := PoolFor(tenant);
      closed := p.RenewApply(now, o, jitter);
      RecordOutcome(tenant, o);
    }
  }
}
