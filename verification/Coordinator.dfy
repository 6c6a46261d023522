/** The coordinator of internal/coordinator/coordinator.go: one bucket and three counters per tenant.

  `handleLease` is one atomic step; JSON decoding is reduced to its outcome, a tenant name. */
module Coordinator {
  import opened TokenBucket

  const BURST_SECONDS: real := 1.0

  /** A configuration that passed validation. `ttl` is lease.durationMs in seconds. */
  datatype Config = Config(leaseSize: nat, ttl: real, tenants: map<string, real>) {
    ghost predicate Valid() {
      leaseSize >= 1 && ttl >= 0.1 && forall t :: t in tenants ==> tenants[t] > 0.0
    }
  }

  /** What the HTTP response tells the worker. */
  datatype Reply = BadRequest | NotFound | Leased(granted: nat, ttl: real, retryAfter: real)

  datatype Entry = Entry(bucket: State, leaseRequests: nat, zeroGrants: nat, tokensGranted: nat) {
    ghost predicate Valid() {
      bucket.Valid()
    }
  }

  function NewEntry(rate: real, now: real): Entry {
    Entry(Full(rate, rate * BURST_SECONDS, now), 0, 0, 0)
  }

  function Start(cfg: Config, now: real): map<string, Entry> {
    map t | t in cfg.tenants :: NewEntry(cfg.tenants[t], now)
  }

  function LeaseGrant(cfg: Config, e: Entry, now: real): nat {
    Grant(e.bucket, cfg.leaseSize, now)
  }

  function AfterLease(cfg: Config, e: Entry, now: real): Entry {
    var g := LeaseGrant(cfg, e, now);
    var b := AfterTake(e.bucket, cfg.leaseSize, now);
    if g == 0
    then Entry(Refill(b, now), e.leaseRequests + 1, e.zeroGrants + 1, e.tokensGranted)
    else Entry(b, e.leaseRequests + 1, e.zeroGrants, e.tokensGranted + g)
  }

  function LeaseReply(cfg: Config, e: Entry, now: real): Reply
    requires e.bucket.rate > 0.0
  {
    var g := LeaseGrant(cfg, e, now);
    var b := AfterTake(e.bucket, cfg.leaseSize, now);
    Leased(g, cfg.ttl, if g == 0 then RetryAfterMs(b, now) as real / 1000.0 else 0.0)
  }

  /** The counters of one incarnation agree with its bucket, and the debit of the bucket is exactly
      what the reply hands out. */
  lemma {:induction false} LeaseDebitsWhatItGrants(cfg: Config, e: Entry, now: real)
    requires e.Valid()
    ensures var e1 := AfterLease(cfg, e, now);
            var g := LeaseReply(cfg, e, now).granted;
            && e1.Valid() && e1.bucket.rate == e.bucket.rate && e1.bucket.cap == e.bucket.cap
            && e1.bucket.last == (if now > e.bucket.last then now else e.bucket.last)
            && g <= cfg.leaseSize
            && e1.tokensGranted == e.tokensGranted + g
            && e1.bucket.tokens == Refill(e.bucket, now).tokens - g as real
            && (LeaseReply(cfg, e, now).retryAfter > 0.0 <==> g == 0)
  {
    TakeValid(e.bucket, cfg.leaseSize, now);
    var b := AfterTake(e.bucket, cfg.leaseSize, now);
    assert Refill(b, now) == b;
    if LeaseGrant(cfg, e, now) == 0 {
      var w := (1.0 - b.tokens) / b.rate;
      assert b.rate * w == 1.0 - b.tokens;
      if w <= 0.0 {
        FlowMono(b.rate, w, 0.0);
      }
    }
  }

  class TenantState {
    const bucket: Bucket
    var leaseRequests: nat
    var zeroGrants: nat
    var tokensGranted: nat

    constructor (bucket: Bucket)
      ensures this.bucket == bucket
      ensures leaseRequests == zeroGrants == tokensGranted == 0
    {
      this.bucket := bucket;
      leaseRequests, zeroGrants, tokensGranted := 0, 0, 0;
    }

    ghost function View(): Entry
      reads this, bucket
    {
      Entry(bucket.View(), leaseRequests, zeroGrants, tokensGranted)
    }

    method Lease(cfg: Config, now: real) returns (reply: Reply)
      requires bucket.rate > 0.0
      modifies this, bucket
      ensures View() == AfterLease(cfg, old(View()), now)
      ensures reply == LeaseReply(cfg, old(View()), now)
    {
      leaseRequests := leaseRequests + 1;
      var granted := bucket.TakeUpTo(cfg.leaseSize, now);
      var retryAfter := 0.0;
      if granted == 0 {
        zeroGrants := zeroGrants + 1;
        var wait := bucket.NextToken(now);
        retryAfter := ((wait * 1000.0).Floor + 1) as real / 1000.0;
      } else {
        tokensGranted := tokensGranted + granted;
      }
      reply := Leased(granted, cfg.ttl, retryAfter);
    }
  }

  class Server {
    const cfg: Config
    var tenants: map<string, TenantState>

    ghost function Footprint(): set<object>
      reads this
    {
      (set t | t in tenants :: tenants[t] as object) + (set t | t in tenants :: tenants[t].bucket as object)
    }

    /** No two tenants share state. */
    ghost predicate Valid()
      reads this, Footprint()
    {
      && tenants.Keys == cfg.tenants.Keys
      && (forall t :: t in tenants ==> tenants[t].bucket.rate > 0.0)
      && (forall t, u :: t in tenants && u in tenants && t != u ==>
            tenants[t] != tenants[u] && tenants[t].bucket != tenants[u].bucket)
    }

    ghost function View(): map<string, Entry>
      reads this, Footprint()
    {
      map t | t in tenants :: tenants[t].View()
    }

    constructor (cfg: Config, now: real)
      requires cfg.Valid()
      ensures Valid() && this.cfg == cfg && fresh(Footprint())
      ensures View() == Start(cfg, now)
    {
      this.cfg := cfg;
      this.tenants := map[];
      new;
      var todo := cfg.tenants.Keys;
      while todo != {}
        invariant todo <= cfg.tenants.Keys
        invariant tenants.Keys == cfg.tenants.Keys - todo
        invariant forall t :: t in tenants ==> fresh(tenants[t]) && fresh(tenants[t].bucket)
        invariant forall t :: t in tenants ==> tenants[t].View() == NewEntry(cfg.tenants[t], now)
        invariant forall t, u :: t in tenants && u in tenants && t != u ==>
            tenants[t] != tenants[u] && tenants[t].bucket != tenants[u].bucket
        decreases todo
      {
        var name :| name in todo;
        var rate := cfg.tenants[name];
        var bucket := new Bucket(rate, rate * BURST_SECONDS, now);
        var ts := new TenantState(bucket);
        tenants := tenants[name := ts];
        todo := todo - {name};
      }
      assert forall t :: t in tenants ==> tenants[t].View().bucket.rate == cfg.tenants[t];
    }

    /** An unknown tenant changes nothing; a known one changes its own entry and no other. */
    method HandleLease(tenant: string, now: real) returns (reply: Reply)
      requires Valid()
      modifies Footprint()
      ensures Valid() && tenants == old(tenants)
      ensures tenant == "" ==> reply == BadRequest && View() == old(View())
      ensures tenant != "" && tenant !in tenants ==> reply == NotFound && View() == old(View())
      ensures tenant != "" && tenant in tenants ==>
                && reply == LeaseReply(cfg, old(tenants[tenant].View()), now)
                && View() == old(View())[tenant := AfterLease(cfg, old(tenants[tenant].View()), now)]
    {
      if tenant == "" {
        return BadRequest;
      }
      if tenant !in tenants {
        return NotFound;
      }
      var ts := tenants[tenant];
      reply := ts.Lease(cfg, now);
      assert forall t :: t in tenants && t != tenant ==> tenants[t].View() == old(tenants[t].View());
    }
  }
}
