/** The admission bound is exact, and so is the condition under which it stays within the harness's: for
    every lease size, largest cost, number of workers, number of restarts and whole number of seconds
    there is a run that admits all the theorem allows. */
module HarnessExact {
  import opened Pools
  import opened TokenBucket
  import opened Coordinator
  import N = Nodes
  import W = Scenarios
  import opened TenantSystem
  import H = Harness
  import ST = SystemTheorems

  const TENANT := "t"

  /** One tenant whose burst is one lease for each worker, and leases that last two seconds. */
  function Scene(lease: nat, cost: int, workers: nat): World {
    World(Config(lease, 2.0, map[TENANT := (workers * lease) as real]), TENANT, cost)
  }

  /** `m` times `k`. */
  function Times(m: nat, k: nat): nat {
    if m == 0 then 0 else Times(m - 1, k) + k
  }

  lemma {:induction false} TimesIs(m: nat, k: nat)
    ensures Times(m, k) == m * k && Flow(k as real, m as real) == Flow(m as real, k as real) == Times(m, k) as real
  {
    if m > 0 {
      TimesIs(m - 1, k);
      OneMore(m - 1, 1, k);
    }
    assert (m * k) as real == m as real * k as real;
  }

  /** What `m` leases amount to. */
  function Leases(x: World, m: nat): nat {
    Times(m, x.cfg.leaseSize)
  }

  ghost predicate Simple(x: World, workers: nat) {
    x.Valid() && x.Known() && x.Burst() == Leases(x, workers) as real && x.cfg.ttl == 2.0
  }

  /** At time `t` workers `from` up to `to` are calm, each with `tokens` in its pool and a renewal
      outstanding or not. */
  ghost predicate Squad(x: World, ns: seq<Node>, from: nat, to: nat, t: real, tokens: int, out: bool) {
    to <= |ns| && forall i :: from <= i < to ==> W.Calm(x.Params(), ns[i], t, tokens, out)
  }

  ghost predicate GoodUntil(ns: seq<Node>, to: nat, u: real) {
    to <= |ns| && forall i :: 0 <= i < to ==> ns[i].pool.expiry == u
  }

  ghost predicate SameExpiry(ns: seq<Node>, ms: seq<Node>) {
    |ns| == |ms| && forall i :: 0 <= i < |ns| ==> ms[i].pool.expiry == ns[i].pool.expiry
  }

  /** All workers at time `t`. */
  ghost predicate Spot(x: World, s: Sys, workers: nat, t: real, tokens: int, out: bool) {
    EntryOk(x, s.entry) && s.entry.Some? && |s.nodes| == workers && Squad(x, s.nodes, 0, workers, t, tokens, out)
  }

  /** The bucket holds `m` leases at `t`. */
  ghost predicate Level(x: World, s: Sys, t: real, m: nat) {
    && s.entry.Some? && s.entry.value.bucket.last <= t
    && Refill(s.entry.value.bucket, t).tokens == Leases(x, m) as real
  }

  /** The run `vs` leads from `s` to `e`, with the coordinator's readings in a window and `k` restarts, and
      admits `gain` tokens. */
  ghost predicate Leads(x: World, s: Sys, vs: seq<Event>, e: Sys, t0: real, t1: real, k: nat, gain: nat) {
    && ValidRun(x, s, vs) && Run(x, s, vs) == e
    && ReadsWithin(vs, t0, t1) && Restarts(vs) == k
    && Admitted(e) == Admitted(s) + gain
  }

  lemma {:induction false} RestartsConcat(us: seq<Event>, vs: seq<Event>)
    ensures Restarts(us + vs) == Restarts(us) + Restarts(vs)
    decreases |us|
  {
    if us == [] {
      assert us + vs == vs;
    } else {
      RestartsConcat(us[1..], vs);
      assert (us + vs)[1..] == us[1..] + vs;
    }
  }

  /** One run after another. */
  lemma {:induction false} Then(
      x: World, s: Sys, us: seq<Event>, m: Sys, vs: seq<Event>, e: Sys, t0: real, t1: real, j: nat, k: nat, g: nat, h: nat)
    requires Leads(x, s, us, m, t0, t1, j, g) && Leads(x, m, vs, e, t0, t1, k, h)
    ensures Leads(x, s, us + vs, e, t0, t1, j + k, g + h)
  {
    RunConcat(x, s, us, vs);
    RestartsConcat(us, vs);
  }

  lemma {:induction false} Nothing(x: World, s: Sys, t0: real, t1: real)
    requires EntryOk(x, s.entry)
    ensures Leads(x, s, [], s, t0, t1, 0, 0)
  {
  }

  lemma {:induction false} Widened(
      x: World, s: Sys, vs: seq<Event>, e: Sys, a: real, b: real, k: nat, gain: nat, t0: real, t1: real)
    requires Leads(x, s, vs, e, a, b, k, gain) && t0 <= a && b <= t1
    ensures Leads(x, s, vs, e, t0, t1, k, gain)
  {
  }

  // One worker's part.

  lemma {:induction false} AdmittedUpdate(s: Sys, w: nat, n: Node)
    requires w < |s.nodes|
    ensures Admitted(s.(nodes := s.nodes[w := n]))
            == Admitted(s) + n.counts.admittedTokens - s.nodes[w].counts.admittedTokens
  {
    SumUpdate(s.nodes, AdmittedBy, w, n);
  }

  /** Whether a renewal is out once `k` unit checks have left `left` tokens. */
  predicate Sent(x: World, out: bool, k: nat, left: int) {
    out || (k >= 1 && left < Watermark(x.cfg.leaseSize))
  }

  lemma {:induction false} SpendOne(x: World, s: Sys, w: nat, t: real, tokens: int, out: bool) returns (e: Sys)
    requires x.Valid() && EntryOk(x, s.entry) && w < |s.nodes| && 1 <= tokens
    requires W.Calm(x.Params(), s.nodes[w], t, tokens, out)
    ensures Leads(x, s, [OnNode(w, N.CheckBegin(1, t))], e, t, t, 0, 1)
    ensures |e.nodes| == |s.nodes| && e == s.(nodes := s.nodes[w := e.nodes[w]])
    ensures W.Calm(x.Params(), e.nodes[w], t, tokens - 1, Sent(x, out, 1, tokens - 1))
    ensures e.nodes[w].pool.expiry == s.nodes[w].pool.expiry
  {
    var v := OnNode(w, N.CheckBegin(1, t));
    W.SpendOne(x.Params(), s.nodes[w], t, tokens, out);
    e := Step(x, s, v);
    AdmittedUpdate(s, w, e.nodes[w]);
    OneStep(x, s, v);
    assert [v][1..] == [];
  }

  /** Unit checks spend a pool; a renewal goes out once it is below the watermark. */
  lemma {:induction false} Spend(x: World, s: Sys, w: nat, t: real, tokens: int, out: bool, k: nat) returns (vs: seq<Event>, e: Sys)
    requires x.Valid() && EntryOk(x, s.entry) && w < |s.nodes| && k <= tokens
    requires W.Calm(x.Params(), s.nodes[w], t, tokens, out)
    ensures Leads(x, s, vs, e, t, t, 0, k)
    ensures |e.nodes| == |s.nodes| && e == s.(nodes := s.nodes[w := e.nodes[w]])
    ensures W.Calm(x.Params(), e.nodes[w], t, tokens - k, Sent(x, out, k, tokens - k))
    ensures e.nodes[w].pool.expiry == s.nodes[w].pool.expiry
    decreases k
  {
    if k == 0 {
      vs, e := [], s;
      Nothing(x, s, t, t);
    } else {
      var m := SpendOne(x, s, w, t, tokens, out);
      var rest;
      rest, e := Spend(x, m, w, t, tokens - 1, Sent(x, out, 1, tokens - 1), k - 1);
      Then(x, s, [OnNode(w, N.CheckBegin(1, t))], m, rest, e, t, t, 0, 0, 1, k - 1);
      vs := [OnNode(w, N.CheckBegin(1, t))] + rest;
    }
  }

  lemma {:induction false} FullLease(x: World, e: Entry, t: real, m: nat)
    requires x.Valid() && x.Known() && EntryOk(x, Some(e)) && m >= 1
    requires Refill(e.bucket, t).tokens == Leases(x, m) as real && t >= e.bucket.last
    ensures LeaseReply(x.cfg, e, t) == Leased(x.cfg.leaseSize, x.cfg.ttl, 0.0)
    ensures var b := AfterLease(x.cfg, e, t).bucket;
            b.last == t && b.tokens == Leases(x, m - 1) as real
  {
    LeaseDebitsWhatItGrants(x.cfg, e, t);
    assert Leases(x, m) >= x.cfg.leaseSize;
    assert (Leases(x, m) as real).Floor == Leases(x, m);
  }

  /** A renewal is answered with a full lease. */
  lemma {:induction false} LandLease(x: World, s: Sys, w: nat, t: real, tokens: int, m: nat) returns (vs: seq<Event>, e: Sys)
    requires x.Valid() && x.Known() && x.cfg.ttl == 2.0 && EntryOk(x, s.entry) && w < |s.nodes| && m >= 1
    requires W.Calm(x.Params(), s.nodes[w], t, tokens, true) && 0 <= tokens && Level(x, s, t, m)
    ensures Leads(x, s, vs, e, t, t, 0, 0)
    ensures |e.nodes| == |s.nodes| && e.nodes == s.nodes[w := e.nodes[w]] && EntryOk(x, e.entry)
    ensures W.Calm(x.Params(), e.nodes[w], t, tokens + x.cfg.leaseSize, false)
    ensures Level(x, e, t, m - 1) && e.nodes[w].pool.expiry == t + 2.0
  {
    var i := W.Newest(s.nodes[w]);
    var v, u := Lease(w, i, t), OnNode(w, N.Deliver(i, t, 1.0));
    FullLease(x, s.entry.value, t, m);
    EntryOkStep(x, s, v);
    W.Land(x.Params(), s.nodes[w], t, t, tokens);
    var a := Step(x, s, v);
    assert a.nodes[w] == W.WithAnswer(x.Params(), s.nodes[w]);
    TwoSteps(x, s, v, u);
    vs, e := [v, u], Step(x, a, u);
    assert e.nodes == s.nodes[w := e.nodes[w]];
    AdmittedUpdate(s, w, e.nodes[w]);
    NoRestartInTwo(v, u);
  }

  lemma {:induction false} NoRestartInTwo(v: Event, u: Event)
    requires !v.Restart? && !u.Restart?
    ensures Restarts([v, u]) == 0
  {
    assert [v, u][1..] == [u] && [u][1..] == [];
    assert Restarts([u]) == 0;
  }

  lemma {:induction false} TwoSteps(x: World, s: Sys, v: Event, u: Event)
    requires EntryOk(x, s.entry) && Enabled(x, s, v)
    requires var a := Step(x, s, v); EntryOk(x, a.entry) && Enabled(x, a, u) && EntryOk(x, Step(x, a, u).entry)
    ensures ValidRun(x, s, [v, u]) && Run(x, s, [v, u]) == Step(x, Step(x, s, v), u)
  {
    OneStep(x, Step(x, s, v), u);
    assert [v, u][1..] == [u];
  }

  lemma {:induction false} OneStep(x: World, s: Sys, v: Event)
    requires EntryOk(x, s.entry) && Enabled(x, s, v) && EntryOk(x, Step(x, s, v).entry)
    ensures ValidRun(x, s, [v]) && Run(x, s, [v]) == Step(x, s, v)
  {
    assert [v][1..] == [];
  }

  lemma {:induction false} ReachableStep(x: World, s: Sys, v: Event)
    requires x.Valid() && Reachable(x, s) && EntryOk(x, s.entry) && Enabled(x, s, v)
    ensures Reachable(x, Step(x, s, v))
  {
    EntryOkStep(x, s, v);
    OneStep(x, s, v);
    ST.ReachableRun(x, s, [v]);
  }

  // All workers, one after the other.

  /** One more worker has done its part. */
  lemma {:induction false} Advance(x: World, ns: seq<Node>, w: nat, n: Node, t: real, tokens: int, out: bool, left: int, sent: bool)
    requires w < |ns| && Squad(x, ns, 0, w, t, left, sent) && Squad(x, ns, w, |ns|, t, tokens, out)
    requires W.Calm(x.Params(), n, t, left, sent)
    ensures Squad(x, ns[w := n], 0, w + 1, t, left, sent) && Squad(x, ns[w := n], w + 1, |ns|, t, tokens, out)
  {
  }

  /** Workers from `w` on spend `k` tokens each. */
  lemma {:induction false} SpendAll(x: World, s: Sys, w: nat, t: real, tokens: int, out: bool, k: nat) returns (vs: seq<Event>, e: Sys)
    requires x.Valid() && EntryOk(x, s.entry) && w <= |s.nodes| && k <= tokens
    requires Squad(x, s.nodes, 0, w, t, tokens - k, Sent(x, out, k, tokens - k))
    requires Squad(x, s.nodes, w, |s.nodes|, t, tokens, out)
    ensures Leads(x, s, vs, e, t, t, 0, Times(|s.nodes| - w, k))
    ensures SameExpiry(s.nodes, e.nodes) && e.entry == s.entry
    ensures Squad(x, e.nodes, 0, |s.nodes|, t, tokens - k, Sent(x, out, k, tokens - k))
    decreases |s.nodes| - w
  {
    if w == |s.nodes| {
      vs, e := [], s;
      Nothing(x, s, t, t);
    } else {
      var us, m := Spend(x, s, w, t, tokens, out, k);
      Advance(x, s.nodes, w, m.nodes[w], t, tokens, out, tokens - k, Sent(x, out, k, tokens - k));
      var rest;
      rest, e := SpendAll(x, m, w + 1, t, tokens, out, k);
      Then(x, s, us, m, rest, e, t, t, 0, 0, k, Times(|s.nodes| - w - 1, k));
      vs := us + rest;
    }
  }

  /** Workers from `w` on get a lease each. */
  lemma {:induction false} LandAll(x: World, s: Sys, w: nat, t: real, tokens: int) returns (vs: seq<Event>, e: Sys)
    requires x.Valid() && x.Known() && x.cfg.ttl == 2.0 && EntryOk(x, s.entry) && w <= |s.nodes| && 0 <= tokens
    requires Squad(x, s.nodes, 0, w, t, tokens + x.cfg.leaseSize, false) && GoodUntil(s.nodes, w, t + 2.0)
    requires Squad(x, s.nodes, w, |s.nodes|, t, tokens, true) && Level(x, s, t, |s.nodes| - w)
    ensures Leads(x, s, vs, e, t, t, 0, 0)
    ensures |e.nodes| == |s.nodes| && EntryOk(x, e.entry) && Level(x, e, t, 0)
    ensures Squad(x, e.nodes, 0, |s.nodes|, t, tokens + x.cfg.leaseSize, false) && GoodUntil(e.nodes, |s.nodes|, t + 2.0)
    decreases |s.nodes| - w
  {
    if w == |s.nodes| {
      vs, e := [], s;
      Nothing(x, s, t, t);
    } else {
      var us, m := LandLease(x, s, w, t, tokens, |s.nodes| - w);
      Advance(x, s.nodes, w, m.nodes[w], t, tokens, true, tokens + x.cfg.leaseSize, false);
      var rest;
      rest, e := LandAll(x, m, w + 1, t, tokens);
      Then(x, s, us, m, rest, e, t, t, 0, 0, 0, 0);
      vs := us + rest;
    }
  }

  /** Workers from `w` on refuse a request and send out a renewal. */
  lemma {:induction false} RefuseAll(x: World, s: Sys, w: nat, t: real, tokens: int) returns (e: Sys)
    requires x.Valid() && EntryOk(x, s.entry) && Reachable(x, s) && w <= |s.nodes| && 0 <= tokens < x.maxCost
    requires Squad(x, s.nodes, 0, w, t, tokens, true) && Squad(x, s.nodes, w, |s.nodes|, t, tokens, false)
    ensures Reachable(x, e) && e.entry == s.entry && |e.nodes| == |s.nodes|
    ensures Squad(x, e.nodes, 0, |s.nodes|, t, tokens, true)
    decreases |s.nodes| - w
  {
    if w == |s.nodes| {
      e := s;
    } else {
      var v := OnNode(w, N.CheckBegin(x.maxCost, t));
      W.Refuse(x.Params(), s.nodes[w], t, tokens);
      ReachableStep(x, s, v);
      e := Step(x, s, v);
      Advance(x, s.nodes, w, e.nodes[w], t, tokens, false, tokens, true);
      e := RefuseAll(x, e, w + 1, t, tokens);
    }
  }

  /** Budget good for two seconds is still good after one, and by then the bucket is full. */
  lemma {:induction false} NextSecond(x: World, s: Sys, workers: nat, t: real, tokens: int, out: bool)
    requires Simple(x, workers) && Spot(x, s, workers, t, tokens, out) && GoodUntil(s.nodes, workers, t + 2.0)
    requires s.entry.value.bucket.last <= t
    ensures Spot(x, s, workers, t + 1.0, tokens, out) && Level(x, s, t + 1.0, workers)
  {
    var b := s.entry.value.bucket;
    FlowMono(b.rate, 1.0, t + 1.0 - b.last);
    assert Flow(b.rate, 1.0) == b.rate;
  }

  // How the pools are filled.

  lemma {:induction false} SpawnAll(x: World, s: Sys, workers: nat, more: nat) returns (e: Sys)
    requires Simple(x, workers) && Reachable(x, s) && |s.nodes| + more == workers
    requires Spot(x, s, |s.nodes|, 1.0, 0, false)
    ensures Reachable(x, e) && Spot(x, e, workers, 1.0, 0, false) && e.entry == s.entry
    decreases more
  {
    e := s;
    if more > 0 {
      ReachableStep(x, s, Spawn);
      e := Step(x, s, Spawn);
      W.FreshIsCalm(x.Params());
      e := SpawnAll(x, e, workers, more - 1);
    }
  }

  lemma {:induction false} Start(x: World, workers: nat) returns (s: Sys)
    requires Simple(x, workers)
    ensures Reachable(x, s) && Spot(x, s, workers, 1.0, 0, false) && Level(x, s, 1.0, workers)
  {
    s := Init(x, 1.0);
    assert EntryOk(x, s.entry);
    assert ValidRun(x, s, []) && Run(x, s, []) == s;
    s := SpawnAll(x, s, workers, workers);
  }

  lemma {:induction false} Grants(x: World, s: Sys, workers: nat, t: real, tokens: int) returns (e: Sys)
    requires Simple(x, workers) && Reachable(x, s) && Spot(x, s, workers, t, tokens, true) && 0 <= tokens && Level(x, s, t, workers)
    ensures Reachable(x, e) && Spot(x, e, workers, t + 1.0, tokens + x.cfg.leaseSize, false) && Level(x, e, t + 1.0, workers)
  {
    var vs;
    vs, e := LandAll(x, s, 0, t, tokens);
    ST.ReachableRun(x, s, vs);
    NextSecond(x, e, workers, t, tokens + x.cfg.leaseSize, false);
  }

  lemma {:induction false} RefuseThenGrant(x: World, s: Sys, workers: nat, t: real, tokens: int) returns (e: Sys)
    requires Simple(x, workers) && Reachable(x, s) && Spot(x, s, workers, t, tokens, false) && 0 <= tokens < x.maxCost
    requires Level(x, s, t, workers)
    ensures Reachable(x, e) && Spot(x, e, workers, t + 1.0, tokens + x.cfg.leaseSize, false) && Level(x, e, t + 1.0, workers)
  {
    e := RefuseAll(x, s, 0, t, tokens);
    e := Grants(x, e, workers, t, tokens);
  }

  /** Refusals top the pools up, a lease and a second at a time, to `keep` tokens or more. */
  lemma {:induction false} TopUp(x: World, s: Sys, workers: nat, t: real, tokens: int, keep: int)
      returns (e: Sys, u: real, held: int)
    requires Simple(x, workers) && Reachable(x, s) && Spot(x, s, workers, t, tokens, false) && 0 <= tokens && keep < x.maxCost
    requires Level(x, s, t, workers)
    ensures Reachable(x, e) && Spot(x, e, workers, u, held, false) && Level(x, e, u, workers) && held >= keep && held >= tokens
    decreases keep - tokens
  {
    if tokens >= keep {
      e, u, held := s, t, tokens;
    } else {
      e := RefuseThenGrant(x, s, workers, t, tokens);
      e, u, held := TopUp(x, e, workers, t + 1.0, tokens + x.cfg.leaseSize, keep);
    }
  }

  lemma {:induction false} DrawDown(x: World, s: Sys, workers: nat, t: real, tokens: int, keep: int) returns (e: Sys)
    requires Simple(x, workers) && Reachable(x, s) && Spot(x, s, workers, t, tokens, false) && 0 <= keep <= tokens
    requires Level(x, s, t, workers)
    ensures Reachable(x, e) && Spot(x, e, workers, t, keep, keep < tokens && keep < Watermark(x.cfg.leaseSize))
    ensures Level(x, e, t, workers)
  {
    var vs;
    vs, e := SpendAll(x, s, 0, t, tokens, false, tokens - keep);
    ST.ReachableRun(x, s, vs);
  }

  /** All pools as full as can be, at a time when the bucket is full as well. */
  lemma {:induction false} Overfill(x: World, workers: nat) returns (s: Sys, t: real)
    requires Simple(x, workers)
    ensures Reachable(x, s) && Spot(x, s, workers, t, x.Params().Floor() + x.cfg.leaseSize, false) && Level(x, s, t, workers)
  {
    var keep, held := x.Params().Floor(), x.cfg.leaseSize;
    s := Start(x, workers);
    s := RefuseThenGrant(x, s, workers, 1.0, 0);
    t := 2.0;
    if x.maxCost > Watermark(x.cfg.leaseSize) {
      s, t, held := TopUp(x, s, workers, t, held, keep);
      s := DrawDown(x, s, workers, t, held, keep);
      s := RefuseThenGrant(x, s, workers, t, keep);
    } else {
      s := DrawDown(x, s, workers, t, held, keep);
      s := Grants(x, s, workers, t, keep);
    }
    t := t + 1.0;
  }

  // How they are emptied.

  /** All pools empty at `t`, a renewal out for each. */
  ghost predicate Spent(x: World, s: Sys, workers: nat, t: real) {
    Spot(x, s, workers, t, 0, true) && s.entry.value.bucket.last <= t && GoodUntil(s.nodes, workers, t + 2.0)
  }

  /** With empty pools, renewals out and a full bucket, all leases are granted and spent at once. */
  lemma {:induction false} Round(x: World, s: Sys, workers: nat, t: real) returns (vs: seq<Event>, e: Sys)
    requires Simple(x, workers) && Spot(x, s, workers, t, 0, true) && Level(x, s, t, workers)
    ensures Leads(x, s, vs, e, t, t, 0, Leases(x, workers)) && Spent(x, e, workers, t)
  {
    var renewals, m := LandAll(x, s, 0, t, 0);
    var checks;
    checks, e := SpendAll(x, m, 0, t, x.cfg.leaseSize, false, x.cfg.leaseSize);
    Then(x, s, renewals, m, checks, e, t, t, 0, 0, 0, Leases(x, workers));
    vs := renewals + checks;
  }

  /** And so every second. */
  lemma {:induction false} Rounds(x: World, s: Sys, workers: nat, t: real, d: nat, t0: real, t1: real)
      returns (vs: seq<Event>, e: Sys)
    requires Simple(x, workers) && Spent(x, s, workers, t) && t0 <= t && t + d as real <= t1
    ensures Leads(x, s, vs, e, t0, t1, 0, Times(d, Leases(x, workers)))
    decreases d
  {
    if d == 0 {
      vs, e := [], s;
      Nothing(x, s, t0, t1);
    } else {
      NextSecond(x, s, workers, t, 0, true);
      var us, m := Round(x, s, workers, t + 1.0);
      Widened(x, s, us, m, t + 1.0, t + 1.0, 0, Leases(x, workers), t0, t1);
      var rest;
      rest, e := Rounds(x, m, workers, t + 1.0, d - 1, t0, t1);
      Then(x, s, us, m, rest, e, t0, t1, 0, 0, Leases(x, workers), Times(d - 1, Leases(x, workers)));
      vs := us + rest;
    }
  }

  lemma {:induction false} FullRestart(x: World, s: Sys, workers: nat, t: real) returns (e: Sys)
    requires Simple(x, workers) && Spent(x, s, workers, t)
    ensures Leads(x, s, [Restart(t)], e, t, t, 1, 0)
    ensures Spot(x, e, workers, t, 0, true) && Level(x, e, t, workers)
  {
    var v := Restart(t);
    EntryOkStep(x, s, v);
    OneStep(x, s, v);
    e := Step(x, s, v);
    assert [v][1..] == [] && Restarts([v]) == 1;
  }

  /** And so after every restart of the coordinator. */
  lemma {:induction false} RestartRounds(x: World, s: Sys, workers: nat, t: real, k: nat) returns (vs: seq<Event>, e: Sys)
    requires Simple(x, workers) && Spent(x, s, workers, t)
    ensures Leads(x, s, vs, e, t, t, k, Times(k, Leases(x, workers))) && Spent(x, e, workers, t)
    decreases k
  {
    if k == 0 {
      vs, e := [], s;
      Nothing(x, s, t, t);
    } else {
      var m := FullRestart(x, s, workers, t);
      var us, l := Round(x, m, workers, t);
      Then(x, s, [Restart(t)], m, us, l, t, t, 1, 0, 0, Leases(x, workers));
      var rest;
      rest, e := RestartRounds(x, l, workers, t, k - 1);
      Then(x, s, [Restart(t)] + us, l, rest, e, t, t, 1, k - 1, Leases(x, workers), Times(k - 1, Leases(x, workers)));
      vs := [Restart(t)] + us + rest;
    }
  }

  /** In a window of `d` seconds with `k` restarts, workers admit what their pools hold, a full bucket and
      one more per restart, and what flows in. */
  lemma {:induction false} Spree(x: World, s: Sys, workers: nat, t: real, tokens: int, k: nat, d: nat, t1: real)
      returns (vs: seq<Event>, e: Sys)
    requires Simple(x, workers) && Spot(x, s, workers, t, tokens, false) && tokens >= 1 && Level(x, s, t, workers)
    requires t1 == t + d as real
    ensures var b := Leases(x, workers);
            Leads(x, s, vs, e, t, t1, k, Times(workers, tokens) + b + Times(k, b) + Times(d, b))
  {
    var b := Leases(x, workers);
    var checks, s1 := SpendAll(x, s, 0, t, tokens, false, tokens);
    var first, s2 := Round(x, s1, workers, t);
    Then(x, s, checks, s1, first, s2, t, t, 0, 0, Times(workers, tokens), b);
    var more, s3 := RestartRounds(x, s2, workers, t, k);
    Then(x, s, checks + first, s2, more, s3, t, t, 0, k, Times(workers, tokens) + b, Times(k, b));
    Widened(x, s, checks + first + more, s3, t, t, k, Times(workers, tokens) + b + Times(k, b), t, t1);
    var rest;
    rest, e := Rounds(x, s3, workers, t, d, t, t1);
    Then(x, s, checks + first + more, s3, rest, e, t, t1, k, 0, Times(workers, tokens) + b + Times(k, b), Times(d, b));
    vs := checks + first + more + rest;
  }

  lemma {:induction false} AllAlive(x: World, ns: seq<Node>, t: real, tokens: int, out: bool)
    requires Squad(x, ns, 0, |ns|, t, tokens, out)
    ensures Sum(ns, Alive) == |ns|
    decreases |ns|
  {
    if ns != [] {
      AllAlive(x, ns[..|ns| - 1], t, tokens, out);
    }
  }

  /** The allowance in whole tokens. */
  lemma {:induction false} AllowanceIs(x: World, workers: nat, held: nat, k: nat, d: nat)
    requires Simple(x, workers)
    ensures var b := Leases(x, workers);
            Allowance(x, d as real, k, workers, held as real) == (Times(workers, held) + b + Times(k, b) + Times(d, b)) as real
  {
    TimesIs(d, Leases(x, workers));
    TimesIs(k, Leases(x, workers));
    TimesIs(workers, held);
  }

  /** The admission bound is attained: for every lease size, largest cost, number of workers, number of
      restarts and whole number of seconds, some run admits in a window of that length, with so many
      restarts in it, all that the bound allows. */
  lemma {:induction false} AdmissionWindowIsTight(lease: nat, cost: int, workers: nat, k: nat, d: nat)
      returns (s: Sys, vs: seq<Event>, t: real)
    requires lease >= 1 && cost >= 1 && workers >= 1
    ensures var x := Scene(lease, cost, workers);
            && x.Valid() && Reachable(x, s) && ValidRun(x, s, vs)
            && ReadsWithin(vs, t, t + d as real) && Restarts(vs) == k && Workers(s) == workers
            && (Admitted(Run(x, s, vs)) - Admitted(s)) as real
               == Allowance(x, d as real, k, workers, (x.Params().Floor() + lease) as real)
  {
    var x := Scene(lease, cost, workers);
    SceneIsSimple(lease, cost, workers);
    var held := x.Params().Floor() + lease;
    s, t := Overfill(x, workers);
    var e;
    vs, e := Spree(x, s, workers, t, held, k, d, t + d as real);
    AllAlive(x, s.nodes, t, held, false);
    AllowanceIs(x, workers, held, k, d);
  }

  lemma {:induction false} SceneIsSimple(lease: nat, cost: int, workers: nat)
    requires lease >= 1 && cost >= 1 && workers >= 1
    ensures Simple(Scene(lease, cost, workers), workers)
  {
    TimesIs(workers, lease);
    assert workers * lease >= 1;
  }

  /** The harness's bound is broken whenever a cost above a fifth of the lease size plus one is allowed:
      for every such cost, every lease size, number of workers, number of restarts and whole number of
      seconds, some run admits more. */
  lemma {:induction false} HarnessBoundCanFail(lease: nat, cost: int, workers: nat, k: nat, d: nat)
      returns (s: Sys, vs: seq<Event>, t: real)
    requires lease >= 1 && 5 * (cost - 1) > lease && workers >= 1
    ensures var x := Scene(lease, cost, workers);
            && x.Valid() && Reachable(x, s) && ValidRun(x, s, vs)
            && ReadsWithin(vs, t, t + d as real) && Restarts(vs) == k && Workers(s) == workers
            && (Admitted(Run(x, s, vs)) - Admitted(s)) as real > H.HarnessBound(x.cfg, TENANT, d as real, workers, k)
  {
    var x := Scene(lease, cost, workers);
    s, vs, t := AdmissionWindowIsTight(lease, cost, workers, k, d);
    H.SlackCovers(x.Params());
    MoreSlack(workers, 1.2 * lease as real, (x.Params().Floor() + lease) as real);
  }

  lemma {:induction false} MoreSlack(workers: nat, a: real, b: real)
    requires workers >= 1 && a < b
    ensures Flow(workers as real, a) < Flow(workers as real, b)
  {
    FlowAdd(workers as real, a, b - a);
    assert Flow(workers as real, b - a) > 0.0;
  }

  /** Without slack for leased budget the bound is wrong for every lease size, every largest cost, any
      number of workers and every whole number of seconds: workers that hold a lease each when the window
      begins admit them on top of all that rate x window + burst allows. */
  lemma {:induction false} PlainBoundFails(lease: nat, cost: int, workers: nat, d: nat) returns (s: Sys, vs: seq<Event>)
    requires lease >= 1 && cost >= 1 && workers >= 1
    ensures var x := Scene(lease, cost, workers);
            && x.Valid() && Reachable(x, s) && ValidRun(x, s, vs)
            && ReadsWithin(vs, 2.0, 2.0 + d as real) && Restarts(vs) == 0
            && (Admitted(Run(x, s, vs)) - Admitted(s)) as real
               == Flow(x.Rate(), d as real) + x.Burst() + (workers * lease) as real
  {
    var x := Scene(lease, cost, workers);
    SceneIsSimple(lease, cost, workers);
    s := Start(x, workers);
    s := RefuseThenGrant(x, s, workers, 1.0, 0);
    var e;
    vs, e := Spree(x, s, workers, 2.0, lease, 0, d, 2.0 + d as real);
    TimesIs(d, Leases(x, workers));
    TimesIs(workers, lease);
  }

  /** A rate of one token per second is all it takes: any such tenant is admitted in some run. */
  lemma {:induction false} RateOneIsAdmitted(x: World) returns (s: Sys)
    requires x.Valid() && x.Known() && x.Rate() >= 1.0
    ensures Reachable(x, s) && Admitted(s) >= 1
  {
    s := FirstGrant(x);
    var v := OnNode(0, N.CheckBegin(1, 1.0));
    ReachableStep(x, s, v);
    s := Step(x, s, v);
    assert Sum(s.nodes[..0], AdmittedBy) == 0 && AdmittedBy(s.nodes[0]) >= 1;
  }

  /** A worker that has asked for its first lease at time 1. */
  lemma {:induction false} FirstCall(x: World) returns (s: Sys)
    requires x.Valid() && x.Known() && x.Rate() >= 1.0
    ensures Reachable(x, s) && EntryOk(x, s.entry) && |s.nodes| == 1 && Debited(s) == 0
    ensures s.entry.Some? && Grant(s.entry.value.bucket, x.cfg.leaseSize, 1.0) >= 1
    ensures s.nodes[0] == N.AfterBegin(N.FRESH, 1, 1.0)
  {
    var s0 := Init(x, 1.0);
    assert EntryOk(x, s0.entry);
    assert ValidRun(x, s0, []) && Run(x, s0, []) == s0;
    ReachableStep(x, s0, Spawn);
    var s1 := Step(x, s0, Spawn);
    ReachableStep(x, s1, OnNode(0, N.CheckBegin(1, 1.0)));
    s := Step(x, s1, OnNode(0, N.CheckBegin(1, 1.0)));
  }

  lemma {:induction false} FirstGrant(x: World) returns (s: Sys)
    requires x.Valid() && x.Known() && x.Rate() >= 1.0
    ensures Reachable(x, s) && EntryOk(x, s.entry) && |s.nodes| == 1
    ensures var n := s.nodes[0];
            n.up && n.pool.tokens >= 1 && n.pool.expiry > 1.0 && n.pool.unknownUntil == ZERO_TIME
  {
    var s2 := FirstCall(x);
    EntryOkStep(x, s2, Lease(0, 0, 1.0));
    ReachableStep(x, s2, Lease(0, 0, 1.0));
    var s3 := Step(x, s2, Lease(0, 0, 1.0));
    EntryOkStep(x, s3, OnNode(0, N.Deliver(0, 1.0, 1.0)));
    ReachableStep(x, s3, OnNode(0, N.Deliver(0, 1.0, 1.0)));
    s := Step(x, s3, OnNode(0, N.Deliver(0, 1.0, 1.0)));
  }

  /** A lease call that times out at the worker may still be debited: its tokens are lost to everyone. */
  lemma {:induction false} OrphanedLeaseIsLost(x: World) returns (s: Sys)
    requires x.Valid() && x.Known() && x.Rate() >= 1.0
    ensures Reachable(x, s) && |s.nodes| == 1
    ensures Debited(s) >= 1 && s.nodes[0].lost == Debited(s) && s.nodes[0].pool.tokens == 0
  {
    var s2 := FirstCall(x);
    var v := OnNode(0, N.Fail(0, 1.0, 1.0));
    ReachableStep(x, s2, v);
    var s3 := Step(x, s2, v);
    EntryOkStep(x, s3, Lease(0, 0, 1.0));
    ReachableStep(x, s3, Lease(0, 0, 1.0));
    LeaseDebit(x, s3.entry, 1.0);
    s := Step(x, s3, Lease(0, 0, 1.0));
  }
}
