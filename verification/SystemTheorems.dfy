/** What the single worker's theorems say inside the whole system, and what follows for the
    coordinator's load and for tenants that can never be admitted. */
module SystemTheorems {
  import opened Pools
  import opened TokenBucket
  import opened Coordinator
  import opened TenantSystem
  import N = Nodes
  import P = Pacing

  // Every worker of a system run is a run of the worker machine.

  ghost predicate AllReachable(p: N.Params, ns: seq<Node>) {
    forall w :: 0 <= w < |ns| ==> N.Reachable(p, ns[w])
  }

  lemma {:induction false} AllReachableStep(x: World, s: Sys, v: Event)
    requires x.Valid() && EntryOk(x, s.entry) && Enabled(x, s, v) && AllReachable(x.Params(), s.nodes)
    ensures AllReachable(x.Params(), Step(x, s, v).nodes)
  {
    EntryOkStep(x, s, v);
    match v
    case OnNode(w, e) => N.ReachableStep(x.Params(), s.nodes[w], e);
    case Lease(w, i, now) => N.ReachableStep(x.Params(), s.nodes[w], N.Answer(i, ReplyTo(x, s.entry, now)));
    case Spawn => N.FreshReachable(x.Params());
    case Restart(_) =>
  }

  lemma {:induction false} AllReachableRun(x: World, s: Sys, vs: seq<Event>)
    requires x.Valid() && ValidRun(x, s, vs) && AllReachable(x.Params(), s.nodes)
    ensures AllReachable(x.Params(), Run(x, s, vs).nodes)
    decreases |vs|
  {
    if vs != [] {
      AllReachableStep(x, s, vs[0]);
      AllReachableRun(x, Step(x, s, vs[0]), vs[1..]);
    }
  }

  /** Whatever the rest of the system does, each worker only ever gets into states of the worker
      machine, so every theorem about those holds of it. */
  lemma {:induction false} WorkersAreWorkers(x: World, s: Sys, w: nat)
    requires x.Valid() && Reachable(x, s) && w < |s.nodes|
    ensures N.Reachable(x.Params(), s.nodes[w])
  {
    var now, vs :| ValidRun(x, Init(x, now), vs) && Run(x, Init(x, now), vs) == s;
    AllReachableRun(x, Init(x, now), vs);
  }

  /** The steps of worker `w` in a run. */
  ghost function Trace(x: World, s: Sys, vs: seq<Event>, w: nat): seq<N.Event>
    requires ValidRun(x, s, vs)
    decreases |vs|
  {
    if vs == [] then []
    else
      var rest := Trace(x, Step(x, s, vs[0]), vs[1..], w);
      match vs[0]
      case OnNode(u, e) => if u == w then [e] + rest else rest
      case Lease(u, i, now) => if u == w then [N.Answer(i, ReplyTo(x, s.entry, now))] + rest else rest
      case _ => rest
  }

  lemma {:induction false} ConsRun(p: N.Params, n: Node, e: N.Event, rest: seq<N.Event>)
    requires N.Enabled(p, n, e) && N.ValidRun(p, N.Step(p, n, e), rest)
    ensures N.ValidRun(p, n, [e] + rest) && N.Run(p, n, [e] + rest) == N.Run(p, N.Step(p, n, e), rest)
  {
    assert ([e] + rest)[1..] == rest;
  }

  lemma {:induction false} TraceIsRun(x: World, s: Sys, vs: seq<Event>, w: nat)
    requires x.Valid() && ValidRun(x, s, vs) && w < |s.nodes|
    ensures N.ValidRun(x.Params(), s.nodes[w], Trace(x, s, vs, w))
    ensures |Run(x, s, vs).nodes| >= |s.nodes|
    ensures N.Run(x.Params(), s.nodes[w], Trace(x, s, vs, w)) == Run(x, s, vs).nodes[w]
    decreases |vs|
  {
    if vs != [] {
      var v, m, p := vs[0], Step(x, s, vs[0]), x.Params();
      EntryOkStep(x, s, v);
      TraceIsRun(x, m, vs[1..], w);
      var rest := Trace(x, m, vs[1..], w);
      match v
      case OnNode(u, e) =>
        if u == w {
          ConsRun(p, s.nodes[w], e, rest);
        }
      case Lease(u, i, now) =>
        if u == w {
          ConsRun(p, s.nodes[w], N.Answer(i, ReplyTo(x, s.entry, now)), rest);
        }
      case _ =>
    }
  }

  // Coordinator load.

  lemma {:induction false} DebitsGrow(x: World, s: Sys, vs: seq<Event>, w: nat)
    requires x.Valid() && ValidRun(x, s, vs) && w < |s.nodes|
    ensures |Run(x, s, vs).nodes| >= |s.nodes|
    ensures var e := Run(x, s, vs);
            0 <= e.nodes[w].debited - s.nodes[w].debited <= Sum(e.nodes, DebitedBy) - Sum(s.nodes, DebitedBy)
    decreases |vs|
  {
    if vs != [] {
      var v, p := vs[0], x.Params();
      EntryOkStep(x, s, v);
      DebitsGrow(x, Step(x, s, v), vs[1..], w);
      match v
      case OnNode(u, e) =>
        DebitOnlyByAnswer(p, s.nodes[u], e);
        SumUpdate(s.nodes, DebitedBy, u, N.Step(p, s.nodes[u], e));
      case Lease(u, i, now) =>
        SumUpdate(s.nodes, DebitedBy, u, N.AfterAnswer(s.nodes[u], i, ReplyTo(x, s.entry, now)));
      case Spawn =>
        SumPush(s.nodes, DebitedBy, N.FRESH);
      case Restart(_) =>
    }
  }

  /** The readings of worker `w`'s checks that start lease calls, in the order of the calls. */
  ghost function CallTimes(x: World, s: Sys, vs: seq<Event>, w: nat): seq<real>
    requires ValidRun(x, s, vs)
    decreases |vs|
  {
    if vs == [] then []
    else
      (if vs[0].OnNode? && vs[0].w == w then P.Log(P.StartOf(s.nodes[w], vs[0].e)) else [])
      + CallTimes(x, Step(x, s, vs[0]), vs[1..], w)
  }

  lemma {:induction false} StartTimesCons(p: N.Params, n: Node, e: N.Event, rest: seq<N.Event>)
    requires N.Enabled(p, n, e) && N.ValidRun(p, N.Step(p, n, e), rest) && N.ValidRun(p, n, [e] + rest)
    ensures P.StartTimes(p, n, [e] + rest) == P.Log(P.StartOf(n, e)) + P.StartTimes(p, N.Step(p, n, e), rest)
  {
    assert ([e] + rest)[1..] == rest;
  }

  lemma {:induction false} CallTimesAreStartTimes(x: World, s: Sys, vs: seq<Event>, w: nat)
    requires x.Valid() && ValidRun(x, s, vs) && w < |s.nodes|
    requires N.ValidRun(x.Params(), s.nodes[w], Trace(x, s, vs, w))
    ensures CallTimes(x, s, vs, w) == P.StartTimes(x.Params(), s.nodes[w], Trace(x, s, vs, w))
    decreases |vs|
  {
    if vs != [] {
      var v, m, p := vs[0], Step(x, s, vs[0]), x.Params();
      EntryOkStep(x, s, v);
      TraceIsRun(x, m, vs[1..], w);
      CallTimesAreStartTimes(x, m, vs[1..], w);
      var rest := Trace(x, m, vs[1..], w);
      match v
      case OnNode(u, e) =>
        if u == w {
          StartTimesCons(p, s.nodes[w], e, rest);
        }
      case Lease(u, i, now) =>
        if u == w {
          StartTimesCons(p, s.nodes[w], N.Answer(i, ReplyTo(x, s.entry, now)), rest);
        }
      case _ =>
    }
  }

  /** However many requests come in, the lease calls that a worker's checks start for a tenant at
      readings in a window [u0, u1], while the coordinator's readings lie in [t0, t1], are at most one
      plus one lease size, plus what the bucket can give in its window, plus one for every 187.5 ms of
      the worker's. */
  lemma {:induction false} CoordinatorLoad(
      x: World, s: Sys, vs: seq<Event>, w: nat, t0: real, t1: real, u0: real, u1: real)
    requires x.Valid() && x.Known() && Inv(x, s) && ValidRun(x, s, vs) && w < |s.nodes|
    requires ReadsWithin(vs, t0, t1) && t0 <= t1 && u0 <= u1
    requires forall i :: 0 <= i < |CallTimes(x, s, vs, w)| ==> u0 <= CallTimes(x, s, vs, w)[i] <= u1
    ensures |Run(x, s, vs).nodes| >= |s.nodes|
    ensures |CallTimes(x, s, vs, w)| == Run(x, s, vs).nodes[w].counts.leaseCalls - s.nodes[w].counts.leaseCalls
    ensures |CallTimes(x, s, vs, w)| as real
            <= (1 + x.cfg.leaseSize) as real
               + Flow(x.Rate(), t1 - t0) + Flow(x.Burst(), (Restarts(vs) + 1) as real)
               + (u1 - u0) / P.MIN_PACE
  {
    TraceIsRun(x, s, vs, w);
    CallTimesAreStartTimes(x, s, vs, w);
    P.LeaseCallsBounded(x.Params(), s.nodes[w], Trace(x, s, vs, w), u0, u1);
    WorkerDebits(x, s, vs, w, t0, t1);
  }

  /** One worker's share of the debits in a window. */
  lemma {:induction false} WorkerDebits(x: World, s: Sys, vs: seq<Event>, w: nat, t0: real, t1: real)
    requires x.Valid() && x.Known() && Inv(x, s) && ValidRun(x, s, vs) && w < |s.nodes|
    requires ReadsWithin(vs, t0, t1) && t0 <= t1
    ensures |Run(x, s, vs).nodes| >= |s.nodes|
    ensures (Run(x, s, vs).nodes[w].debited - s.nodes[w].debited) as real
            <= Flow(x.Rate(), t1 - t0) + Flow(x.Burst(), (Restarts(vs) + 1) as real)
  {
    DebitsGrow(x, s, vs, w);
    InvRun(x, s, vs);
    DebitsInWindow(x, s, vs, t0, t1);
  }

  lemma {:induction false} ReachableRun(x: World, s: Sys, vs: seq<Event>)
    requires Reachable(x, s) && ValidRun(x, s, vs)
    ensures Reachable(x, Run(x, s, vs))
  {
    var now, us :| ValidRun(x, Init(x, now), us) && Run(x, Init(x, now), us) == s;
    RunConcat(x, Init(x, now), us, vs);
  }

  // What a worker learns of a tenant.

  /** Every reply to a worker about a tenant is what the coordinator answers for it: a refusal for the
      empty name, 404 for one that is not configured, and a lease otherwise. */
  ghost predicate RepliesFit(x: World, n: Node) {
    forall i :: 0 <= i < |n.calls| && n.calls[i].reply.Some? ==>
      match n.calls[i].reply.value
      case BadRequest => x.tenant == ""
      case NotFound => x.tenant != "" && x.tenant !in x.cfg.tenants
      case Leased(_, _, _) => x.tenant != "" && x.tenant in x.cfg.tenants
  }

  lemma {:induction false} RepliesFitOnNode(x: World, n: Node, e: N.Event)
    requires N.Enabled(x.Params(), n, e) && !e.Answer? && RepliesFit(x, n)
    ensures RepliesFit(x, N.Step(x.Params(), n, e))
  {
  }

  lemma {:induction false} RepliesFitStep(x: World, s: Sys, v: Event)
    requires EntryOk(x, s.entry) && Enabled(x, s, v)
    requires forall w :: 0 <= w < |s.nodes| ==> RepliesFit(x, s.nodes[w])
    ensures forall w :: 0 <= w < |Step(x, s, v).nodes| ==> RepliesFit(x, Step(x, s, v).nodes[w])
  {
    if v.OnNode? {
      RepliesFitOnNode(x, s.nodes[v.w], v.e);
    }
  }

  lemma {:induction false} RepliesFitRun(x: World, s: Sys, vs: seq<Event>)
    requires x.Valid() && ValidRun(x, s, vs)
    requires forall w :: 0 <= w < |s.nodes| ==> RepliesFit(x, s.nodes[w])
    ensures forall w :: 0 <= w < |Run(x, s, vs).nodes| ==> RepliesFit(x, Run(x, s, vs).nodes[w])
    decreases |vs|
  {
    if vs != [] {
      RepliesFitStep(x, s, vs[0]);
      RepliesFitRun(x, Step(x, s, vs[0]), vs[1..]);
    }
  }

  lemma {:induction false} RepliesFitWorker(x: World, s: Sys, w: nat)
    requires x.Valid() && Reachable(x, s) && w < |s.nodes|
    ensures RepliesFit(x, s.nodes[w])
  {
    var now, vs :| ValidRun(x, Init(x, now), vs) && Run(x, Init(x, now), vs) == s;
    RepliesFitRun(x, Init(x, now), vs);
  }

  /** A reply tells a worker that a tenant is unknown exactly when it has a name and is not configured: from
      then on every check reading the clock within ten seconds is answered Unknown, and no other reply
      makes a later check be answered so. */
  lemma {:induction false} UnknownIffNotConfigured(x: World, s: Sys, w: nat, i: nat, now: real, jitter: real, cost: int, later: real)
    requires x.Valid() && Reachable(x, s) && Enabled(x, s, OnNode(w, N.Deliver(i, now, jitter)))
    requires s.nodes[w].pool.unknownUntil <= later < now + 10.0
    ensures var n := N.Step(x.Params(), s.nodes[w], N.Deliver(i, now, jitter));
            Begin(n.pool, cost, later).verdict == Decided(Unknown) <==> x.tenant != "" && x.tenant !in x.cfg.tenants
  {
    RepliesFitWorker(x, s, w);
    AdmitsIff(N.Step(x.Params(), s.nodes[w], N.Deliver(i, now, jitter)).pool, cost, later);
  }

  // Tenants that are never admitted.

  lemma {:induction false} NothingDebited(x: World, s: Sys, vs: seq<Event>)
    requires x.Valid() && ValidRun(x, s, vs) && x.Burst() < 1.0 && Debited(s) == 0
    ensures Debited(Run(x, s, vs)) == 0
    decreases |vs|
  {
    if vs != [] {
      var v := vs[0];
      EntryOkStep(x, s, v);
      if v.Lease? {
        LeaseDebit(x, s.entry, v.now);
        if s.entry.Some? {
          RefillValid(s.entry.value.bucket, v.now);
        }
      }
      NothingDebited(x, Step(x, s, v), vs[1..]);
    }
  }

  lemma {:induction false} NothingEverDebited(x: World, s: Sys)
    requires x.Valid() && Reachable(x, s) && x.Burst() < 1.0
    ensures Debited(s) == 0
  {
    var now, vs :| ValidRun(x, Init(x, now), vs) && Run(x, Init(x, now), vs) == s;
    NothingDebited(x, Init(x, now), vs);
  }

  /** A tenant that is not configured, or whose rate is below one token per second, is never admitted,
      in any run. (The latter passes the configuration's validation.) */
  lemma {:induction false} LowRateNeverAdmits(x: World, s: Sys)
    requires x.Valid() && Reachable(x, s) && (!x.Known() || x.Rate() < 1.0)
    ensures Admitted(s) == 0 && Debited(s) == 0
  {
    NothingEverDebited(x, s);
    ReachableInv(x, s);
    SumConserved(x.Params(), s.nodes);
    SumHeldBound(x, s.nodes);
    SumsNonneg(x.Params(), s.nodes);
  }

  lemma {:induction false} SumsNonneg(p: N.Params, ns: seq<Node>)
    requires forall w :: 0 <= w < |ns| ==> N.Inv(p, ns[w])
    ensures Sum(ns, LostBy) >= 0 && Sum(ns, AdmittedBy) >= 0
    decreases |ns|
  {
    if ns != [] {
      SumsNonneg(p, ns[..|ns| - 1]);
      assert N.Inv(p, ns[|ns| - 1]);
    }
  }
}
