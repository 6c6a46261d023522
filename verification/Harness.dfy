/** The evaluation harness's universal assertion (internal/loadgen/scenarios.go): what it checks, that
    the cluster meets it when request costs are small enough, and that the condition is exact. */
module Harness {
  import opened Pools
  import opened TokenBucket
  import opened Coordinator
  import N = Nodes
  import S = TenantSystem
  import C = Cluster

  /** The bound the harness allows one tenant. */
  function HarnessBound(cfg: Config, t: string, dur: real, workers: nat, restarts: nat): real
    requires t in cfg.tenants
  {
    var rate := cfg.tenants[t];
    var burst := rate * BURST_SECONDS;
    Flow(rate, dur) + burst + Flow(workers as real, 1.2 * cfg.leaseSize as real) + Flow(burst, restarts as real)
  }

  /** `names` lists the tenants with results, in the order they are reported. */
  method InvariantCheck(cfg: Config, results: map<string, int>, names: seq<string>,
                        dur: real, workers: nat, restarts: nat) returns (ok: bool)
    requires forall t :: t in results <==> t in names
    ensures ok <==> forall t :: t in results && t in cfg.tenants ==>
                      results[t] as real <= HarnessBound(cfg, t, dur, workers, restarts)
  {
    ok := true;
    for i := 0 to |names|
      invariant ok <==> forall j :: 0 <= j < i && names[j] in cfg.tenants ==>
                          results[names[j]] as real <= HarnessBound(cfg, names[j], dur, workers, restarts)
    {
      if names[i] in cfg.tenants {
        var burst := cfg.tenants[names[i]] * BURST_SECONDS;
        var leaseSlack := workers as real * (1.2 * cfg.leaseSize as real);
        var bound := cfg.tenants[names[i]] * dur + burst + leaseSlack + burst * restarts as real;
        if results[names[i]] as real > bound {
          ok := false;
        }
      }
    }
  }

  // The cluster meets it.

  ghost predicate ReadsWithin(vs: seq<C.Event>, t0: real, t1: real) {
    forall i :: 0 <= i < |vs| && (vs[i].Lease? || vs[i].Restart?) ==> t0 <= vs[i].now <= t1
  }

  function Restarts(vs: seq<C.Event>): nat
    decreases |vs|
  {
    if vs == [] then 0 else (if vs[0].Restart? then 1 else 0) + Restarts(vs[1..])
  }

  /** Worker processes running. */
  function UpProcs(ps: seq<C.Proc>): nat {
    if ps == [] then 0 else UpProcs(ps[..|ps| - 1]) + if ps[|ps| - 1].up then 1 else 0
  }

  lemma {:induction false} ProjectionKeepsWindow(vs: seq<C.Event>, t: string, t0: real, t1: real)
    requires ReadsWithin(vs, t0, t1)
    ensures S.ReadsWithin(C.ProjectAll(vs, t), t0, t1)
    ensures S.Restarts(C.ProjectAll(vs, t)) == Restarts(vs)
    decreases |vs|
  {
    if vs != [] {
      ProjectionKeepsWindow(vs[1..], t, t0, t1);
      var head, rest := C.Project(vs[0], t), C.ProjectAll(vs[1..], t);
      if head != [] {
        assert (head + rest)[1..] == rest;
      } else {
        assert head + rest == rest;
      }
    }
  }

  lemma {:induction false} AliveIsUp(ns: seq<C.Node>, ps: seq<C.Proc>)
    requires |ns| == |ps| && forall w :: 0 <= w < |ns| ==> ns[w].up == ps[w].up
    ensures S.Sum(ns, S.Alive) == UpProcs(ps)
    decreases |ns|
  {
    if ns != [] {
      AliveIsUp(ns[..|ns| - 1], ps[..|ps| - 1]);
    }
  }

  lemma {:induction false} WorkersAreProcs(x: C.Setup, s: C.Fleet, t: string)
    requires C.Ok(x, s)
    ensures S.Workers(C.View(s, t)) == UpProcs(s.procs)
  {
    forall w | 0 <= w < |s.procs|
      ensures C.View(s, t).nodes[w].up == s.procs[w].up
    {
      C.ViewNode(s, t, w);
      C.UpAgrees(x, s, w, t);
    }
    AliveIsUp(C.View(s, t).nodes, s.procs);
  }

  /** What the harness allows for the workers' pools covers what they can hold exactly when no cost
      exceeds a fifth of the lease size by more than one. */
  lemma {:induction false} SlackCovers(p: N.Params)
    requires p.Valid()
    ensures (p.Floor() + p.leaseSize) as real <= 1.2 * p.leaseSize as real <==> 5 * (p.maxCost - 1) <= p.leaseSize
  {
  }

  /** One tenant's system stays within the harness's bound: `d` tokens are admitted, with `k` restarts. */
  lemma {:induction false} SystemWithinBound(
      x: S.World, s: S.Sys, vs: seq<S.Event>, t0: real, t1: real, workers: nat, d: int, k: nat)
    requires x.Valid() && x.Known() && S.Inv(x, s) && S.ValidRun(x, s, vs) && S.ReadsWithin(vs, t0, t1) && t0 <= t1
    requires S.Workers(s) <= workers && 5 * (x.maxCost - 1) <= x.cfg.leaseSize
    requires d == S.Admitted(S.Run(x, s, vs)) - S.Admitted(s) && k == S.Restarts(vs)
    ensures d as real <= HarnessBound(x.cfg, x.tenant, t1 - t0, workers, k)
  {
    SlackCovers(x.Params());
    S.AdmissionWindow(x, s, vs, t0, t1, workers, 1.2 * x.cfg.leaseSize as real);
  }

  /** Tokens admitted for a tenant during a run. */
  ghost function AdmittedIn(x: C.Setup, s: C.Fleet, vs: seq<C.Event>, t: string): int
    requires C.ValidRun(x, s, vs)
  {
    S.Admitted(C.View(C.Run(x, s, vs), t)) - S.Admitted(C.View(s, t))
  }

  /** Everything the tenant's own system needs to know about a run of the cluster. */
  lemma {:induction false} TenantRun(x: C.Setup, s: C.Fleet, vs: seq<C.Event>, t: string, t0: real, t1: real)
    requires x.Valid() && C.Reachable(x, s) && C.ValidRun(x, s, vs) && ReadsWithin(vs, t0, t1)
    ensures S.Inv(x.For(t), C.View(s, t))
    ensures S.ValidRun(x.For(t), C.View(s, t), C.ProjectAll(vs, t))
    ensures S.ReadsWithin(C.ProjectAll(vs, t), t0, t1) && S.Restarts(C.ProjectAll(vs, t)) == Restarts(vs)
    ensures S.Workers(C.View(s, t)) == UpProcs(s.procs)
    ensures AdmittedIn(x, s, vs, t)
            == S.Admitted(S.Run(x.For(t), C.View(s, t), C.ProjectAll(vs, t))) - S.Admitted(C.View(s, t))
  {
    C.ViewReachable(x, s, t);
    C.RunProjects(x, s, vs, t);
    S.ReachableInv(x.For(t), C.View(s, t));
    ProjectionKeepsWindow(vs, t, t0, t1);
    WorkersAreProcs(x, s, t);
  }

  /** The central claim for the whole cluster: from any reachable state, over any window, whatever all
      the other tenants do. */
  lemma {:induction false} ClusterAdmissionWindow(
      x: C.Setup, s: C.Fleet, vs: seq<C.Event>, t: string, t0: real, t1: real, workers: nat, slack: real)
    requires x.Valid() && C.Reachable(x, s) && C.ValidRun(x, s, vs) && x.For(t).Known()
    requires ReadsWithin(vs, t0, t1) && t0 <= t1
    requires UpProcs(s.procs) <= workers && (x.Params().Floor() + x.cfg.leaseSize) as real <= slack
    ensures AdmittedIn(x, s, vs, t) as real <= S.Allowance(x.For(t), t1 - t0, Restarts(vs), workers, slack)
  {
    TenantRun(x, s, vs, t, t0, t1);
    S.AdmissionWindow(x.For(t), C.View(s, t), C.ProjectAll(vs, t), t0, t1, workers, slack);
  }

  lemma {:induction false} TenantWithinBound(
      x: C.Setup, s: C.Fleet, vs: seq<C.Event>, t: string, t0: real, t1: real, workers: nat, d: int, k: nat)
    requires x.Valid() && C.Reachable(x, s) && C.ValidRun(x, s, vs) && x.For(t).Known()
    requires ReadsWithin(vs, t0, t1) && t0 <= t1 && UpProcs(s.procs) <= workers
    requires 5 * (x.maxCost - 1) <= x.cfg.leaseSize
    requires d == AdmittedIn(x, s, vs, t) && k == Restarts(vs)
    ensures d as real <= HarnessBound(x.cfg, t, t1 - t0, workers, k)
  {
    TenantRun(x, s, vs, t, t0, t1);
    SystemWithinBound(x.For(t), C.View(s, t), C.ProjectAll(vs, t), t0, t1, workers, d, k);
  }

  /** The universal assertion holds: in every run of the whole cluster, with any number of tenants,
      workers, crashes, lost or late replies and coordinator restarts, what clients saw admitted in a
      window passes the harness's check - provided no request costs more than a fifth of the lease size
      plus one. `results` is what clients saw, at most what workers admitted; no request can name the
      empty tenant. */
  lemma {:induction false} HarnessInvariantHolds(
      x: C.Setup, s: C.Fleet, vs: seq<C.Event>, t0: real, t1: real, workers: nat, results: map<string, int>)
    requires x.Valid() && C.Reachable(x, s) && C.ValidRun(x, s, vs)
    requires ReadsWithin(vs, t0, t1) && t0 <= t1 && UpProcs(s.procs) <= workers
    requires 5 * (x.maxCost - 1) <= x.cfg.leaseSize
    requires "" !in results && forall t :: t in results ==> results[t] <= AdmittedIn(x, s, vs, t)
    ensures forall t :: t in results && t in x.cfg.tenants ==>
              results[t] as real <= HarnessBound(x.cfg, t, t1 - t0, workers, Restarts(vs))
  {
    forall t | t in results && t in x.cfg.tenants
      ensures results[t] as real <= HarnessBound(x.cfg, t, t1 - t0, workers, Restarts(vs))
    {
      TenantWithinBound(x, s, vs, t, t0, t1, workers, AdmittedIn(x, s, vs, t), Restarts(vs));
    }
  }
}
