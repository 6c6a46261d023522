/** The system with all its tenants: one coordinator process with an entry per configured tenant, and
    worker processes whose per-tenant state is created on first use. */
module Cluster {
  import opened Pools
  import opened TokenBucket
  import opened Coordinator
  import N = Nodes
  import S = TenantSystem

  type Node = N.Node

  datatype Proc = Proc(up: bool, nodes: map<string, Node>)

  datatype Fleet = Fleet(entries: map<string, Entry>, procs: seq<Proc>, retired: map<string, nat>)

  datatype Event =
    | Work(w: nat, tenant: string, e: N.Event)
    | Lease(w: nat, tenant: string, call: nat, now: real)
    | CrashWorker(w: nat)
    | Spawn
    | Restart(now: real)

  /** The configuration and the largest request cost of any tenant. */
  datatype Setup = Setup(cfg: Config, maxCost: int) {
    ghost predicate Valid() {
      cfg.Valid() && maxCost >= 1
    }

    function Params(): N.Params {
      N.Params(cfg.leaseSize, cfg.ttl, maxCost)
    }

    function For(tenant: string): S.World {
      S.World(cfg, tenant, maxCost)
    }
  }

  function Untouched(up: bool): Node {
    if up then N.FRESH else N.AfterCrash(N.FRESH)
  }

  /** A tenant this process has not seen yet has the state of a fresh pool. */
  function NodeOf(p: Proc, tenant: string): Node {
    if tenant in p.nodes then p.nodes[tenant] else Untouched(p.up)
  }

  function RetiredFor(s: Fleet, tenant: string): nat {
    if tenant in s.retired then s.retired[tenant] else 0
  }

  function Init(x: Setup, now: real): Fleet {
    Fleet(Start(x.cfg, now), [], map[])
  }

  ghost predicate Ok(x: Setup, s: Fleet) {
    && s.entries.Keys == x.cfg.tenants.Keys
    && (forall t :: t in s.entries ==>
          && s.entries[t].Valid()
          && s.entries[t].bucket.rate == x.cfg.tenants[t]
          && s.entries[t].bucket.cap == x.cfg.tenants[t] * BURST_SECONDS)
    && ("" in s.entries ==> s.entries[""].tokensGranted == 0)
    && s.retired.Keys <= s.entries.Keys && ("" in s.retired ==> s.retired[""] == 0)
    && (forall w, t :: 0 <= w < |s.procs| && t in s.procs[w].nodes ==> s.procs[w].nodes[t].up == s.procs[w].up)
  }

  ghost predicate Enabled(x: Setup, s: Fleet, v: Event) {
    match v
    case Work(w, t, e) =>
      w < |s.procs| && !e.Answer? && !e.Crash? && N.Enabled(x.Params(), NodeOf(s.procs[w], t), e)
    case Lease(w, t, i, now) =>
      && w < |s.procs| && i < |NodeOf(s.procs[w], t).calls|
      && NodeOf(s.procs[w], t).calls[i].reply.None?
    case CrashWorker(w) => w < |s.procs| && s.procs[w].up
    case Spawn => true
    case Restart(now) => forall t :: t in s.entries ==> now >= s.entries[t].bucket.last
  }

  function ReplyFor(x: Setup, s: Fleet, tenant: string, now: real): Reply
    requires tenant in s.entries ==> s.entries[tenant].bucket.rate > 0.0
  {
    if tenant == "" then BadRequest
    else if tenant !in s.entries then NotFound
    else LeaseReply(x.cfg, s.entries[tenant], now)
  }

  function EntriesAfter(x: Setup, s: Fleet, tenant: string, now: real): map<string, Entry> {
    if tenant == "" || tenant !in s.entries then s.entries
    else s.entries[tenant := AfterLease(x.cfg, s.entries[tenant], now)]
  }

  function WithNode(s: Fleet, w: nat, tenant: string, n: Node): seq<Proc>
    requires w < |s.procs|
  {
    s.procs[w := s.procs[w].(nodes := s.procs[w].nodes[tenant := n])]
  }

  function Crashed(p: Proc): Proc {
    Proc(false, map t | t in p.nodes :: N.AfterCrash(p.nodes[t]))
  }

  ghost function Step(x: Setup, s: Fleet, v: Event): Fleet
    requires Ok(x, s) && Enabled(x, s, v)
  {
    match v
    case Work(w, t, e) =>
      s.(procs := WithNode(s, w, t, N.Step(x.Params(), NodeOf(s.procs[w], t), e)))
    case Lease(w, t, i, now) =>
      s.(entries := EntriesAfter(x, s, t, now),
         procs := WithNode(s, w, t, N.AfterAnswer(NodeOf(s.procs[w], t), i, ReplyFor(x, s, t, now))))
    case CrashWorker(w) => s.(procs := s.procs[w := Crashed(s.procs[w])])
    case Spawn => s.(procs := s.procs + [Proc(true, map[])])
    case Restart(now) =>
      Fleet(Start(x.cfg, now), s.procs,
            map t | t in s.entries :: RetiredFor(s, t) + s.entries[t].tokensGranted)
  }

  ghost predicate ValidRun(x: Setup, s: Fleet, vs: seq<Event>)
    decreases |vs|
  {
    Ok(x, s) && (vs == [] || (Enabled(x, s, vs[0]) && ValidRun(x, Step(x, s, vs[0]), vs[1..])))
  }

  ghost function Run(x: Setup, s: Fleet, vs: seq<Event>): Fleet
    requires ValidRun(x, s, vs)
    decreases |vs|
  {
    if vs == [] then s else Run(x, Step(x, s, vs[0]), vs[1..])
  }

  ghost predicate Reachable(x: Setup, s: Fleet) {
    exists now, vs :: ValidRun(x, Init(x, now), vs) && Run(x, Init(x, now), vs) == s
  }

  // One tenant's view.

  /** Everything in the cluster that concerns one tenant. */
  function View(s: Fleet, t: string): S.Sys {
    S.Sys(if t != "" && t in s.entries then Some(s.entries[t]) else None,
          seq(|s.procs|, w requires 0 <= w < |s.procs| => NodeOf(s.procs[w], t)),
          RetiredFor(s, t))
  }

  /** What a step of the cluster is for one tenant, if it concerns it at all. */
  function Project(v: Event, t: string): seq<S.Event> {
    match v
    case Work(w, u, e) => if u == t then [S.OnNode(w, e)] else []
    case Lease(w, u, i, now) => if u == t then [S.Lease(w, i, now)] else []
    case CrashWorker(w) => [S.OnNode(w, N.Crash)]
    case Spawn => [S.Spawn]
    case Restart(now) => [S.Restart(now)]
  }

  function ProjectAll(vs: seq<Event>, t: string): seq<S.Event>
    decreases |vs|
  {
    if vs == [] then [] else Project(vs[0], t) + ProjectAll(vs[1..], t)
  }

  /** Replacing one tenant's state on one worker, and its entry. */
  lemma {:induction false} OkNode(x: Setup, s: Fleet, w: nat, t: string, n: Node, entries: map<string, Entry>)
    requires x.Valid() && Ok(x, s) && w < |s.procs| && n.up == s.procs[w].up
    requires Ok(x, s.(entries := entries))
    ensures Ok(x, s.(entries := entries, procs := WithNode(s, w, t, n)))
  {
  }

  lemma {:induction false} OkEntries(x: Setup, s: Fleet, t: string, now: real)
    requires x.Valid() && Ok(x, s)
    ensures Ok(x, s.(entries := EntriesAfter(x, s, t, now)))
  {
    if t in s.entries {
      LeaseDebitsWhatItGrants(x.cfg, s.entries[t], now);
    }
  }

  lemma {:induction false} UpAgrees(x: Setup, s: Fleet, w: nat, t: string)
    requires Ok(x, s) && w < |s.procs|
    ensures NodeOf(s.procs[w], t).up == s.procs[w].up
  {
  }

  lemma {:induction false} OkStep(x: Setup, s: Fleet, v: Event)
    requires x.Valid() && Ok(x, s) && Enabled(x, s, v)
    ensures Ok(x, Step(x, s, v))
  {
    match v
    case Work(w, t, e) =>
      UpAgrees(x, s, w, t);
      OkNode(x, s, w, t, N.Step(x.Params(), NodeOf(s.procs[w], t), e), s.entries);
    case Lease(w, t, i, now) =>
      UpAgrees(x, s, w, t);
      OkEntries(x, s, t, now);
      OkNode(x, s, w, t, N.AfterAnswer(NodeOf(s.procs[w], t), i, ReplyFor(x, s, t, now)), EntriesAfter(x, s, t, now));
    case CrashWorker(w) =>
    case Spawn =>
    case Restart(now) =>
  }

  lemma {:induction false} ViewNode(s: Fleet, t: string, w: nat)
    requires w < |s.procs|
    ensures View(s, t).nodes[w] == NodeOf(s.procs[w], t)
  {
  }

  lemma {:induction false} ViewWithNode(s: Fleet, w: nat, u: string, n: Node, entries: map<string, Entry>, t: string)
    requires w < |s.procs|
    ensures View(s.(procs := WithNode(s, w, u, n), entries := entries), t).nodes
            == if u == t then View(s, t).nodes[w := n] else View(s, t).nodes
  {
    var m := s.(procs := WithNode(s, w, u, n), entries := entries);
    forall v | 0 <= v < |s.procs|
      ensures View(m, t).nodes[v] == if u == t && v == w then n else View(s, t).nodes[v]
    {
      ViewNode(m, t, v);
      ViewNode(s, t, v);
    }
  }

  lemma {:induction false} ViewEntry(x: Setup, s: Fleet, t: string)
    requires x.Valid() && Ok(x, s)
    ensures S.EntryOk(x.For(t), View(s, t).entry)
  {
  }

  lemma {:induction false} LeaseForTenant(x: Setup, s: Fleet, t: string, now: real)
    requires x.Valid() && Ok(x, s)
    ensures S.EntryOk(x.For(t), View(s, t).entry)
    ensures ReplyFor(x, s, t, now) == S.ReplyTo(x.For(t), View(s, t).entry, now)
    ensures var e := EntriesAfter(x, s, t, now);
            (if t != "" && t in e then Some(e[t]) else None) == S.EntryAfter(x.For(t), View(s, t).entry, now)
    ensures forall u :: u != t ==> (u in EntriesAfter(x, s, t, now) <==> u in s.entries)
    ensures forall u :: u != t && u in s.entries ==> EntriesAfter(x, s, t, now)[u] == s.entries[u]
  {
    ViewEntry(x, s, t);
  }

  lemma {:induction false} ViewOwnLease(x: Setup, s: Fleet, w: nat, i: nat, now: real, t: string)
    requires x.Valid() && Ok(x, s) && Enabled(x, s, Lease(w, t, i, now))
    ensures var view := View(s, t);
            && S.EntryOk(x.For(t), view.entry) && S.Enabled(x.For(t), view, S.Lease(w, i, now))
            && View(Step(x, s, Lease(w, t, i, now)), t) == S.Step(x.For(t), view, S.Lease(w, i, now))
  {
    LeaseForTenant(x, s, t, now);
    ViewWithNode(s, w, t, N.AfterAnswer(NodeOf(s.procs[w], t), i, ReplyFor(x, s, t, now)), EntriesAfter(x, s, t, now), t);
    ViewNode(s, t, w);
  }

  lemma {:induction false} ViewOthersLease(x: Setup, s: Fleet, w: nat, u: string, i: nat, now: real, t: string)
    requires x.Valid() && Ok(x, s) && Enabled(x, s, Lease(w, u, i, now)) && u != t
    ensures View(Step(x, s, Lease(w, u, i, now)), t) == View(s, t)
  {
    LeaseForTenant(x, s, u, now);
    ViewWithNode(s, w, u, N.AfterAnswer(NodeOf(s.procs[w], u), i, ReplyFor(x, s, u, now)), EntriesAfter(x, s, u, now), t);
  }

  lemma {:induction false} ViewWork(x: Setup, s: Fleet, w: nat, u: string, e: N.Event, t: string)
    requires x.Valid() && Ok(x, s) && Enabled(x, s, Work(w, u, e))
    ensures var m := Step(x, s, Work(w, u, e));
            var view := View(s, t);
            && (u != t ==> View(m, t) == view)
            && (u == t ==>
                  && S.EntryOk(x.For(t), view.entry) && S.Enabled(x.For(t), view, S.OnNode(w, e))
                  && View(m, t) == S.Step(x.For(t), view, S.OnNode(w, e)))
  {
    var m := Step(x, s, Work(w, u, e));
    if u == t {
      assert View(m, t).nodes == S.Step(x.For(t), View(s, t), S.OnNode(w, e)).nodes;
    } else {
      assert View(m, t).nodes == View(s, t).nodes;
    }
  }

  lemma {:induction false} CrashedNode(p: Proc, t: string)
    requires p.up
    ensures NodeOf(Crashed(p), t) == N.AfterCrash(NodeOf(p, t))
  {
    if t in p.nodes {
      assert t in Crashed(p).nodes;
    } else {
      assert t !in Crashed(p).nodes;
    }
  }

  lemma {:induction false} ViewCrash(x: Setup, s: Fleet, w: nat, t: string)
    requires x.Valid() && Ok(x, s) && Enabled(x, s, CrashWorker(w))
    ensures var view, v := View(s, t), S.OnNode(w, N.Crash);
            && S.EntryOk(x.For(t), view.entry) && S.Enabled(x.For(t), view, v)
            && View(Step(x, s, CrashWorker(w)), t) == S.Step(x.For(t), view, v)
  {
    var v := S.OnNode(w, N.Crash);
    var m := Step(x, s, CrashWorker(w));
    CrashedNode(s.procs[w], t);
    ViewNode(s, t, w);
    assert View(m, t).nodes == S.Step(x.For(t), View(s, t), v).nodes;
  }

  lemma {:induction false} ViewShared(x: Setup, s: Fleet, v: Event, t: string)
    requires x.Valid() && Ok(x, s) && Enabled(x, s, v) && (v.Spawn? || v.Restart?)
    ensures var view, u := View(s, t), if v.Spawn? then S.Spawn else S.Restart(v.now);
            && S.EntryOk(x.For(t), view.entry) && S.Enabled(x.For(t), view, u)
            && View(Step(x, s, v), t) == S.Step(x.For(t), view, u)
  {
    var u := if v.Spawn? then S.Spawn else S.Restart(v.now);
    assert View(Step(x, s, v), t).nodes == S.Step(x.For(t), View(s, t), u).nodes;
  }

  /** A step of the cluster is, for each tenant, one step of that tenant's system or none. */
  lemma {:induction false} StepProjects(x: Setup, s: Fleet, v: Event, t: string)
    requires x.Valid() && Ok(x, s) && Enabled(x, s, v)
    ensures S.ValidRun(x.For(t), View(s, t), Project(v, t))
    ensures S.Run(x.For(t), View(s, t), Project(v, t)) == View(Step(x, s, v), t)
  {
    OkStep(x, s, v);
    match v
    case Work(w, u, e) => ViewWork(x, s, w, u, e, t);
    case Lease(w, u, i, now) =>
      if u == t {
        ViewOwnLease(x, s, w, i, now, t);
      } else {
        ViewOthersLease(x, s, w, u, i, now, t);
      }
    case CrashWorker(w) => ViewCrash(x, s, w, t);
    case Spawn => ViewShared(x, s, v, t);
    case Restart(_) => ViewShared(x, s, v, t);
  }

  /** Every run of the cluster is, for each tenant, a run of that tenant's system alone. */
  lemma {:induction false} RunProjects(x: Setup, s: Fleet, vs: seq<Event>, t: string)
    requires x.Valid() && ValidRun(x, s, vs)
    ensures S.ValidRun(x.For(t), View(s, t), ProjectAll(vs, t))
    ensures S.Run(x.For(t), View(s, t), ProjectAll(vs, t)) == View(Run(x, s, vs), t)
    decreases |vs|
  {
    if vs == [] {
      assert S.EntryOk(x.For(t), View(s, t).entry);
    } else {
      StepProjects(x, s, vs[0], t);
      RunProjects(x, Step(x, s, vs[0]), vs[1..], t);
      S.RunConcat(x.For(t), View(s, t), Project(vs[0], t), ProjectAll(vs[1..], t));
    }
  }

  lemma {:induction false} ViewReachable(x: Setup, s: Fleet, t: string)
    requires x.Valid() && Reachable(x, s)
    ensures S.Reachable(x.For(t), View(s, t))
  {
    var now, vs :| ValidRun(x, Init(x, now), vs) && Run(x, Init(x, now), vs) == s;
    RunProjects(x, Init(x, now), vs, t);
    assert View(Init(x, now), t) == S.Init(x.For(t), now);
  }

  // Tenant isolation.

  /** Deletes the steps of all other tenants; crashes, spawns and restarts stay. */
  function Only(vs: seq<Event>, t: string): seq<Event>
    decreases |vs|
  {
    if vs == [] then []
    else if (vs[0].Work? || vs[0].Lease?) && vs[0].tenant != t then Only(vs[1..], t)
    else [vs[0]] + Only(vs[1..], t)
  }

  /** `r` has seen only tenant t's share of what `s` has seen. */
  ghost predicate Quieter(x: Setup, s: Fleet, r: Fleet, t: string) {
    && Ok(x, s) && Ok(x, r)
    && View(s, t) == View(r, t)
    && |s.procs| == |r.procs|
    && (forall w :: 0 <= w < |s.procs| ==> s.procs[w].up == r.procs[w].up)
    && (forall u :: u in s.entries ==> r.entries[u].bucket.last <= s.entries[u].bucket.last)
  }

  lemma {:induction false} QuieterEnabled(x: Setup, s: Fleet, r: Fleet, v: Event, t: string)
    requires Quieter(x, s, r, t) && Enabled(x, s, v)
    requires (v.Work? || v.Lease?) ==> v.tenant == t
    ensures Enabled(x, r, v)
  {
    if (v.Work? || v.Lease?) && v.w < |s.procs| {
      ViewNode(s, t, v.w);
      ViewNode(r, t, v.w);
    }
  }

  lemma {:induction false} LastAfter(x: Setup, s: Fleet, v: Event, u: string)
    requires x.Valid() && Ok(x, s) && Enabled(x, s, v) && u in s.entries
    ensures u in Step(x, s, v).entries
    ensures Step(x, s, v).entries[u].bucket.last ==
            var last := s.entries[u].bucket.last;
            if v.Restart? then v.now
            else if v.Lease? && v.tenant == u && u != "" && v.now > last then v.now
            else last
  {
    if v.Lease? && v.tenant == u {
      LeaseDebitsWhatItGrants(x.cfg, s.entries[u], v.now);
    }
  }

  lemma {:induction false} UpAfter(x: Setup, s: Fleet, v: Event)
    requires x.Valid() && Ok(x, s) && Enabled(x, s, v)
    ensures var m := Step(x, s, v);
            && |m.procs| == |s.procs| + (if v.Spawn? then 1 else 0)
            && forall w :: 0 <= w < |m.procs| ==>
                 m.procs[w].up == if w == |s.procs| then true else s.procs[w].up && v != CrashWorker(w)
  {
  }

  lemma {:induction false} QuieterStep(x: Setup, s: Fleet, r: Fleet, v: Event, t: string)
    requires x.Valid() && Quieter(x, s, r, t) && Enabled(x, s, v) && Enabled(x, r, v)
    requires (v.Work? || v.Lease?) ==> v.tenant == t
    ensures Quieter(x, Step(x, s, v), Step(x, r, v), t)
  {
    OkStep(x, s, v);
    OkStep(x, r, v);
    StepProjects(x, s, v, t);
    StepProjects(x, r, v, t);
    UpAfter(x, s, v);
    UpAfter(x, r, v);
    forall u | u in s.entries
      ensures Step(x, r, v).entries[u].bucket.last <= Step(x, s, v).entries[u].bucket.last
    {
      LastAfter(x, s, v, u);
      LastAfter(x, r, v, u);
    }
  }

  lemma {:induction false} QuieterSkip(x: Setup, s: Fleet, r: Fleet, v: Event, t: string)
    requires x.Valid() && Quieter(x, s, r, t) && Enabled(x, s, v)
    requires (v.Work? || v.Lease?) && v.tenant != t
    ensures Quieter(x, Step(x, s, v), r, t)
  {
    OkStep(x, s, v);
    UpAfter(x, s, v);
    if v.Work? {
      ViewWork(x, s, v.w, v.tenant, v.e, t);
    } else {
      ViewOthersLease(x, s, v.w, v.tenant, v.call, v.now, t);
    }
    forall u | u in s.entries
      ensures r.entries[u].bucket.last <= Step(x, s, v).entries[u].bucket.last
    {
      LastAfter(x, s, v, u);
    }
  }

  lemma {:induction false} QuieterRun(x: Setup, s: Fleet, r: Fleet, vs: seq<Event>, t: string)
    requires x.Valid() && Quieter(x, s, r, t) && ValidRun(x, s, vs)
    ensures ValidRun(x, r, Only(vs, t))
    ensures Quieter(x, Run(x, s, vs), Run(x, r, Only(vs, t)), t)
    decreases |vs|
  {
    if vs != [] {
      var v := vs[0];
      if (v.Work? || v.Lease?) && v.tenant != t {
        QuieterSkip(x, s, r, v, t);
        QuieterRun(x, Step(x, s, v), r, vs[1..], t);
      } else {
        QuieterEnabled(x, s, r, v, t);
        QuieterStep(x, s, r, v, t);
        QuieterRun(x, Step(x, s, v), Step(x, r, v), vs[1..], t);
        assert ([v] + Only(vs[1..], t))[1..] == Only(vs[1..], t);
      }
    }
  }

  /** Tenants do not interfere: deleting every step of all other tenants from any run leaves a run, and
      leaves this tenant's bucket, counters, pools, calls, waiters and history on every worker exactly
      as they were. */
  lemma {:induction false} TenantsDoNotInterfere(x: Setup, s: Fleet, vs: seq<Event>, t: string)
    requires x.Valid() && ValidRun(x, s, vs)
    ensures ValidRun(x, s, Only(vs, t))
    ensures View(Run(x, s, Only(vs, t)), t) == View(Run(x, s, vs), t)
  {
    QuieterRun(x, s, s, vs, t);
  }
}
