/** One tenant's whole system: the coordinator's bucket, every worker that was ever started, and all
    lease calls between them, with crashes, restarts, timeouts and lost replies at any point. */
module TenantSystem {
  import opened Pools
  import opened TokenBucket
  import opened Coordinator
  import N = Nodes
  import T = NodeTheorems

  type Node = N.Node

  /** The coordinator's configuration, the tenant in question, and the largest cost of any request. */
  datatype World = World(cfg: Config, tenant: string, maxCost: int) {
    ghost predicate Valid() {
      cfg.Valid() && maxCost >= 1
    }

    function Params(): N.Params {
      N.Params(cfg.leaseSize, cfg.ttl, maxCost)
    }

    /** A request without a tenant is refused before the lookup. */
    predicate Known() {
      tenant != "" && tenant in cfg.tenants
    }

    function Rate(): real {
      if Known() then cfg.tenants[tenant] else 0.0
    }

    function Burst(): real {
      Rate() * BURST_SECONDS
    }
  }

  /** `entry` is the tenant's state in the running coordinator, if it is configured; `retired` counts
      the tokens granted by the coordinator's earlier incarnations. */
  datatype Sys = Sys(entry: Option<Entry>, nodes: seq<Node>, retired: nat)

  datatype Event =
    | OnNode(w: nat, e: N.Event)
    | Lease(w: nat, call: nat, now: real)   // the coordinator handles a call, expected or orphaned
    | Spawn                                 // a new worker process
    | Restart(now: real)                    // a new coordinator process, all buckets full

  function Boot(x: World, now: real): Option<Entry> {
    if x.Known() then Some(NewEntry(x.Rate(), now)) else None
  }

  function Init(x: World, now: real): Sys {
    Sys(Boot(x, now), [], 0)
  }

  function ReplyTo(x: World, entry: Option<Entry>, now: real): Reply
    requires entry.Some? ==> entry.value.bucket.rate > 0.0
  {
    if x.tenant == "" then BadRequest
    else if entry.None? then NotFound
    else LeaseReply(x.cfg, entry.value, now)
  }

  function EntryAfter(x: World, entry: Option<Entry>, now: real): Option<Entry> {
    if x.tenant == "" || entry.None? then entry else Some(AfterLease(x.cfg, entry.value, now))
  }

  /** Coordinator processes follow one another on one clock: a new one starts no earlier than the
      last refill of the old one. */
  ghost predicate Enabled(x: World, s: Sys, v: Event) {
    match v
    case OnNode(w, e) => w < |s.nodes| && !e.Answer? && N.Enabled(x.Params(), s.nodes[w], e)
    case Lease(w, i, now) => w < |s.nodes| && i < |s.nodes[w].calls| && s.nodes[w].calls[i].reply.None?
    case Spawn => true
    case Restart(now) => s.entry.Some? ==> now >= s.entry.value.bucket.last
  }

  function GrantedBy(entry: Option<Entry>): nat {
    if entry.Some? then entry.value.tokensGranted else 0
  }

  ghost function Step(x: World, s: Sys, v: Event): Sys
    requires Enabled(x, s, v) && EntryOk(x, s.entry)
  {
    match v
    case OnNode(w, e) => s.(nodes := s.nodes[w := N.Step(x.Params(), s.nodes[w], e)])
    case Lease(w, i, now) =>
      s.(entry := EntryAfter(x, s.entry, now),
         nodes := s.nodes[w := N.AfterAnswer(s.nodes[w], i, ReplyTo(x, s.entry, now))])
    case Spawn => s.(nodes := s.nodes + [N.FRESH])
    case Restart(now) => s.(entry := Boot(x, now), retired := s.retired + GrantedBy(s.entry))
  }

  ghost predicate EntryOk(x: World, entry: Option<Entry>) {
    && (entry.Some? <==> x.Known())
    && (entry.Some? ==>
          && entry.value.Valid()
          && entry.value.bucket.rate == x.Rate()
          && entry.value.bucket.cap == x.Burst())
  }

  lemma {:induction false} EntryOkStep(x: World, s: Sys, v: Event)
    requires x.Valid() && EntryOk(x, s.entry) && Enabled(x, s, v)
    ensures EntryOk(x, Step(x, s, v).entry)
    ensures v.Lease? ==> N.Enabled(x.Params(), s.nodes[v.w], N.Answer(v.call, ReplyTo(x, s.entry, v.now)))
  {
    if v.Lease? && s.entry.Some? {
      LeaseDebitsWhatItGrants(x.cfg, s.entry.value, v.now);
    }
  }

  ghost predicate ValidRun(x: World, s: Sys, vs: seq<Event>)
    decreases |vs|
  {
    EntryOk(x, s.entry) &&
    (vs == [] || (Enabled(x, s, vs[0]) && ValidRun(x, Step(x, s, vs[0]), vs[1..])))
  }

  ghost function Run(x: World, s: Sys, vs: seq<Event>): Sys
    requires ValidRun(x, s, vs)
    decreases |vs|
  {
    if vs == [] then s else Run(x, Step(x, s, vs[0]), vs[1..])
  }

  lemma {:induction false} RunConcat(x: World, s: Sys, us: seq<Event>, vs: seq<Event>)
    requires ValidRun(x, s, us) && ValidRun(x, Run(x, s, us), vs)
    ensures ValidRun(x, s, us + vs) && Run(x, s, us + vs) == Run(x, Run(x, s, us), vs)
    decreases |us|
  {
    if us == [] {
      assert us + vs == vs;
    } else {
      RunConcat(x, Step(x, s, us[0]), us[1..], vs);
      assert (us + vs)[1..] == us[1..] + vs;
    }
  }

  ghost predicate Reachable(x: World, s: Sys) {
    exists now, vs :: ValidRun(x, Init(x, now), vs) && Run(x, Init(x, now), vs) == s
  }

  // Totals over workers.

  ghost function Sum(ns: seq<Node>, f: Node -> int): int {
    if ns == [] then 0 else Sum(ns[..|ns| - 1], f) + f(ns[|ns| - 1])
  }

  lemma {:induction false} SumUpdate(ns: seq<Node>, f: Node -> int, i: nat, n: Node)
    requires i < |ns|
    ensures Sum(ns[i := n], f) == Sum(ns, f) - f(ns[i]) + f(n)
    decreases |ns|
  {
    var k := |ns| - 1;
    if i == k {
      assert ns[i := n][..k] == ns[..k];
    } else {
      assert ns[i := n][..k] == ns[..k][i := n];
      SumUpdate(ns[..k], f, i, n);
    }
  }

  lemma {:induction false} SumPush(ns: seq<Node>, f: Node -> int, n: Node)
    ensures Sum(ns + [n], f) == Sum(ns, f) + f(n)
  {
    assert (ns + [n])[..|ns|] == ns;
  }

  ghost function DebitedBy(n: Node): int {
    n.debited
  }

  ghost function AdmittedBy(n: Node): int {
    n.counts.admittedTokens
  }

  ghost function LostBy(n: Node): int {
    n.expired + n.cleared + n.lost + n.crashed
  }

  ghost function HeldBy(n: Node): int {
    N.Held(n)
  }

  ghost function Alive(n: Node): int {
    if n.up then 1 else 0
  }

  /** Tokens debited for this tenant by all coordinator incarnations so far. */
  ghost function Debited(s: Sys): int {
    s.retired + GrantedBy(s.entry)
  }

  ghost function Admitted(s: Sys): int {
    Sum(s.nodes, AdmittedBy)
  }

  ghost function Workers(s: Sys): int {
    Sum(s.nodes, Alive)
  }

  // The invariant.

  ghost predicate Inv(x: World, s: Sys) {
    && EntryOk(x, s.entry)
    && (forall w :: 0 <= w < |s.nodes| ==> N.Inv(x.Params(), s.nodes[w]))
    && Debited(s) == Sum(s.nodes, DebitedBy)
  }

  lemma {:induction false} NodeUpdate(x: World, s: Sys, w: nat, n: Node, entry: Option<Entry>)
    requires Inv(x, s) && w < |s.nodes| && N.Inv(x.Params(), n) && EntryOk(x, entry)
    requires n.debited - s.nodes[w].debited == GrantedBy(entry) - GrantedBy(s.entry)
    ensures Inv(x, s.(nodes := s.nodes[w := n], entry := entry))
  {
    SumUpdate(s.nodes, DebitedBy, w, n);
  }

  lemma {:induction false} InvOnNode(x: World, s: Sys, w: nat, e: N.Event)
    requires x.Valid() && Inv(x, s) && Enabled(x, s, OnNode(w, e))
    ensures Inv(x, Step(x, s, OnNode(w, e)))
  {
    N.InvStep(x.Params(), s.nodes[w], e);
    DebitOnlyByAnswer(x.Params(), s.nodes[w], e);
    NodeUpdate(x, s, w, N.Step(x.Params(), s.nodes[w], e), s.entry);
  }

  lemma {:induction false} InvLease(x: World, s: Sys, w: nat, i: nat, now: real)
    requires x.Valid() && Inv(x, s) && Enabled(x, s, Lease(w, i, now))
    ensures Inv(x, Step(x, s, Lease(w, i, now)))
  {
    EntryOkStep(x, s, Lease(w, i, now));
    var r := ReplyTo(x, s.entry, now);
    N.InvStep(x.Params(), s.nodes[w], N.Answer(i, r));
    LeaseDebit(x, s.entry, now);
    NodeUpdate(x, s, w, N.AfterAnswer(s.nodes[w], i, r), EntryAfter(x, s.entry, now));
  }

  lemma {:induction false} NodePush(x: World, s: Sys, n: Node)
    requires Inv(x, s) && N.Inv(x.Params(), n) && n.debited == 0
    ensures Inv(x, s.(nodes := s.nodes + [n]))
  {
    SumPush(s.nodes, DebitedBy, n);
    var ns := s.nodes + [n];
    forall w | 0 <= w < |ns|
      ensures N.Inv(x.Params(), ns[w])
    {
      assert w < |s.nodes| ==> ns[w] == s.nodes[w];
    }
  }

  lemma {:induction false} InvRestart(x: World, s: Sys, now: real)
    requires x.Valid() && Inv(x, s)
    ensures Inv(x, s.(entry := Boot(x, now), retired := s.retired + GrantedBy(s.entry)))
  {
    FlowMono(BURST_SECONDS, 0.0, x.Rate());
  }

  lemma {:induction false} InvStep(x: World, s: Sys, v: Event)
    requires x.Valid() && Inv(x, s) && Enabled(x, s, v)
    ensures Inv(x, Step(x, s, v))
  {
    match v
    case OnNode(w, e) => InvOnNode(x, s, w, e);
    case Lease(w, i, now) => InvLease(x, s, w, i, now);
    case Spawn =>
      N.FreshInv(x.Params());
      NodePush(x, s, N.FRESH);
    case Restart(now) => InvRestart(x, s, now);
  }

  lemma {:induction false} DebitOnlyByAnswer(p: N.Params, n: Node, e: N.Event)
    requires N.Enabled(p, n, e) && !e.Answer?
    ensures N.Step(p, n, e).debited == n.debited
  {
  }

  lemma {:induction false} LeaseDebit(x: World, entry: Option<Entry>, now: real)
    requires x.Valid() && EntryOk(x, entry)
    ensures N.TokensIn(Some(ReplyTo(x, entry, now))) == GrantedBy(EntryAfter(x, entry, now)) - GrantedBy(entry)
  {
    if entry.Some? {
      LeaseDebitsWhatItGrants(x.cfg, entry.value, now);
    }
  }

  lemma {:induction false} InvRun(x: World, s: Sys, vs: seq<Event>)
    requires x.Valid() && Inv(x, s) && ValidRun(x, s, vs)
    ensures Inv(x, Run(x, s, vs))
    decreases |vs|
  {
    if vs != [] {
      InvStep(x, s, vs[0]);
      InvRun(x, Step(x, s, vs[0]), vs[1..]);
    }
  }

  lemma {:induction false} ReachableInv(x: World, s: Sys)
    requires x.Valid() && Reachable(x, s)
    ensures Inv(x, s)
  {
    var now, vs :| ValidRun(x, Init(x, now), vs) && Run(x, Init(x, now), vs) == s;
    InvRun(x, Init(x, now), vs);
  }

  // Conservation.

  lemma {:induction false} SumConserved(p: N.Params, ns: seq<Node>)
    requires forall w :: 0 <= w < |ns| ==> N.Inv(p, ns[w])
    ensures Sum(ns, DebitedBy) == Sum(ns, AdmittedBy) + Sum(ns, HeldBy) + Sum(ns, LostBy)
    decreases |ns|
  {
    if ns != [] {
      SumConserved(p, ns[..|ns| - 1]);
      assert N.Inv(p, ns[|ns| - 1]);
    }
  }

  /** In every reachable state, what all coordinator incarnations have debited is what workers have
      admitted, plus what live pools hold, plus what is on its way to them, plus what was lost to
      expiry, to clearing after a 404, to undelivered replies and to crashes. */
  lemma {:induction false} TokensAreConserved(x: World, s: Sys)
    requires x.Valid() && Reachable(x, s)
    ensures Debited(s) == Admitted(s) + Sum(s.nodes, HeldBy) + Sum(s.nodes, LostBy)
  {
    ReachableInv(x, s);
    SumConserved(x.Params(), s.nodes);
  }

  lemma {:induction false} OneMore(k: int, a: int, b: int)
    ensures (k + a) * b == k * b + a * b
  {
  }

  lemma {:induction false} SumHeldBound(x: World, ns: seq<Node>)
    requires x.Valid() && forall w :: 0 <= w < |ns| ==> N.Inv(x.Params(), ns[w])
    ensures 0 <= Sum(ns, HeldBy) <= Sum(ns, Alive) * (x.Params().Floor() + x.cfg.leaseSize)
    ensures 0 <= Sum(ns, Alive)
    decreases |ns|
  {
    if ns != [] {
      var n, b := ns[|ns| - 1], x.Params().Floor() + x.cfg.leaseSize;
      SumHeldBound(x, ns[..|ns| - 1]);
      T.HeldBound(x.Params(), n);
      OneMore(Sum(ns[..|ns| - 1], Alive), Alive(n), b);
    }
  }

  // The window theorem.

  /** The coordinator's clock readings all lie in the window. */
  ghost predicate ReadsWithin(vs: seq<Event>, t0: real, t1: real) {
    forall i :: 0 <= i < |vs| && (vs[i].Lease? || vs[i].Restart?) ==> t0 <= vs[i].now <= t1
  }

  ghost function Restarts(vs: seq<Event>): nat
    decreases |vs|
  {
    if vs == [] then 0 else (if vs[0].Restart? then 1 else 0) + Restarts(vs[1..])
  }

  /** What the bucket can still give until `t1`, restarts apart. */
  ghost function Supply(b: State, t1: real): real {
    b.tokens + if t1 > b.last then Flow(b.rate, t1 - b.last) else 0.0
  }

  lemma {:induction false} SupplyAfterLease(x: World, e: Entry, now: real, t1: real)
    requires x.Valid() && e.Valid() && now <= t1
    ensures var e' := AfterLease(x.cfg, e, now);
            e'.tokensGranted as real + Supply(e'.bucket, t1) <= e.tokensGranted as real + Supply(e.bucket, t1)
  {
    LeaseDebitsWhatItGrants(x.cfg, e, now);
    RefillValid(e.bucket, now);
    if now > e.bucket.last {
      FlowAdd(e.bucket.rate, now - e.bucket.last, t1 - now);
      FlowMono(e.bucket.rate, 0.0, t1 - now);
    }
  }

  /** From here until `t1`, with k restarts, at most the supply and k bursts are debited. */
  lemma {:induction false} DebitsFromHere(x: World, s: Sys, vs: seq<Event>, t0: real, t1: real)
    requires x.Valid() && x.Known() && ValidRun(x, s, vs) && ReadsWithin(vs, t0, t1)
    ensures (Debited(Run(x, s, vs)) - Debited(s)) as real
            <= Supply(s.entry.value.bucket, t1) + Flow(x.Burst(), Restarts(vs) as real)
    decreases |vs|
  {
    var b, k := s.entry.value.bucket, Restarts(vs) as real;
    FlowMono(x.Burst(), 0.0, k);
    if t1 > b.last {
      FlowMono(b.rate, 0.0, t1 - b.last);
    }
    if vs != [] {
      var v, m := vs[0], Step(x, s, vs[0]);
      EntryOkStep(x, s, v);
      DebitsFromHere(x, m, vs[1..], t0, t1);
      if v.Lease? {
        SupplyAfterLease(x, s.entry.value, v.now, t1);
      } else if v.Restart? {
        RestartSupply(x, s, v.now, t1);
        FlowAdd(x.Burst(), Restarts(vs[1..]) as real, 1.0);
      }
    }
  }

  lemma {:induction false} RestartSupply(x: World, s: Sys, now: real, t1: real)
    requires x.Valid() && x.Known() && EntryOk(x, s.entry) && now >= s.entry.value.bucket.last && now <= t1
    ensures Supply(Boot(x, now).value.bucket, t1) <= Supply(s.entry.value.bucket, t1) + Flow(x.Burst(), 1.0)
  {
    FlowMono(x.Rate(), t1 - now, t1 - s.entry.value.bucket.last);
  }

  /** Grants are debits: over any window the coordinator hands out at most rate x window + burst, plus
      one burst for each restart inside it. */
  lemma {:induction false} DebitsInWindow(x: World, s: Sys, vs: seq<Event>, t0: real, t1: real)
    requires x.Valid() && x.Known() && ValidRun(x, s, vs) && ReadsWithin(vs, t0, t1) && t0 <= t1
    ensures (Debited(Run(x, s, vs)) - Debited(s)) as real
            <= Flow(x.Rate(), t1 - t0) + Flow(x.Burst(), (Restarts(vs) + 1) as real)
    decreases |vs|
  {
    FlowMono(x.Rate(), 0.0, t1 - t0);
    FlowMono(x.Burst(), 0.0, (Restarts(vs) + 1) as real);
    if vs != [] {
      var v, m := vs[0], Step(x, s, vs[0]);
      var b := m.entry.value.bucket;
      EntryOkStep(x, s, v);
      if v.Lease? || v.Restart? {
        DebitsFromHere(x, m, vs[1..], t0, t1);
        FirstReadingSupply(x, s, v, t0, t1);
        FlowAdd(x.Burst(), Restarts(vs[1..]) as real, 1.0);
        FlowAdd(x.Burst(), Restarts(vs) as real, 1.0);
      } else {
        DebitsInWindow(x, m, vs[1..], t0, t1);
      }
    }
  }

  /** After the first reading in the window, what was just granted and what can still flow in until its
      end is at most a burst and rate x window. */
  lemma {:induction false} FirstReadingSupply(x: World, s: Sys, v: Event, t0: real, t1: real)
    requires x.Valid() && x.Known() && EntryOk(x, s.entry) && Enabled(x, s, v)
    requires (v.Lease? || v.Restart?) && t0 <= v.now <= t1
    ensures var m := Step(x, s, v);
            && m.entry.Some?
            && (Debited(m) - Debited(s)) as real + Supply(m.entry.value.bucket, t1)
               <= Flow(x.Burst(), 1.0) + Flow(x.Rate(), t1 - t0)
  {
    var m := Step(x, s, v);
    EntryOkStep(x, s, v);
    if v.Lease? {
      LeaseDebitsWhatItGrants(x.cfg, s.entry.value, v.now);
      RefillValid(s.entry.value.bucket, v.now);
    }
    var b := m.entry.value.bucket;
    assert b.last >= t0 && b.rate == x.Rate();
    FlowMono(x.Rate(), 0.0, t1 - t0);
    if t1 > b.last {
      FlowMono(x.Rate(), t1 - b.last, t1 - t0);
    }
  }

  lemma {:induction false} LossesGrow(x: World, s: Sys, vs: seq<Event>)
    requires x.Valid() && Inv(x, s) && ValidRun(x, s, vs)
    ensures Sum(Run(x, s, vs).nodes, LostBy) >= Sum(s.nodes, LostBy)
    decreases |vs|
  {
    if vs != [] {
      var v, p := vs[0], x.Params();
      InvStep(x, s, v);
      LossesGrow(x, Step(x, s, v), vs[1..]);
      match v
      case OnNode(w, e) =>
        T.HeldBound(p, s.nodes[w]);
        SumUpdate(s.nodes, LostBy, w, N.Step(p, s.nodes[w], e));
      case Lease(w, i, now) =>
        SumUpdate(s.nodes, LostBy, w, N.AfterAnswer(s.nodes[w], i, ReplyTo(x, s.entry, now)));
      case Spawn =>
        SumPush(s.nodes, LostBy, N.FRESH);
      case Restart(_) =>
    }
  }

  /** What is admitted in a window was held by some worker, or on its way to one, when the window
      began, or is debited in it: at most rate x window, one burst and one more per restart. */
  lemma {:induction false} AdmittedWasHeldOrDebited(x: World, s: Sys, vs: seq<Event>, t0: real, t1: real)
    requires x.Valid() && x.Known() && Inv(x, s) && ValidRun(x, s, vs) && ReadsWithin(vs, t0, t1) && t0 <= t1
    ensures (Admitted(Run(x, s, vs)) - Admitted(s) - Sum(s.nodes, HeldBy)) as real
            <= Flow(x.Rate(), t1 - t0) + Flow(x.Burst(), (Restarts(vs) + 1) as real)
  {
    var e := Run(x, s, vs);
    InvRun(x, s, vs);
    DebitsInWindow(x, s, vs, t0, t1);
    LossesGrow(x, s, vs);
    SumConserved(x.Params(), s.nodes);
    SumConserved(x.Params(), e.nodes);
    SumHeldBound(x, e.nodes);
  }

  /** What a tenant is allowed in a window with `k` coordinator restarts that begins with `workers` live
      workers, each of which may hold up to `slack` tokens. */
  ghost function Allowance(x: World, window: real, k: nat, workers: nat, slack: real): real {
    Flow(x.Rate(), window) + x.Burst() + Flow(workers as real, slack) + Flow(x.Burst(), k as real)
  }

  /** The repository's central claim. From any reachable state, over any block of steps whose
      coordinator readings lie in a window - whatever workers start, crash or time out, whatever
      replies are lost or late, and however often the coordinator restarts - the tokens admitted for a
      tenant are at most rate x window, plus one burst and one more per restart, plus
      max(C, watermark) - 1 + lease size for every worker alive at the start. */
  lemma {:induction false} AdmissionWindow(x: World, s: Sys, vs: seq<Event>, t0: real, t1: real, workers: nat, slack: real)
    requires x.Valid() && x.Known() && Inv(x, s) && ValidRun(x, s, vs) && ReadsWithin(vs, t0, t1) && t0 <= t1
    requires Workers(s) <= workers && (x.Params().Floor() + x.cfg.leaseSize) as real <= slack
    ensures (Admitted(Run(x, s, vs)) - Admitted(s)) as real
            <= Allowance(x, t1 - t0, Restarts(vs), workers, slack)
  {
    AdmittedWasHeldOrDebited(x, s, vs, t0, t1);
    SumHeldBound(x, s.nodes);
    SlackCovers(Workers(s), workers, x.Params().Floor() + x.cfg.leaseSize, slack);
    FlowAdd(x.Burst(), Restarts(vs) as real, 1.0);
  }

  lemma {:induction false} SlackCovers(k: int, workers: nat, b: int, slack: real)
    requires 0 <= k <= workers && 0 <= b && b as real <= slack
    ensures (k * b) as real <= Flow(workers as real, slack)
  {
    assert k * b <= workers * b;
    FlowMono(workers as real, b as real, slack);
  }
}
