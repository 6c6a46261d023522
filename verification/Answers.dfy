/** What a worker answers and counts, request by request, over every interleaving. */
module Answers {
  import opened Pools
  import opened Coordinator
  import opened Nodes
  import opened NodeTheorems
  import opened Pacing

  /** The answer that a step gives to a request, if it gives one: by the pool's budget, expiry, pacing and
      negative cache alone. */
  ghost function AnswerIn(c: Params, n: Node, e: Event): Option<Decision>
    requires Enabled(c, n, e)
  {
    match e
    case CheckBegin(cost, now) =>
      if now < n.pool.unknownUntil then Some(Unknown)
      else if Servable(n.pool, cost, now) then Some(Admit)
      else if n.pool.nextTry == ZERO_TIME && (n.pool.lastGrant == 0 || now >= n.pool.expiry) then None
      else Some(Reject)
    case CheckWake(w, now) =>
      if now < n.pool.unknownUntil then Some(Unknown)
      else if Servable(n.pool, n.waiters[w].cost, now) then Some(Admit)
      else Some(Reject)
    case CheckTimeout(_) => Some(Reject)
    case _ => None
  }

  /** The tokens an admission in this step is worth. */
  ghost function WorthOf(c: Params, n: Node, e: Event): int
    requires Enabled(c, n, e)
  {
    var cost := if e.CheckBegin? then e.cost else if e.CheckWake? then n.waiters[e.waiter].cost else 0;
    if AnswerIn(c, n, e) != Some(Admit) then 0 else if cost > 1 then cost else 1
  }

  ghost function OneIf(b: bool): nat {
    if b then 1 else 0
  }

  /** How many requests were admitted, what they were worth, how many were rejected or answered Unknown,
      how many lease calls were started and how many came back with an error. */
  datatype Tally = Tally(admitted: nat, worth: int, rejected: nat, unknown: nat, calls: nat, errors: nat) {
    function Plus(t: Tally): Tally {
      Tally(admitted + t.admitted, worth + t.worth, rejected + t.rejected, unknown + t.unknown, calls + t.calls, errors + t.errors)
    }
  }

  ghost function TallyOf(c: Params, n: Node, e: Event): Tally
    requires Enabled(c, n, e)
  {
    var a := AnswerIn(c, n, e);
    Tally(OneIf(a == Some(Admit)), WorthOf(c, n, e), OneIf(a == Some(Reject)), OneIf(a == Some(Unknown)),
          OneIf(StartOf(n, e).Some?), OneIf(ReturnOf(c, n, e) == Some(Failed)))
  }

  ghost function TallyIn(c: Params, n: Node, es: seq<Event>): Tally
    requires ValidRun(c, n, es)
    decreases |es|
  {
    if es == [] then Tally(0, 0, 0, 0, 0, 0) else TallyOf(c, n, es[0]).Plus(TallyIn(c, Step(c, n, es[0]), es[1..]))
  }

  /** The counters grew by what the tally says. */
  ghost predicate Counted(k: Counts, t: Tally, k': Counts) {
    && k'.admitted == k.admitted + t.admitted && k'.admittedTokens == k.admittedTokens + t.worth
    && k'.rejected == k.rejected + t.rejected
    && k'.leaseCalls == k.leaseCalls + t.calls && k'.leaseErrs == k.leaseErrs + t.errors
  }

  lemma {:induction false} CountedTrans(k: Counts, t: Tally, k': Counts, u: Tally, k'': Counts)
    requires Counted(k, t, k') && Counted(k', u, k'')
    ensures Counted(k, t.Plus(u), k'')
  {
  }

  lemma {:induction false} BeginCounts(c: Params, n: Node, cost: int, now: real)
    requires c.Valid() && Inv(c, n) && Enabled(c, n, CheckBegin(cost, now))
    ensures Counted(n.counts, TallyOf(c, n, CheckBegin(cost, now)), AfterBegin(n, cost, now).counts)
    ensures |AfterBegin(n, cost, now).waiters| == |n.waiters| + OneIf(AnswerIn(c, n, CheckBegin(cost, now)) == None)
  {
    AdmitsIff(n.pool, cost, now);
  }

  lemma {:induction false} StepCounts(c: Params, n: Node, e: Event)
    requires c.Valid() && Inv(c, n) && Enabled(c, n, e)
    ensures Counted(n.counts, TallyOf(c, n, e), Step(c, n, e).counts)
  {
    match e
    case CheckBegin(cost, now) => BeginCounts(c, n, cost, now);
    case CheckWake(w, now) => WakeAdmitsIff(n.pool, n.waiters[w].cost, now);
    case _ =>
  }

  /** The counters of a worker are exact over every run: `admitted` counts the requests answered Admit,
      `admittedTokens` what they cost, `rejected` those answered Reject, `leaseCalls` the calls started and
      `leaseErrs` the calls that came back with an error. */
  lemma {:induction false} CountersAreExact(c: Params, n: Node, es: seq<Event>)
    requires c.Valid() && Inv(c, n) && ValidRun(c, n, es)
    ensures Counted(n.counts, TallyIn(c, n, es), Run(c, n, es).counts)
    decreases |es|
  {
    if es != [] {
      var m := Step(c, n, es[0]);
      StepCounts(c, n, es[0]);
      InvStep(c, n, es[0]);
      CountersAreExact(c, m, es[1..]);
      CountedTrans(n.counts, TallyOf(c, n, es[0]), m.counts, TallyIn(c, m, es[1..]), Run(c, m, es[1..]).counts);
    }
  }

  // Every request is answered.

  ghost function Pending(ws: seq<Waiter>): nat {
    if ws == [] then 0 else Pending(ws[..|ws| - 1]) + OneIf(ws[|ws| - 1].pending)
  }

  lemma {:induction false} PendingUpdate(ws: seq<Waiter>, i: nat)
    requires i < |ws| && ws[i].pending
    ensures Pending(ws[i := ws[i].(pending := false)]) == Pending(ws) - 1
    decreases |ws|
  {
    var k := |ws| - 1;
    var vs := ws[i := ws[i].(pending := false)];
    if i == k {
      assert vs[..k] == ws[..k];
    } else {
      assert vs[..k] == ws[..k][i := ws[i].(pending := false)];
      PendingUpdate(ws[..k], i);
    }
  }

  lemma {:induction false} StepAnswers(c: Params, n: Node, e: Event)
    requires c.Valid() && Inv(c, n) && Enabled(c, n, e) && !e.Crash?
    ensures ChecksIn(e) + Pending(n.waiters) == OneIf(AnswerIn(c, n, e).Some?) + Pending(Step(c, n, e).waiters)
  {
    match e
    case CheckBegin(cost, now) =>
      BeginCounts(c, n, cost, now);
      var ws := AfterBegin(n, cost, now).waiters;
      if AnswerIn(c, n, e) == None {
        assert ws[..|ws| - 1] == n.waiters;
      } else {
        assert ws == n.waiters;
      }
    case CheckWake(w, _) => PendingUpdate(n.waiters, w);
    case CheckTimeout(w) => PendingUpdate(n.waiters, w);
    case _ =>
  }

  /** Every check is answered once or still waits: over any run without a crash, the checks begun and those
      that waited before are the ones admitted, rejected and answered Unknown, and those that wait. */
  lemma {:induction false} EveryCheckIsAnsweredOnce(c: Params, n: Node, es: seq<Event>)
    requires c.Valid() && Inv(c, n) && ValidRun(c, n, es)
    requires forall i :: 0 <= i < |es| ==> !es[i].Crash?
    ensures var t := TallyIn(c, n, es);
            CheckCount(es) + Pending(n.waiters) == t.admitted + t.rejected + t.unknown + Pending(Run(c, n, es).waiters)
    decreases |es|
  {
    if es != [] {
      StepAnswers(c, n, es[0]);
      InvStep(c, n, es[0]);
      EveryCheckIsAnsweredOnce(c, Step(c, n, es[0]), es[1..]);
    }
  }

  // Waiting pays.

  /** A check that waits for a renewal is admitted when the renewal brings enough for it and the check wakes
      before the grant expires. */
  lemma {:induction false} GrantServesWaiter(c: Params, n: Node, e: Event, w: nat, now: real)
    requires c.Valid() && Inv(c, n) && Enabled(c, n, e) && w < |n.waiters| && n.waiters[w].pending
    requires Arrived(c, n, e) >= 1 && Arrived(c, n, e) >= n.waiters[w].cost
    requires now > ZERO_TIME && n.pool.unknownUntil <= now < e.now + c.ttl
    ensures Enabled(c, Step(c, n, e), CheckWake(w, now))
    ensures var m := Step(c, n, e);
            Step(c, m, CheckWake(w, now)).counts.admitted == m.counts.admitted + 1
  {
    ReturnWakesAllWaiters(c, n, e);
    WakeAdmitsIff(Step(c, n, e).pool, n.waiters[w].cost, now);
  }
}
