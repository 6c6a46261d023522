/** What the bucket promises over whole schedules of calls, at arbitrary readings of the clock. */
module BucketTheorems {
  import opened TokenBucket

  datatype Call = Take(n: nat, now: real) | Peek(now: real)

  function Step(b: State, c: Call): State {
    if c.Take? then AfterTake(b, c.n, c.now) else Refill(b, c.now)
  }

  function Granted(b: State, c: Call): nat {
    if c.Take? then Grant(b, c.n, c.now) else 0
  }

  function Run(b: State, calls: seq<Call>): State
    decreases |calls|
  {
    if calls == [] then b else Run(Step(b, calls[0]), calls[1..])
  }

  function Total(b: State, calls: seq<Call>): nat
    decreases |calls|
  {
    if calls == [] then 0 else Granted(b, calls[0]) + Total(Step(b, calls[0]), calls[1..])
  }

  /** Tokens that a refill at `now` throws away because the bucket is full. */
  function Spill(b: State, now: real): real {
    if now > b.last && b.tokens + Flow(b.rate, now - b.last) > b.cap
    then b.tokens + Flow(b.rate, now - b.last) - b.cap
    else 0.0
  }

  function Overflow(b: State, calls: seq<Call>): real
    decreases |calls|
  {
    if calls == [] then 0.0 else Spill(b, calls[0].now) + Overflow(Step(b, calls[0]), calls[1..])
  }

  lemma {:induction false} StepValid(b: State, c: Call)
    requires b.Valid()
    ensures Step(b, c).Valid()
    ensures Step(b, c).rate == b.rate && Step(b, c).cap == b.cap && Step(b, c).last >= b.last
  {
    RefillValid(b, c.now);
    if c.Take? {
      TakeValid(b, c.n, c.now);
    }
  }

  lemma {:induction false} StepAccounting(b: State, c: Call)
    requires b.Valid()
    ensures Balanced(b, Step(b, c), Granted(b, c), Spill(b, c.now))
  {
    FlowMono(b.rate, 0.0, 0.0);
  }

  /** From `b` to `e`, what was granted, kept and spilled is what there was and what flowed in. */
  ghost predicate Balanced(b: State, e: State, granted: int, spilled: real) {
    && e.rate == b.rate && e.cap == b.cap && e.last >= b.last
    && granted as real + e.tokens + spilled == b.tokens + Flow(b.rate, e.last - b.last)
  }

  lemma {:induction false} BalancedTrans(b: State, m: State, e: State, g1: int, g2: int, o1: real, o2: real)
    requires Balanced(b, m, g1, o1) && Balanced(m, e, g2, o2)
    ensures Balanced(b, e, g1 + g2, o1 + o2)
  {
    FlowAdd(b.rate, m.last - b.last, e.last - m.last);
  }

  /** Every token is accounted for, whatever the order of the readings. */
  lemma {:induction false} Accounting(b: State, calls: seq<Call>)
    requires b.Valid()
    ensures Run(b, calls).Valid() && Overflow(b, calls) >= 0.0
    ensures Balanced(b, Run(b, calls), Total(b, calls), Overflow(b, calls))
    decreases |calls|
  {
    if calls != [] {
      var c, m := calls[0], Step(b, calls[0]);
      StepValid(b, c);
      StepAccounting(b, c);
      Accounting(m, calls[1..]);
      BalancedTrans(b, m, Run(m, calls[1..]), Granted(b, c), Total(m, calls[1..]), Spill(b, c.now), Overflow(m, calls[1..]));
    }
  }

  lemma {:induction false} RefillIdempotent(b: State, now: real)
    ensures Refill(Refill(b, now), now) == Refill(b, now)
  {
  }

  lemma {:induction false} FirstRefillFirst(s: State, block: seq<Call>)
    requires s.Valid() && block != []
    ensures var first := Refill(s, block[0].now);
            && first.Valid() && first.rate == s.rate && first.cap == s.cap
            && Run(first, block) == Run(s, block) && Total(first, block) == Total(s, block)
  {
    RefillValid(s, block[0].now);
    RefillIdempotent(s, block[0].now);
    assert Step(Refill(s, block[0].now), block[0]) == Step(s, block[0]);
  }

  /** Any contiguous block of calls grants at most one full bucket plus what flows in after the
      block's first refill. */
  lemma {:induction false} BlockBound(b: State, pre: seq<Call>, block: seq<Call>)
    requires b.Valid() && block != []
    ensures var s := Run(b, pre);
            var first := Refill(s, block[0].now);
            Total(s, block) as real <= b.cap + Flow(b.rate, Run(s, block).last - first.last)
  {
    Accounting(b, pre);
    var s := Run(b, pre);
    FirstRefillFirst(s, block);
    var first := Refill(s, block[0].now);
    Accounting(first, block);
  }

  lemma {:induction false} LastStaysBelow(b: State, calls: seq<Call>, t1: real)
    requires b.Valid() && b.last <= t1
    requires forall i :: 0 <= i < |calls| ==> calls[i].now <= t1
    ensures Run(b, calls).last <= t1
    decreases |calls|
  {
    if calls != [] {
      StepValid(b, calls[0]);
      LastStaysBelow(Step(b, calls[0]), calls[1..], t1);
    }
  }

  /** The core guarantee: over any window of readings, however aggressively callers ask, at most
      rate x window + capacity is granted. */
  lemma {:induction false} WindowBound(b: State, pre: seq<Call>, block: seq<Call>, t0: real, t1: real)
    requires b.Valid() && t0 <= t1
    requires forall i :: 0 <= i < |block| ==> t0 <= block[i].now <= t1
    ensures Total(Run(b, pre), block) as real <= Flow(b.rate, t1 - t0) + b.cap
  {
    var s := Run(b, pre);
    Accounting(b, pre);
    FlowMono(b.rate, 0.0, t1 - t0);
    if block != [] {
      BlockBound(b, pre, block);
      FirstRefillFirst(s, block);
      var first := Refill(s, block[0].now);
      var advance := Run(s, block).last - first.last;
      if first.last <= t1 {
        LastStaysBelow(first, block, t1);
      } else {
        LastFixed(s, block, t1);
      }
      assert advance <= t1 - t0;
      FlowMono(b.rate, advance, t1 - t0);
    }
  }

  lemma {:induction false} LastFixed(b: State, calls: seq<Call>, t1: real)
    requires b.last > t1
    requires forall i :: 0 <= i < |calls| ==> calls[i].now <= t1
    ensures Run(b, calls).last == b.last
    decreases |calls|
  {
    if calls != [] {
      LastFixed(Step(b, calls[0]), calls[1..], t1);
    }
  }

  // Two buckets that differ only in their level.

  function Ceil(x: real): int {
    -((-x).Floor)
  }

  /** `d` is the lead of the fuller bucket in whole tokens granted so far. */
  ghost predicate Lead(b1: State, b2: State, d: int, bound: int) {
    && b1.Valid() && b2.Valid()
    && b1.rate == b2.rate && b1.cap == b2.cap && b1.last == b2.last
    && 0 <= d <= bound
    && b2.tokens - b1.tokens > -1.0
    && (b2.tokens < b1.tokens ==> d >= 1)
    && d as real + (b2.tokens - b1.tokens) <= bound as real
  }

  lemma {:induction false} LeadRefill(b1: State, b2: State, d: int, bound: int, now: real)
    requires Lead(b1, b2, d, bound)
    ensures Lead(Refill(b1, now), Refill(b2, now), d, bound)
  {
    RefillValid(b1, now);
    RefillValid(b2, now);
  }

  lemma {:induction false} LeadTake(b1: State, b2: State, d: int, bound: int, n: nat, now: real)
    requires Lead(b1, b2, d, bound)
    ensures Lead(AfterTake(b1, n, now), AfterTake(b2, n, now), d + Grant(b2, n, now) - Grant(b1, n, now), bound)
  {
    LeadRefill(b1, b2, d, bound, now);
    TakeValid(b1, n, now);
    TakeValid(b2, n, now);
    var t1, t2 := Refill(b1, now).tokens, Refill(b2, now).tokens;
    if t2 >= t1 {
      assert t2.Floor >= t1.Floor;
    } else {
      assert t1.Floor - 1 <= t2.Floor <= t1.Floor;
    }
  }

  lemma {:induction false} LeadRun(b1: State, b2: State, d: int, bound: int, calls: seq<Call>)
    requires Lead(b1, b2, d, bound)
    ensures 0 <= d + Total(b2, calls) - Total(b1, calls) <= bound
    decreases |calls|
  {
    if calls != [] {
      var c := calls[0];
      if c.Take? {
        LeadTake(b1, b2, d, bound, c.n, c.now);
      } else {
        LeadRefill(b1, b2, d, bound, c.now);
      }
      LeadRun(Step(b1, c), Step(b2, c), d + Granted(b2, c) - Granted(b1, c), bound, calls[1..]);
    }
  }

  /** A fuller bucket never grants less over a shared schedule, and grants more by at most the
      rounded-up difference of the levels - over the whole future, not per call. */
  lemma {:induction false} FullerBucketLead(b1: State, b2: State, calls: seq<Call>)
    requires b1.Valid() && b2.Valid()
    requires b1.rate == b2.rate && b1.cap == b2.cap && b1.last == b2.last && b1.tokens <= b2.tokens
    ensures 0 <= Total(b2, calls) - Total(b1, calls) <= Ceil(b2.tokens - b1.tokens)
  {
    LeadRun(b1, b2, 0, Ceil(b2.tokens - b1.tokens), calls);
  }

  /** Restarting with a full bucket at `now` loses no later grant and adds at most one rounded-up
      burst in all, compared with not having restarted. */
  lemma {:induction false} RestartAddsAtMostOneBurst(b: State, now: real, calls: seq<Call>)
    requires b.Valid() && now >= b.last
    requires forall i :: 0 <= i < |calls| ==> calls[i].now >= now
    ensures 0 <= Total(Full(b.rate, b.cap, now), calls) - Total(b, calls) <= Ceil(b.cap)
  {
    RefillValid(b, now);
    var kept := Refill(b, now);
    if calls != [] {
      RefillCompose(b, now, calls[0].now);
      assert Total(kept, calls) == Total(b, calls);
    }
    FullerBucketLead(kept, Full(b.rate, b.cap, now), calls);
    assert kept.tokens >= 0.0;
  }

  // Observing the bucket is transparent.

  lemma {:induction false} RefillCompose(b: State, t: real, u: real)
    requires b.Valid() && t <= u
    ensures Refill(Refill(b, t), u) == Refill(b, u)
  {
    if b.last < t < u {
      FlowMono(b.rate, 0.0, u - t);
      FlowAdd(b.rate, t - b.last, u - t);
    }
  }

  predicate TimeOrdered(calls: seq<Call>) {
    forall i, j :: 0 <= i < j < |calls| ==> calls[i].now <= calls[j].now
  }

  /** What each call gets, zeros included. */
  function Grants(b: State, calls: seq<Call>): seq<nat>
    decreases |calls|
  {
    if calls == [] then [] else [Granted(b, calls[0])] + Grants(Step(b, calls[0]), calls[1..])
  }

  /** The elements of `xs` that `keep` marks. */
  function Kept<T>(xs: seq<T>, keep: seq<bool>): seq<T>
    requires |xs| == |keep|
  {
    if xs == [] then [] else (if keep[0] then [xs[0]] else []) + Kept(xs[1..], keep[1..])
  }

  lemma {:induction false} GrantsLength(b: State, calls: seq<Call>)
    ensures |Grants(b, calls)| == |calls|
    decreases |calls|
  {
    if calls != [] {
      GrantsLength(Step(b, calls[0]), calls[1..]);
    }
  }

  /** Every call that `keep` leaves out is an observer: a peek, or a take that gets nothing. */
  ghost predicate DropsObservers(b: State, calls: seq<Call>, keep: seq<bool>)
    requires |calls| == |keep|
    decreases |calls|
  {
    calls == [] ||
    ((keep[0] || Granted(b, calls[0]) == 0) && DropsObservers(Step(b, calls[0]), calls[1..], keep[1..]))
  }

  /** What follows when the first call is kept, or dropped. */
  lemma {:induction false} KeptCons(b: State, d: State, calls: seq<Call>, keep: seq<bool>)
    requires |calls| == |keep| > 0
    requires |Grants(Step(d, calls[0]), calls[1..])| == |calls| - 1
    ensures |Grants(d, calls)| == |calls|
    ensures keep[0] ==>
              && Grants(b, Kept(calls, keep)) == [Granted(b, calls[0])] + Grants(Step(b, calls[0]), Kept(calls[1..], keep[1..]))
              && Run(b, Kept(calls, keep)) == Run(Step(b, calls[0]), Kept(calls[1..], keep[1..]))
              && Kept(Grants(d, calls), keep) == [Granted(d, calls[0])] + Kept(Grants(Step(d, calls[0]), calls[1..]), keep[1..])
    ensures !keep[0] ==>
              && Kept(calls, keep) == Kept(calls[1..], keep[1..])
              && Kept(Grants(d, calls), keep) == Kept(Grants(Step(d, calls[0]), calls[1..]), keep[1..])
  {
    var rest := Kept(calls[1..], keep[1..]);
    assert ([calls[0]] + rest)[1..] == rest;
    assert Grants(d, calls)[1..] == Grants(Step(d, calls[0]), calls[1..]);
  }

  /** `seen` has been refilled by observers at or before time `t`; `kept` has not. */
  lemma {:induction false} ObserversDroppedFrom(seen: State, kept: State, t: real, calls: seq<Call>, keep: seq<bool>)
    requires kept.Valid() && seen == Refill(kept, t) && |calls| == |keep|
    requires TimeOrdered(calls) && (calls != [] ==> t <= calls[0].now)
    requires DropsObservers(seen, calls, keep)
    ensures |Grants(seen, calls)| == |calls|
    ensures Grants(kept, Kept(calls, keep)) == Kept(Grants(seen, calls), keep)
    ensures Refill(Run(kept, Kept(calls, keep)), if calls == [] then t else calls[|calls| - 1].now) == Run(seen, calls)
    decreases |calls|
  {
    if calls != [] {
      var c := calls[0];
      RefillValid(kept, t);
      RefillCompose(kept, t, c.now);
      GrantsLength(Step(seen, c), calls[1..]);
      KeptCons(kept, seen, calls, keep);
      if keep[0] {
        assert Step(kept, c) == Step(seen, c) && Granted(kept, c) == Granted(seen, c);
        StepValid(kept, c);
        ObserversDroppedFrom(Step(seen, c), Step(kept, c), c.now, calls[1..], keep[1..]);
      } else {
        assert Step(seen, c) == Refill(kept, c.now);
        ObserversDroppedFrom(Step(seen, c), kept, c.now, calls[1..], keep[1..]);
      }
    }
  }

  /** In a time-ordered schedule, leaving out any peeks and any takes that get nothing changes what no
      other call gets, and leaves the bucket, once refilled, as it was. */
  lemma {:induction false} ObservationTransparent(b: State, calls: seq<Call>, keep: seq<bool>)
    requires b.Valid() && TimeOrdered(calls) && |calls| == |keep| && DropsObservers(b, calls, keep)
    ensures |Grants(b, calls)| == |calls|
    ensures Grants(b, Kept(calls, keep)) == Kept(Grants(b, calls), keep)
    ensures calls != [] ==> Refill(Run(b, Kept(calls, keep)), calls[|calls| - 1].now) == Run(b, calls)
  {
    if calls != [] {
      var t := if b.last < calls[0].now then b.last else calls[0].now;
      ObserversDroppedFrom(b, b, t, calls, keep);
    }
  }

  /** Between a take and a later peek at the same reading, other calls may come at any readings: the
      peek still refills nothing. This is how the lease handler peeks. */
  lemma {:induction false} PeekAfterOwnTake(b: State, n: nat, now: real, between: seq<Call>)
    requires b.Valid()
    ensures var s := Run(AfterTake(b, n, now), between); Refill(s, now) == s
  {
    TakeValid(b, n, now);
    Accounting(AfterTake(b, n, now), between);
  }

  /** Every peek comes after a take at the same reading, as the lease handler's do, or else is one whose
      take came before this schedule, at a reading in `taken`. */
  ghost predicate PeeksFollowTakes(calls: seq<Call>, taken: set<real>) {
    forall j :: 0 <= j < |calls| && calls[j].Peek? ==>
      calls[j].now in taken || exists i :: 0 <= i < j && calls[i].Take? && calls[i].now == calls[j].now
  }

  lemma {:induction false} PeeksFollowTakesTail(calls: seq<Call>, taken: set<real>)
    requires PeeksFollowTakes(calls, taken) && calls != []
    ensures PeeksFollowTakes(calls[1..], taken + {calls[0].now})
  {
    var rest := calls[1..];
    forall j | 0 <= j < |rest| && rest[j].Peek? && rest[j].now !in taken + {calls[0].now}
      ensures exists i :: 0 <= i < j && rest[i].Take? && rest[i].now == rest[j].now
    {
      assert calls[j + 1] == rest[j];
      var i :| 0 <= i < j + 1 && calls[i].Take? && calls[i].now == calls[j + 1].now;
      assert rest[i - 1] == calls[i];
    }
  }

  lemma {:induction false} HandlerPeeksFrom(b: State, calls: seq<Call>, keep: seq<bool>, taken: set<real>)
    requires b.Valid() && PeeksFollowTakes(calls, taken) && (forall t :: t in taken ==> t <= b.last)
    requires |calls| == |keep| && forall i :: 0 <= i < |calls| && !keep[i] ==> calls[i].Peek?
    ensures |Grants(b, calls)| == |calls|
    ensures Grants(b, Kept(calls, keep)) == Kept(Grants(b, calls), keep) && Run(b, Kept(calls, keep)) == Run(b, calls)
    decreases |calls|
  {
    if calls != [] {
      var c := calls[0];
      StepValid(b, c);
      PeeksFollowTakesTail(calls, taken);
      HandlerPeeksFrom(Step(b, c), calls[1..], keep[1..], taken + {c.now});
      KeptCons(b, b, calls, keep);
      if !keep[0] {
        assert Step(b, c) == b;
      }
    }
  }

  /** Whatever the order of readings and however handlers interleave, the peeks of the lease handler
      change nothing: leaving out any of them leaves every grant and the bucket as they were. */
  lemma {:induction false} HandlerPeeksAreTransparent(b: State, calls: seq<Call>, keep: seq<bool>)
    requires b.Valid() && PeeksFollowTakes(calls, {})
    requires |calls| == |keep| && forall i :: 0 <= i < |calls| && !keep[i] ==> calls[i].Peek?
    ensures |Grants(b, calls)| == |calls|
    ensures Grants(b, Kept(calls, keep)) == Kept(Grants(b, calls), keep) && Run(b, Kept(calls, keep)) == Run(b, calls)
  {
    HandlerPeeksFrom(b, calls, keep, {});
  }

  /** One peek before one take leaves no trace exactly when its reading is not ahead of both the take's
      reading and the bucket's clock. */
  lemma {:induction false} PeekLeavesNoTraceIff(b: State, peek: real, n: nat, now: real)
    requires b.Valid()
    ensures var p := Refill(b, peek);
            (Grant(p, n, now) == Grant(b, n, now) && AfterTake(p, n, now) == AfterTake(b, n, now))
            <==> (peek <= now || peek <= b.last)
  {
    if peek <= now {
      RefillCompose(b, peek, now);
    }
  }

  // The retry hint.

  /** A take of at least one token succeeds at `t` exactly when the bucket can hold a whole token
      and the refill from `last` has had time to produce it. */
  lemma {:induction false} TokenAvailableIff(b: State, n: nat, t: real)
    requires b.Valid() && b.tokens < 1.0 && n >= 1
    ensures Grant(b, n, t) >= 1 <==> b.cap >= 1.0 && t >= b.last + (1.0 - b.tokens) / b.rate
  {
    var w := (1.0 - b.tokens) / b.rate;
    assert b.rate * w == 1.0 - b.tokens;
    assert w > 0.0 by {
      if w <= 0.0 {
        FlowMono(b.rate, w, 0.0);
      }
    }
    if t >= b.last + w {
      FlowMono(b.rate, w, t - b.last);
    } else if t > b.last {
      assert Flow(b.rate, w - (t - b.last)) > 0.0;
    }
  }

  /** `NextTokenIn` is exact: from the refilled bucket on, a take of at least one token succeeds exactly when
      the bucket can hold a whole token and that wait has passed; it is zero when a token is there. */
  lemma {:induction false} NextTokenIsExact(b: State, n: nat, now: real, t: real)
    requires b.Valid() && n >= 1 && t >= Refill(b, now).last
    ensures Grant(Refill(b, now), n, t) >= 1 <==> b.cap >= 1.0 && t >= Refill(b, now).last + NextTokenIn(b, now)
  {
    var r := Refill(b, now);
    RefillValid(b, now);
    if r.tokens < 1.0 {
      TokenAvailableIff(r, n, t);
    } else {
      RefillValid(r, t);
    }
  }

  /** What a zero grant leaves behind: less than a token, and a hint in whole milliseconds that exceeds
      the wait by at most one. */
  lemma {:induction false} HintExceedsWait(b: State, n: nat, now: real)
    requires b.Valid() && n >= 1 && Grant(b, n, now) == 0
    ensures var e := AfterTake(b, n, now);
            var ms := RetryAfterMs(e, now);
            && e.Valid() && e.tokens < 1.0 && e.cap == b.cap && e.last >= now && (now >= b.last ==> e.last == now)
            && ms >= 1 && (ms - 1) as real / 1000.0 <= (1.0 - e.tokens) / e.rate < ms as real / 1000.0
  {
    var e := AfterTake(b, n, now);
    TakeValid(b, n, now);
    var w := (1.0 - e.tokens) / e.rate;
    assert e.rate * w == 1.0 - e.tokens;
    if w <= 0.0 {
      FlowMono(e.rate, w, 0.0);
    }
    assert Refill(e, now) == e;
  }

  function Fraction(x: real): real {
    x - x.Floor as real
  }

  /** The hint of a zero grant at any reading is sound exactly when the bucket can hold a whole token
      and the reading lags the bucket's clock by no more than what rounding the wait up to a whole
      millisecond adds. */
  lemma {:induction false} HintSoundIff(b: State, n: nat, m: nat, now: real)
    requires b.Valid() && n >= 1 && m >= 1 && Grant(b, n, now) == 0
    ensures var e := AfterTake(b, n, now);
            Grant(e, m, now + RetryAfterMs(e, now) as real / 1000.0) >= 1
            <==> b.cap >= 1.0 && b.last - now <= (1.0 - Fraction(NextTokenIn(b, now) * 1000.0)) / 1000.0
  {
    HintExceedsWait(b, n, now);
    var e := AfterTake(b, n, now);
    assert e == Refill(b, now) && Refill(e, now) == e;
    TokenAvailableIff(e, m, now + RetryAfterMs(e, now) as real / 1000.0);
  }

  /** A reading that does not lag never makes the hint too early; one that lags by more than a
      millisecond always does. */
  lemma {:induction false} HintByLag(b: State, n: nat, m: nat, now: real)
    requires b.Valid() && n >= 1 && m >= 1 && Grant(b, n, now) == 0 && b.cap >= 1.0
    ensures var e := AfterTake(b, n, now);
            var g := Grant(e, m, now + RetryAfterMs(e, now) as real / 1000.0);
            (now >= b.last ==> g >= 1) && (now < b.last - 0.001 ==> g == 0)
  {
    HintSoundIff(b, n, m, now);
  }

  /** At a reading not behind the bucket's clock the hint is sound exactly when the bucket can hold a
      whole token, and no token is there before the hint less a millisecond. */
  lemma {:induction false} HintSoundAndTight(b: State, n: nat, m: nat, now: real)
    requires b.Valid() && n >= 1 && m >= 1 && now >= b.last && Grant(b, n, now) == 0
    ensures var e := AfterTake(b, n, now);
            var ms := RetryAfterMs(e, now);
            && (Grant(e, m, now + ms as real / 1000.0) >= 1 <==> b.cap >= 1.0)
            && (forall t :: t < now + (ms - 1) as real / 1000.0 ==> Grant(e, m, t) == 0)
  {
    HintExceedsWait(b, n, now);
    HintSoundIff(b, n, m, now);
    var e := AfterTake(b, n, now);
    var ms := RetryAfterMs(e, now);
    forall t | t < now + (ms - 1) as real / 1000.0
      ensures Grant(e, m, t) == 0
    {
      TokenAvailableIff(e, m, t);
    }
  }

  /** A handler whose reading is behind the bucket's clock gets a hint that is too early. */
  lemma {:induction false} LateReadingHintTooEarly()
    ensures var b := State(1.0, 1.0, 0.0, 10.0);
            && Grant(b, 1, 5.0) == 0
            && Grant(AfterTake(b, 1, 5.0), 1, 5.0 + RetryAfterMs(AfterTake(b, 1, 5.0), 5.0) as real / 1000.0) == 0
  {
    var b := State(1.0, 1.0, 0.0, 10.0);
    assert AfterTake(b, 1, 5.0) == b;
    assert (1000.0).Floor == 1000;
  }

  /** A bucket that cannot hold a whole token never grants one. */
  lemma {:induction false} SmallCapNeverGrants(b: State, calls: seq<Call>)
    requires b.Valid() && b.cap < 1.0
    ensures Total(b, calls) == 0
    decreases |calls|
  {
    if calls != [] {
      StepValid(b, calls[0]);
      RefillValid(b, calls[0].now);
      SmallCapNeverGrants(Step(b, calls[0]), calls[1..]);
    }
  }
}
