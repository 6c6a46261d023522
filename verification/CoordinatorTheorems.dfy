/** What the coordinator tells its workers and counts, over whole schedules of leases. */
module CoordinatorTheorems {
  import opened TokenBucket
  import B = BucketTheorems
  import opened Coordinator

  // The retry hint, as it is sent.

  /** A reply with no tokens at a reading that does not lag: a lease at the hinted time gets a token exactly
      when the bucket can hold one, and no lease does earlier than a millisecond before it. */
  lemma {:induction false} ReplyHintSoundAndTight(cfg: Config, e: Entry, now: real)
    requires cfg.Valid() && e.Valid() && now >= e.bucket.last && LeaseGrant(cfg, e, now) == 0
    ensures var e1, retry := AfterLease(cfg, e, now), LeaseReply(cfg, e, now).retryAfter;
            && e1.Valid()
            && (LeaseReply(cfg, e1, now + retry).granted >= 1 <==> e.bucket.cap >= 1.0)
            && forall t :: t < now + retry - 0.001 ==> LeaseReply(cfg, e1, t).granted == 0
  {
    LeaseDebitsWhatItGrants(cfg, e, now);
    B.HintSoundAndTight(e.bucket, cfg.leaseSize, cfg.leaseSize, now);
    SentHint(cfg, e, now);
    var e1, retry := AfterLease(cfg, e, now), LeaseReply(cfg, e, now).retryAfter;
    forall t | t < now + retry - 0.001
      ensures LeaseReply(cfg, e1, t).granted == 0
    {
      assert Grant(e1.bucket, cfg.leaseSize, t) == 0;
    }
  }

  /** The same at any reading: the hint sent is sound exactly when the bucket can hold a token and the
      reading lags by no more than the rounding makes up for. */
  lemma {:induction false} ReplyHintSoundIff(cfg: Config, e: Entry, now: real)
    requires cfg.Valid() && e.Valid() && LeaseGrant(cfg, e, now) == 0
    ensures var e1, retry := AfterLease(cfg, e, now), LeaseReply(cfg, e, now).retryAfter;
            && e1.Valid()
            && (LeaseReply(cfg, e1, now + retry).granted >= 1
                <==> e.bucket.cap >= 1.0
                     && e.bucket.last - now <= (1.0 - B.Fraction(NextTokenIn(e.bucket, now) * 1000.0)) / 1000.0)
  {
    LeaseDebitsWhatItGrants(cfg, e, now);
    B.HintSoundIff(e.bucket, cfg.leaseSize, cfg.leaseSize, now);
    SentHint(cfg, e, now);
  }

  lemma {:induction false} SentHint(cfg: Config, e: Entry, now: real)
    requires e.Valid() && LeaseGrant(cfg, e, now) == 0
    ensures var b := AfterTake(e.bucket, cfg.leaseSize, now);
            && AfterLease(cfg, e, now).bucket == b
            && LeaseReply(cfg, e, now).retryAfter == RetryAfterMs(b, now) as real / 1000.0
            && LeaseReply(cfg, e, now).retryAfter - 0.001 == (RetryAfterMs(b, now) - 1) as real / 1000.0
  {
  }

  // Schedules of leases.

  /** The entry after leases at these readings. */
  function AfterLeases(cfg: Config, e: Entry, times: seq<real>): Entry
    decreases |times|
  {
    if times == [] then e else AfterLeases(cfg, AfterLease(cfg, e, times[0]), times[1..])
  }

  /** What the replies hand out, in order. */
  ghost function Handed(cfg: Config, e: Entry, times: seq<real>): seq<nat>
    requires e.Valid()
    decreases |times|
  {
    if times == [] then []
    else
      LeaseDebitsWhatItGrants(cfg, e, times[0]);
      [LeaseReply(cfg, e, times[0]).granted] + Handed(cfg, AfterLease(cfg, e, times[0]), times[1..])
  }

  function Zeros(gs: seq<nat>): nat {
    if gs == [] then 0 else (if gs[0] == 0 then 1 else 0) + Zeros(gs[1..])
  }

  function Total(gs: seq<nat>): nat {
    if gs == [] then 0 else gs[0] + Total(gs[1..])
  }

  function Takes(cfg: Config, times: seq<real>): seq<B.Call> {
    if times == [] then [] else [B.Take(cfg.leaseSize, times[0])] + Takes(cfg, times[1..])
  }

  /** Over every schedule of leases, at any readings, the coordinator's counters are exact - requests
      handled, those that got nothing, tokens handed out - and replies and bucket are those of a bare
      bucket from which a lease size is asked each time, so that all that holds of it holds of them. */
  lemma {:induction false} LeasesAreTakes(cfg: Config, e: Entry, times: seq<real>)
    requires e.Valid()
    ensures var e1, gs := AfterLeases(cfg, e, times), Handed(cfg, e, times);
            && e1.leaseRequests == e.leaseRequests + |times|
            && e1.zeroGrants == e.zeroGrants + Zeros(gs)
            && e1.tokensGranted == e.tokensGranted + Total(gs)
            && gs == B.Grants(e.bucket, Takes(cfg, times))
            && e1.bucket == B.Run(e.bucket, Takes(cfg, times))
    decreases |times|
  {
    if times != [] {
      var m, rest := AfterLease(cfg, e, times[0]), Takes(cfg, times[1..]);
      LeaseDebitsWhatItGrants(cfg, e, times[0]);
      LeasesAreTakes(cfg, m, times[1..]);
      assert Takes(cfg, times)[1..] == rest;
      assert B.Step(e.bucket, Takes(cfg, times)[0]) == m.bucket;
      var gs := Handed(cfg, m, times[1..]);
      assert Handed(cfg, e, times)[1..] == gs;
    }
  }
}
