/** The load driver of internal/loadgen/driver.go: the pacing loop, and the record of outcomes. */
module Driver {
  import opened TokenBucket

  // Pacing.

  /** How many ticks the loop handles: those before the first at or past the end of the run. */
  function Handled(ticks: seq<real>, start: real, duration: real): (m: nat)
    ensures m <= |ticks|
    ensures forall i :: 0 <= i < m ==> ticks[i] - start < duration
    ensures m < |ticks| ==> ticks[m] - start >= duration
  {
    if ticks == [] || ticks[0] - start >= duration then 0
    else 1 + Handled(ticks[1..], start, duration)
  }

  /** The slots free among the first `k` attempts to dispatch. */
  function FreeSlots(free: nat -> bool, k: nat): (n: nat)
    ensures n <= k
  {
    if k == 0 then 0 else FreeSlots(free, k - 1) + if free(k - 1) then 1 else 0
  }

  lemma {:induction false} FreeSlotsCounts(free: nat -> bool, k: nat)
    ensures FreeSlots(free, k) == |set i: nat | i < k && free(i)|
  {
    if k > 0 {
      FreeSlotsCounts(free, k - 1);
      var before, after := set i: nat | i < k - 1 && free(i), set i: nat | i < k && free(i);
      assert after == if free(k - 1) then before + {k - 1} else before;
    }
  }

  /** The pacing loop over the ticks it receives until the run ends or is cancelled. `free(i)` says
      whether a concurrency slot is free at the i-th attempt to dispatch.

      The requests released never drift from the offered rate: they are always the whole part of
      RPS x elapsed time. Those that find a slot free are dispatched and the others counted as client
      drops. */
  method RunTenant(rps: real, begun: real, ticks: seq<real>, start: real, duration: real, free: nat -> bool)
      returns (dispatched: nat, drops: nat)
    requires rps >= 0.0
    requires forall i :: 0 <= i < |ticks| ==> begun <= ticks[i]
    requires forall i, j :: 0 <= i < j < |ticks| ==> ticks[i] <= ticks[j]
    ensures var m := Handled(ticks, start, duration);
            var last := if m == 0 then begun else ticks[m - 1];
            && dispatched + drops == Flow(rps, last - begun).Floor
            && dispatched == |set i: nat | i < dispatched + drops && free(i)|
  {
    dispatched, drops := 0, 0;
    var quota := 0.0;
    var last := begun;
    var k := 0;
    while k < |ticks| && ticks[k] - start < duration
      invariant k <= |ticks|
      invariant last == if k == 0 then begun else ticks[k - 1]
      invariant forall i :: 0 <= i < k ==> ticks[i] - start < duration
      invariant 0.0 <= quota < 1.0
      invariant (dispatched + drops) as real + quota == Flow(rps, last - begun)
      invariant dispatched == FreeSlots(free, dispatched + drops)
    {
      var now := ticks[k];
      FlowAdd(rps, last - begun, now - last);
      FlowMono(rps, 0.0, now - last);
      quota := quota + Flow(rps, now - last);
      last := now;
      var n := quota.Floor;
      quota := quota - n as real;
      ghost var before := dispatched + drops;
      for i := 0 to n
        invariant dispatched + drops == before + i
        invariant dispatched == FreeSlots(free, dispatched + drops)
      {
        if free(dispatched + drops) {
          dispatched := dispatched + 1;
        } else {
          drops := drops + 1;
        }
      }
      k := k + 1;
    }
    HandledIs(ticks, start, duration, k);
    FreeSlotsCounts(free, dispatched + drops);
    FlowMono(rps, 0.0, 0.0);
  }

  lemma {:induction false} HandledIs(ticks: seq<real>, start: real, duration: real, k: nat)
    requires k <= |ticks| && forall i :: 0 <= i < k ==> ticks[i] - start < duration
    requires k < |ticks| ==> ticks[k] - start >= duration
    ensures Handled(ticks, start, duration) == k
  {
  }

  // Recording.

  datatype SecBucket = SecBucket(admitted: nat, rejected: nat, errors: nat)

  const EMPTY_SECOND := SecBucket(0, 0, 0)

  datatype ErrorKind = Transport | Status(code: int)

  const STATUS_OK := 200
  const STATUS_TOO_MANY_REQUESTS := 429

  /** Column sums of the time series. */
  function Totals(bs: seq<SecBucket>): SecBucket {
    if bs == [] then EMPTY_SECOND
    else
      var t, b := Totals(bs[..|bs| - 1]), bs[|bs| - 1];
      SecBucket(t.admitted + b.admitted, t.rejected + b.rejected, t.errors + b.errors)
  }

  lemma {:induction false} TotalsPush(bs: seq<SecBucket>)
    ensures Totals(bs + [EMPTY_SECOND]) == Totals(bs)
  {
    assert (bs + [EMPTY_SECOND])[..|bs|] == bs;
  }

  lemma {:induction false} TotalsUpdate(bs: seq<SecBucket>, i: nat, b: SecBucket)
    requires i < |bs|
    ensures var t, u := Totals(bs), Totals(bs[i := b]);
            && u.admitted + bs[i].admitted == t.admitted + b.admitted
            && u.rejected + bs[i].rejected == t.rejected + b.rejected
            && u.errors + bs[i].errors == t.errors + b.errors
    decreases |bs|
  {
    var k := |bs| - 1;
    if i == k {
      assert bs[i := b][..k] == bs[..k];
    } else {
      assert bs[i := b][..k] == bs[..k][i := b];
      TotalsUpdate(bs[..k], i, b);
    }
  }

  ghost function ErrorCount(m: map<ErrorKind, nat>): nat
    decreases |m|
  {
    if m == map[] then 0 else var k :| k in m; m[k] + ErrorCount(m - {k})
  }

  lemma {:induction false} ErrorCountRemove(m: map<ErrorKind, nat>, k: ErrorKind)
    requires k in m
    ensures ErrorCount(m) == m[k] + ErrorCount(m - {k})
    decreases |m|
  {
    var j :| j in m && ErrorCount(m) == m[j] + ErrorCount(m - {j});
    if j != k {
      ErrorCountRemove(m - {j}, k);
      ErrorCountRemove(m - {k}, j);
      assert m - {j} - {k} == m - {k} - {j};
    }
  }

  function Bump(m: map<ErrorKind, nat>, k: ErrorKind): map<ErrorKind, nat> {
    m[k := 1 + if k in m then m[k] else 0]
  }

  lemma {:induction false} ErrorCountBump(m: map<ErrorKind, nat>, k: ErrorKind)
    ensures ErrorCount(Bump(m, k)) == ErrorCount(m) + 1
  {
    ErrorCountRemove(Bump(m, k), k);
    assert Bump(m, k) - {k} == m - {k};
    if k in m {
      ErrorCountRemove(m, k);
    } else {
      assert m - {k} == m;
    }
  }

  class TenantResult {
    var admitted: nat
    var admittedTokens: int
    var rejected: nat
    var errors: map<ErrorKind, nat>
    var latencies: seq<real>
    var buckets: seq<SecBucket>

    /** The per-second buckets sum to the totals, and every answered request has a latency. */
    ghost predicate Valid()
      reads this
    {
      && Totals(buckets) == SecBucket(admitted, rejected, ErrorCount(errors))
      && |latencies| == admitted + rejected
    }

    constructor ()
      ensures Valid() && buckets == [] && errors == map[] && admittedTokens == 0
    {
      admitted, admittedTokens, rejected := 0, 0, 0;
      errors, latencies, buckets := map[], [], [];
    }

    /** Makes room for second `sec`. */
    method Grow(sec: nat)
      modifies this`buckets
      ensures |buckets| == if |old(buckets)| <= sec then sec + 1 else |old(buckets)|
      ensures forall i :: 0 <= i < |buckets| ==>
                buckets[i] == if i < |old(buckets)| then old(buckets)[i] else EMPTY_SECOND
      ensures Totals(buckets) == old(Totals(buckets))
    {
      while |buckets| <= sec
        invariant Totals(buckets) == old(Totals(buckets))
        invariant forall i :: 0 <= i < |buckets| ==>
                    buckets[i] == if i < |old(buckets)| then old(buckets)[i] else EMPTY_SECOND
        invariant |old(buckets)| <= |buckets| && (|buckets| <= sec + 1 || buckets == old(buckets))
      {
        TotalsPush(buckets);
        buckets := buckets + [EMPTY_SECOND];
      }
    }

    /** One outcome adds exactly one to one total and to the matching column of its second. */
    method Record(sec: nat, code: int, latMs: real, transportErr: bool, cost: int)
      requires Valid()
      modifies this
      ensures Valid()
      ensures |buckets| == if |old(buckets)| <= sec then sec + 1 else |old(buckets)|
      ensures admitted + rejected + ErrorCount(errors) == old(admitted + rejected + ErrorCount(errors)) + 1
      ensures var ok := !transportErr && code == STATUS_OK;
              var busy := !transportErr && code == STATUS_TOO_MANY_REQUESTS;
              && admitted == old(admitted) + (if ok then 1 else 0)
              && admittedTokens == old(admittedTokens) + (if ok then cost else 0)
              && rejected == old(rejected) + (if busy then 1 else 0)
              && errors == (if ok || busy then old(errors)
                            else Bump(old(errors), if transportErr then Transport else Status(code)))
              && latencies == old(latencies) + (if ok || busy then [latMs] else [])
              && forall i :: 0 <= i < |buckets| ==>
                   buckets[i] == var was := if i < |old(buckets)| then old(buckets)[i] else EMPTY_SECOND;
                                 if i != sec then was
                                 else if ok then was.(admitted := was.admitted + 1)
                                 else if busy then was.(rejected := was.rejected + 1)
                                 else was.(errors := was.errors + 1)
    {
      Grow(sec);
      var b := buckets[sec];
      if transportErr {
        ErrorCountBump(errors, Transport);
        errors := Bump(errors, Transport);
        b := b.(errors := b.errors + 1);
      } else if code == STATUS_OK {
        admitted := admitted + 1;
        admittedTokens := admittedTokens + cost;
        b := b.(admitted := b.admitted + 1);
        latencies := latencies + [latMs];
      } else if code == STATUS_TOO_MANY_REQUESTS {
        rejected := rejected + 1;
        b := b.(rejected := b.rejected + 1);
        latencies := latencies + [latMs];
      } else {
        ErrorCountBump(errors, Status(code));
        errors := Bump(errors, Status(code));
        b := b.(errors := b.errors + 1);
      }
      TotalsUpdate(buckets, sec, b);
      buckets := buckets[sec := b];
    }
  }
}
