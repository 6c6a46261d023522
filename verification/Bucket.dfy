/** The token bucket of internal/bucket/bucket.go.

  Times are real numbers of seconds; levels are exact reals. The class `Bucket` mutates its
  fields as the source does; every method is proved equal to a step of the value `State`,
  about which the rest of the project reasons.
 */
module TokenBucket {

  datatype State = State(rate: real, cap: real, tokens: real, last: real) {
    ghost predicate Valid() {
      rate > 0.0 && 0.0 <= tokens <= cap
    }
  }

  function Min(x: real, y: real): real {
    if x <= y then x else y
  }

  /** What flows into a bucket of this rate in `seconds`. */
  function Flow(rate: real, seconds: real): real {
    rate * seconds
  }

  lemma {:induction false} FlowMono(rate: real, x: real, y: real)
    requires 0.0 <= rate && x <= y
    ensures Flow(rate, x) <= Flow(rate, y)
    ensures Flow(rate, 0.0) == 0.0
  {
    assert rate * (y - x) >= 0.0;
  }

  lemma {:induction false} FlowAdd(rate: real, x: real, y: real)
    ensures Flow(rate, x) + Flow(rate, y) == Flow(rate, x + y)
  {
  }

  function Full(rate: real, cap: real, now: real): State {
    State(rate, cap, cap, now)
  }

  /** A reading at or before `last` refills nothing. */
  function Refill(b: State, now: real): State {
    if now > b.last then
      b.(tokens := Min(b.cap, b.tokens + Flow(b.rate, now - b.last)), last := now)
    else b
  }

  /** What `TakeUpTo(n, now)` returns: as many whole tokens as there are, but no more than `n`. */
  function Grant(b: State, n: nat, now: real): (g: nat)
    ensures g <= n
    ensures g > 0 ==> g as real <= Refill(b, now).tokens
    ensures g < n ==> Refill(b, now).tokens - g as real < 1.0
  {
    var take := Refill(b, now).tokens.Floor;
    if take <= 0 then 0 else if take > n then n else take
  }

  function AfterTake(b: State, n: nat, now: real): State {
    var r := Refill(b, now);
    r.(tokens := r.tokens - Grant(b, n, now) as real)
  }

  /** Seconds until a whole token is there, measured from the refilled bucket's `last`. */
  function NextTokenIn(b: State, now: real): real
    requires b.rate > 0.0
  {
    var r := Refill(b, now);
    if r.tokens >= 1.0 then 0.0 else (1.0 - r.tokens) / r.rate
  }

  /** `retryAfterMs` of a zero grant: whole milliseconds of the wait, plus one. */
  function RetryAfterMs(b: State, now: real): int
    requires b.rate > 0.0
  {
    (NextTokenIn(b, now) * 1000.0).Floor + 1
  }

  lemma {:induction false} RefillValid(b: State, now: real)
    requires b.Valid()
    ensures Refill(b, now).Valid()
    ensures Refill(b, now).tokens >= b.tokens
    ensures now > b.last ==> Refill(b, now).tokens <= b.tokens + Flow(b.rate, now - b.last)
  {
    if now > b.last {
      FlowMono(b.rate, 0.0, now - b.last);
    }
  }

  lemma {:induction false} TakeValid(b: State, n: nat, now: real)
    requires b.Valid()
    ensures AfterTake(b, n, now).Valid()
  {
    RefillValid(b, now);
  }

  class Bucket {
    const rate: real
    const cap: real
    var tokens: real
    var last: real

    ghost function View(): State
      reads this
    {
      State(rate, cap, tokens, last)
    }

    constructor (rate: real, capacity: real, now: real)
      ensures View() == Full(rate, capacity, now)
    {
      this.rate, this.cap, this.tokens, this.last := rate, capacity, capacity, now;
    }

    method RefillLocked(now: real)
      modifies this
      ensures View() == Refill(old(View()), now)
    {
      if now > last {
        tokens := Min(cap, tokens + Flow(rate, now - last));
        last := now;
      }
    }

    method TakeUpTo(n: nat, now: real) returns (take: int)
      modifies this
      ensures take == Grant(old(View()), n, now)
      ensures View() == AfterTake(old(View()), n, now)
    {
      RefillLocked(now);
      take := tokens.Floor;
      if take <= 0 {
        return 0;
      }
      if take > n {
        take := n;
      }
      tokens := tokens - take as real;
    }

    method NextToken(now: real) returns (wait: real)
      requires rate > 0.0
      modifies this
      ensures wait == NextTokenIn(old(View()), now)
      ensures View() == Refill(old(View()), now)
    {
      RefillLocked(now);
      if tokens >= 1.0 {
        return 0.0;
      }
      wait := (1.0 - tokens) / rate;
    }
  }
}
