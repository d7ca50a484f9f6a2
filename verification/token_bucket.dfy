/** The token bucket. Times are in nanoseconds; rates, per second, and token amounts are exact reals. */
module TokenBuckets {

  datatype Bucket = Bucket(rate: real, burst: real, tokens: real, last: int)

  /** The tokens that a rate yields, nanosecond by nanosecond. */
  function Earned(elapsed: int, rate: real): real
    decreases if elapsed < 0 then -elapsed else elapsed
  {
    if elapsed == 0 then 0.0
    else if elapsed > 0 then Earned(elapsed - 1, rate) + rate / 1000000000.0
    else Earned(elapsed + 1, rate) - rate / 1000000000.0
  }

  /** It is the elapsed seconds times the rate. */
  lemma {:induction false} EarnedIsProduct(elapsed: int, rate: real)
    ensures Earned(elapsed, rate) == elapsed as real / 1000000000.0 * rate
    decreases if elapsed < 0 then -elapsed else elapsed
  {
    if elapsed > 0 {
      EarnedIsProduct(elapsed - 1, rate);
    } else if elapsed < 0 {
      EarnedIsProduct(elapsed + 1, rate);
    }
  }

  lemma {:induction false} EarnedAdds(a: int, b: int, rate: real)
    requires 0 <= b
    ensures Earned(a + b, rate) == Earned(a, rate) + Earned(b, rate)
    decreases b
  {
    if b > 0 {
      EarnedAdds(a, b - 1, rate);
      assert a + (b - 1) == a + b - 1;
    }
  }

  lemma {:induction false} EarnedMonotone(elapsed: nat, low: real, high: real)
    requires 0.0 <= low <= high
    ensures 0.0 <= Earned(elapsed, low) <= Earned(elapsed, high)
  {
    if elapsed > 0 {
      EarnedMonotone(elapsed - 1, low, high);
    }
  }

  function Least(a: real, b: real): real {
    if a <= b then a else b
  }

  function Refilled(b: Bucket, now: int): Bucket {
    b.(tokens := Least(b.burst, b.tokens + Earned(now - b.last, b.rate)), last := now)
  }

  function Taken(b: Bucket, now: int): (Bucket, bool) {
    var r := Refilled(b, now);
    if r.tokens >= 1.0 then (r.(tokens := r.tokens - 1.0), true) else (r, false)
  }

  function Retuned(b: Bucket, now: int, rate: real): Bucket {
    Refilled(b, now).(rate := rate)
  }

  class TokenBucket {
    var rate: real
    const bucketSize: real
    var tokens: real
    var lastRefill: int

    ghost function View(): Bucket
      reads this
    {
      Bucket(rate, bucketSize, tokens, lastRefill)
    }

    constructor (rate: real, bucketSize: real, now: int)
      ensures View() == Bucket(rate, bucketSize, bucketSize, now)
    {
      this.rate, this.bucketSize, this.tokens, this.lastRefill := rate, bucketSize, bucketSize, now;
    }

    method Refill(now: int)
      modifies this
      ensures View() == Refilled(old(View()), now)
    {
      var elapsed := now - lastRefill;
      lastRefill := now;
      var newTokens := elapsed as real / 1000000000.0 * rate;
      EarnedIsProduct(elapsed, rate);
      tokens := tokens + newTokens;
      if tokens > bucketSize {
        tokens := bucketSize;
      }
    }

    method Allow(now: int) returns (allowed: bool)
      modifies this
      ensures (View(), allowed) == Taken(old(View()), now)
    {
      Refill(now);
      if tokens >= 1.0 {
        tokens := tokens - 1.0;
        return true;
      }
      return false;
    }

    method UpdateRate(now: int, newRate: real)
      modifies this
      ensures View() == Retuned(old(View()), now, newRate)
    {
      Refill(now);
      rate := newRate;
    }
  }

  /** A bucket between empty and full, whose rate lies in [low, high]. */
  predicate Kept(b: Bucket, low: real, high: real) {
    0.0 <= b.tokens <= b.burst && 0.0 <= low <= b.rate <= high
  }

  /** Between two instants a bucket gains at most the highest rate allows, and at least the lowest. */
  lemma {:induction false} RefillGain(b: Bucket, low: real, high: real, now: int)
    requires Kept(b, low, high) && b.last <= now
    ensures Kept(Refilled(b, now), low, high)
    ensures Refilled(b, now).tokens <= b.tokens + Earned(now - b.last, high)
    ensures Refilled(b, now).tokens >= Least(b.burst, b.tokens + Earned(now - b.last, low))
  {
    EarnedMonotone(now - b.last, b.rate, high);
    EarnedMonotone(now - b.last, low, b.rate);
  }
}
