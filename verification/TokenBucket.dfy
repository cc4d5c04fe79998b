/**
 One bucket of golang.org/x/time/rate as the limiters use it, over exact
 rationals: it starts full, refills linearly up to its burst, and a reservation
 cancelled at the instant it was made leaves only the refill behind. The library
 itself is not part of this model.
 */
module TokenBucket {

  /**
   rate is in tokens per second, and when it is not positive nothing is ever
   refilled; ttl, in seconds, is how long an idle bucket is kept.
   */
  datatype Params = Params(rate: real, burst: nat, ttl: real) {
    ghost predicate Valid() {
      burst >= 1 && ttl > 0.0
    }

    function Full(): real {
      burst as real
    }
  }

  datatype Bucket = Bucket(tokens: real, last: real)

  datatype Decision = Granted | Denied(wait: real)

  function Min(a: real, b: real): real {
    if a <= b then a else b
  }

  /** Tokens that accrue in a stretch of time. */
  function Gain(p: Params, d: real): real {
    if p.rate <= 0.0 || d <= 0.0 then 0.0 else p.rate * d
  }

  function Refill(p: Params, b: Bucket, now: real): real {
    Min(p.Full(), b.tokens + Gain(p, now - b.last))
  }

  /** The longest duration there is, in seconds: the wait for a token that never comes. */
  const NEVER: real := 9_223_372_036.854775807

  /** Reserve one token at `now`; when it would have to be waited for, cancel and say how long. */
  function Take(p: Params, b: Bucket, now: real): (Bucket, Decision) {
    var left := Refill(p, b, now) - 1.0;
    if left >= 0.0 then (Bucket(left, now), Granted)
    else (Bucket(left + 1.0, now), Denied(if p.rate > 0.0 then -left / p.rate else NEVER))
  }

  predicate InRange(p: Params, b: Bucket) {
    0.0 <= b.tokens <= p.Full()
  }

  lemma GainNonNegative(p: Params, d: real)
    ensures Gain(p, d) >= 0.0
  {
    if p.rate > 0.0 && d > 0.0 {
      ProductNonNegative(p.rate, d);
    }
  }

  lemma GainAdds(p: Params, d: real, e: real)
    requires d >= 0.0 && e >= 0.0
    ensures Gain(p, d + e) == Gain(p, d) + Gain(p, e)
  {
    assert p.rate * (d + e) == p.rate * d + p.rate * e;
  }

  lemma GainGrows(p: Params, d: real, e: real)
    requires d <= e
    ensures Gain(p, d) <= Gain(p, e)
  {
    GainNonNegative(p, e);
    if p.rate > 0.0 && d > 0.0 {
      ProductGrows(p.rate, d, e);
    }
  }

  lemma TakeKeepsRange(p: Params, b: Bucket, now: real)
    requires p.Valid() && InRange(p, b)
    ensures InRange(p, Take(p, b, now).0) && Take(p, b, now).0.last == now
  {
    GainNonNegative(p, now - b.last);
  }

  lemma ProductNonNegative(x: real, y: real)
    requires x >= 0.0 && y >= 0.0
    ensures x * y >= 0.0
  {
  }

  lemma ProductNonPositive(x: real, y: real)
    requires x <= 0.0 && y >= 0.0
    ensures x * y <= 0.0
  {
  }

  lemma ProductGrows(x: real, a: real, b: real)
    requires x >= 0.0 && a <= b
    ensures x * a <= x * b
  {
    ProductNonNegative(x, b - a);
    assert x * b == x * a + x * (b - a);
  }

  lemma RefillGrows(p: Params, b: Bucket, t: real, u: real)
    requires p.Valid() && InRange(p, b) && b.last <= t <= u
    ensures Refill(p, b, t) <= Refill(p, b, u) <= Refill(p, b, t) + Gain(p, u - t)
    ensures Refill(p, b, t) <= p.Full() && Refill(p, b, t) >= b.tokens
  {
    GainAdds(p, t - b.last, u - t);
    assert t - b.last + (u - t) == u - b.last;
    GainNonNegative(p, u - t);
    GainNonNegative(p, t - b.last);
  }

  /** A second token at the instant of the first: no refill in between. */
  lemma TakeAtOnce(p: Params, b: Bucket)
    requires p.Valid() && b.tokens <= p.Full()
    ensures Refill(p, b, b.last) == b.tokens
    ensures b.tokens >= 1.0 ==> Take(p, b, b.last) == (Bucket(b.tokens - 1.0, b.last), Granted)
    ensures b.tokens < 1.0 ==> Take(p, b, b.last).1.Denied?
  {
  }

  lemma QuotientBounds(rate: real, amount: real, d: real)
    requires rate > 0.0
    ensures amount / rate <= d <==> amount <= rate * d
    ensures amount > 0.0 ==> amount / rate > 0.0
  {
    var q := amount / rate;
    assert rate * q == amount;
    if q <= d {
      ProductGrows(rate, q, d);
    } else {
      ProductPositive(rate, q - d);
      assert rate * q == rate * d + rate * (q - d);
    }
    if q <= 0.0 {
      ProductGrows(rate, q, 0.0);
    }
  }

  lemma ProductPositive(x: real, y: real)
    requires x > 0.0 && y > 0.0
    ensures x * y > 0.0
  {
  }

  /**
   The advertised wait is exact: if the key stays quiet, it is refused at every
   moment before the wait is over and granted from then on. Without a rate it is
   refused for good.
   */
  lemma WaitIsExact(p: Params, b: Bucket, now: real, later: real)
    requires p.Valid() && InRange(p, b) && Take(p, b, now).1.Denied? && now <= later
    ensures Take(p, b, now).1.wait > 0.0
    ensures p.rate <= 0.0 ==> Take(p, b, now).1.wait == 9_223_372_036.854775807
    ensures Take(p, Take(p, b, now).0, later).1.Granted? <==> p.rate > 0.0 && now + Take(p, b, now).1.wait <= later
  {
    var (b', d) := Take(p, b, now);
    if p.rate > 0.0 {
      assert b'.tokens == Refill(p, b, now) && d.wait == (1.0 - b'.tokens) / p.rate;
      QuotientBounds(p.rate, 1.0 - b'.tokens, later - now);
      GrantedWhenEnough(p, b', later);
    }
  }

  lemma GrantedWhenEnough(p: Params, b: Bucket, now: real)
    requires p.Valid() && p.rate > 0.0 && b.last <= now
    ensures Take(p, b, now).1.Granted? <==> 1.0 - b.tokens <= p.rate * (now - b.last)
  {
    GainIsProduct(p, now - b.last);
  }

  lemma GainIsProduct(p: Params, d: real)
    requires p.rate > 0.0 && d >= 0.0
    ensures Gain(p, d) == p.rate * d
  {
    if d == 0.0 {
      assert p.rate * d == 0.0;
    }
  }

  /** The bucket after n tokens were asked for at one instant. */
  function TakeMany(p: Params, b: Bucket, at: real, n: nat): Bucket {
    if n == 0 then b else Take(p, TakeMany(p, b, at, n - 1), at).0
  }

  /** If all n were granted, the bucket held them. */
  lemma {:induction false} GrantedWereHeld(p: Params, b: Bucket, at: real, n: nat)
    requires p.Valid() && n > 0
    requires forall i: nat :: i < n ==> Take(p, TakeMany(p, b, at, i), at).1 == Granted
    ensures TakeMany(p, b, at, n) == Bucket(Refill(p, b, at) - n as real, at)
    ensures n as real <= Refill(p, b, at)
  {
    var before := TakeMany(p, b, at, n - 1);
    assert Take(p, before, at).1 == Granted;
    if n > 1 {
      GrantedWereHeld(p, b, at, n - 1);
      TakeAtOnce(p, before);
    }
  }
}
