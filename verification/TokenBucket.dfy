/** The token bucket of golang.org/x/time/rate as the rate limiter uses it: it starts
    full, refills at `limit` tokens a second up to `burst`, and a request takes one token
    or leaves it unchanged. Time is in seconds. */
module TokenBucket {

  datatype Bucket = Bucket(limit: real, burst: int, tokens: real, last: real)

  function NewBucket(limit: real, burst: int, now: real): Bucket
  {
    Bucket(limit, burst, burst as real, now)
  }

  /** Tokens available at `now`. */
  function Level(b: Bucket, now: real): real
  {
    var refilled := b.tokens + b.limit * (now - b.last);
    if refilled > b.burst as real then b.burst as real else refilled
  }

  predicate Allows(b: Bucket, now: real)
  {
    Level(b, now) >= 1.0
  }

  function Take(b: Bucket, now: real): Bucket
  {
    if Allows(b, now) then b.(tokens := Level(b, now) - 1.0, last := now) else b
  }

  ghost predicate Sound(b: Bucket, now: real)
  {
    && b.limit > 0.0
    && b.last <= now
    && if b.burst < 0 then b.tokens == b.burst as real else 0.0 <= b.tokens <= b.burst as real
  }

  /** Capping at `burst` early or late makes no difference: what a bucket holds later
      depends only on what it holds now. */
  lemma LevelLater(b: Bucket, t: real, u: real)
    requires Sound(b, t) && t <= u
    ensures Level(b, u) == Capped(b.burst, Level(b, t) + b.limit * (u - t))
    ensures Level(b, t) <= Level(b, u) <= Level(b, t) + b.limit * (u - t)
  {
    assert b.limit * (u - b.last) == b.limit * (t - b.last) + b.limit * (u - t);
    Product(b.limit, u - t);
  }

  function Capped(burst: int, x: real): real
  {
    if x > burst as real then burst as real else x
  }

  lemma Product(x: real, y: real)
    requires x >= 0.0 && y >= 0.0
    ensures x * y >= 0.0
  {
  }

  lemma ProductLess(x: real, y: real, z: real)
    requires x > 0.0
    ensures x * y < x * z <==> y < z
  {
    assert x * (z - y) == x * z - x * y;
  }

  lemma ProductMono(x: real, y: real, z: real)
    requires x >= 0.0 && y <= z
    ensures x * y <= x * z
  {
    Product(x, z - y);
    assert x * (z - y) == x * z - x * y;
  }

  lemma LevelBounds(b: Bucket, now: real)
    requires Sound(b, now)
    ensures Level(b, now) <= b.burst as real && (b.burst >= 0 ==> Level(b, now) >= 0.0)
  {
    var inflow := b.limit * (now - b.last);
    Product(b.limit, now - b.last);
    assert b.tokens + inflow >= b.tokens;
  }

  lemma LevelAtOnce(limit: real, burst: int, tokens: real, now: real)
    ensures Level(Bucket(limit, burst, tokens, now), now) == Capped(burst, tokens)
  {
    assert limit * (now - now) == 0.0;
  }

  lemma TakeSound(b: Bucket, now: real)
    requires Sound(b, now)
    ensures Sound(Take(b, now), now)
    ensures Level(Take(b, now), now) == Level(b, now) - if Allows(b, now) then 1.0 else 0.0
    ensures Level(b, now) <= b.burst as real && (b.burst >= 0 ==> Level(b, now) >= 0.0)
  {
    LevelBounds(b, now);
    if Allows(b, now) {
      LevelAtOnce(b.limit, b.burst, Level(b, now) - 1.0, now);
    }
  }

  lemma Refilled(b: Bucket, used: real, now: real, idle: real)
    requires Sound(b, now) && b.last <= used && idle <= now - used && b.burst as real <= b.limit * idle
    ensures Level(b, now) == b.burst as real
  {
    ProductMono(b.limit, idle, now - b.last);
    if b.burst < 0 {
      Product(b.limit, now - b.last);
    }
  }
}
