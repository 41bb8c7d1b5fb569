/**
 * `createRateLimiter` of public/client.js: a cooperative client-side throttle
 * that allows `tokens` messages, then refills all of them at once when at least
 * `refillMs` milliseconds have passed since the last refill. The clock
 * (`Date.now()`) is the parameter `now` of every operation.
 */
module RateLimit {
  import opened Wrappers

  const DefaultTokens := 1
  const DefaultRefillMs := 1000

  /** The options `{ tokens, refillMs }` after defaulting. */
  datatype Config = Config(tokens: int, refillMs: int)

  /** The two closure variables `available` and `lastRefill`. */
  datatype Bucket = Bucket(available: int, lastRefill: int)

  /** Destructuring `{ tokens = 1, refillMs = 1000 } = {}`: a missing option takes its default. */
  function Configure(tokens: Option<int>, refillMs: Option<int>): (c: Config)
    ensures tokens.None? ==> c.tokens == DefaultTokens
    ensures refillMs.None? ==> c.refillMs == DefaultRefillMs
    ensures tokens.Some? ==> c.tokens == tokens.value
    ensures refillMs.Some? ==> c.refillMs == refillMs.value
  {
    Config(tokens.GetOr(DefaultTokens), refillMs.GetOr(DefaultRefillMs))
  }

  /** A new limiter: full, last refilled at creation time. */
  function Start(c: Config, now: int): Bucket {
    Bucket(c.tokens, now)
  }

  /** `refill()`: once `refillMs` have passed, all tokens come back and the clock restarts. */
  function Refilled(c: Config, b: Bucket, now: int): Bucket {
    if now - b.lastRefill >= c.refillMs then Bucket(c.tokens, now) else b
  }

  /** `canSend()`: refill, then spend one token if there is one. */
  function TrySend(c: Config, b: Bucket, now: int): (bool, Bucket) {
    var r := Refilled(c, b, now);
    if r.available > 0 then (true, r.(available := r.available - 1)) else (false, r)
  }

  /** The bound every reachable bucket satisfies: never above `tokens`, and never below
      zero unless `tokens` itself is (then no call ever changes it). */
  ghost predicate Bounded(c: Config, b: Bucket) {
    b.available <= c.tokens && (0 <= b.available || b.available == c.tokens)
  }

  /** A new limiter starts full, at its creation time, within the bound. */
  lemma StartBounded(c: Config, now: int)
    ensures Start(c, now).available == c.tokens && Start(c, now).lastRefill == now
    ensures Bounded(c, Start(c, now))
  {
  }

  /** `refill` resets both variables exactly when `refillMs` have passed since the last
      refill; otherwise it changes neither. */
  lemma RefillOnlyAfterInterval(c: Config, b: Bucket, now: int)
    ensures now - b.lastRefill >= c.refillMs ==> Refilled(c, b, now) == Bucket(c.tokens, now)
    ensures now - b.lastRefill < c.refillMs ==> Refilled(c, b, now) == b
  {
  }

  /** `canSend` answers true exactly when the refilled bucket has a token, and then
      spends exactly one; on false the refilled bucket is kept as it is. */
  lemma TrySendSpendsOne(c: Config, b: Bucket, now: int)
    ensures var r := Refilled(c, b, now);
      var (ok, b') := TrySend(c, b, now);
      && (ok <==> r.available > 0)
      && b'.lastRefill == r.lastRefill
      && b'.available == (if ok then r.available - 1 else r.available)
  {
  }

  /** Every operation keeps the bound; with `tokens >= 0` that is `0 <= available <= tokens`. */
  lemma TrySendPreservesBound(c: Config, b: Bucket, now: int)
    requires Bounded(c, b)
    ensures Bounded(c, TrySend(c, b, now).1) && Bounded(c, Refilled(c, b, now))
    ensures c.tokens >= 0 ==> 0 <= TrySend(c, b, now).1.available <= c.tokens
  {
  }

  /** `canSend` called at each time of `times` in turn: how many calls returned true,
      and the bucket afterwards. */
  function Run(c: Config, b: Bucket, times: seq<int>): (nat, Bucket)
    decreases |times|
  {
    if times == [] then (0, b)
    else
      var (ok, b1) := TrySend(c, b, times[0]);
      var (n, b2) := Run(c, b1, times[1..]);
      (n + (if ok then 1 else 0), b2)
  }

  function Min(a: int, b: int): int { if a <= b then a else b }
  function Max(a: int, b: int): int { if a <= b then b else a }

  /** Between two refills the limiter grants exactly as many calls as it had tokens,
      or fewer if fewer calls are made. */
  lemma {:induction false} GrantsWithinWindow(c: Config, b: Bucket, times: seq<int>)
    requires forall i :: 0 <= i < |times| ==> times[i] - b.lastRefill < c.refillMs
    ensures Run(c, b, times).0 == Min(|times|, Max(0, b.available))
    ensures Run(c, b, times).1.lastRefill == b.lastRefill
    decreases |times|
  {
    if times != [] {
      var (ok, b1) := TrySend(c, b, times[0]);
      assert Refilled(c, b, times[0]) == b;
      GrantsWithinWindow(c, b1, times[1..]);
    }
  }

  /** So, from any reachable bucket, at most `tokens` calls return true until the next refill. */
  lemma AtMostTokensPerWindow(c: Config, b: Bucket, times: seq<int>)
    requires c.tokens >= 0 && Bounded(c, b)
    requires forall i :: 0 <= i < |times| ==> times[i] - b.lastRefill < c.refillMs
    ensures Run(c, b, times).0 <= c.tokens
  {
    GrantsWithinWindow(c, b, times);
  }

  /** The limiter object returned by `createRateLimiter`. */
  class RateLimiter {
    const config: Config
    var available: int
    var lastRefill: int

    /** The closure's variables as a value. */
    function Current(): Bucket
      reads this
    {
      Bucket(available, lastRefill)
    }

    ghost predicate Valid()
      reads this
    {
      Bounded(config, Current())
    }

    /** `createRateLimiter({ tokens, refillMs })` at time `now`. */
    constructor (tokens: Option<int>, refillMs: Option<int>, now: int)
      ensures config == Configure(tokens, refillMs)
      ensures Current() == Start(config, now)
      ensures Valid()
    {
      config := Configure(tokens, refillMs);
      available := tokens.GetOr(DefaultTokens);
      lastRefill := now;
    }

    /** `refill()` at time `now`. */
    method Refill(now: int)
      requires Valid()
      modifies this
      ensures Valid()
      ensures Current() == Refilled(config, old(Current()), now)
    {
      if now - lastRefill >= config.refillMs {
        available := config.tokens;
        lastRefill := now;
      }
    }

    /** `canSend()` at time `now`. */
    method CanSend(now: int) returns (ok: bool)
      requires Valid()
      modifies this
      ensures Valid()
      ensures (ok, Current()) == TrySend(config, old(Current()), now)
    {
      Refill(now);
      if available > 0 {
        available := available - 1;
        return true;
      }
      return false;
    }
  }
}
