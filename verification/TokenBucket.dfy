/** The Redis-backed token bucket (internal/redisutil/ratelimit.go) and the tiers and
    response header derived from it (cmd/apigateway/auth.go). Times are the Redis clock in
    whole milliseconds; tokens and refill rates are exact reals. */
module TokenBucket {
  import opened Prelude

  /** rateLimitBucketTTL in milliseconds. */
  const TTL_MS: int := 600_000

  /** The idle time after which the key is gone: Redis still serves it in the millisecond in which
      its TTL ends. */
  const GONE_MS: int := TTL_MS + 1

  /** What one bucket hash stores. PEXPIRE is issued together with `ts`, so the key lives
      exactly through `ts + TTL_MS`. */
  datatype Bucket = Bucket(tokens: real, ts: int)

  /** What one call returns to its caller. */
  datatype Outcome = Outcome(allowed: bool, remaining: int, retryAfterMs: int)

  function Ceil(x: real): int {
    -((-x).Floor)
  }

  function Min(a: real, b: real): real {
    if a <= b then a else b
  }

  /** Tokens earned in `ms` milliseconds. */
  function Gain(refill: real, ms: int): real {
    (ms as real / 1000.0) * refill
  }

  /** Tokens available to a call at `now`; a missing bucket counts as full. */
  function Level(capacity: int, refill: real, b: Option<Bucket>, now: int): real {
    match b
    case None => capacity as real
    case Some(Bucket(tokens, ts)) =>
      Min(capacity as real, tokens + Gain(refill, if now < ts then 0 else now - ts))
  }

  function Spent(level: real): real {
    if level >= 1.0 then level - 1.0 else level
  }

  function Next(capacity: int, refill: real, b: Option<Bucket>, now: int): Bucket {
    Bucket(Spent(Level(capacity, refill, b, now)), now)
  }

  function Reply(capacity: int, refill: real, b: Option<Bucket>, now: int): Outcome
    requires refill > 0.0
  {
    var level := Level(capacity, refill, b, now);
    Outcome(level >= 1.0, Spent(level).Floor,
            if level >= 1.0 then 0 else Ceil((1.0 - level) / refill * 1000.0))
  }

  /** What HMGET sees at `now`: a bucket whose key has expired is gone. */
  function Visible(b: Option<Bucket>, now: int): Option<Bucket> {
    if b.Some? && now <= b.value.ts + TTL_MS then b else None
  }

  /** The gateway's client of the script: every bucket of the Redis keyspace. */
  class RateLimiter {
    var buckets: map<string, Bucket>

    constructor ()
      ensures buckets == map[]
    {
      buckets := map[];
    }

    function Stored(key: string): Option<Bucket>
      reads this
    {
      if key in buckets then Some(buckets[key]) else None
    }

    /** One run of the script, which Redis executes atomically. */
    method AllowTokenBucket(key: string, capacity: int, refill: real, now: int)
      returns (res: Result<Outcome, string>)
      modifies this
      ensures capacity <= 0 || refill <= 0.0 ==> res.Err? && buckets == old(buckets)
      ensures capacity > 0 && refill > 0.0 ==>
        && res == Ok(Reply(capacity, refill, Visible(old(Stored(key)), now), now))
        && buckets == old(buckets)[key := Next(capacity, refill, Visible(old(Stored(key)), now), now)]
    {
      if capacity <= 0 || refill <= 0.0 {
        return Err("capacity and refillPerSec must both be positive");
      }
      var tokens, ts := capacity as real, now;
      if key in buckets && now <= buckets[key].ts + TTL_MS {
        tokens, ts := buckets[key].tokens, buckets[key].ts;
      }
      var elapsedMs := now - ts;
      if elapsedMs < 0 {
        elapsedMs := 0;
      }
      tokens := Min(capacity as real, tokens + Gain(refill, elapsedMs));
      assert tokens == Level(capacity, refill, Visible(Stored(key), now), now) by {
        assert Gain(refill, 0) == 0.0;
      }
      var allowed, retryAfterMs := false, 0;
      if tokens >= 1.0 {
        tokens := tokens - 1.0;
        allowed := true;
      } else {
        retryAfterMs := Ceil((1.0 - tokens) / refill * 1000.0);
      }
      buckets := buckets[key := Bucket(tokens, now)];
      res := Ok(Outcome(allowed, tokens.Floor, retryAfterMs));
    }
  }

  // ----- One bucket over a whole history of calls -----

  ghost predicate Monotone(times: seq<int>) {
    forall i, j :: 0 <= i <= j < |times| ==> times[i] <= times[j]
  }

  /** The bucket left behind by calls at `times`; `expiring` says whether the key's TTL is
      honoured or the bucket is kept forever. */
  function After(capacity: int, refill: real, expiring: bool, times: seq<int>): Option<Bucket> {
    if times == [] then None
    else
      var before := After(capacity, refill, expiring, times[..|times| - 1]);
      var now := times[|times| - 1];
      Some(Next(capacity, refill, if expiring then Visible(before, now) else before, now))
  }

  function Before(capacity: int, refill: real, expiring: bool, times: seq<int>, k: nat): Option<Bucket>
    requires k < |times|
  {
    var b := After(capacity, refill, expiring, times[..k]);
    if expiring then Visible(b, times[k]) else b
  }

  /** The answer to call `k` of a fresh bucket's history. */
  function OutcomeAt(capacity: int, refill: real, expiring: bool, times: seq<int>, k: nat): Outcome
    requires refill > 0.0 && k < |times|
  {
    Reply(capacity, refill, Before(capacity, refill, expiring, times, k), times[k])
  }

  ghost predicate Allowed(capacity: int, refill: real, expiring: bool, times: seq<int>, k: nat)
    requires k < |times|
  {
    Level(capacity, refill, Before(capacity, refill, expiring, times, k), times[k]) >= 1.0
  }

  /** How many of the calls `i..j` (exclusive of `j`) are allowed. */
  ghost function AllowedCount(capacity: int, refill: real, expiring: bool, times: seq<int>, i: nat, j: nat): nat
    requires i <= j <= |times|
  {
    if i == j then 0
    else
      AllowedCount(capacity, refill, expiring, times, i, j - 1) +
      if Allowed(capacity, refill, expiring, times, j - 1) then 1 else 0
  }

  lemma GainAdds(refill: real, a: int, b: int)
    ensures Gain(refill, a + b) == Gain(refill, a) + Gain(refill, b)
  {
    var x, y := a as real / 1000.0, b as real / 1000.0;
    assert (a + b) as real / 1000.0 == x + y;
    assert (x + y) * refill == x * refill + y * refill;
  }

  lemma GainGrows(refill: real, a: int, b: int)
    requires refill > 0.0 && a <= b
    ensures Gain(refill, a) <= Gain(refill, b)
    ensures a >= 0 ==> Gain(refill, a) >= 0.0
  {
    var x, y := a as real / 1000.0, b as real / 1000.0;
    assert x <= y;
    assert (y - x) * refill >= 0.0;
    if a >= 0 {
      assert x * refill >= 0.0;
    }
  }

  lemma AfterSnoc(capacity: int, refill: real, expiring: bool, times: seq<int>, k: nat)
    requires k < |times|
    ensures After(capacity, refill, expiring, times[..k + 1])
         == Some(Next(capacity, refill, Before(capacity, refill, expiring, times, k), times[k]))
  {
    assert times[..k + 1][..k] == times[..k];
  }

  // ----- Expiry -----

  /** A drained bucket is full again before its idle key disappears. */
  ghost predicate RefillsWithinTtl(capacity: int, refill: real) {
    capacity as real <= 600.001 * refill
  }

  /** A key only disappears once it has been idle long enough to be full again, so a caller
      cannot tell an expiring bucket from one kept forever - exactly when refilling the whole
      capacity takes no longer than the TTL. */
  lemma ExpiryUnobservableIff(capacity: int, refill: real)
    requires capacity >= 1 && refill > 0.0
    ensures (forall times: seq<int>, k: nat :: Monotone(times) && k < |times| ==>
               OutcomeAt(capacity, refill, true, times, k) == OutcomeAt(capacity, refill, false, times, k))
       <==> RefillsWithinTtl(capacity, refill)
  {
    if RefillsWithinTtl(capacity, refill) {
      forall times: seq<int>, k: nat | Monotone(times) && k < |times|
        ensures OutcomeAt(capacity, refill, true, times, k) == OutcomeAt(capacity, refill, false, times, k)
      {
        ExpiryKeepsOutcome(capacity, refill, times, k);
      }
    } else {
      var burst := seq(capacity, _ => 0);
      var times := burst + [GONE_MS];
      BurstDrains(capacity, refill, capacity);
      assert times[..capacity] == burst;
      assert OutcomeAt(capacity, refill, false, times, capacity)
        == Reply(capacity, refill, Some(Bucket(0.0, 0)), GONE_MS);
      ExpiredBurst(capacity, refill, capacity);
      assert OutcomeAt(capacity, refill, true, times, capacity) == Reply(capacity, refill, None, GONE_MS);
      assert OutcomeAt(capacity, refill, true, times, capacity).remaining == capacity - 1;
      assert Gain(refill, GONE_MS) == 600.001 * refill;
      assert Monotone(times);
    }
  }

  lemma {:induction false} BurstDrains(capacity: int, refill: real, n: nat)
    requires capacity >= 1 && refill > 0.0 && n <= capacity
    ensures n > 0 ==>
      After(capacity, refill, false, seq(n, _ => 0)) == Some(Bucket((capacity - n) as real, 0))
    decreases n
  {
    if n > 0 {
      BurstDrains(capacity, refill, n - 1);
      assert seq(n, _ => 0)[..n - 1] == seq(n - 1, _ => 0);
      assert Gain(refill, 0) == 0.0;
    }
  }

  lemma {:induction false} ExpiredBurst(capacity: int, refill: real, n: nat)
    requires n > 0
    ensures After(capacity, refill, true, seq(n, _ => 0)).Some?
         && After(capacity, refill, true, seq(n, _ => 0)).value.ts == 0
  {
  }

  lemma {:induction false} ExpiryKeepsBucket(capacity: int, refill: real, times: seq<int>)
    requires capacity >= 1 && refill > 0.0 && Monotone(times)
    requires RefillsWithinTtl(capacity, refill)
    ensures After(capacity, refill, true, times) == After(capacity, refill, false, times)
    ensures times != [] ==> var b := After(capacity, refill, false, times);
      b.Some? && b.value.tokens >= 0.0 && b.value.ts == times[|times| - 1]
    decreases |times|
  {
    if times != [] {
      var init := times[..|times| - 1];
      var now := times[|times| - 1];
      ExpiryKeepsBucket(capacity, refill, init);
      if init != [] {
        GainGrows(refill, 0, now - init[|init| - 1]);
        VisibleSameLevel(capacity, refill, After(capacity, refill, false, init), now);
      }
    }
  }

  lemma VisibleSameLevel(capacity: int, refill: real, b: Option<Bucket>, now: int)
    requires refill > 0.0 && RefillsWithinTtl(capacity, refill)
    requires b.Some? ==> b.value.tokens >= 0.0 && b.value.ts <= now
    ensures Level(capacity, refill, Visible(b, now), now) == Level(capacity, refill, b, now)
  {
    if b.Some? && now >= b.value.ts + GONE_MS {
      assert Gain(refill, GONE_MS) == 600.001 * refill;
      GainGrows(refill, GONE_MS, now - b.value.ts);
    }
  }

  lemma ExpiryKeepsOutcome(capacity: int, refill: real, times: seq<int>, k: nat)
    requires capacity >= 1 && refill > 0.0 && Monotone(times) && k < |times|
    requires RefillsWithinTtl(capacity, refill)
    ensures OutcomeAt(capacity, refill, true, times, k) == OutcomeAt(capacity, refill, false, times, k)
  {
    ExpiryKeepsBucket(capacity, refill, times[..k]);
    VisibleSameLevel(capacity, refill, After(capacity, refill, false, times[..k]), times[k]);
  }

  // ----- Conformance -----

  /** Of a bucket kept forever: whatever is denied, what it still holds after call `j` and the
      calls allowed in a window are part of the same budget. */
  lemma {:induction false} KeptBudget(capacity: int, refill: real, times: seq<int>, i: nat, j: nat)
    requires capacity >= 1 && refill > 0.0 && Monotone(times) && i <= j < |times|
    ensures var b := After(capacity, refill, false, times[..j + 1]);
      && b.Some? && b.value.ts == times[j] && 0.0 <= b.value.tokens
      && b.value.tokens + AllowedCount(capacity, refill, false, times, i, j + 1) as real
         <= capacity as real + Gain(refill, times[j] - times[i])
    decreases j
  {
    AfterSnoc(capacity, refill, false, times, j);
    if j > 0 {
      KeptBudget(capacity, refill, times, if i < j then i else j - 1, j - 1);
      GainAdds(refill, times[j - 1] - times[i], times[j] - times[j - 1]);
      GainGrows(refill, 0, times[j] - times[j - 1]);
    }
    if i == j {
      assert AllowedCount(capacity, refill, false, times, j, j) == 0;
      assert Gain(refill, 0) == 0.0;
    }
  }

  lemma {:induction false} ExpiryKeepsCount(capacity: int, refill: real, times: seq<int>, i: nat, j: nat)
    requires capacity >= 1 && refill > 0.0 && Monotone(times) && i <= j <= |times| && RefillsWithinTtl(capacity, refill)
    ensures AllowedCount(capacity, refill, true, times, i, j) == AllowedCount(capacity, refill, false, times, i, j)
    decreases j
  {
    if i < j {
      ExpiryKeepsCount(capacity, refill, times, i, j - 1);
      ExpiryKeepsOutcome(capacity, refill, times, j - 1);
      AllowedIsOutcome(capacity, refill, true, times, j - 1);
      AllowedIsOutcome(capacity, refill, false, times, j - 1);
    }
  }

  lemma AllowedIsOutcome(capacity: int, refill: real, expiring: bool, times: seq<int>, k: nat)
    requires refill > 0.0 && k < |times|
    ensures Allowed(capacity, refill, expiring, times, k) <==> OutcomeAt(capacity, refill, expiring, times, k).allowed
  {
  }

  /** The same of the bucket Redis keeps, which expires. */
  lemma WindowBudget(capacity: int, refill: real, times: seq<int>, i: nat, j: nat)
    requires capacity >= 1 && refill > 0.0 && Monotone(times) && i <= j < |times| && RefillsWithinTtl(capacity, refill)
    ensures var b := After(capacity, refill, true, times[..j + 1]);
      && b.Some? && b.value.ts == times[j] && 0.0 <= b.value.tokens
      && b.value.tokens + AllowedCount(capacity, refill, true, times, i, j + 1) as real
         <= capacity as real + Gain(refill, times[j] - times[i])
  {
    KeptBudget(capacity, refill, times, i, j);
    ExpiryKeepsCount(capacity, refill, times, i, j + 1);
    ExpiryKeepsBucket(capacity, refill, times[..j + 1]);
  }

  ghost predicate WindowBounded(capacity: int, refill: real, times: seq<int>, i: nat, j: nat)
    requires i <= j < |times|
  {
    AllowedCount(capacity, refill, true, times, i, j + 1) as real <= capacity as real + Gain(refill, times[j] - times[i])
  }

  /** The calls allowed in any window of any run obey the token-bucket bound, exactly when a
      drained bucket refills within its TTL. */
  lemma WindowBoundIff(capacity: int, refill: real)
    requires capacity >= 1 && refill > 0.0
    ensures (forall times: seq<int>, i: nat, j: nat :: Monotone(times) && i <= j < |times| ==>
               WindowBounded(capacity, refill, times, i, j))
       <==> RefillsWithinTtl(capacity, refill)
  {
    if RefillsWithinTtl(capacity, refill) {
      forall times: seq<int>, i: nat, j: nat | Monotone(times) && i <= j < |times|
        ensures WindowBounded(capacity, refill, times, i, j)
      {
        WindowBudget(capacity, refill, times, i, j);
      }
    } else {
      var times := Bursts(capacity, capacity);
      BurstsAllowed(capacity, refill, capacity, capacity);
      AllAllowedCount(capacity, refill, true, times, 0, 2 * capacity);
      assert Gain(refill, GONE_MS) == 600.001 * refill;
      assert Monotone(times) && !WindowBounded(capacity, refill, times, 0, 2 * capacity - 1);
    }
  }

  /** `n` calls at once, and `m` more just when the idle key has expired. */
  function Bursts(n: nat, m: nat): seq<int> {
    seq(n + m, i requires 0 <= i < n + m => if i < n then 0 else GONE_MS)
  }

  lemma {:induction false} AfterBursts(capacity: int, refill: real, n: nat, m: nat)
    requires capacity >= 1 && refill > 0.0 && n <= capacity && m <= capacity
    ensures n > 0 && m == 0 ==> After(capacity, refill, true, Bursts(n, m)) == Some(Bucket((capacity - n) as real, 0))
    ensures m > 0 ==> After(capacity, refill, true, Bursts(n, m)) == Some(Bucket((capacity - m) as real, GONE_MS))
    decreases n + m
  {
    assert Gain(refill, 0) == 0.0;
    if m > 0 {
      assert Bursts(n, m)[..n + m - 1] == Bursts(n, m - 1);
      AfterBursts(capacity, refill, n, m - 1);
    } else if n > 0 {
      assert Bursts(n, 0)[..n - 1] == Bursts(n - 1, 0);
      AfterBursts(capacity, refill, n - 1, 0);
    }
  }

  /** Both bursts of a full bucket's capacity go through. */
  lemma BurstsAllowed(capacity: int, refill: real, n: nat, m: nat)
    requires capacity >= 1 && refill > 0.0 && n <= capacity && m <= capacity
    ensures forall k: nat :: k < n + m ==> Allowed(capacity, refill, true, Bursts(n, m), k)
  {
    forall k: nat | k < n + m ensures Allowed(capacity, refill, true, Bursts(n, m), k) {
      if k < n {
        assert Bursts(n, m)[..k] == Bursts(k, 0);
        AfterBursts(capacity, refill, k, 0);
      } else {
        assert Bursts(n, m)[..k] == Bursts(n, k - n);
        AfterBursts(capacity, refill, n, k - n);
      }
      assert Gain(refill, 0) == 0.0;
    }
  }

  /** While nothing was denied yet, the level before call `k` is set by one earlier call
      that found the bucket full, expired or not. */
  lemma {:induction false} LevelWitness(capacity: int, refill: real, expiring: bool, times: seq<int>, k: nat) returns (i: nat)
    requires capacity >= 1 && refill > 0.0 && Monotone(times) && k < |times|
    requires forall m: nat :: m < k ==> Allowed(capacity, refill, expiring, times, m)
    ensures i <= k
    ensures Level(capacity, refill, Before(capacity, refill, expiring, times, k), times[k])
         == capacity as real + Gain(refill, times[k] - times[i]) - (k - i) as real
    decreases k
  {
    i := k;
    assert Gain(refill, 0) == 0.0;
    if k > 0 {
      var w := LevelWitness(capacity, refill, expiring, times, k - 1);
      AfterSnoc(capacity, refill, expiring, times, k - 1);
      assert Allowed(capacity, refill, expiring, times, k - 1);
      GainAdds(refill, times[k - 1] - times[w], times[k] - times[k - 1]);
      var b := Before(capacity, refill, expiring, times, k);
      if b.Some? && b.value.tokens + Gain(refill, times[k] - times[k - 1]) <= capacity as real {
        i := w;
      }
    }
  }

  ghost predicate WithinBudget(capacity: int, refill: real, times: seq<int>, i: nat, j: nat)
    requires i <= j < |times|
  {
    (j - i + 1) as real <= capacity as real + Gain(refill, times[j] - times[i])
  }

  ghost predicate Fits(capacity: int, refill: real, times: seq<int>) {
    forall i: nat, j: nat :: i <= j < |times| ==> WithinBudget(capacity, refill, times, i, j)
  }

  ghost predicate AllAllowed(capacity: int, refill: real, times: seq<int>)
    requires refill > 0.0
  {
    forall k: nat :: k < |times| ==> OutcomeAt(capacity, refill, true, times, k).allowed
  }

  lemma {:induction false} AllAllowedCount(capacity: int, refill: real, expiring: bool, times: seq<int>, i: nat, j: nat)
    requires i <= j <= |times|
    requires forall m: nat :: i <= m < j ==> Allowed(capacity, refill, expiring, times, m)
    ensures AllowedCount(capacity, refill, expiring, times, i, j) == j - i
    decreases j
  {
    if i < j {
      AllAllowedCount(capacity, refill, expiring, times, i, j - 1);
    }
  }

  /** What fits the budget is always allowed. */
  lemma {:induction false} FitsIsAllowed(capacity: int, refill: real, expiring: bool, times: seq<int>, n: nat)
    requires capacity >= 1 && refill > 0.0 && Monotone(times) && n <= |times| && Fits(capacity, refill, times)
    ensures forall k: nat :: k < n ==> Allowed(capacity, refill, expiring, times, k)
    decreases n
  {
    if n > 0 {
      FitsIsAllowed(capacity, refill, expiring, times, n - 1);
      var i := LevelWitness(capacity, refill, expiring, times, n - 1);
      assert WithinBudget(capacity, refill, times, i, n - 1);
    }
  }

  /** Conformance of one sequence of calls, both directions. */
  lemma Conformance(capacity: int, refill: real, times: seq<int>)
    requires capacity >= 1 && refill > 0.0 && Monotone(times) && RefillsWithinTtl(capacity, refill)
    ensures AllAllowed(capacity, refill, times) <==> Fits(capacity, refill, times)
  {
    if AllAllowed(capacity, refill, times) {
      forall k: nat | k < |times| ensures Allowed(capacity, refill, true, times, k) {
        assert OutcomeAt(capacity, refill, true, times, k).allowed;
      }
      forall i: nat, j: nat | i <= j < |times| ensures WithinBudget(capacity, refill, times, i, j) {
        AllAllowedCount(capacity, refill, true, times, i, j + 1);
        WindowBudget(capacity, refill, times, i, j);
      }
    }
    if Fits(capacity, refill, times) {
      FitsIsAllowed(capacity, refill, true, times, |times|);
      forall k: nat | k < |times| ensures OutcomeAt(capacity, refill, true, times, k).allowed {
        assert Allowed(capacity, refill, true, times, k);
      }
    }
  }

  /** From a fresh bucket, a whole sequence of calls is allowed if and only if every window of it
      fits the budget - for every sequence, exactly when a drained bucket refills within its TTL. */
  lemma ConformanceIff(capacity: int, refill: real)
    requires capacity >= 1 && refill > 0.0
    ensures (forall times: seq<int> :: Monotone(times) ==>
               (AllAllowed(capacity, refill, times) <==> Fits(capacity, refill, times)))
       <==> RefillsWithinTtl(capacity, refill)
  {
    if RefillsWithinTtl(capacity, refill) {
      forall times: seq<int> | Monotone(times) ensures AllAllowed(capacity, refill, times) <==> Fits(capacity, refill, times) {
        Conformance(capacity, refill, times);
      }
    } else {
      var times := Bursts(capacity, capacity);
      BurstsAllowed(capacity, refill, capacity, capacity);
      assert AllAllowed(capacity, refill, times) by {
        forall k: nat | k < |times| ensures OutcomeAt(capacity, refill, true, times, k).allowed {
          assert Allowed(capacity, refill, true, times, k);
        }
      }
      assert Gain(refill, GONE_MS) == 600.001 * refill;
      assert Monotone(times) && !WithinBudget(capacity, refill, times, 0, 2 * capacity - 1);
    }
  }

  // ----- Denied calls -----

  /** A history with call `d` left out. */
  function Without(times: seq<int>, d: nat): (rest: seq<int>)
    requires d < |times|
  {
    times[..d] + times[d + 1..]
  }

  /** Of a bucket kept forever: deleting a denied call changes no other call's answer. */
  lemma KeptDeniedUnobservable(capacity: int, refill: real, times: seq<int>, d: nat, k: nat)
    requires capacity >= 1 && refill > 0.0 && Monotone(times)
    requires d < |times| && !OutcomeAt(capacity, refill, false, times, d).allowed
    requires k < |times| && k != d
    ensures OutcomeAt(capacity, refill, false, times, k)
         == OutcomeAt(capacity, refill, false, Without(times, d), if k < d then k else k - 1)
  {
    var rest := Without(times, d);
    if k < d {
      assert rest[..k] == times[..k];
    } else {
      DeniedSameLevel(capacity, refill, times, d, k);
    }
  }

  /** The call right after the denied one. */
  lemma DeniedNextLevel(capacity: int, refill: real, times: seq<int>, d: nat)
    requires capacity >= 1 && refill > 0.0 && Monotone(times)
    requires d + 1 < |times| && !OutcomeAt(capacity, refill, false, times, d).allowed
    ensures Level(capacity, refill, After(capacity, refill, false, times[..d + 1]), times[d + 1])
         == Level(capacity, refill, After(capacity, refill, false, times[..d]), times[d + 1])
  {
    AfterSnoc(capacity, refill, false, times, d);
    if d > 0 {
      KeptBudget(capacity, refill, times, 0, d - 1);
    }
    DeniedThenNext(capacity, refill, Before(capacity, refill, false, times, d), times[d], times[d + 1]);
  }

  lemma {:induction false} DeniedSameLevel(capacity: int, refill: real, times: seq<int>, d: nat, k: nat)
    requires capacity >= 1 && refill > 0.0 && Monotone(times)
    requires d < k < |times| && !OutcomeAt(capacity, refill, false, times, d).allowed
    ensures Level(capacity, refill, Before(capacity, refill, false, times, k), times[k])
         == Level(capacity, refill, Before(capacity, refill, false, Without(times, d), k - 1), Without(times, d)[k - 1])
    decreases k
  {
    var rest := Without(times, d);
    assert rest[k - 1] == times[k];
    if k == d + 1 {
      assert rest[..d] == times[..d];
      DeniedNextLevel(capacity, refill, times, d);
    } else {
      DeniedSameLevel(capacity, refill, times, d, k - 1);
      AfterSnoc(capacity, refill, false, times, k - 1);
      AfterSnoc(capacity, refill, false, rest, k - 2);
      assert rest[k - 2] == times[k - 1];
    }
  }

  lemma DeniedThenNext(capacity: int, refill: real, b: Option<Bucket>, mid: int, now: int)
    requires refill > 0.0 && mid <= now && (b.Some? ==> b.value.ts <= mid)
    requires !Reply(capacity, refill, b, mid).allowed
    ensures Level(capacity, refill, Some(Next(capacity, refill, b, mid)), now) == Level(capacity, refill, b, now)
  {
    RefillTwice(capacity, refill, b, mid, now);
  }

  /** Storing a partial refill and refilling again earns what one refill would have. */
  lemma RefillTwice(capacity: int, refill: real, b: Option<Bucket>, mid: int, now: int)
    requires refill > 0.0 && mid <= now && (b.Some? ==> b.value.ts <= mid)
    ensures Level(capacity, refill, Some(Bucket(Level(capacity, refill, b, mid), mid)), now)
         == Level(capacity, refill, b, now)
  {
    GainGrows(refill, 0, now - mid);
    if b.Some? {
      GainAdds(refill, mid - b.value.ts, now - mid);
    }
  }

  /** Deleting call `d` changes nothing about the answer to call `k`. */
  ghost predicate DeletionUnseen(capacity: int, refill: real, times: seq<int>, d: nat, k: nat)
    requires refill > 0.0 && d < |times| && k < |times| && k != d
  {
    OutcomeAt(capacity, refill, true, times, k)
    == OutcomeAt(capacity, refill, true, Without(times, d), if k < d then k else k - 1)
  }

  /** `d` is a denied call of a history and `k` another call. */
  ghost predicate Denied(capacity: int, refill: real, times: seq<int>, d: nat, k: nat)
    requires refill > 0.0
  {
    Monotone(times) && d < |times| && k < |times| && k != d && !OutcomeAt(capacity, refill, true, times, d).allowed
  }

  lemma DeniedCallUnobservable(capacity: int, refill: real, times: seq<int>, d: nat, k: nat)
    requires capacity >= 1 && refill > 0.0 && Denied(capacity, refill, times, d, k)
    requires RefillsWithinTtl(capacity, refill) || refill >= 1000.0
    ensures DeletionUnseen(capacity, refill, times, d, k)
  {
    if RefillsWithinTtl(capacity, refill) {
      ExpiryKeepsOutcome(capacity, refill, times, d);
      ExpiryKeepsOutcome(capacity, refill, times, k);
      ExpiryKeepsOutcome(capacity, refill, Without(times, d), if k < d then k else k - 1);
      KeptDeniedUnobservable(capacity, refill, times, d, k);
    } else if k < d {
      assert Without(times, d)[..k] == times[..k];
    } else {
      FastDeniedSameBucket(capacity, refill, times, d, k);
      assert Without(times, d)[k - 1] == times[k];
    }
  }

  lemma {:induction false} TokensWithin(capacity: int, refill: real, times: seq<int>)
    requires capacity >= 1 && refill > 0.0 && Monotone(times) && times != []
    ensures var b := After(capacity, refill, true, times);
      b.Some? && 0.0 <= b.value.tokens <= capacity as real && b.value.ts == times[|times| - 1]
    decreases |times|
  {
    if |times| > 1 {
      TokensWithin(capacity, refill, times[..|times| - 1]);
      GainGrows(refill, 0, times[|times| - 1] - times[|times| - 2]);
    }
  }

  /** At a token a millisecond or more only a call in the same millisecond as the one before it
      can be denied, and it leaves the bucket as it was. */
  lemma FastDenied(capacity: int, refill: real, times: seq<int>, d: nat)
    requires capacity >= 1 && refill >= 1000.0 && Monotone(times)
    requires d < |times| && !OutcomeAt(capacity, refill, true, times, d).allowed
    ensures After(capacity, refill, true, times[..d + 1]) == After(capacity, refill, true, times[..d])
  {
    AfterSnoc(capacity, refill, true, times, d);
    assert Gain(refill, 0) == 0.0 && Gain(refill, 1) == refill / 1000.0;
    if d > 0 {
      TokensWithin(capacity, refill, times[..d]);
      GainGrows(refill, 0, times[d] - times[d - 1]);
      if times[d] > times[d - 1] {
        GainGrows(refill, 1, times[d] - times[d - 1]);
      }
    }
  }

  lemma {:induction false} FastDeniedSameBucket(capacity: int, refill: real, times: seq<int>, d: nat, k: nat)
    requires capacity >= 1 && refill >= 1000.0 && Monotone(times)
    requires d < k <= |times| && !OutcomeAt(capacity, refill, true, times, d).allowed
    ensures After(capacity, refill, true, times[..k]) == After(capacity, refill, true, Without(times, d)[..k - 1])
    decreases k
  {
    var rest := Without(times, d);
    if k == d + 1 {
      FastDenied(capacity, refill, times, d);
      assert rest[..d] == times[..d];
    } else {
      FastDeniedSameBucket(capacity, refill, times, d, k - 1);
      AfterSnoc(capacity, refill, true, times, k - 1);
      AfterSnoc(capacity, refill, true, rest, k - 2);
      assert rest[k - 2] == times[k - 1];
    }
  }

  /** A burst, a denied call one millisecond later, and a call just when the burst alone would
      have expired: what the denied call changes is the expiry. */
  lemma DeniedKeepsAlive(capacity: int, refill: real)
    requires capacity >= 1 && 0.0 < refill < 1000.0 && !RefillsWithinTtl(capacity, refill)
    ensures var times := Bursts(capacity, 0) + [1, GONE_MS];
      && Monotone(times) && !OutcomeAt(capacity, refill, true, times, capacity).allowed
      && !DeletionUnseen(capacity, refill, times, capacity, capacity + 1)
  {
    var burst := Bursts(capacity, 0);
    var times := burst + [1, GONE_MS];
    AfterBursts(capacity, refill, capacity, 0);
    assert times[..capacity] == burst;
    assert Gain(refill, 1) == refill / 1000.0;
    AfterSnoc(capacity, refill, true, times, capacity);
    var drained := Some(Bucket(refill / 1000.0, 1));
    assert After(capacity, refill, true, times[..capacity + 1]) == drained;
    GainAdds(refill, 1, GONE_MS - 1);
    assert Gain(refill, GONE_MS) == 600.001 * refill;
    assert OutcomeAt(capacity, refill, true, times, capacity + 1) == Reply(capacity, refill, drained, GONE_MS);
    var rest := Without(times, capacity);
    assert rest[..capacity] == burst && rest[capacity] == GONE_MS;
    assert OutcomeAt(capacity, refill, true, rest, capacity) == Reply(capacity, refill, None, GONE_MS);
    assert Reply(capacity, refill, None, GONE_MS).remaining == capacity - 1;
  }

  /** Deleting a denied call from a history changes no other call's answer, for every history -
      exactly when a drained bucket refills within its TTL, or earns a token a millisecond. */
  lemma DeniedUnobservableIff(capacity: int, refill: real)
    requires capacity >= 1 && refill > 0.0
    ensures (forall times: seq<int>, d: nat, k: nat ::
               Denied(capacity, refill, times, d, k) ==> DeletionUnseen(capacity, refill, times, d, k))
       <==> RefillsWithinTtl(capacity, refill) || refill >= 1000.0
  {
    if RefillsWithinTtl(capacity, refill) || refill >= 1000.0 {
      forall times: seq<int>, d: nat, k: nat | Denied(capacity, refill, times, d, k)
        ensures DeletionUnseen(capacity, refill, times, d, k)
      {
        DeniedCallUnobservable(capacity, refill, times, d, k);
      }
    } else {
      DeniedKeepsAlive(capacity, refill);
      assert Denied(capacity, refill, Bursts(capacity, 0) + [1, GONE_MS], capacity, capacity + 1);
    }
  }

  // ----- What the response promises -----

  function Again(capacity: int, refill: real, b: Option<Bucket>, now: int, m: nat): Option<Bucket> {
    if m == 0 then b else Some(Next(capacity, refill, Again(capacity, refill, b, now, m - 1), now))
  }

  /** The reported remainder is exact: that many further calls at the same instant are
      allowed, and no more. */
  lemma RemainingExact(capacity: int, refill: real, b: Option<Bucket>, now: int, m: nat)
    requires capacity >= 1 && refill > 0.0
    requires b.Some? ==> b.value.tokens >= 0.0 && b.value.ts <= now
    ensures var left := Some(Next(capacity, refill, b, now));
      Reply(capacity, refill, Again(capacity, refill, left, now, m), now).allowed
      <==> m < Reply(capacity, refill, b, now).remaining
    ensures Reply(capacity, refill, b, now).remaining >= 0
    ensures !Reply(capacity, refill, b, now).allowed ==> Reply(capacity, refill, b, now).remaining == 0
  {
    if b.Some? {
      GainGrows(refill, 0, now - b.value.ts);
    }
    var level := Level(capacity, refill, b, now);
    AgainLevel(capacity, refill, Spent(level), now, m);
  }

  lemma {:induction false} AgainLevel(capacity: int, refill: real, tokens: real, now: int, m: nat)
    requires 0.0 <= tokens <= capacity as real
    ensures var bucket := Again(capacity, refill, Some(Bucket(tokens, now)), now, m);
      && bucket.Some? && bucket.value.ts == now
      && bucket.value.tokens == if m <= tokens.Floor then tokens - m as real else tokens - tokens.Floor as real
  {
    assert Gain(refill, 0) == 0.0;
    if m > 0 {
      AgainLevel(capacity, refill, tokens, now, m - 1);
    }
  }

  /** enforceLimit's header value: the returned duration in seconds, rounded up. */
  function RetryAfterSeconds(retryAfterMs: int): int {
    Ceil(retryAfterMs as real / 1000.0)
  }

  lemma CeilSpec(x: real, n: int)
    ensures Ceil(x) <= n <==> x <= n as real
  {
  }

  /** After a denial with no call in between, a call `d` ms later is allowed exactly from the
      returned number of milliseconds on, or once the idle key has expired; the header's whole
      seconds always suffice. */
  lemma RetryAfterExact(capacity: int, refill: real, b: Option<Bucket>, now: int, d: nat)
    requires capacity >= 1 && refill > 0.0
    requires !Reply(capacity, refill, b, now).allowed
    ensures var wait := Reply(capacity, refill, b, now).retryAfterMs;
      var left := Some(Next(capacity, refill, b, now));
      && (Reply(capacity, refill, Visible(left, now + d), now + d).allowed <==> d >= wait || d >= GONE_MS)
      && 0 < wait <= 1000 * RetryAfterSeconds(wait) < wait + 1000
      && (d >= 1000 * RetryAfterSeconds(wait) ==> Reply(capacity, refill, Visible(left, now + d), now + d).allowed)
  {
    var level := Level(capacity, refill, b, now);
    var missing := (1.0 - level) / refill * 1000.0;
    CeilSpec(missing, d);
    CeilSpec(missing, 0);
    var wait := Ceil(missing);
    CeilSpec(wait as real / 1000.0, RetryAfterSeconds(wait));
    CeilSpec(wait as real / 1000.0, RetryAfterSeconds(wait) - 1);
    WaitEarns(refill, level, d);
  }

  lemma WaitEarns(refill: real, level: real, d: int)
    requires refill > 0.0 && level < 1.0
    ensures level + Gain(refill, d) >= 1.0 <==> (1.0 - level) / refill * 1000.0 <= d as real
    ensures (1.0 - level) / refill * 1000.0 > 0.0
  {
    var q := (1.0 - level) / refill;
    assert q * refill == 1.0 - level;
    var x := d as real / 1000.0;
    assert (x - q) * refill == Gain(refill, d) - (1.0 - level);
    SignOfProduct(x - q, refill);
    SignOfProduct(q, refill);
  }

  lemma SignOfProduct(x: real, y: real)
    requires y > 0.0
    ensures x * y >= 0.0 <==> x >= 0.0
    ensures x * y > 0.0 <==> x > 0.0
  {
  }

  // ----- Calls made together -----

  /** `n` calls at once. */
  function Together(n: nat, at: int): seq<int> {
    seq(n, _ => at)
  }

  /** What is left of `level` after `n` calls at once. */
  function Left(level: real, n: nat): real {
    if n <= level.Floor then level - n as real else level - level.Floor as real
  }

  lemma {:induction false} AfterTogether(capacity: int, refill: real, times: seq<int>, at: int, n: nat)
    requires var b := Visible(After(capacity, refill, true, times), at);
      0.0 <= Level(capacity, refill, b, at) <= capacity as real
    ensures var level := Level(capacity, refill, Visible(After(capacity, refill, true, times), at), at);
      n > 0 ==> After(capacity, refill, true, times + Together(n, at)) == Some(Bucket(Left(level, n), at))
    decreases n
  {
    if n > 0 {
      var all := times + Together(n, at);
      assert all[..|all| - 1] == times + Together(n - 1, at);
      assert Gain(refill, 0) == 0.0;
      if n == 1 {
        assert times + Together(0, at) == times;
      } else {
        AfterTogether(capacity, refill, times, at, n - 1);
      }
    }
  }

  lemma BeforeTogether(capacity: int, refill: real, times: seq<int>, at: int, n: nat, k: nat)
    requires k < n
    requires var b := Visible(After(capacity, refill, true, times), at);
      0.0 <= Level(capacity, refill, b, at) <= capacity as real
    ensures (times + Together(n, at))[|times| + k] == at
    ensures var b := Visible(After(capacity, refill, true, times), at);
      Before(capacity, refill, true, times + Together(n, at), |times| + k)
      == if k == 0 then b else Some(Bucket(Left(Level(capacity, refill, b, at), k), at))
  {
    var all := times + Together(n, at);
    assert all[..|times| + k] == times + Together(k, at) && all[|times| + k] == at;
    if k == 0 {
      assert times + Together(0, at) == times;
    } else {
      AfterTogether(capacity, refill, times, at, k);
    }
  }

  lemma LeftAllows(capacity: int, refill: real, level: real, at: int, k: nat)
    requires 0.0 <= level <= capacity as real
    ensures Left(level, k) >= 1.0 <==> k < level.Floor
    ensures Level(capacity, refill, Some(Bucket(Left(level, k), at)), at) == Left(level, k)
  {
    assert Gain(refill, 0) == 0.0;
  }

  /** Of calls made together exactly as many are allowed as there are whole tokens. */
  lemma TogetherAllowed(capacity: int, refill: real, times: seq<int>, at: int, n: nat, k: nat)
    requires refill > 0.0 && k < n
    requires var b := Visible(After(capacity, refill, true, times), at);
      0.0 <= Level(capacity, refill, b, at) <= capacity as real
    ensures OutcomeAt(capacity, refill, true, times + Together(n, at), |times| + k).allowed
       <==> k < Level(capacity, refill, Visible(After(capacity, refill, true, times), at), at).Floor
  {
    BeforeTogether(capacity, refill, times, at, n, k);
    LeftAllows(capacity, refill, Level(capacity, refill, Visible(After(capacity, refill, true, times), at), at), at, k);
  }

  /** A clock that has gone back earns nothing and costs nothing, and earning starts again from there. */
  lemma ClockBack(capacity: int, refill: real, b: Bucket, back: int, now: int)
    requires back <= b.ts && back <= now && b.tokens <= capacity as real
    ensures Level(capacity, refill, Some(b), back) == b.tokens
    ensures Level(capacity, refill, Some(Next(capacity, refill, Some(b), back)), now)
         == Min(capacity as real, Spent(b.tokens) + Gain(refill, now - back))
  {
    assert Gain(refill, 0) == 0.0;
  }

  /** A tier of the public API: capacity is one minute's allowance, refilled over a minute. */
  datatype TierLimit = TierLimit(capacity: int, refill: real)

  function NewTierLimit(perMinute: int): TierLimit {
    TierLimit(perMinute, perMinute as real / 60.0)
  }

  lemma TierRefills(perMinute: int)
    requires perMinute >= 1
    ensures NewTierLimit(perMinute).refill > 0.0
    ensures RefillsWithinTtl(NewTierLimit(perMinute).capacity, NewTierLimit(perMinute).refill)
  {
  }

  lemma TierGain(perMinute: int, ms: int)
    ensures Gain(NewTierLimit(perMinute).refill, ms) == (perMinute * ms) as real / 60_000.0
    ensures Gain(NewTierLimit(perMinute).refill, ms).Floor == perMinute * ms / 60_000
  {
    var p, t := perMinute as real, ms as real;
    assert (perMinute * ms) as real == p * t;
    assert t / 1000.0 * (p / 60.0) == p * t / 60_000.0;
    FloorDivides(perMinute * ms, 60_000);
  }

  lemma FloorDivides(n: int, d: int)
    requires d > 0
    ensures (n as real / d as real).Floor == n / d
  {
    var q, r := n / d, n % d;
    var x := n as real / d as real;
    assert n == q * d + r;
    assert n as real == q as real * d as real + r as real;
    assert x == q as real + r as real / d as real;
    assert 0.0 <= r as real / d as real < 1.0;
  }

  /** A fresh bucket lets a minute's allowance through at once, and not one call more. */
  lemma TierBurst(perMinute: int, at: int, n: nat, k: nat)
    requires perMinute >= 1 && k < n
    ensures NewTierLimit(perMinute).refill > 0.0
    ensures OutcomeAt(NewTierLimit(perMinute).capacity, NewTierLimit(perMinute).refill, true, Together(n, at), k).allowed
       <==> k < perMinute
  {
    var t := NewTierLimit(perMinute);
    assert [] + Together(n, at) == Together(n, at);
    TogetherAllowed(t.capacity, t.refill, [], at, n, k);
  }

  /** What a drained tier holds `ms` later, as Redis sees it, counted in whole tokens. */
  lemma TierLevel(perMinute: int, at: int, ms: nat)
    requires perMinute >= 1
    ensures var level := Level(perMinute, NewTierLimit(perMinute).refill, Visible(Some(Bucket(0.0, at)), at + ms), at + ms);
      && 0.0 <= level <= perMinute as real
      && level.Floor == if perMinute * ms / 60_000 < perMinute then perMinute * ms / 60_000 else perMinute
  {
    var t := NewTierLimit(perMinute);
    TierGain(perMinute, ms);
    if ms > TTL_MS {
      EnoughEarned(perMinute, ms);
    } else {
      GainGrows(t.refill, 0, ms);
    }
  }

  /** Drained at one instant, it lets through together exactly what the time since has earned: a
      sixty-thousandth of the allowance for each millisecond, at most the whole of it. */
  lemma TierEarns(perMinute: int, at: int, ms: nat, n: nat, k: nat)
    requires perMinute >= 1 && k < n
    ensures NewTierLimit(perMinute).refill > 0.0
    ensures OutcomeAt(NewTierLimit(perMinute).capacity, NewTierLimit(perMinute).refill, true,
                      Together(perMinute, at) + Together(n, at + ms), perMinute + k).allowed
       <==> k < perMinute && k < perMinute * ms / 60_000
  {
    var t := NewTierLimit(perMinute);
    TierDrains(perMinute, at);
    TierLevel(perMinute, at, ms);
    TogetherAllowed(t.capacity, t.refill, Together(perMinute, at), at + ms, n, k);
  }

  lemma TierDrains(perMinute: int, at: int)
    requires perMinute >= 1
    ensures NewTierLimit(perMinute).refill > 0.0
    ensures After(NewTierLimit(perMinute).capacity, NewTierLimit(perMinute).refill, true, Together(perMinute, at))
         == Some(Bucket(0.0, at))
  {
    assert [] + Together(perMinute, at) == Together(perMinute, at);
    AfterTogether(NewTierLimit(perMinute).capacity, NewTierLimit(perMinute).refill, [], at, perMinute);
  }

  lemma EnoughEarned(perMinute: int, ms: int)
    requires perMinute >= 1 && ms >= 60_000
    ensures perMinute * ms / 60_000 >= perMinute
  {
    assert perMinute * ms >= perMinute * 60_000;
  }

  lemma WindowWhole(capacity: int, refill: real, times: seq<int>, i: nat, j: nat, earned: int)
    requires capacity >= 1 && refill > 0.0 && Monotone(times) && i <= j < |times| && RefillsWithinTtl(capacity, refill)
    requires Gain(refill, times[j] - times[i]).Floor == earned
    ensures AllowedCount(capacity, refill, true, times, i, j + 1) <= capacity + earned
  {
    WindowBudget(capacity, refill, times, i, j);
  }

  /** In any window of any run no more calls are allowed than one allowance and what the window earns. */
  lemma TierWindow(perMinute: int, times: seq<int>, i: nat, j: nat)
    requires perMinute >= 1 && Monotone(times) && i <= j < |times|
    ensures AllowedCount(NewTierLimit(perMinute).capacity, NewTierLimit(perMinute).refill, true, times, i, j + 1)
         <= perMinute + perMinute * (times[j] - times[i]) / 60_000
  {
    TierRefills(perMinute);
    TierGain(perMinute, times[j] - times[i]);
    WindowWhole(NewTierLimit(perMinute).capacity, NewTierLimit(perMinute).refill, times, i, j,
                perMinute * (times[j] - times[i]) / 60_000);
  }

  /** The wait the script computes is the first millisecond by which what is missing has been earned. */
  lemma TierWait(perMinute: int, level: real)
    requires perMinute >= 1 && level < 1.0 && NewTierLimit(perMinute).refill > 0.0
    ensures var wait := Ceil((1.0 - level) / NewTierLimit(perMinute).refill * 1000.0);
      level + (perMinute * (wait - 1)) as real / 60_000.0 < 1.0 <= level + (perMinute * wait) as real / 60_000.0
  {
    var refill := NewTierLimit(perMinute).refill;
    var wait := Ceil((1.0 - level) / refill * 1000.0);
    CeilSpec((1.0 - level) / refill * 1000.0, wait);
    CeilSpec((1.0 - level) / refill * 1000.0, wait - 1);
    WaitEarns(refill, level, wait);
    WaitEarns(refill, level, wait - 1);
    TierGain(perMinute, wait);
    TierGain(perMinute, wait - 1);
  }

  /** A caller that has just drained it waits for one call's share of a minute, to the millisecond. */
  lemma TierDrainedWait(perMinute: int, now: int)
    requires perMinute >= 1
    ensures NewTierLimit(perMinute).refill > 0.0
    ensures var reply := Reply(NewTierLimit(perMinute).capacity, NewTierLimit(perMinute).refill, Some(Bucket(0.0, now)), now);
      && !reply.allowed && reply.remaining == 0
      && perMinute * (reply.retryAfterMs - 1) < 60_000 <= perMinute * reply.retryAfterMs
  {
    var t := NewTierLimit(perMinute);
    assert Gain(t.refill, 0) == 0.0;
    TierWait(perMinute, 0.0);
  }

  /** Every configurable tier refills within the TTL: expiry changes no answer, the calls allowed
      in any window obey the bound, a sequence is allowed exactly when it fits, and a denied call
      leaves no trace. */
  lemma TierConforms(perMinute: int, times: seq<int>)
    requires perMinute >= 1 && Monotone(times)
    ensures var t := NewTierLimit(perMinute);
      && t.refill > 0.0 && t.capacity == perMinute && Gain(t.refill, 60_000) == perMinute as real
      && (forall k: nat :: k < |times| ==>
            OutcomeAt(t.capacity, t.refill, true, times, k) == OutcomeAt(t.capacity, t.refill, false, times, k))
      && (forall i: nat, j: nat :: i <= j < |times| ==> WindowBounded(t.capacity, t.refill, times, i, j))
      && (AllAllowed(t.capacity, t.refill, times) <==> Fits(t.capacity, t.refill, times))
      && (forall d: nat, k: nat :: Denied(t.capacity, t.refill, times, d, k) ==>
            DeletionUnseen(t.capacity, t.refill, times, d, k))
  {
    var t := NewTierLimit(perMinute);
    TierRefills(perMinute);
    forall k: nat | k < |times|
      ensures OutcomeAt(t.capacity, t.refill, true, times, k) == OutcomeAt(t.capacity, t.refill, false, times, k)
    {
      ExpiryKeepsOutcome(t.capacity, t.refill, times, k);
    }
    WindowBoundIff(t.capacity, t.refill);
    Conformance(t.capacity, t.refill, times);
    DeniedUnobservableIff(t.capacity, t.refill);
  }

  /** Within a tier nobody waits longer than a minute, and the wait is exact. */
  lemma TierRetryAfter(perMinute: int, b: Option<Bucket>, now: int, d: nat)
    requires perMinute >= 1 && (b.Some? ==> b.value.tokens >= 0.0)
    requires !Reply(NewTierLimit(perMinute).capacity, NewTierLimit(perMinute).refill, b, now).allowed
    ensures var t := NewTierLimit(perMinute);
      var wait := Reply(t.capacity, t.refill, b, now).retryAfterMs;
      var left := Some(Next(t.capacity, t.refill, b, now));
      && 0 < wait <= 60_000
      && Level(t.capacity, t.refill, b, now) + (perMinute * (wait - 1)) as real / 60_000.0 < 1.0
      && Level(t.capacity, t.refill, b, now) + (perMinute * wait) as real / 60_000.0 >= 1.0
      && (Reply(t.capacity, t.refill, Visible(left, now + d), now + d).allowed <==> d >= wait)
  {
    var t := NewTierLimit(perMinute);
    RetryAfterExact(t.capacity, t.refill, b, now, d);
    var level := Level(t.capacity, t.refill, b, now);
    if b.Some? {
      GainGrows(t.refill, 0, if now < b.value.ts then 0 else now - b.value.ts);
    }
    TierWait(perMinute, level);
    CeilSpec((1.0 - level) / t.refill * 1000.0, 60_000);
    WaitEarns(t.refill, level, 60_000);
    assert Gain(t.refill, 60_000) == perMinute as real;
  }
}
