/** The keyed rate limiter (`rate_limiter.go`) in exact arithmetic: one token is `window` units, a nanosecond
    refills `requests` units, and a full bucket holds `burst * window` units. */
module RateLimits {
  import opened Base

  const SWEEP_INTERVAL := 5 * MINUTE
  const MIN_BUCKET_TTL := HOUR
  const SATURATION_IDLE_AGE := MINUTE
  const MAX_BUCKETS := 4096

  datatype RateSpec = RateSpec(requests: int, window: Duration, burst: int)

  /** `validateRateSpec`. */
  predicate ValidSpec(spec: RateSpec) {
    && spec.requests > 0 && spec.burst > 0 && 0 < spec.window <= MAX_DURATION
    && spec.window <= spec.requests * MINUTE <= 1000 * spec.window
    && 1 <= spec.burst <= 5000
  }

  function Capacity(spec: RateSpec): int {
    spec.burst * spec.window
  }

  function Refill(spec: RateSpec, elapsed: Duration): int {
    spec.requests * elapsed
  }

  /** `rateBucketTTL`. */
  function BucketTTL(spec: RateSpec): Duration {
    var ttl := Wrapped(2 * spec.window);
    if ttl < MIN_BUCKET_TTL then MIN_BUCKET_TTL else ttl
  }

  /** The state of one `rate.Limiter`. */
  datatype Tokens = Tokens(level: int, last: Time)

  function FullTokens(spec: RateSpec): Tokens {
    Tokens(Capacity(spec), 0)
  }

  /** `TokensAt`: the level at `now`, refilled since the last admission and capped. */
  function Available(spec: RateSpec, t: Tokens, now: Time): int {
    var elapsed := if now < t.last then 0 else now - t.last;
    if t.level + Refill(spec, elapsed) < Capacity(spec) then t.level + Refill(spec, elapsed) else Capacity(spec)
  }

  datatype Decision = Allowed | Limited(retry: Duration) | Saturated

  /** The pair that `AllowRequest` returns. */
  function Reply(d: Decision): (bool, Duration) {
    match d
    case Allowed => (true, 0)
    case Limited(retry) => (false, retry)
    case Saturated => (false, SECOND)
  }

  /** The hint after a denial that left `available` units. */
  function RetryHint(spec: RateSpec, available: int): Duration
    requires spec.requests > 0
  {
    var tokens := if available < 0 then 0 else available;
    var retry := (spec.window - tokens) / spec.requests;
    if retry < SECOND then SECOND else retry
  }

  datatype Taken = Taken(tokens: Tokens, decision: Decision)

  /** What `AllowN` asks for one token. It turns the missing part into a wait, truncates that to whole nanoseconds and
      lets the request pass if nothing is left of it, so up to a nanosecond's refill may be missing. */
  predicate Enough(spec: RateSpec, available: int) {
    1 <= spec.burst && spec.window - available < spec.requests
  }

  /** `AllowN(now, 1)`, and the hint when it refuses. An admission may leave the level below zero. */
  function Take(spec: RateSpec, t: Tokens, now: Time): Taken
    requires spec.requests > 0
  {
    var available := Available(spec, t, now);
    if Enough(spec, available) then Taken(Tokens(available - spec.window, now), Allowed)
    else Taken(t, Limited(RetryHint(spec, available)))
  }

  // ---- the map of buckets ----

  datatype Bucket = Bucket(tokens: Tokens, lastSeen: Time, ttl: Duration)

  datatype Limiter = Limiter(buckets: map<string, Bucket>, lastSweep: Time)

  const EMPTY := Limiter(map[], 0)

  function Outdated(buckets: map<string, Bucket>, now: Time): set<string> {
    set key | key in buckets && Sub(now, buckets[key].lastSeen) >= buckets[key].ttl
  }

  /** `sweepExpiredBuckets`. */
  function Swept(l: Limiter, now: Time): Limiter {
    if l.lastSweep != 0 && Sub(now, l.lastSweep) < SWEEP_INTERVAL then l
    else Limiter(l.buckets - Outdated(l.buckets, now), now)
  }

  predicate Idle(b: Bucket, now: Time) {
    Sub(now, b.lastSeen) >= SATURATION_IDLE_AGE
  }

  predicate Evictable(buckets: map<string, Bucket>, newKey: string, now: Time, key: string) {
    key in buckets && key != newKey && Idle(buckets[key], now)
  }

  /** A bucket that capacity eviction may choose: idle, and none of the idle ones was seen earlier. */
  ghost predicate Oldest(buckets: map<string, Bucket>, newKey: string, now: Time, victim: string) {
    && Evictable(buckets, newKey, now, victim)
    && forall key :: Evictable(buckets, newKey, now, key) ==> buckets[victim].lastSeen <= buckets[key].lastSeen
  }

  predicate Full(maxBuckets: int, buckets: map<string, Bucket>) {
    maxBuckets > 0 && |buckets| >= maxBuckets
  }

  /** A call of `AllowRequest`, with the eviction that the map's iteration order would pick. */
  datatype Request = Request(key: string, now: Time, victim: Option<string>)

  /** `victim` names what `ensureBucketCapacity` deletes: something exactly when room is needed and can be made. */
  ghost predicate Faithful(maxBuckets: int, l: Limiter, r: Request) {
    var buckets := Swept(l, r.now).buckets;
    if r.key in buckets || !Full(maxBuckets, buckets) then r.victim == None
    else match r.victim
      case Some(victim) => Oldest(buckets, r.key, r.now, victim)
      case None => forall key :: !Evictable(buckets, r.key, r.now, key)
  }

  datatype Served = Served(limiter: Limiter, decision: Decision)

  function ServeKey(spec: RateSpec, l: Limiter, key: string, now: Time): Served
    requires spec.requests > 0
  {
    var bucket := if key in l.buckets then l.buckets[key] else Bucket(FullTokens(spec), now, BucketTTL(spec));
    var taken := Take(spec, bucket.tokens, now);
    Served(l.(buckets := l.buckets[key := Bucket(taken.tokens, now, bucket.ttl)]), taken.decision)
  }

  /** `AllowRequest`. */
  function Serve(spec: RateSpec, maxBuckets: int, l: Limiter, r: Request): Served
    requires spec.requests > 0
  {
    var swept := Swept(l, r.now);
    if r.key in swept.buckets || !Full(maxBuckets, swept.buckets) then ServeKey(spec, swept, r.key, r.now)
    else if r.victim.None? then Served(swept, Saturated)
    else ServeKey(spec, swept.(buckets := swept.buckets - {r.victim.value}), r.key, r.now)
  }

  // ---- the limiter as the program runs it ----

  class RateLimiter {
    const spec: RateSpec
    const maxBuckets: int
    var buckets: map<string, Bucket>
    var lastSweep: Time

    ghost function Contents(): Limiter
      reads this
    {
      Limiter(buckets, lastSweep)
    }

    constructor (spec: RateSpec)
      ensures Contents() == EMPTY && this.spec == spec && maxBuckets == 4096
    {
      this.spec := spec;
      maxBuckets := MAX_BUCKETS;
      buckets := map[];
      lastSweep := 0;
    }

    /** The empty key is the marker for "nothing found" in the eviction loop, so client keys are non-empty. */
    method AllowRequest(clientKey: string, now: Time) returns (allowed: bool, retryAfter: Duration, ghost r: Request)
      requires spec.requests > 0
      requires clientKey != "" && "" !in buckets
      modifies this
      ensures "" !in buckets
      ensures r.key == clientKey && r.now == now && Faithful(maxBuckets, old(Contents()), r)
      ensures var served := Serve(spec, maxBuckets, old(Contents()), r);
              && Contents() == served.limiter && (allowed, retryAfter) == Reply(served.decision)
              && (allowed <==> served.decision.Allowed?)
    {
      r := Request(clientKey, now, None);
      SweepExpiredBuckets(now);
      var bucket: Bucket;
      if clientKey in buckets {
        bucket := buckets[clientKey];
      } else {
        var room, victim := EnsureBucketCapacity(clientKey, now);
        r := r.(victim := victim);
        if !room {
          return false, SECOND, r;
        }
        bucket := Bucket(FullTokens(spec), now, BucketTTL(spec));
      }
      var taken := Take(spec, bucket.tokens, now);
      buckets := buckets[clientKey := Bucket(taken.tokens, now, bucket.ttl)];
      if taken.decision.Allowed? {
        return true, 0, r;
      }
      return false, taken.decision.retry, r;
    }

    method EnsureBucketCapacity(newKey: string, now: Time) returns (room: bool, ghost victim: Option<string>)
      requires newKey !in buckets && "" !in buckets
      modifies this`buckets
      ensures !Full(maxBuckets, old(buckets)) ==> room && victim == None && buckets == old(buckets)
      ensures Full(maxBuckets, old(buckets)) ==> (room <==> victim.Some?)
      ensures Full(maxBuckets, old(buckets)) && victim.Some? ==>
                Oldest(old(buckets), newKey, now, victim.value) && buckets == old(buckets) - {victim.value}
      ensures Full(maxBuckets, old(buckets)) && victim.None? ==>
                buckets == old(buckets) && forall key :: !Evictable(buckets, newKey, now, key)
    {
      if maxBuckets <= 0 || |buckets| < maxBuckets {
        return true, None;
      }
      var oldestKey := "";
      var oldestSeen := 0;
      var unseen := buckets.Keys;
      while unseen != {}
        invariant unseen <= buckets.Keys && buckets == old(buckets)
        invariant oldestKey == "" ==> forall key :: Evictable(buckets, newKey, now, key) ==> key in unseen
        invariant oldestKey != "" ==>
                    Evictable(buckets, newKey, now, oldestKey) && oldestSeen == buckets[oldestKey].lastSeen
        invariant oldestKey != "" ==>
                    forall key :: Evictable(buckets, newKey, now, key) && key !in unseen ==>
                      oldestSeen <= buckets[key].lastSeen
        decreases |unseen|
      {
        var key :| key in unseen;
        unseen := unseen - {key};
        if key == newKey || Sub(now, buckets[key].lastSeen) < SATURATION_IDLE_AGE {
          continue;
        }
        if oldestKey == "" || buckets[key].lastSeen < oldestSeen {
          oldestKey := key;
          oldestSeen := buckets[key].lastSeen;
        }
      }
      if oldestKey != "" {
        buckets := buckets - {oldestKey};
        return true, Some(oldestKey);
      }
      return false, None;
    }

    method SweepExpiredBuckets(now: Time)
      modifies this
      ensures Contents() == Swept(old(Contents()), now)
    {
      if lastSweep != 0 && Sub(now, lastSweep) < SWEEP_INTERVAL {
        return;
      }
      lastSweep := now;
      var unseen := buckets.Keys;
      while unseen != {}
        invariant lastSweep == now
        invariant unseen <= buckets.Keys
        invariant forall key :: key in buckets ==> key in old(buckets) && buckets[key] == old(buckets[key])
        invariant forall key :: key in old(buckets) ==>
                    (key in buckets <==> key in unseen || key !in Outdated(old(buckets), now))
        decreases |unseen|
      {
        var key :| key in unseen;
        unseen := unseen - {key};
        if Sub(now, buckets[key].lastSeen) >= buckets[key].ttl {
          buckets := buckets - {key};
        }
      }
    }
  }
}
