/** Whole runs of the rate limiter. */
module LimiterRuns {
  import opened Base
  import opened RateLimits

  function After(spec: RateSpec, maxBuckets: int, l: Limiter, requests: seq<Request>): Limiter
    requires spec.requests > 0
    decreases |requests|
  {
    if requests == [] then l
    else After(spec, maxBuckets, Serve(spec, maxBuckets, l, requests[0]).limiter, requests[1..])
  }

  /** The clock does not go back, and each eviction is one that the program could choose. */
  ghost predicate Possible(spec: RateSpec, maxBuckets: int, l: Limiter, requests: seq<Request>, clock: Time)
    requires spec.requests > 0
    decreases |requests|
  {
    requests == [] ||
    (clock <= requests[0].now && Faithful(maxBuckets, l, requests[0])
     && Possible(spec, maxBuckets, Serve(spec, maxBuckets, l, requests[0]).limiter, requests[1..], requests[0].now))
  }

  // ---- arithmetic of refilling ----

  lemma RefillMonotone(spec: RateSpec, d: Duration, e: Duration)
    requires spec.requests > 0 && d <= e
    ensures Refill(spec, d) <= Refill(spec, e)
    ensures 0 <= d ==> 0 <= Refill(spec, d)
  {
  }

  lemma RefillAdds(spec: RateSpec, d: Duration, e: Duration)
    ensures Refill(spec, d) + Refill(spec, e) == Refill(spec, d + e)
  {
  }

  lemma MultipleGrows(a: int, b: int, c: int)
    requires a > 0 && b <= c
    ensures a * b <= a * c
  {
  }

  lemma CapacityHoldsAToken(spec: RateSpec)
    requires ValidSpec(spec)
    ensures 0 < spec.window <= Capacity(spec)
  {
    MultipleGrows(spec.window, 1, spec.burst);
  }

  /** A specification is valid exactly if its rate, as a number of requests a minute, lies between 1 and 1000, its burst
      between 1 and 5000, and all three numbers are positive. */
  lemma ValidSpecExactly(spec: RateSpec)
    requires spec.window <= MAX_DURATION
    ensures ValidSpec(spec) <==>
              && spec.requests > 0 && spec.burst > 0 && spec.window > 0
              && 1.0 <= spec.requests as real * MINUTE as real / spec.window as real <= 1000.0
              && 1 <= spec.burst <= 5000
  {
    if spec.window > 0 {
      var n, d := spec.requests as real * MINUTE as real, spec.window as real;
      assert n == (spec.requests * MINUTE) as real;
      RatioIsBetween(n, d, 1.0);
      RatioIsBetween(n, d, 1000.0);
      assert 1000.0 * d == (1000 * spec.window) as real;
    }
  }

  lemma RatioIsBetween(n: real, d: real, bound: real)
    requires d > 0.0
    ensures n / d <= bound <==> n <= bound * d
    ensures bound <= n / d <==> bound * d <= n
  {
    var q := n / d;
    assert n == q * d;
    if q < bound {
      assert (bound - q) * d > 0.0;
    } else if bound < q {
      assert (q - bound) * d > 0.0;
    }
  }

  /** A nanosecond refills only a small part of a token. */
  lemma RefillIsSlow(spec: RateSpec)
    requires ValidSpec(spec)
    ensures spec.requests < spec.window
  {
  }

  /** A level is at most the capacity, and in debt by less than a nanosecond's refill. */
  predicate LevelSound(spec: RateSpec, level: int) {
    -spec.requests < level <= Capacity(spec)
  }

  ghost predicate TokensSound(spec: RateSpec, t: Tokens, clock: Time) {
    LevelSound(spec, t.level) && t.last <= clock
  }

  /** Every bucket has a sound level, and was seen no earlier than it last admitted. */
  ghost predicate Sound(spec: RateSpec, l: Limiter, clock: Time) {
    forall key :: key in l.buckets ==>
      var b := l.buckets[key];
      LevelSound(spec, b.tokens.level) && b.tokens.last <= b.lastSeen <= clock && b.ttl == BucketTTL(spec)
  }

  lemma AvailableBounds(spec: RateSpec, t: Tokens, now: Time)
    requires ValidSpec(spec) && LevelSound(spec, t.level)
    ensures LevelSound(spec, Available(spec, t, now))
    ensures t.last <= now ==> t.level <= Available(spec, t, now) <= t.level + Refill(spec, now - t.last)
  {
    hide Refill, Capacity;
    if t.last <= now {
      RefillMonotone(spec, 0, now - t.last);
    }
    NoRefill(spec);
  }

  lemma NoRefill(spec: RateSpec)
    ensures Refill(spec, 0) == 0
  {
  }

  lemma AvailableMonotone(spec: RateSpec, t: Tokens, now: Time, later: Time)
    requires ValidSpec(spec) && t.last <= now <= later
    ensures Available(spec, t, now) <= Available(spec, t, later)
  {
    hide Refill, Capacity;
    RefillMonotone(spec, now - t.last, later - t.last);
  }

  /** A bucket left alone for as long as a full refill takes is full. */
  lemma Recovers(spec: RateSpec, t: Tokens, now: Time, rest: Duration)
    requires ValidSpec(spec) && t.last + rest <= now && 0 <= rest && Capacity(spec) <= t.level + Refill(spec, rest)
    ensures Available(spec, t, now) == Capacity(spec)
  {
    hide Refill, Capacity;
    RefillMonotone(spec, rest, now - t.last);
  }

  lemma TakeKeeps(spec: RateSpec, t: Tokens, now: Time)
    requires ValidSpec(spec) && TokensSound(spec, t, now)
    ensures TokensSound(spec, Take(spec, t, now).tokens, now)
  {
    hide Capacity, Available;
    AvailableBounds(spec, t, now);
    RefillIsSlow(spec);
  }

  // ---- the map of buckets ----

  lemma SweepKeeps(spec: RateSpec, l: Limiter, now: Time, clock: Time)
    requires Sound(spec, l, clock) && clock <= now
    ensures Sound(spec, Swept(l, now), now)
    ensures Swept(l, now).buckets.Keys <= l.buckets.Keys
    ensures forall key :: key in Swept(l, now).buckets ==> Swept(l, now).buckets[key] == l.buckets[key]
    ensures forall key :: key in l.buckets && key !in Swept(l, now).buckets ==>
              now - l.buckets[key].lastSeen >= BucketTTL(spec)
  {
    hide Capacity;
  }

  /** A sweep comes at the first request and then at most every five minutes, and removes exactly the buckets that
      nobody has used for their time-to-live. */
  lemma SweepExactly(l: Limiter, now: Time, key: string)
    requires forall k :: k in l.buckets ==> l.buckets[k].lastSeen <= now && 0 < l.buckets[k].ttl <= MAX_DURATION
    requires l.lastSweep <= now
    ensures var due := l.lastSweep == 0 || now - l.lastSweep >= 5 * MINUTE;
            && Swept(l, now).lastSweep == (if due then now else l.lastSweep)
            && (key in Swept(l, now).buckets <==>
                  key in l.buckets && (due ==> now - l.buckets[key].lastSeen < l.buckets[key].ttl))
            && (key in Swept(l, now).buckets ==> Swept(l, now).buckets[key] == l.buckets[key])
  {
  }

  lemma TTLIsLong(spec: RateSpec)
    ensures BucketTTL(spec) >= HOUR
  {
  }

  /** A bucket lives for two windows exactly when two windows fit a 64-bit duration. Beyond that the doubling wraps
      around to a negative number, and the bucket lives for the minimum of an hour. */
  lemma TTLCoversTwoWindowsExactly(spec: RateSpec)
    requires ValidSpec(spec)
    ensures BucketTTL(spec) >= 2 * spec.window <==> 2 * spec.window <= MAX_DURATION
    ensures BucketTTL(spec) ==
            if HOUR <= 2 * spec.window <= 0x7FFF_FFFF_FFFF_FFFF then 2 * spec.window else HOUR
  {
    WrapsAround(2 * spec.window);
  }

  lemma WrapsAround(n: int)
    requires 0 <= n <= 2 * MAX_DURATION
    ensures Wrapped(n) == if n <= MAX_DURATION then n else n - 0x1_0000_0000_0000_0000
  {
  }

  /** A valid specification whose buckets are dropped after an hour, long before a window of 292 years has passed. */
  lemma LongWindowIsCutShort()
    ensures var spec := RateSpec(153722868, MAX_DURATION, 1);
            ValidSpec(spec) && BucketTTL(spec) == HOUR < 2 * spec.window
  {
    TTLCoversTwoWindowsExactly(RateSpec(153722868, MAX_DURATION, 1));
  }

  /** What one request leaves of the buckets of other keys. */
  lemma ServeKeepsOthers(spec: RateSpec, maxBuckets: int, l: Limiter, r: Request, clock: Time, key: string)
    requires ValidSpec(spec) && Sound(spec, l, clock) && clock <= r.now && Faithful(maxBuckets, l, r) && key != r.key
    ensures var after := Serve(spec, maxBuckets, l, r).limiter;
            && (key in after.buckets ==> key in l.buckets && after.buckets[key] == l.buckets[key])
            && (key in l.buckets && key !in after.buckets ==>
                  r.now - l.buckets[key].lastSeen >= if maxBuckets > 0 then SATURATION_IDLE_AGE else BucketTTL(spec))
  {
    hide Capacity, Available, Swept;
    SweepKeeps(spec, l, r.now, clock);
    TTLIsLong(spec);
  }

  /** Whether the bucket of the key itself was still there when the request came, and how long ago it was seen if
      not. */
  predicate Kept(l: Limiter, r: Request) {
    r.key in Swept(l, r.now).buckets
  }

  lemma ServeOwn(spec: RateSpec, maxBuckets: int, l: Limiter, r: Request, clock: Time)
    requires ValidSpec(spec) && Sound(spec, l, clock) && clock <= r.now && Faithful(maxBuckets, l, r)
    ensures var served := Serve(spec, maxBuckets, l, r);
            var tokens := if Kept(l, r) then l.buckets[r.key].tokens else FullTokens(spec);
            var taken := Take(spec, tokens, r.now);
            && (Kept(l, r) ==> r.key in l.buckets)
            && (r.key in l.buckets && !Kept(l, r) ==> r.now - l.buckets[r.key].lastSeen >= BucketTTL(spec))
            && (served.decision.Saturated? ==> !Kept(l, r) && r.key !in served.limiter.buckets)
            && (!served.decision.Saturated? ==>
                  && served.decision == taken.decision
                  && r.key in served.limiter.buckets
                  && served.limiter.buckets[r.key] == Bucket(taken.tokens, r.now, BucketTTL(spec)))
  {
    hide Capacity, Available, Swept;
    SweepKeeps(spec, l, r.now, clock);
  }

  lemma ServeKeeps(spec: RateSpec, maxBuckets: int, l: Limiter, r: Request, clock: Time)
    requires ValidSpec(spec) && Sound(spec, l, clock) && clock <= r.now && Faithful(maxBuckets, l, r)
    ensures Sound(spec, Serve(spec, maxBuckets, l, r).limiter, r.now)
  {
    hide Serve, Take, Faithful, Capacity, FullTokens, Kept;
    var after := Serve(spec, maxBuckets, l, r).limiter;
    ServeOwn(spec, maxBuckets, l, r, clock);
    var tokens := if Kept(l, r) then l.buckets[r.key].tokens else FullTokens(spec);
    FreshTokens(spec, r.now);
    forall key | key in after.buckets
      ensures var b := after.buckets[key];
              LevelSound(spec, b.tokens.level) && b.tokens.last <= b.lastSeen <= r.now && b.ttl == BucketTTL(spec)
    {
      if key != r.key {
        ServeKeepsOthers(spec, maxBuckets, l, r, clock, key);
      } else {
        TakeFromAnywhere(spec, tokens, r.now);
      }
    }
  }

  /** A new bucket is full at every time, so its first request is admitted. */
  lemma FreshTokens(spec: RateSpec, now: Time)
    requires ValidSpec(spec)
    ensures FullTokens(spec) == Tokens(Capacity(spec), 0) && Capacity(spec) > 0
    ensures Available(spec, FullTokens(spec), now) == Capacity(spec)
    ensures Take(spec, FullTokens(spec), now) == Taken(Tokens(Capacity(spec) - spec.window, now), Allowed)
  {
    hide Capacity, Refill;
    CapacityHoldsAToken(spec);
    NoRefill(spec);
    if 0 < now {
      RefillMonotone(spec, 0, now);
    }
  }

  lemma TakeFromAnywhere(spec: RateSpec, t: Tokens, now: Time)
    requires ValidSpec(spec) && LevelSound(spec, t.level)
    requires t.last <= now || t == FullTokens(spec)
    ensures TokensSound(spec, Take(spec, t, now).tokens, now)
  {
    hide Capacity, Take;
    if t == FullTokens(spec) {
      FreshTokens(spec, now);
      CapacityHoldsAToken(spec);
    } else {
      TakeKeeps(spec, t, now);
    }
  }

  /** From a full bucket, a whole burst is admitted at one instant, and nothing beyond it. */
  lemma BurstExactly(spec: RateSpec, now: Time, n: nat)
    requires ValidSpec(spec) && n <= spec.burst
    ensures Take(spec, Tokens(Capacity(spec) - n * spec.window, now), now).decision.Allowed? <==> n < spec.burst
    ensures n < spec.burst ==>
              Take(spec, Tokens(Capacity(spec) - n * spec.window, now), now).tokens
              == Tokens(Capacity(spec) - (n + 1) * spec.window, now)
  {
    hide Capacity, Refill;
    RefillIsSlow(spec);
    NoRefill(spec);
    LevelAfter(spec, n);
  }

  lemma LevelAfter(spec: RateSpec, n: nat)
    requires ValidSpec(spec) && n <= spec.burst
    ensures n == spec.burst ==> Capacity(spec) - n * spec.window == 0
    ensures n < spec.burst ==> spec.window <= Capacity(spec) - n * spec.window
    ensures Capacity(spec) - n * spec.window <= Capacity(spec)
    ensures Capacity(spec) - n * spec.window - spec.window == Capacity(spec) - (n + 1) * spec.window
  {
    hide ValidSpec;
    assert Capacity(spec) - n * spec.window == (spec.burst - n) * spec.window;
    assert 0 < spec.window by { WindowIsPositive(spec); }
    if n < spec.burst {
      MultipleGrows(spec.window, 1, spec.burst - n);
    }
    MultipleGrows(spec.window, 0, n);
  }

  lemma WindowIsPositive(spec: RateSpec)
    requires ValidSpec(spec)
    ensures spec.window > 0
  {
  }
}
