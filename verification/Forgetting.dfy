/** When forgetting buckets is invisible: the bounded limiter against one that never forgets a key. */
module Forgetting {
  import opened Base
  import opened Divisibility
  import opened RateLimits
  import opened LimiterRuns
  import opened LimiterBounds

  // ---- the limiter that never forgets ----

  function Remembered(spec: RateSpec, memory: map<string, Tokens>, r: Request): Tokens {
    if r.key in memory then memory[r.key] else FullTokens(spec)
  }

  function Recall(spec: RateSpec, memory: map<string, Tokens>, r: Request): Taken
    requires spec.requests > 0
  {
    Take(spec, Remembered(spec, memory, r), r.now)
  }

  /** Its decisions on a run: admissions and refusals with their hints, never a saturation. */
  function RecalledDecisions(spec: RateSpec, memory: map<string, Tokens>, requests: seq<Request>): seq<Decision>
    requires spec.requests > 0
    decreases |requests|
  {
    if requests == [] then []
    else
      var taken := Recall(spec, memory, requests[0]);
      [taken.decision] + RecalledDecisions(spec, memory[requests[0].key := taken.tokens], requests[1..])
  }

  // ---- what the real limiter decides, saturation denials left aside ----

  function Heard(spec: RateSpec, maxBuckets: int, l: Limiter, requests: seq<Request>): seq<Request>
    requires spec.requests > 0
    decreases |requests|
  {
    if requests == [] then []
    else
      var served := Serve(spec, maxBuckets, l, requests[0]);
      (if served.decision.Saturated? then [] else [requests[0]])
        + Heard(spec, maxBuckets, served.limiter, requests[1..])
  }

  function HeardDecisions(spec: RateSpec, maxBuckets: int, l: Limiter, requests: seq<Request>): seq<Decision>
    requires spec.requests > 0
    decreases |requests|
  {
    if requests == [] then []
    else
      var served := Serve(spec, maxBuckets, l, requests[0]);
      (if served.decision.Saturated? then [] else [served.decision])
        + HeardDecisions(spec, maxBuckets, served.limiter, requests[1..])
  }

  // ---- the shortest idleness that lets a bucket be forgotten ----

  /** With room for a single bucket, a forgotten key has to outwait its successor as well. */
  function Grace(spec: RateSpec, maxBuckets: int): Duration {
    if maxBuckets <= 0 then BucketTTL(spec)
    else if maxBuckets == 1 then 2 * SATURATION_IDLE_AGE
    else SATURATION_IDLE_AGE
  }

  /** All levels of a bucket are multiples of this many units. */
  function Grain(spec: RateSpec): (g: nat)
    requires ValidSpec(spec)
    ensures 0 < g <= spec.requests
  {
    GcdDivides(spec.window, spec.requests);
    Gcd(spec.window, spec.requests)
  }

  /** The largest debt that an admission can leave. */
  function Debt(spec: RateSpec): int
    requires ValidSpec(spec)
  {
    spec.requests - Grain(spec)
  }

  predicate Grained(spec: RateSpec, level: int)
    requires ValidSpec(spec)
  {
    LevelSound(spec, level) && level % Grain(spec) == 0
  }

  /** Even from the largest debt, a bucket is full again after the grace. */
  predicate RefillsInTime(spec: RateSpec, maxBuckets: int)
    requires ValidSpec(spec)
  {
    Capacity(spec) + Debt(spec) <= Refill(spec, Grace(spec, maxBuckets))
  }

  lemma GrainDivides(spec: RateSpec)
    requires ValidSpec(spec)
    ensures spec.window % Grain(spec) == 0 && spec.requests % Grain(spec) == 0 && Capacity(spec) % Grain(spec) == 0
  {
    GcdDivides(spec.window, spec.requests);
    MultipleOfMultiple(spec.window, spec.burst, Grain(spec));
  }

  lemma DebtIsBounded(spec: RateSpec, level: int)
    requires ValidSpec(spec) && Grained(spec, level)
    ensures -Debt(spec) <= level
  {
    hide Grain, Capacity;
    GrainDivides(spec);
    SumOfMultiples(level, spec.requests, Grain(spec));
    if level + spec.requests < Grain(spec) {
      RemainderIs(level + spec.requests, Grain(spec), 0, level + spec.requests);
    }
  }

  lemma TakeKeepsGrain(spec: RateSpec, t: Tokens, now: Time)
    requires ValidSpec(spec) && Grained(spec, t.level) && (t.last <= now || t == FullTokens(spec))
    ensures Grained(spec, Take(spec, t, now).tokens.level)
  {
    hide Grain, Capacity, Refill;
    TakeFromAnywhere(spec, t, now);
    GrainDivides(spec);
    AvailableHasGrain(spec, t, now);
    SumOfMultiples(Available(spec, t, now), spec.window, Grain(spec));
  }

  lemma AvailableHasGrain(spec: RateSpec, t: Tokens, now: Time)
    requires ValidSpec(spec) && t.level % Grain(spec) == 0
    ensures Available(spec, t, now) % Grain(spec) == 0
  {
    hide Grain, Capacity;
    GrainDivides(spec);
    var elapsed := if now < t.last then 0 else now - t.last;
    MultipleOfMultiple(spec.requests, elapsed, Grain(spec));
    SumOfMultiples(t.level, spec.requests * elapsed, Grain(spec));
  }

  ghost predicate FullAt(spec: RateSpec, t: Tokens, at: Time) {
    t.last <= at && Available(spec, t, at) == Capacity(spec)
  }

  /** A forgotten bucket would be full by now, or by the time that the only bucket can be evicted for its key. */
  ghost predicate Recovered(spec: RateSpec, maxBuckets: int, l: Limiter, t: Tokens, clock: Time) {
    || FullAt(spec, t, clock)
    || (maxBuckets == 1
        && exists key :: key in l.buckets && FullAt(spec, t, l.buckets[key].lastSeen + SATURATION_IDLE_AGE))
  }

  /** Every bucket agrees with the memory, and every forgotten one is full again before it matters. */
  ghost predicate Mirrors(spec: RateSpec, maxBuckets: int, l: Limiter, memory: map<string, Tokens>, clock: Time)
    requires ValidSpec(spec)
  {
    && Sound(spec, l, clock) && Fits(maxBuckets, l)
    && (forall key :: key in l.buckets ==> key in memory && memory[key] == l.buckets[key].tokens)
    && (forall key :: key in memory ==> Grained(spec, memory[key].level) && memory[key].last <= clock)
    && (forall key :: key in memory && key !in l.buckets ==> Recovered(spec, maxBuckets, l, memory[key], clock))
  }

  lemma StaysFull(spec: RateSpec, t: Tokens, at: Time, later: Time)
    requires ValidSpec(spec) && LevelSound(spec, t.level) && FullAt(spec, t, at) && at <= later
    ensures FullAt(spec, t, later)
  {
    hide Available, Capacity;
    AvailableMonotone(spec, t, at, later);
    AvailableBounds(spec, t, later);
  }

  lemma GraceIsShort(spec: RateSpec, maxBuckets: int)
    ensures 0 < Grace(spec, maxBuckets) <= BucketTTL(spec)
  {
  }

  /** A bucket last seen a whole grace ago is full. */
  lemma FullAfterGrace(spec: RateSpec, maxBuckets: int, t: Tokens, seen: Time, at: Time)
    requires ValidSpec(spec) && Grained(spec, t.level) && t.last <= seen && seen + Grace(spec, maxBuckets) <= at
    requires RefillsInTime(spec, maxBuckets)
    ensures FullAt(spec, t, at)
  {
    hide Available, Capacity, Refill, Grace, Grained, Debt;
    GraceIsShort(spec, maxBuckets);
    DebtIsBounded(spec, t.level);
    Recovers(spec, t, at, Grace(spec, maxBuckets));
  }

  /** Where there is room for one bucket only, a served key has the map to itself. */
  lemma Alone(spec: RateSpec, l: Limiter, r: Request, clock: Time, other: string)
    requires ValidSpec(spec) && Sound(spec, l, clock) && clock <= r.now && Faithful(1, l, r) && Fits(1, l)
    requires other in l.buckets && other != r.key && !Serve(spec, 1, l, r).decision.Saturated?
    ensures r.now - l.buckets[other].lastSeen >= SATURATION_IDLE_AGE
  {
    hide Serve, Faithful, Kept, Take, Capacity;
    var after := Serve(spec, 1, l, r).limiter;
    ServeFits(spec, 1, l, r);
    ServeOwn(spec, 1, l, r, clock);
    ServeKeepsOthers(spec, 1, l, r, clock, other);
    if other in after.buckets {
      AtMostOneKey(after.buckets, other, r.key);
    }
  }

  lemma AtMostOneKey(buckets: map<string, Bucket>, a: string, b: string)
    requires |buckets| <= 1 && a in buckets && b in buckets
    ensures a == b
  {
    var others := buckets.Keys - {a};
    assert |others| == 0;
    assert b !in others;
  }

  /** The forgotten bucket and the remembered one make the same of the next request. */
  lemma SameTake(spec: RateSpec, t: Tokens, u: Tokens, now: Time)
    requires ValidSpec(spec) && Available(spec, t, now) == Available(spec, u, now) == Capacity(spec)
    ensures Take(spec, t, now) == Take(spec, u, now)
  {
    hide Available, Capacity;
    CapacityHoldsAToken(spec);
  }

  /** By the time a forgotten key is served again, the bucket that it had would be full. */
  lemma FullOnReturn(spec: RateSpec, maxBuckets: int, l: Limiter, memory: map<string, Tokens>, r: Request, clock: Time)
    requires ValidSpec(spec) && Mirrors(spec, maxBuckets, l, memory, clock) && clock <= r.now
             && Faithful(maxBuckets, l, r)
    requires RefillsInTime(spec, maxBuckets)
    requires !Serve(spec, maxBuckets, l, r).decision.Saturated? && !Kept(l, r) && r.key in memory
    ensures FullAt(spec, memory[r.key], r.now)
  {
    hide Serve, Faithful, Capacity, Refill, Kept, FullAt, Grace, Fits;
    var t := memory[r.key];
    if r.key in l.buckets {
      ServeOwn(spec, maxBuckets, l, r, clock);
      GraceIsShort(spec, maxBuckets);
      FullAfterGrace(spec, maxBuckets, t, l.buckets[r.key].lastSeen, r.now);
    } else if FullAt(spec, t, clock) {
      StaysFull(spec, t, clock, r.now);
    } else {
      var other :| other in l.buckets && FullAt(spec, t, l.buckets[other].lastSeen + SATURATION_IDLE_AGE);
      Alone(spec, l, r, clock, other);
      StaysFull(spec, t, l.buckets[other].lastSeen + SATURATION_IDLE_AGE, r.now);
    }
  }

  lemma RemembersTheSame(spec: RateSpec, maxBuckets: int, l: Limiter, memory: map<string, Tokens>, r: Request,
                         clock: Time)
    requires ValidSpec(spec) && Mirrors(spec, maxBuckets, l, memory, clock) && clock <= r.now
             && Faithful(maxBuckets, l, r)
    requires RefillsInTime(spec, maxBuckets)
    requires !Serve(spec, maxBuckets, l, r).decision.Saturated?
    ensures var served := Serve(spec, maxBuckets, l, r);
            served.decision == Recall(spec, memory, r).decision
            && r.key in served.limiter.buckets && served.limiter.buckets[r.key].tokens == Recall(spec, memory, r).tokens
  {
    hide Serve, Faithful, Capacity, Refill, Kept, Available, Take, Grace, Fits, Recovered;
    ServeOwn(spec, maxBuckets, l, r, clock);
    if !Kept(l, r) && r.key in memory {
      FullOnReturn(spec, maxBuckets, l, memory, r, clock);
      FreshTokens(spec, r.now);
      SameTake(spec, FullTokens(spec), memory[r.key], r.now);
    }
  }

  /** A bucket that this very request forgot. */
  lemma JustForgotten(spec: RateSpec, maxBuckets: int, l: Limiter, memory: map<string, Tokens>, r: Request,
                      clock: Time, key: string)
    requires ValidSpec(spec) && Mirrors(spec, maxBuckets, l, memory, clock) && clock <= r.now
             && Faithful(maxBuckets, l, r)
    requires RefillsInTime(spec, maxBuckets)
    requires key in l.buckets && key !in Serve(spec, maxBuckets, l, r).limiter.buckets
    ensures Recovered(spec, maxBuckets, Serve(spec, maxBuckets, l, r).limiter, memory[key], r.now)
  {
    hide Serve, Faithful, Capacity, Refill, Kept, FullAt, BucketTTL, Fits;
    var served := Serve(spec, maxBuckets, l, r);
    var b := l.buckets[key];
    GraceIsShort(spec, maxBuckets);
    ServeOwn(spec, maxBuckets, l, r, clock);
    if r.now - b.lastSeen >= BucketTTL(spec) {
      FullAfterGrace(spec, maxBuckets, b.tokens, b.lastSeen, r.now);
    } else {
      ServeKeepsOthers(spec, maxBuckets, l, r, clock, key);
      if maxBuckets != 1 {
        FullAfterGrace(spec, maxBuckets, b.tokens, b.lastSeen, r.now);
      } else {
        SaturationDropsOnlyOld(spec, maxBuckets, l, r, clock, key);
        assert served.limiter.buckets[r.key].lastSeen == r.now;
        FullAfterGrace(spec, maxBuckets, b.tokens, b.lastSeen, r.now + SATURATION_IDLE_AGE);
      }
    }
  }

  lemma SaturationDropsOnlyOld(spec: RateSpec, maxBuckets: int, l: Limiter, r: Request, clock: Time, key: string)
    requires ValidSpec(spec) && Sound(spec, l, clock) && clock <= r.now && Faithful(maxBuckets, l, r)
    requires key in l.buckets && key !in Serve(spec, maxBuckets, l, r).limiter.buckets
    ensures Serve(spec, maxBuckets, l, r).decision.Saturated? ==> r.now - l.buckets[key].lastSeen >= BucketTTL(spec)
  {
    hide Swept, Capacity, Available, BucketTTL;
    SweepKeeps(spec, l, r.now, clock);
  }

  /** A bucket that had been forgotten before. */
  lemma StillForgotten(spec: RateSpec, maxBuckets: int, l: Limiter, memory: map<string, Tokens>, r: Request,
                       clock: Time, key: string)
    requires ValidSpec(spec) && Mirrors(spec, maxBuckets, l, memory, clock) && clock <= r.now
             && Faithful(maxBuckets, l, r)
    requires key in memory && key !in l.buckets
    ensures Recovered(spec, maxBuckets, Serve(spec, maxBuckets, l, r).limiter, memory[key], r.now)
  {
    hide Serve, Faithful, Capacity, Refill, Kept, FullAt, BucketTTL, Fits, Sound;
    var after := Serve(spec, maxBuckets, l, r).limiter;
    var t := memory[key];
    if FullAt(spec, t, clock) {
      StaysFull(spec, t, clock, r.now);
    } else {
      var other :| other in l.buckets && FullAt(spec, t, l.buckets[other].lastSeen + SATURATION_IDLE_AGE);
      OtherMovesOn(spec, maxBuckets, l, r, clock, other);
      if other in after.buckets {
        StaysFull(spec, t, l.buckets[other].lastSeen + SATURATION_IDLE_AGE,
                  after.buckets[other].lastSeen + SATURATION_IDLE_AGE);
      } else {
        StaysFull(spec, t, l.buckets[other].lastSeen + SATURATION_IDLE_AGE, r.now);
      }
    }
  }

  /** With a bounded map, a bucket is seen no earlier after a request than before it, or had been idle for a minute. */
  lemma OtherMovesOn(spec: RateSpec, maxBuckets: int, l: Limiter, r: Request, clock: Time, key: string)
    requires ValidSpec(spec) && Sound(spec, l, clock) && clock <= r.now && Faithful(maxBuckets, l, r) && maxBuckets > 0
    requires key in l.buckets
    ensures var after := Serve(spec, maxBuckets, l, r).limiter;
            if key in after.buckets then l.buckets[key].lastSeen <= after.buckets[key].lastSeen
            else r.now - l.buckets[key].lastSeen >= SATURATION_IDLE_AGE
  {
    hide Serve, Faithful, Capacity, Refill, Kept, BucketTTL, Take;
    TTLIsLong(spec);
    if key == r.key {
      ServeOwn(spec, maxBuckets, l, r, clock);
    } else {
      ServeKeepsOthers(spec, maxBuckets, l, r, clock, key);
    }
  }

  lemma MirrorsOn(spec: RateSpec, maxBuckets: int, l: Limiter, memory: map<string, Tokens>, r: Request, clock: Time)
    requires ValidSpec(spec) && Mirrors(spec, maxBuckets, l, memory, clock) && clock <= r.now
             && Faithful(maxBuckets, l, r)
    requires RefillsInTime(spec, maxBuckets)
    ensures var served := Serve(spec, maxBuckets, l, r);
            var memory' := if served.decision.Saturated? then memory
              else memory[r.key := Recall(spec, memory, r).tokens];
            Mirrors(spec, maxBuckets, served.limiter, memory', r.now)
  {
    hide Serve, Faithful, Capacity, Refill, Available, Recall, Sound, Grace, Recovered, Fits, Grained;
    var served := Serve(spec, maxBuckets, l, r);
    var memory' := if served.decision.Saturated? then memory else memory[r.key := Recall(spec, memory, r).tokens];
    ServeKeeps(spec, maxBuckets, l, r, clock);
    ServeFits(spec, maxBuckets, l, r);
    if !served.decision.Saturated? {
      RemembersTheSame(spec, maxBuckets, l, memory, r, clock);
      SoundBucket(spec, served.limiter, r.now, r.key);
      RecallKeepsGrain(spec, memory, r);
    } else {
      ServeOwn(spec, maxBuckets, l, r, clock);
    }
    forall key | key in served.limiter.buckets
      ensures key in memory' && memory'[key] == served.limiter.buckets[key].tokens
    {
      if key != r.key {
        ServeKeepsOthers(spec, maxBuckets, l, r, clock, key);
      }
    }
    forall key | key in memory' && key !in served.limiter.buckets
      ensures Recovered(spec, maxBuckets, served.limiter, memory'[key], r.now)
    {
      if key in l.buckets {
        JustForgotten(spec, maxBuckets, l, memory, r, clock, key);
      } else {
        StillForgotten(spec, maxBuckets, l, memory, r, clock, key);
      }
    }
  }

  lemma RecallKeepsGrain(spec: RateSpec, memory: map<string, Tokens>, r: Request)
    requires ValidSpec(spec)
    requires r.key in memory ==> Grained(spec, memory[r.key].level) && memory[r.key].last <= r.now
    ensures Grained(spec, Recall(spec, memory, r).tokens.level)
  {
    hide Grain, Capacity, Take;
    GrainDivides(spec);
    CapacityHoldsAToken(spec);
    TakeKeepsGrain(spec, Remembered(spec, memory, r), r.now);
  }

  lemma SoundBucket(spec: RateSpec, l: Limiter, clock: Time, key: string)
    requires Sound(spec, l, clock) && key in l.buckets
    ensures LevelSound(spec, l.buckets[key].tokens.level) && l.buckets[key].tokens.last <= clock
  {
  }

  /** If a bucket refills completely, its debt included, within the idleness that lets it be forgotten, then on every
      run the sweeping, evicting limiter decides like the one that never forgets, fed the same requests minus the
      saturation denials. */
  lemma {:induction false} ForgettingIsInvisible(spec: RateSpec, maxBuckets: int, l: Limiter,
                                                 memory: map<string, Tokens>,
                                                 requests: seq<Request>, clock: Time)
    requires ValidSpec(spec) && Mirrors(spec, maxBuckets, l, memory, clock)
             && Possible(spec, maxBuckets, l, requests, clock)
    requires RefillsInTime(spec, maxBuckets)
    ensures HeardDecisions(spec, maxBuckets, l, requests)
            == RecalledDecisions(spec, memory, Heard(spec, maxBuckets, l, requests))
    decreases |requests|
  {
    hide Serve, Faithful, Capacity, Refill, Mirrors, Recall, Grace;
    if requests != [] {
      var r := requests[0];
      var served := Serve(spec, maxBuckets, l, r);
      MirrorsOn(spec, maxBuckets, l, memory, r, clock);
      if served.decision.Saturated? {
        NothingInFront(Heard(spec, maxBuckets, served.limiter, requests[1..]));
        NothingInFront(HeardDecisions(spec, maxBuckets, served.limiter, requests[1..]));
        ForgettingIsInvisible(spec, maxBuckets, served.limiter, memory, requests[1..], r.now);
      } else {
        RemembersTheSame(spec, maxBuckets, l, memory, r, clock);
        ForgettingIsInvisible(spec, maxBuckets, served.limiter, memory[r.key := Recall(spec, memory, r).tokens],
                              requests[1..], r.now);
        assert ([r] + Heard(spec, maxBuckets, served.limiter, requests[1..]))[1..]
               == Heard(spec, maxBuckets, served.limiter, requests[1..]);
      }
    }
  }

  lemma NothingInFront<T>(s: seq<T>)
    ensures [] + s == s
  {
  }
}
