/** When the forgetting of buckets can be noticed, and exactly when it cannot. */
module Noticing {
  import opened Base
  import opened Divisibility
  import opened RateLimits
  import opened LimiterRuns
  import opened Forgetting

  ghost predicate InvisibleFrom(spec: RateSpec, maxBuckets: int, l: Limiter, memory: map<string, Tokens>, clock: Time)
    requires spec.requests > 0
  {
    forall requests :: Possible(spec, maxBuckets, l, requests, clock) ==>
      HeardDecisions(spec, maxBuckets, l, requests)
        == RecalledDecisions(spec, memory, Heard(spec, maxBuckets, l, requests))
  }

  lemma InvisibleStep(spec: RateSpec, maxBuckets: int, l: Limiter, memory: map<string, Tokens>, r: Request, clock: Time)
    requires spec.requests > 0 && InvisibleFrom(spec, maxBuckets, l, memory, clock)
    requires clock <= r.now && Faithful(maxBuckets, l, r) && !Serve(spec, maxBuckets, l, r).decision.Saturated?
    ensures var served := Serve(spec, maxBuckets, l, r);
            var taken := Recall(spec, memory, r);
            && served.decision == taken.decision
            && InvisibleFrom(spec, maxBuckets, served.limiter, memory[r.key := taken.tokens], r.now)
  {
    hide Serve, Faithful, Recall;
    var served := Serve(spec, maxBuckets, l, r);
    var taken := Recall(spec, memory, r);
    var memory' := memory[r.key := taken.tokens];
    forall requests | Possible(spec, maxBuckets, served.limiter, requests, r.now)
      ensures HeardDecisions(spec, maxBuckets, served.limiter, requests)
              == RecalledDecisions(spec, memory', Heard(spec, maxBuckets, served.limiter, requests))
      ensures served.decision == taken.decision
    {
      var all := [r] + requests;
      assert all[0] == r && all[1..] == requests;
      assert Possible(spec, maxBuckets, l, all, clock);
      var rest := Heard(spec, maxBuckets, served.limiter, requests);
      assert Heard(spec, maxBuckets, l, all) == [r] + rest;
      assert ([r] + rest)[1..] == rest;
      assert HeardDecisions(spec, maxBuckets, l, all)
             == [served.decision] + HeardDecisions(spec, maxBuckets, served.limiter, requests);
      assert RecalledDecisions(spec, memory, [r] + rest) == [taken.decision] + RecalledDecisions(spec, memory', rest);
      SameFront(served.decision, HeardDecisions(spec, maxBuckets, served.limiter, requests), taken.decision,
                RecalledDecisions(spec, memory', rest));
    }
    assert Possible(spec, maxBuckets, served.limiter, [], r.now);
  }

  lemma SameFront<T>(x: T, s: seq<T>, y: T, t: seq<T>)
    requires [x] + s == [y] + t
    ensures x == y && s == t
  {
    assert ([x] + s)[0] == ([y] + t)[0];
    assert ([x] + s)[1..] == s && ([y] + t)[1..] == t;
  }

  // ---- one key, whose bucket is drained, worn down and then forgotten ----

  const VICTIM := "k"

  /** A sweep at `now` would come too early. */
  predicate JustSwept(l: Limiter, now: Time) {
    l.lastSweep != 0 && l.lastSweep <= now && Sub(now, l.lastSweep) < SWEEP_INTERVAL
  }

  /** The victim's bucket is `debt` units in debt, and the memory of it `gap` more. */
  ghost predicate Owes(spec: RateSpec, l: Limiter, memory: map<string, Tokens>, at: Time, debt: int, gap: int) {
    && JustSwept(l, at)
    && VICTIM in l.buckets && l.buckets[VICTIM] == Bucket(Tokens(-debt, at), at, BucketTTL(spec))
    && VICTIM in memory && memory[VICTIM] == Tokens(-debt - gap, at)
  }

  /** Requests of one key at one instant: the bucket admits `n` of them, so the memory must admit them as well. */
  lemma {:induction false} Drain(spec: RateSpec, maxBuckets: int, l: Limiter, memory: map<string, Tokens>, now: Time,
                                 n: nat, level: int)
    returns (l': Limiter, memory': map<string, Tokens>)
    requires ValidSpec(spec) && InvisibleFrom(spec, maxBuckets, l, memory, now)
    requires JustSwept(l, now)
    requires VICTIM in l.buckets && l.buckets[VICTIM] == Bucket(Tokens(n * spec.window, now), now, BucketTTL(spec))
             && n < spec.burst
    requires VICTIM in memory && memory[VICTIM] == Tokens(level, now) && LevelSound(spec, level)
    ensures InvisibleFrom(spec, maxBuckets, l', memory', now)
    ensures l' == l.(buckets := l.buckets[VICTIM := Bucket(Tokens(0, now), now, BucketTTL(spec))])
    ensures memory' == memory[VICTIM := Tokens(level - n * spec.window, now)]
    ensures LevelSound(spec, level - n * spec.window)
    decreases n
  {
    hide InvisibleFrom, Capacity;
    if n == 0 {
      l', memory' := l, memory;
      assert l.buckets == l.buckets[VICTIM := Bucket(Tokens(0, now), now, BucketTTL(spec))];
      assert memory == memory[VICTIM := Tokens(level, now)];
    } else {
      var r := Request(VICTIM, now, None);
      WindowsFit(spec, n);
      NoRefill(spec);
      RefillIsSlow(spec);
      InvisibleStep(spec, maxBuckets, l, memory, r, now);
      var l1 := l.(buckets := l.buckets[VICTIM := Bucket(Tokens((n - 1) * spec.window, now), now, BucketTTL(spec))]);
      var memory1 := memory[VICTIM := Tokens(level - spec.window, now)];
      assert Serve(spec, maxBuckets, l, r) == Served(l1, Allowed);
      assert Recall(spec, memory, r).tokens == memory1[VICTIM];
      l', memory' := Drain(spec, maxBuckets, l1, memory1, now, n - 1, level - spec.window);
    }
  }

  lemma WindowsFit(spec: RateSpec, n: nat)
    requires ValidSpec(spec) && 1 <= n <= spec.burst
    ensures (n - 1) * spec.window == n * spec.window - spec.window
    ensures spec.window <= n * spec.window <= Capacity(spec)
  {
    MultipleGrows(spec.window, 1, n);
    MultipleGrows(spec.window, n, spec.burst);
  }

  /** The first request of a key that the limiter does not hold makes a bucket with all but one token. */
  lemma FirstRequest(spec: RateSpec, maxBuckets: int, l: Limiter, memory: map<string, Tokens>, r: Request, clock: Time)
    returns (l': Limiter, memory': map<string, Tokens>)
    requires ValidSpec(spec) && InvisibleFrom(spec, maxBuckets, l, memory, clock)
    requires 0 < clock <= r.now && l.lastSweep <= clock
    requires Faithful(maxBuckets, l, r) && r.key !in Swept(l, r.now).buckets
    requires Full(maxBuckets, Swept(l, r.now).buckets) ==> r.victim.Some?
    ensures InvisibleFrom(spec, maxBuckets, l', memory', r.now)
    ensures JustSwept(l', r.now)
    ensures var swept := Swept(l, r.now).buckets;
            l'.buckets == (if r.victim.Some? then swept - {r.victim.value} else swept)
                          [r.key := Bucket(Tokens(Capacity(spec) - spec.window, r.now), r.now, BucketTTL(spec))]
    ensures memory' == memory[r.key := Recall(spec, memory, r).tokens]
    ensures Recall(spec, memory, r).decision.Allowed?
  {
    hide InvisibleFrom, Capacity, FullTokens, Take, Outdated;
    FreshTokens(spec, r.now);
    InvisibleStep(spec, maxBuckets, l, memory, r, clock);
    l' := Serve(spec, maxBuckets, l, r).limiter;
    memory' := memory[r.key := Recall(spec, memory, r).tokens];
  }

  lemma AllButOne(spec: RateSpec)
    ensures Capacity(spec) - spec.window == (spec.burst - 1) * spec.window
  {
  }

  /** The opening of every counterexample: at one instant the victim spends its whole burst. */
  lemma SpendBurst(spec: RateSpec, maxBuckets: int, now: Time) returns (l: Limiter, memory: map<string, Tokens>)
    requires ValidSpec(spec) && now > 0 && InvisibleFrom(spec, maxBuckets, EMPTY, map[], now)
    ensures InvisibleFrom(spec, maxBuckets, l, memory, now)
    ensures Owes(spec, l, memory, now, 0, 0) && l.buckets.Keys == {VICTIM}
  {
    hide InvisibleFrom, Capacity;
    var r := Request(VICTIM, now, None);
    assert Swept(EMPTY, now).buckets == map[];
    var l1, memory1 := FirstRequest(spec, maxBuckets, EMPTY, map[], r, now);
    FreshTokens(spec, now);
    CapacityHoldsAToken(spec);
    AllButOne(spec);
    l, memory := Drain(spec, maxBuckets, l1, memory1, now, spec.burst - 1, Capacity(spec) - spec.window);
  }

  // ---- wearing a bucket down ----

  /** How long the victim waits for the first nanosecond at which its bucket admits, and what that leaves. */
  lemma NextAdmission(spec: RateSpec, debt: int, gap: int, at: Time)
    requires ValidSpec(spec) && 0 <= debt < spec.requests && 0 <= gap
    ensures var wait := (spec.window + debt) / spec.requests;
            var left := (spec.window + debt) % spec.requests;
            && 0 < wait <= 2 * MINUTE
            && Take(spec, Tokens(-debt, at), at + wait) == Taken(Tokens(-left, at + wait), Allowed)
            && var t := Take(spec, Tokens(-debt - gap, at), at + wait);
            && (t.decision.Allowed? <==> left + gap < spec.requests)
            && (t.decision.Allowed? ==> t.tokens == Tokens(-left - gap, at + wait))
  {
    var wait := (spec.window + debt) / spec.requests;
    var left := (spec.window + debt) % spec.requests;
    assert spec.window + debt == spec.requests * wait + left;
    RefillIsSlow(spec);
    MultiplesAreApart(spec.requests, wait);
    MultiplesAreApart(spec.requests, wait - MINUTE - 1);
    assert spec.requests * (wait - MINUTE - 1) == spec.requests * wait - spec.requests * MINUTE - spec.requests;
    assert Refill(spec, wait) == spec.window + debt - left;
    hide Capacity, Refill;
    CapacityHoldsAToken(spec);
  }

  /** The victim comes back as soon as its bucket admits again; the memory must admit it too. */
  lemma WearOnce(spec: RateSpec, maxBuckets: int, l: Limiter, memory: map<string, Tokens>, at: Time, debt: int,
                 gap: int)
    returns (l': Limiter, memory': map<string, Tokens>, at': Time)
    requires ValidSpec(spec) && InvisibleFrom(spec, maxBuckets, l, memory, at) && at > 0
    requires Owes(spec, l, memory, at, debt, gap) && 0 <= debt < spec.requests && 0 <= gap
    ensures at' >= at && InvisibleFrom(spec, maxBuckets, l', memory', at')
    ensures var left := (debt + spec.window) % spec.requests;
            Owes(spec, l', memory', at', left, gap) && left + gap < spec.requests
    ensures l'.buckets.Keys <= l.buckets.Keys
  {
    hide InvisibleFrom, Capacity, Take;
    at' := at + (spec.window + debt) / spec.requests;
    var r := Request(VICTIM, at', None);
    NextAdmission(spec, debt, gap, at);
    TTLIsLong(spec);
    assert VICTIM in Swept(l, at').buckets && Swept(l, at').buckets[VICTIM] == l.buckets[VICTIM];
    InvisibleStep(spec, maxBuckets, l, memory, r, at);
    l' := Serve(spec, maxBuckets, l, r).limiter;
    memory' := memory[VICTIM := Recall(spec, memory, r).tokens];
  }

  /** After `k` such returns the debt is what `k` windows leave besides whole nanoseconds. */
  lemma {:induction false} Wear(spec: RateSpec, maxBuckets: int, l: Limiter, memory: map<string, Tokens>, at: Time,
                                gap: int, k: nat)
    returns (l': Limiter, memory': map<string, Tokens>, at': Time)
    requires ValidSpec(spec) && InvisibleFrom(spec, maxBuckets, l, memory, at) && at > 0
    requires Owes(spec, l, memory, at, 0, gap) && 0 <= gap
    ensures at' >= at && InvisibleFrom(spec, maxBuckets, l', memory', at')
    ensures Owes(spec, l', memory', at', k * spec.window % spec.requests, gap)
    ensures k > 0 ==> k * spec.window % spec.requests + gap < spec.requests
    ensures l'.buckets.Keys <= l.buckets.Keys
    decreases k
  {
    hide InvisibleFrom, Owes;
    DebtAfter(spec.window, spec.requests, k);
    if k == 0 {
      l', memory', at' := l, memory, at;
    } else {
      var l1, memory1, at1 := Wear(spec, maxBuckets, l, memory, at, gap, k - 1);
      l', memory', at' := WearOnce(spec, maxBuckets, l1, memory1, at1, (k - 1) * spec.window % spec.requests, gap);
    }
  }

  lemma DebtAfter(window: int, requests: int, k: nat)
    requires requests > 0
    ensures k == 0 ==> k * window % requests == 0
    ensures 0 <= (k - 1) * window % requests < requests
    ensures ((k - 1) * window % requests + window) % requests == k * window % requests
  {
    RemainderOfSum((k - 1) * window, window, requests);
    assert (k - 1) * window + window == k * window;
  }

  /** The victim alone in the map, in the debt that `k` returns leave it in. */
  lemma RunUpDebt(spec: RateSpec, maxBuckets: int, now: Time, k: nat)
    returns (l: Limiter, memory: map<string, Tokens>, at: Time)
    requires ValidSpec(spec) && now > 0 && InvisibleFrom(spec, maxBuckets, EMPTY, map[], now)
    ensures at > 0 && InvisibleFrom(spec, maxBuckets, l, memory, at)
    ensures Owes(spec, l, memory, at, k * spec.window % spec.requests, 0) && l.buckets.Keys == {VICTIM}
  {
    hide InvisibleFrom;
    var l0, memory0 := SpendBurst(spec, maxBuckets, now);
    l, memory, at := Wear(spec, maxBuckets, l0, memory0, now, 0, k);
  }

  // ---- the return of a forgotten bucket ----

  /** A forgotten bucket comes back full and spends its burst again. The memory must admit as much, and is then as far
      in debt as it was short of full. */
  lemma SpendAgain(spec: RateSpec, maxBuckets: int, l: Limiter, memory: map<string, Tokens>, r: Request, clock: Time)
    returns (l': Limiter, memory': map<string, Tokens>)
    requires ValidSpec(spec) && InvisibleFrom(spec, maxBuckets, l, memory, clock)
    requires r.key == VICTIM && 0 < clock <= r.now && l.lastSweep <= clock
    requires Faithful(maxBuckets, l, r) && VICTIM !in Swept(l, r.now).buckets
    requires Full(maxBuckets, Swept(l, r.now).buckets) ==> r.victim.Some?
    requires VICTIM in memory && LevelSound(spec, memory[VICTIM].level) && memory[VICTIM].last <= r.now
    ensures var gap := Capacity(spec) - Available(spec, memory[VICTIM], r.now);
            && 0 <= gap < spec.requests
            && InvisibleFrom(spec, maxBuckets, l', memory', r.now) && Owes(spec, l', memory', r.now, 0, gap)
  {
    hide InvisibleFrom, Capacity, Available, Swept, Faithful;
    var l1, memory1 := FirstRequest(spec, maxBuckets, l, memory, r, clock);
    var level := Available(spec, memory[VICTIM], r.now) - spec.window;
    AvailableBounds(spec, memory[VICTIM], r.now);
    CapacityHoldsAToken(spec);
    AllButOne(spec);
    l', memory' := Drain(spec, maxBuckets, l1, memory1, r.now, spec.burst - 1, level);
  }

  /** The gap is made of the very units that further returns leave as debt, so some return finds them to be a whole
      nanosecond's refill together: the limiter admits it, and the memory cannot. */
  lemma GapShows(spec: RateSpec, debt: int, k: nat, rest: Duration, gap: int)
    requires ValidSpec(spec) && debt == k * spec.window % spec.requests && 0 < gap < spec.requests
    requires gap == Capacity(spec) + debt - Refill(spec, rest)
    ensures var j := (spec.requests - 1) * (spec.burst + k);
            j > 0 && j * spec.window % spec.requests + gap == spec.requests
  {
    var n := k * spec.window / spec.requests;
    assert k * spec.window == spec.requests * n + debt;
    assert (spec.burst + k) * spec.window == spec.burst * spec.window + k * spec.window;
    assert (spec.burst + k) * spec.window - gap == spec.requests * (n + rest) by {
      assert spec.requests * (n + rest) == spec.requests * n + spec.requests * rest;
    }
    MultipleIs(spec.requests, n + rest);
    RemainderOfOpposite(spec.window, spec.burst + k, gap, spec.requests);
    MultiplesAreApart(spec.requests - 1, spec.burst + k);
  }

  /** If nothing is to be noticed, a forgotten bucket must have refilled completely by the time it comes back. */
  lemma ReturnsInTime(spec: RateSpec, maxBuckets: int, l: Limiter, memory: map<string, Tokens>, r: Request,
                      clock: Time, debt: int, k: nat)
    requires ValidSpec(spec) && InvisibleFrom(spec, maxBuckets, l, memory, clock)
    requires r.key == VICTIM && 0 < clock <= r.now && l.lastSweep <= clock
    requires Faithful(maxBuckets, l, r) && VICTIM !in Swept(l, r.now).buckets
    requires Full(maxBuckets, Swept(l, r.now).buckets) ==> r.victim.Some?
    requires VICTIM in memory && memory[VICTIM].level == -debt && memory[VICTIM].last <= r.now
    requires debt == k * spec.window % spec.requests
    ensures Capacity(spec) + debt <= Refill(spec, r.now - memory[VICTIM].last)
  {
    hide InvisibleFrom, Capacity, Refill, Swept, Faithful, Full, Owes;
    CapacityHoldsAToken(spec);
    var l1, memory1 := SpendAgain(spec, maxBuckets, l, memory, r, clock);
    var gap := Capacity(spec) - Available(spec, memory[VICTIM], r.now);
    if gap > 0 {
      GapShows(spec, debt, k, r.now - memory[VICTIM].last, gap);
      var l2, memory2, at := Wear(spec, maxBuckets, l1, memory1, r.now, gap, (spec.requests - 1) * (spec.burst + k));
    }
  }

  /** Without a bound on the map, the sweep after one time-to-live forgets the victim. */
  lemma SweepShows(spec: RateSpec, maxBuckets: int, now: Time, k: nat)
    requires ValidSpec(spec) && maxBuckets <= 0 && now > 0 && InvisibleFrom(spec, maxBuckets, EMPTY, map[], now)
    ensures Capacity(spec) + k * spec.window % spec.requests <= Refill(spec, BucketTTL(spec))
  {
    hide InvisibleFrom, Capacity, Refill, BucketTTL;
    var l, memory, at := RunUpDebt(spec, maxBuckets, now, k);
    TTLIsLong(spec);
    TTLFits(spec);
    ReturnsInTime(spec, maxBuckets, l, memory, Request(VICTIM, at + BucketTTL(spec), None), at,
                  k * spec.window % spec.requests, k);
  }

  lemma TTLFits(spec: RateSpec)
    ensures BucketTTL(spec) <= MAX_DURATION
  {
  }

  /** Buckets that were all last seen at `now`, under keys no longer than their number. */
  ghost predicate Crowd(spec: RateSpec, l: Limiter, now: Time) {
    && JustSwept(l, now)
    && (forall key :: key in l.buckets ==>
          l.buckets[key].lastSeen == now && l.buckets[key].ttl == BucketTTL(spec) && |key| <= |l.buckets|)
  }

  function NewKey(n: nat): (key: string)
    ensures |key| == n
  {
    seq(n, i => 'k')
  }

  /** Other clients fill the map at the same instant. */
  lemma {:induction false} FillUp(spec: RateSpec, maxBuckets: int, l: Limiter, memory: map<string, Tokens>, now: Time)
    returns (l': Limiter, memory': map<string, Tokens>)
    requires ValidSpec(spec) && InvisibleFrom(spec, maxBuckets, l, memory, now) && now > 0
    requires Crowd(spec, l, now) && VICTIM in l.buckets && |l.buckets| <= maxBuckets && VICTIM in memory
    ensures InvisibleFrom(spec, maxBuckets, l', memory', now)
    ensures Crowd(spec, l', now) && VICTIM in l'.buckets && |l'.buckets| == maxBuckets
    ensures VICTIM in memory' && memory'[VICTIM] == memory[VICTIM]
    decreases maxBuckets - |l.buckets|
  {
    hide InvisibleFrom, Capacity, BucketTTL;
    if |l.buckets| == maxBuckets {
      l', memory' := l, memory;
    } else {
      var key := NewKey(|l.buckets| + 1);
      assert key !in l.buckets;
      assert Swept(l, now) == l;
      var l1, memory1 := FirstRequest(spec, maxBuckets, l, memory, Request(key, now, None), now);
      assert l1.buckets.Keys == l.buckets.Keys + {key};
      l', memory' := FillUp(spec, maxBuckets, l1, memory1, now);
    }
  }

  /** The bucket seen first may be evicted once a minute has passed. */
  lemma FirstSeenMayGo(spec: RateSpec, maxBuckets: int, l: Limiter, r: Request)
    requires ValidSpec(spec) && maxBuckets > 0 && |l.buckets| == maxBuckets
    requires forall key :: key in l.buckets ==>
               l.buckets[key].ttl == BucketTTL(spec)
                 && l.buckets[key].lastSeen <= r.now < l.buckets[key].lastSeen + HOUR
    requires r.key !in l.buckets && r.victim.Some? && r.victim.value in l.buckets
    requires l.buckets[r.victim.value].lastSeen + SATURATION_IDLE_AGE <= r.now
    requires forall key :: key in l.buckets ==> l.buckets[r.victim.value].lastSeen <= l.buckets[key].lastSeen
    ensures Swept(l, r.now).buckets == l.buckets && Full(maxBuckets, l.buckets) && Faithful(maxBuckets, l, r)
  {
    hide BucketTTL;
    TTLIsLong(spec);
    assert Outdated(l.buckets, r.now) == {};
    assert l.buckets - {} == l.buckets;
  }

  /** With room for two buckets or more, a newcomer after one minute evicts the victim, which then evicts another. */
  lemma EvictionShows(spec: RateSpec, maxBuckets: int, now: Time, k: nat)
    requires ValidSpec(spec) && maxBuckets >= 2 && now > 0 && InvisibleFrom(spec, maxBuckets, EMPTY, map[], now)
    ensures Capacity(spec) + k * spec.window % spec.requests <= Refill(spec, SATURATION_IDLE_AGE)
  {
    hide InvisibleFrom, Capacity, Refill, BucketTTL, Recall, Swept, Faithful, Full;
    var l0, memory0, at := RunUpDebt(spec, maxBuckets, now, k);
    assert |l0.buckets| == 1;
    var l, memory := FillUp(spec, maxBuckets, l0, memory0, at);
    var later := at + SATURATION_IDLE_AGE;
    var newcomer := NewKey(maxBuckets + 1);
    assert newcomer !in l.buckets && newcomer != VICTIM;
    FirstSeenMayGo(spec, maxBuckets, l, Request(newcomer, later, Some(VICTIM)));
    var l1, memory1 := FirstRequest(spec, maxBuckets, l, memory, Request(newcomer, later, Some(VICTIM)), at);
    var other := OneOfTheOthers(l.buckets);
    assert l1.buckets.Keys == l.buckets.Keys - {VICTIM} + {newcomer};
    var back := Request(VICTIM, later, Some(other));
    FirstSeenMayGo(spec, maxBuckets, l1, back);
    ReturnsInTime(spec, maxBuckets, l1, memory1, back, later, k * spec.window % spec.requests, k);
  }

  /** With room for one bucket, a newcomer evicts the victim, which evicts the newcomer when that has been idle too. */
  lemma LoneEvictionShows(spec: RateSpec, now: Time, k: nat)
    requires ValidSpec(spec) && now > 0 && InvisibleFrom(spec, 1, EMPTY, map[], now)
    ensures Capacity(spec) + k * spec.window % spec.requests <= Refill(spec, 2 * SATURATION_IDLE_AGE)
  {
    hide InvisibleFrom, Capacity, Refill, BucketTTL, Recall, Swept, Faithful, Full;
    var l, memory, at := RunUpDebt(spec, 1, now, k);
    var later := at + SATURATION_IDLE_AGE;
    var newcomer := NewKey(2);
    assert |l.buckets| == 1 && newcomer != VICTIM;
    FirstSeenMayGo(spec, 1, l, Request(newcomer, later, Some(VICTIM)));
    var l1, memory1 := FirstRequest(spec, 1, l, memory, Request(newcomer, later, Some(VICTIM)), at);
    assert l1.buckets.Keys == {newcomer};
    var back := Request(VICTIM, later + SATURATION_IDLE_AGE, Some(newcomer));
    FirstSeenMayGo(spec, 1, l1, back);
    ReturnsInTime(spec, 1, l1, memory1, back, later, k * spec.window % spec.requests, k);
  }

  lemma OneOfTheOthers(buckets: map<string, Bucket>) returns (other: string)
    requires |buckets| >= 2 && VICTIM in buckets
    ensures other in buckets && other != VICTIM
  {
    assert |buckets.Keys - {VICTIM}| >= 1;
    other :| other in buckets.Keys - {VICTIM};
  }

  // ---- the theorem ----

  lemma WhatForgettingTakes(spec: RateSpec, maxBuckets: int, clock: Time)
    requires ValidSpec(spec) && clock > 0 && InvisibleFrom(spec, maxBuckets, EMPTY, map[], clock)
    ensures RefillsInTime(spec, maxBuckets)
  {
    hide InvisibleFrom, Capacity, Refill, BucketTTL;
    var k := SomeMultipleIsJustShort(spec.window, spec.requests);
    if maxBuckets <= 0 {
      SweepShows(spec, maxBuckets, clock, k);
    } else if maxBuckets == 1 {
      LoneEvictionShows(spec, clock, k);
    } else {
      EvictionShows(spec, maxBuckets, clock, k);
    }
  }

  /** Forgetting buckets is invisible exactly when a whole burst and the largest debt refill within the idleness that
      lets a bucket go: one minute for a bounded map, two if it holds a single bucket, and a bucket's time-to-live if it
      is unbounded. */
  lemma ForgettingIsInvisibleExactly(spec: RateSpec, maxBuckets: int, clock: Time)
    requires ValidSpec(spec) && clock > 0
    ensures InvisibleFrom(spec, maxBuckets, EMPTY, map[], clock)
            <==> spec.burst * spec.window + spec.requests - Gcd(spec.window, spec.requests)
                 <= spec.requests * Grace(spec, maxBuckets)
  {
    hide Serve, Possible, Take;
    if RefillsInTime(spec, maxBuckets) {
      forall requests | Possible(spec, maxBuckets, EMPTY, requests, clock)
        ensures HeardDecisions(spec, maxBuckets, EMPTY, requests)
                == RecalledDecisions(spec, map[], Heard(spec, maxBuckets, EMPTY, requests))
      {
        ForgettingIsInvisible(spec, maxBuckets, EMPTY, map[], requests, clock);
      }
    }
    if InvisibleFrom(spec, maxBuckets, EMPTY, map[], clock) {
      WhatForgettingTakes(spec, maxBuckets, clock);
    }
  }

  /** The default configuration, 60 requests a minute with bursts of 120 and 4096 buckets, forgets too soon. */
  lemma DefaultLimiterForgetsTooSoon(clock: Time)
    requires clock > 0
    ensures !InvisibleFrom(RateSpec(60, MINUTE, 120), MAX_BUCKETS, EMPTY, map[], clock)
  {
    hide InvisibleFrom;
    GcdDivides(RateSpec(60, MINUTE, 120).window, 60);
    ForgettingIsInvisibleExactly(RateSpec(60, MINUTE, 120), MAX_BUCKETS, clock);
  }

  /** A burst that refills in exactly the grace is not enough: with 7 requests a minute and bursts of 7, debts of up to
      six sevenths of a nanosecond remain. */
  lemma BurstAloneIsNotEnough(clock: Time)
    requires clock > 0
    ensures var spec := RateSpec(7, MINUTE, 7);
            && ValidSpec(spec) && spec.burst * spec.window == spec.requests * Grace(spec, MAX_BUCKETS)
            && !InvisibleFrom(spec, MAX_BUCKETS, EMPTY, map[], clock)
  {
    hide InvisibleFrom;
    assert Gcd(MINUTE, 7) == Gcd(7, 3) == Gcd(3, 1) == Gcd(1, 0) == 1;
    ForgettingIsInvisibleExactly(RateSpec(7, MINUTE, 7), MAX_BUCKETS, clock);
  }
}
