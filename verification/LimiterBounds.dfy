/** How much the rate limiter admits, how large its map grows, and what its retry hint is worth. */
module LimiterBounds {
  import opened Base
  import opened RateLimits
  import opened LimiterRuns

  // ---- the size of the map ----

  ghost predicate Fits(maxBuckets: int, l: Limiter) {
    maxBuckets > 0 ==> |l.buckets| <= maxBuckets
  }

  lemma FewerKeys(a: map<string, Bucket>, b: map<string, Bucket>)
    requires a.Keys <= b.Keys
    ensures |a| <= |b|
  {
    assert b.Keys == a.Keys + (b.Keys - a.Keys);
  }

  lemma ServeFits(spec: RateSpec, maxBuckets: int, l: Limiter, r: Request)
    requires spec.requests > 0 && Fits(maxBuckets, l) && Faithful(maxBuckets, l, r)
    ensures Fits(maxBuckets, Serve(spec, maxBuckets, l, r).limiter)
  {
    hide Take, Outdated;
    var swept := Swept(l, r.now);
    FewerKeys(swept.buckets, l.buckets);
    if r.key !in swept.buckets && Full(maxBuckets, swept.buckets) && r.victim.Some? {
      assert (swept.buckets - {r.victim.value}).Keys == swept.buckets.Keys - {r.victim.value};
    }
  }

  /** With a positive bound the map never outgrows it, on any run. */
  lemma {:induction false} MapStaysBounded(spec: RateSpec, maxBuckets: int, l: Limiter, requests: seq<Request>,
                                           clock: Time)
    requires spec.requests > 0 && Fits(maxBuckets, l) && Possible(spec, maxBuckets, l, requests, clock)
    ensures Fits(maxBuckets, After(spec, maxBuckets, l, requests))
    decreases |requests|
  {
    hide Serve, Faithful, Fits;
    if requests != [] {
      ServeFits(spec, maxBuckets, l, requests[0]);
      MapStaysBounded(spec, maxBuckets, Serve(spec, maxBuckets, l, requests[0]).limiter, requests[1..],
                      requests[0].now);
    }
  }

  /** A request is turned away for want of room exactly when its key is new, the map is full and every bucket has been
      seen within the last minute; and such a denial adds nothing. */
  lemma SaturationExactly(spec: RateSpec, maxBuckets: int, l: Limiter, r: Request)
    requires ValidSpec(spec) && Faithful(maxBuckets, l, r)
    ensures var served := Serve(spec, maxBuckets, l, r);
            var buckets := Swept(l, r.now).buckets;
            && (served.decision.Saturated? <==>
                  r.key !in buckets && Full(maxBuckets, buckets)
                  && forall key :: key in buckets ==> r.now - buckets[key].lastSeen < SATURATION_IDLE_AGE)
            && (served.decision.Saturated? ==>
                 served.limiter.buckets == buckets && Reply(served.decision) == (false, SECOND))
  {
    hide Swept, Available;
    var buckets := Swept(l, r.now).buckets;
    if r.key !in buckets && Full(maxBuckets, buckets) && r.victim.None? {
      forall key | key in buckets ensures r.now - buckets[key].lastSeen < SATURATION_IDLE_AGE {
        assert !Evictable(buckets, r.key, r.now, key);
      }
    }
  }

  /** Eviction takes exactly one bucket: one idle for a minute or more, and no idle one was seen earlier. */
  lemma EvictionIsLeastRecent(spec: RateSpec, maxBuckets: int, l: Limiter, r: Request)
    requires ValidSpec(spec) && Faithful(maxBuckets, l, r) && r.victim.Some?
    ensures var before := Swept(l, r.now).buckets;
            var victim := r.victim.value;
            && victim in before && r.now - before[victim].lastSeen >= SATURATION_IDLE_AGE
            && (forall key :: key in before && r.now - before[key].lastSeen >= SATURATION_IDLE_AGE ==>
                                before[victim].lastSeen <= before[key].lastSeen)
            && Serve(spec, maxBuckets, l, r).limiter.buckets.Keys == before.Keys - {victim} + {r.key}
  {
    hide Swept, Take;
    var before := Swept(l, r.now).buckets;
    assert forall key :: key in before && r.now - before[key].lastSeen >= SATURATION_IDLE_AGE ==>
           Evictable(before, r.key, r.now, key);
  }

  // ---- the retry hint ----

  lemma QuotientBelow(a: int, b: int, c: int)
    requires b > 0 && a <= b * c
    ensures a / b <= c
  {
    assert a == b * (a / b) + a % b;
    SameOrderScaled(b, a / b, c);
  }

  lemma SameOrderScaled(b: int, x: int, y: int)
    requires b > 0
    ensures x <= y <==> b * x <= b * y
  {
    assert b * y - b * x == b * (y - x);
    if x <= y {
      assert b * (y - x) >= 0;
    } else {
      assert b * (x - y) > 0;
    }
  }

  lemma QuotientAbove(a: int, b: int)
    requires b > 0
    ensures a < b * (a / b + 1)
    ensures b * (a / b) <= a
    ensures b * (a / b) == a <==> a % b == 0
  {
    assert a == b * (a / b) + a % b;
    assert b * (a / b + 1) == b * (a / b) + b;
  }

  /** What a client is told: a new key that finds room is admitted, an admission comes with no hint, and a refusal with
      one between a second and a minute. */
  lemma Replies(spec: RateSpec, maxBuckets: int, l: Limiter, r: Request, clock: Time)
    requires ValidSpec(spec) && Sound(spec, l, clock) && clock <= r.now && Faithful(maxBuckets, l, r)
    ensures var served := Serve(spec, maxBuckets, l, r);
            var (allowed, hint) := Reply(served.decision);
            && (r.key !in Swept(l, r.now).buckets && r.key in served.limiter.buckets ==> allowed)
            && (allowed ==> hint == 0 && r.key in served.limiter.buckets)
            && (!allowed ==> SECOND <= hint <= MINUTE)
  {
    hide Serve, Faithful, Capacity, Available, Swept;
    ServeOwn(spec, maxBuckets, l, r, clock);
    FreshTokens(spec, r.now);
    if Kept(l, r) && Take(spec, l.buckets[r.key].tokens, r.now).decision.Limited? {
      KeptIsSound(spec, l, r.key, clock);
      RetryHintInRange(spec, l.buckets[r.key].tokens, r.now);
    }
  }

  /** The first request of all is admitted. */
  lemma FirstRequestIsAdmitted(spec: RateSpec, maxBuckets: int, key: string, now: Time)
    requires ValidSpec(spec)
    ensures Reply(Serve(spec, maxBuckets, EMPTY, Request(key, now, None)).decision) == (true, 0)
  {
    hide Capacity, Available, Take;
    FreshTokens(spec, now);
  }

  /** The hint lies between a second and a minute. */
  lemma RetryHintInRange(spec: RateSpec, t: Tokens, now: Time)
    requires ValidSpec(spec) && TokensSound(spec, t, now)
    requires Take(spec, t, now).decision.Limited?
    ensures SECOND <= Take(spec, t, now).decision.retry <= MINUTE
  {
    hide Available;
    AvailableBounds(spec, t, now);
    var available := Available(spec, t, now);
    RefillIsSlow(spec);
    QuotientBelow(spec.window - if available < 0 then 0 else available, spec.requests, MINUTE);
  }

  /** When a bucket that refused at `now` will admit: as soon as less than a nanosecond's refill is missing, and from
      then on. */
  lemma AdmitsOnceRefilled(spec: RateSpec, t: Tokens, now: Time, wait: Duration)
    requires ValidSpec(spec) && TokensSound(spec, t, now) && wait >= 0
    requires Take(spec, t, now).decision.Limited?
    ensures Take(spec, t, now).tokens == t
    ensures Take(spec, t, now + wait).decision.Allowed?
            <==> spec.window - Available(spec, t, now) < spec.requests * (wait + 1)
  {
    hide Capacity;
    CapacityHoldsAToken(spec);
    RefillAdds(spec, now - t.last, wait);
    OneMore(spec.requests, wait);
  }

  lemma OneMore(a: int, n: int)
    ensures a * (n + 1) == a * n + a
  {
  }

  /** Waiting longer than the hint always suffices. The hint alone suffices too, unless the bucket is in debt, the debt
      and the part of a nanosecond that the hint rounded away make up a whole one, and the hint is not the one-second
      minimum. */
  lemma RetryHintWorks(spec: RateSpec, t: Tokens, now: Time, wait: Duration)
    requires ValidSpec(spec) && TokensSound(spec, t, now)
    requires Take(spec, t, now).decision.Limited?
    ensures var hint := Take(spec, t, now).decision.retry;
            var available := Available(spec, t, now);
            && (wait > hint ==> Take(spec, t, now + wait).decision.Allowed?)
            && (Take(spec, t, now + hint).decision.Limited? <==>
                  available < 0 && spec.window % spec.requests - available >= spec.requests
                  && spec.window / spec.requests >= SECOND)
  {
    var available := Available(spec, t, now);
    RetryHintIsQuotient(spec, t, now);
    AvailableBounds(spec, t, now);
    var hint := Take(spec, t, now).decision.retry;
    hide Available, Take, RetryHint, ValidSpec, Capacity;
    AdmitsOnceRefilled(spec, t, now, hint);
    HintCovers(spec.window, spec.requests, available, hint, hint);
    TakeDecides(spec, t, now + hint);
    if wait > hint {
      AdmitsOnceRefilled(spec, t, now, wait);
      HintCovers(spec.window, spec.requests, available, hint, wait);
    }
  }

  lemma HintCovers(window: int, requests: int, available: int, hint: Duration, wait: Duration)
    requires requests > 0 && -requests < available && wait >= hint
    requires var q := (window - if available < 0 then 0 else available) / requests; hint == if q < SECOND then SECOND
             else q
    ensures wait > hint ==> window - available < requests * (wait + 1)
    ensures window - available >= requests * (hint + 1) <==>
              available < 0 && window % requests - available >= requests && window / requests >= SECOND
  {
    var needed := window - if available < 0 then 0 else available;
    var q := needed / requests;
    assert needed == requests * q + needed % requests;
    OneMore(requests, q);
    OneMore(requests, q + 1);
    MultipleGrows(requests, q + 1, hint + 1);
    if wait > hint {
      MultipleGrows(requests, q + 2, wait + 1);
    }
    if q < SECOND {
      MultipleGrows(requests, q + 2, hint + 1);
    }
  }

  lemma TakeDecides(spec: RateSpec, t: Tokens, now: Time)
    requires spec.requests > 0
    ensures Take(spec, t, now).decision.Limited? <==> !Take(spec, t, now).decision.Allowed?
  {
  }

  /** A hint that falls short: thirteen requests in ten minutes with a burst of one. The second admission comes after
      the 46153846153 nanoseconds that refill the bucket up to eleven thirteenths of a nanosecond, and leaves that as a
      debt. The hint of the refusal right after it is as long, and again leaves eleven thirteenths missing. */
  lemma HintFallsShort(now: Time)
    requires now > 0
    ensures var spec := RateSpec(13, 10 * MINUTE, 1);
            var first := Take(spec, FullTokens(spec), now);
            var later := now + 46153846153;
            var second := Take(spec, first.tokens, later);
            var third := Take(spec, second.tokens, later);
            && ValidSpec(spec) && first.decision.Allowed? && second.decision.Allowed? && third.decision.Limited?
            && Take(spec, third.tokens, later + third.decision.retry).decision.Limited?
  {
  }

  lemma RetryHintIsQuotient(spec: RateSpec, t: Tokens, now: Time)
    requires ValidSpec(spec) && TokensSound(spec, t, now)
    requires Take(spec, t, now).decision.Limited?
    ensures spec.requests > 0
    ensures var available := Available(spec, t, now);
            var q := (spec.window - if available < 0 then 0 else available) / spec.requests;
            Take(spec, t, now).decision.retry == if q < SECOND then SECOND else q
  {
    hide Available;
  }

  function ClockAfter(requests: seq<Request>, clock: Time): Time {
    if requests == [] then clock else requests[|requests| - 1].now
  }

  /** Requests of other keys leave the bucket of a key as it is, or drop it. */
  lemma {:induction false} OthersLeaveIt(spec: RateSpec, maxBuckets: int, l: Limiter, others: seq<Request>,
                                         clock: Time, key: string)
    requires ValidSpec(spec) && Sound(spec, l, clock) && Possible(spec, maxBuckets, l, others, clock)
    requires forall i :: 0 <= i < |others| ==> others[i].key != key
    ensures var after := After(spec, maxBuckets, l, others);
            && Sound(spec, after, ClockAfter(others, clock)) && clock <= ClockAfter(others, clock)
            && (key in after.buckets ==> key in l.buckets && after.buckets[key] == l.buckets[key])
    decreases |others|
  {
    hide Serve, Faithful, Sound, Capacity;
    if others != [] {
      ServeKeeps(spec, maxBuckets, l, others[0], clock);
      ServeKeepsOthers(spec, maxBuckets, l, others[0], clock, key);
      OthersLeaveIt(spec, maxBuckets, Serve(spec, maxBuckets, l, others[0]).limiter, others[1..], others[0].now, key);
    }
  }

  /** A client that was refused and waits longer than its hint is admitted, whatever others do meanwhile; only where its
      bucket was dropped in between can it still be turned away, and then for want of room. */
  lemma HintIsHonoured(spec: RateSpec, maxBuckets: int, l: Limiter, clock: Time, r: Request, others: seq<Request>,
                       again: Request)
    requires ValidSpec(spec) && Sound(spec, l, clock) && clock <= r.now && Faithful(maxBuckets, l, r)
    requires var served := Serve(spec, maxBuckets, l, r);
             && !Reply(served.decision).0 && r.key in served.limiter.buckets
                && again.now > r.now + Reply(served.decision).1
             && Possible(spec, maxBuckets, served.limiter, others, r.now)
             && ClockAfter(others, r.now) <= again.now
                && Faithful(maxBuckets, After(spec, maxBuckets, served.limiter, others), again)
    requires again.key == r.key && forall i :: 0 <= i < |others| ==> others[i].key != r.key
    ensures var before := After(spec, maxBuckets, Serve(spec, maxBuckets, l, r).limiter, others);
            var decision := Serve(spec, maxBuckets, before, again).decision;
            if Kept(before, again) then Reply(decision) == (true, 0)
            else Reply(decision) == (true, 0) || (decision.Saturated? && Reply(decision) == (false, SECOND))
  {
    hide Serve, Faithful, Sound, Capacity, Possible, After, Kept, Take;
    var served := Serve(spec, maxBuckets, l, r);
    var before := After(spec, maxBuckets, served.limiter, others);
    ServeOwn(spec, maxBuckets, l, r, clock);
    ServeKeeps(spec, maxBuckets, l, r, clock);
    OthersLeaveIt(spec, maxBuckets, served.limiter, others, r.now, r.key);
    ServeOwn(spec, maxBuckets, before, again, ClockAfter(others, r.now));
    FreshTokens(spec, r.now);
    FreshTokens(spec, again.now);
    if Kept(before, again) {
      var t := l.buckets[r.key].tokens;
      assert TokensSound(spec, t, r.now) by { KeptIsSound(spec, l, r.key, clock); }
      RetryHintWorks(spec, t, r.now, again.now - r.now);
      AdmitsOnceRefilled(spec, t, r.now, 0);
    }
  }

  lemma KeptIsSound(spec: RateSpec, l: Limiter, key: string, clock: Time)
    requires Sound(spec, l, clock) && key in l.buckets
    ensures TokensSound(spec, l.buckets[key].tokens, clock)
  {
  }

  // ---- the admission bound ----

  /** How many of the requests of `key` between `from` and `to` are told that they may pass. */
  function Admitted(spec: RateSpec, maxBuckets: int, l: Limiter, requests: seq<Request>, key: string, from: Time,
                    to: Time): nat
    requires spec.requests > 0
    decreases |requests|
  {
    if requests == [] then 0
    else
      var r := requests[0];
      var served := Serve(spec, maxBuckets, l, r);
      (if r.key == key && from <= r.now <= to && Reply(served.decision).0 then 1 else 0)
      + Admitted(spec, maxBuckets, served.limiter, requests[1..], key, from, to)
  }

  /** What one life of a bucket can give besides what is refilled: its capacity, and the debt that its last admission
      may leave behind. */
  function Allowance(spec: RateSpec): int {
    Capacity(spec) + spec.requests - 1
  }

  /** The books kept on `key` since `from`: `count` admissions so far, out of at most `lives` successive buckets, the
      latest of them begun at `birth`. */
  ghost predicate Books(spec: RateSpec, l: Limiter, key: string, from: Time, clock: Time, count: nat, lives: nat,
                        birth: Time) {
    count == 0 ||
    (&& lives >= 1
     && from + (lives - 1) * MINUTE <= birth <= clock
     && if key in l.buckets then
          var b := l.buckets[key];
          && birth <= b.lastSeen && from <= b.tokens.last
          && spec.window * count + b.tokens.level + spec.requests - 1
             <= Allowance(spec) * lives + Refill(spec, b.tokens.last - from)
        else
          && birth + MINUTE <= clock
          && spec.window * count <= Allowance(spec) * lives + Refill(spec, clock - from))
  }

  /** A bucket of another key, or none, was served. */
  lemma BooksOfOthers(spec: RateSpec, maxBuckets: int, l: Limiter, r: Request, clock: Time,
                      key: string, from: Time, count: nat, lives: nat, birth: Time)
    requires ValidSpec(spec) && Sound(spec, l, clock) && clock <= r.now && Faithful(maxBuckets, l, r)
    requires Books(spec, l, key, from, clock, count, lives, birth) && from <= clock
    requires key != r.key || Serve(spec, maxBuckets, l, r).decision.Saturated?
    ensures Books(spec, Serve(spec, maxBuckets, l, r).limiter, key, from, r.now, count, lives, birth)
  {
    hide Serve, Faithful, Capacity, Refill, Kept, Take;
    TTLIsLong(spec);
    if key != r.key {
      ServeKeepsOthers(spec, maxBuckets, l, r, clock, key);
    } else {
      ServeOwn(spec, maxBuckets, l, r, clock);
    }
    if count > 0 {
      RefillMonotone(spec, clock - from, r.now - from);
      if key in l.buckets {
        RefillMonotone(spec, l.buckets[key].tokens.last - from, r.now - from);
      }
    }
  }

  /** The bucket of `key` itself was served: either the same life goes on, or a new one begins a minute or more
      later. */
  lemma BooksOfOwn(spec: RateSpec, maxBuckets: int, l: Limiter, r: Request, clock: Time,
                   from: Time, count: nat, lives: nat, birth: Time) returns (lives': nat, birth': Time)
    requires ValidSpec(spec) && Sound(spec, l, clock) && clock <= r.now && Faithful(maxBuckets, l, r)
    requires Books(spec, l, r.key, from, clock, count, lives, birth)
    requires from <= r.now && (count > 0 ==> from <= clock)
    requires !Serve(spec, maxBuckets, l, r).decision.Saturated?
    ensures var served := Serve(spec, maxBuckets, l, r);
            var count' := if served.decision.Allowed? then count + 1 else count;
            Books(spec, served.limiter, r.key, from, r.now, count', lives', birth')
  {
    hide Serve, Faithful, Capacity, Refill, Kept, Available;
    var served := Serve(spec, maxBuckets, l, r);
    ServeOwn(spec, maxBuckets, l, r, clock);
    TTLIsLong(spec);
    FreshTokens(spec, r.now);
    RefillMonotone(spec, 0, r.now - from);
    if count == 0 {
      lives', birth' := 1, r.now;
      var tokens := if Kept(l, r) then l.buckets[r.key].tokens else FullTokens(spec);
      AvailableBounds(spec, tokens, r.now);
    } else if Kept(l, r) {
      lives', birth' := lives, birth;
      var t := l.buckets[r.key].tokens;
      AvailableBounds(spec, t, r.now);
      RefillAdds(spec, t.last - from, r.now - t.last);
      OneMore(spec.window, count);
    } else {
      lives', birth' := lives + 1, r.now;
      if r.key in l.buckets {
        RefillMonotone(spec, l.buckets[r.key].tokens.last - from, r.now - from);
      } else {
        RefillMonotone(spec, clock - from, r.now - from);
      }
      OneMore(spec.window, count);
      OneMore(Allowance(spec), lives);
    }
  }

  lemma BooksBalance(spec: RateSpec, l: Limiter, key: string, from: Time, to: Time, clock: Time, count: nat,
                     lives: nat, birth: Time)
    requires ValidSpec(spec) && Sound(spec, l, clock) && from <= to
    requires Books(spec, l, key, from, clock, count, lives, birth) && (count > 0 ==> clock <= to)
    ensures spec.window * count <= Allowance(spec) * ((to - from) / MINUTE + 1) + Refill(spec, to - from)
  {
    hide Capacity, Refill;
    CapacityHoldsAToken(spec);
    RefillMonotone(spec, 0, to - from);
    if count > 0 {
      LivesAreSpaced(lives, from, to);
      MultipleGrows(Allowance(spec), lives, (to - from) / MINUTE + 1);
      if key in l.buckets {
        RefillMonotone(spec, l.buckets[key].tokens.last - from, to - from);
      } else {
        RefillMonotone(spec, clock - from, to - from);
      }
    } else {
      MultipleGrows(Allowance(spec), 0, (to - from) / MINUTE + 1);
    }
  }

  lemma LivesAreSpaced(lives: nat, from: Time, to: Time)
    requires from + (lives - 1) * MINUTE <= to
    ensures lives <= (to - from) / MINUTE + 1
  {
  }

  lemma {:induction false} NothingAfterwards(spec: RateSpec, maxBuckets: int, l: Limiter, requests: seq<Request>,
                                             clock: Time,
                                             key: string, from: Time, to: Time)
    requires spec.requests > 0 && Possible(spec, maxBuckets, l, requests, clock) && to < clock
    ensures Admitted(spec, maxBuckets, l, requests, key, from, to) == 0
    decreases |requests|
  {
    hide Serve, Faithful;
    if requests != [] {
      NothingAfterwards(spec, maxBuckets, Serve(spec, maxBuckets, l, requests[0]).limiter, requests[1..],
                        requests[0].now, key, from, to);
    }
  }

  lemma {:induction false} AdmissionsFromBooks(spec: RateSpec, maxBuckets: int, l: Limiter, requests: seq<Request>,
                                               clock: Time,
                                               key: string, from: Time, to: Time, count: nat, lives: nat, birth: Time)
    requires ValidSpec(spec) && Sound(spec, l, clock) && Possible(spec, maxBuckets, l, requests, clock)
    requires from <= to && Books(spec, l, key, from, clock, count, lives, birth) && (count > 0 ==> from <= clock <= to)
    ensures spec.window * (count + Admitted(spec, maxBuckets, l, requests, key, from, to))
            <= Allowance(spec) * ((to - from) / MINUTE + 1) + Refill(spec, to - from)
    decreases |requests|
  {
    hide Serve, Faithful, Capacity, Refill, Books, Sound;
    if requests == [] {
      BooksBalance(spec, l, key, from, to, clock, count, lives, birth);
    } else if to < requests[0].now {
      BooksBalance(spec, l, key, from, to, clock, count, lives, birth);
      NothingAfterwards(spec, maxBuckets, Serve(spec, maxBuckets, l, requests[0]).limiter, requests[1..],
                        requests[0].now, key, from, to);
    } else {
      var r := requests[0];
      var served := Serve(spec, maxBuckets, l, r);
      ServeKeeps(spec, maxBuckets, l, r, clock);
      if count == 0 && (r.now < from || r.key != key || served.decision.Saturated?) {
        NoBooksYet(spec, served.limiter, key, from, r.now, lives, birth);
        AdmissionsFromBooks(spec, maxBuckets, served.limiter, requests[1..], r.now, key, from, to, 0, lives, birth);
      } else if r.key != key || served.decision.Saturated? {
        BooksOfOthers(spec, maxBuckets, l, r, clock, key, from, count, lives, birth);
        AdmissionsFromBooks(spec, maxBuckets, served.limiter, requests[1..], r.now, key, from, to, count, lives, birth);
      } else {
        var lives', birth' := BooksOfOwn(spec, maxBuckets, l, r, clock, from, count, lives, birth);
        var count' := if served.decision.Allowed? then count + 1 else count;
        AdmissionsFromBooks(spec, maxBuckets, served.limiter, requests[1..], r.now, key, from, to, count', lives',
                            birth');
      }
    }
  }

  lemma NoBooksYet(spec: RateSpec, l: Limiter, key: string, from: Time, clock: Time, lives: nat, birth: Time)
    ensures Books(spec, l, key, from, clock, 0, lives, birth)
  {
  }

  /** On any run, whatever is swept or evicted, one key gets no more in an interval than a burst for every minute begun
      in it, plus what is refilled meanwhile. */
  lemma AdmissionBound(spec: RateSpec, maxBuckets: int, l: Limiter, requests: seq<Request>, clock: Time,
                       key: string, from: Time, to: Time)
    requires ValidSpec(spec) && Sound(spec, l, clock) && Possible(spec, maxBuckets, l, requests, clock) && from <= to
    ensures var n := Admitted(spec, maxBuckets, l, requests, key, from, to);
            spec.window * n <= (spec.burst * spec.window + spec.requests - 1) * ((to - from) / MINUTE + 1)
                               + spec.requests * (to - from)
  {
    AdmissionsFromBooks(spec, maxBuckets, l, requests, clock, key, from, to, 0, 0, 0);
  }
}
