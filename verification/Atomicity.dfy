/** Whole operations among the interleavings: the converse of the linearization. */
module Atomicity {
  import opened Base
  import opened Tickets
  import opened NoteStore
  import opened Traces
  import opened Interleavings
  import opened Linearization

  /** When request `rq` can perform a whole operation. Starts of the process come before the requests in flight. */
  ghost predicate MayBegin(settings: Settings, w: World, rq: nat, op: Operation) {
    rq !in w.pending &&
    match op
    case Issue(now, id, _) => w.clock <= now && id !in w.issued
    case Create(req) =>
      && w.clock <= req.verifiedAt <= req.createdAt <= req.cleanedAt
      && (GetRootKey(w.store.rootKey).Ok? ==>
            Unforged(settings.crypto, settings.json, GetRootKey(w.store.rootKey).value.secret, w.issued, req.ticket))
    case Open(_, _, now, _) => w.clock <= now
    case Sweep(now, _) => w.clock <= now
    case Restart(_) => false
  }

  // ---- the steps of one operation ----

  function Whole(settings: Settings, s: Store, rq: nat, op: Operation): seq<Action> {
    match op
    case Issue(now, id, token) => [Advance(now), StartTicket(rq), DrawTicket(rq, id, token)]
    case Create(req) =>
      var accepted := Checked(settings, s.rootKey, req);
      [Advance(req.verifiedAt), Verify(rq, req)]
      + if accepted.Err? then [] else FromVerified(s, rq, req, accepted.value)
    case Open(id, token, now, outcome) => [Advance(now), StartOpen(rq, id, token), CommitOpen(rq, outcome)]
    case Sweep(now, outcome) => [Advance(now), StartCleanup(rq), CommitCleanup(rq, outcome)]
    case Restart(_) => []
  }

  function FromVerified(s: Store, rq: nat, req: CreateRequest, accepted: Accepted): seq<Action> {
    var admitted := Stamped(req, accepted);
    [Advance(req.createdAt), ReadClock(rq)] + if admitted.Err? then [] else FromReady(s, rq, req, admitted.value)
  }

  function FirstAttempt(s: Store, req: CreateRequest, a: Admitted): Step<()> {
    InsertStep(s, a.id, a.metadata, req.payload, a.ticketExp, req.first)
  }

  function SecondAttempt(settings: Settings, s: Store, req: CreateRequest, a: Admitted): Step<()> {
    InsertStep(CleanedUp(settings.maxLifetime, s, req.cleanedAt), a.id, a.metadata, req.payload, a.ticketExp,
               req.second)
  }

  function FromReady(s: Store, rq: nat, req: CreateRequest, a: Admitted): seq<Action> {
    [Insert(rq)] + if FirstAttempt(s, req, a).answer != Err(MaxSizeReached) then [] else FromFull(rq, req)
  }

  function FromFull(rq: nat, req: CreateRequest): seq<Action> {
    [Advance(req.cleanedAt), StartClearing(rq), Clear(rq)] + if req.cleaning != Commits then [] else [Insert(rq)]
  }

  /** The actions can be taken, lead to these contents and these requests in flight, and settle these calls. */
  ghost predicate Does(settings: Settings, w: World, actions: seq<Action>, s: Store, pending: map<nat, Pending>,
                       calls: seq<Call>)
  {
    && Run(settings, w, actions)
    && Final(settings, w, actions).store == s && Final(settings, w, actions).pending == pending
    && History(settings, w, actions) == calls
  }

  lemma DoesNothing(settings: Settings, w: World)
    ensures Does(settings, w, [], w.store, w.pending, [])
  {
  }

  lemma DoesFirst(settings: Settings, w: World, a: Action, rest: seq<Action>, s: Store, pending: map<nat, Pending>,
                  calls: seq<Call>)
    requires Enabled(settings, w, a) && Does(settings, Apply(settings, w, a), rest, s, pending, calls)
    ensures Does(settings, w, [a] + rest, s, pending, Settled(settings, w, a) + calls)
  {
    hide Enabled, Apply, Settled;
    assert ([a] + rest)[1..] == rest;
  }

  lemma DoesQuietly(settings: Settings, w: World, a: Action, rest: seq<Action>, s: Store, pending: map<nat, Pending>,
                    calls: seq<Call>)
    requires Enabled(settings, w, a) && Settled(settings, w, a) == []
    requires Does(settings, Apply(settings, w, a), rest, s, pending, calls)
    ensures Does(settings, w, [a] + rest, s, pending, calls)
  {
    hide Enabled, Apply, Settled, Does;
    DoesFirst(settings, w, a, rest, s, pending, calls);
    assert [] + calls == calls;
  }

  /** The clock moves on to `now` first. */
  lemma DoesLater(settings: Settings, w: World, now: Time, rest: seq<Action>, s: Store, pending: map<nat, Pending>,
                  calls: seq<Call>)
    requires w.clock <= now && Does(settings, w.(clock := now), rest, s, pending, calls)
    ensures Does(settings, w, [Advance(now)] + rest, s, pending, calls)
  {
    hide Does;
    DoesQuietly(settings, w, Advance(now), rest, s, pending, calls);
  }

  lemma DoesLast(settings: Settings, w: World, a: Action)
    requires Enabled(settings, w, a)
    ensures Does(settings, w, [a], Apply(settings, w, a).store, Apply(settings, w, a).pending, Settled(settings, w, a))
  {
    hide Enabled, Apply, Settled;
    DoesNothing(settings, Apply(settings, w, a));
    DoesFirst(settings, w, a, [], Apply(settings, w, a).store, Apply(settings, w, a).pending, []);
    assert [a] + [] == [a];
    assert Settled(settings, w, a) + [] == Settled(settings, w, a);
  }

  /** The clock is read at `now` and the request begins. */
  lemma DoesThree(settings: Settings, w: World, now: Time, second: Action, third: Action)
    requires w.clock <= now
    requires var v := w.(clock := now);
             Enabled(settings, v, second) && Settled(settings, v, second) == []
             && Enabled(settings, Apply(settings, v, second), third)
    ensures var v := Apply(settings, w.(clock := now), second);
            Does(settings, w, [Advance(now), second, third], Apply(settings, v, third).store,
                 Apply(settings, v, third).pending, Settled(settings, v, third))
  {
    var u := w.(clock := now);
    var v := Apply(settings, u, second);
    var calls := Settled(settings, v, third);
    var end := Apply(settings, v, third);
    hide Does, Run, Final, History;
    hide Settled;
    DoesLast(settings, v, third);
    DoesQuietly(settings, u, second, [third], end.store, end.pending, calls);
    DoesLater(settings, w, now, [second] + [third], end.store, end.pending, calls);
    assert [Advance(now)] + ([second] + [third]) == [Advance(now), second, third];
  }

  // ---- the operations ----

  lemma IssueDoes(settings: Settings, w: World, rq: nat, now: Time, id: NoteID, token: BurnToken)
    requires MayBegin(settings, w, rq, Issue(now, id, token))
    ensures var served := Serve(settings, w.store, Issue(now, id, token));
            Does(settings, w, Whole(settings, w.store, rq, Issue(now, id, token)), served.store, w.pending,
                 [Call(Issue(now, id, token), served.answer)])
  {
    hide Does, Tickets.CreateTicket;
    DoesThree(settings, w, now, StartTicket(rq), DrawTicket(rq, id, token));
    assert w.pending[rq := TicketAt(now)] - {rq} == w.pending;
  }

  lemma OpenDoes(settings: Settings, w: World, rq: nat, id: NoteID, token: BurnToken, now: Time, outcome: Outcome)
    requires MayBegin(settings, w, rq, Open(id, token, now, outcome))
    ensures var served := Serve(settings, w.store, Open(id, token, now, outcome));
            Does(settings, w, Whole(settings, w.store, rq, Open(id, token, now, outcome)), served.store, w.pending,
                 [Call(Open(id, token, now, outcome), served.answer)])
  {
    hide Does, OpenedBy;
    DoesThree(settings, w, now, StartOpen(rq, id, token), CommitOpen(rq, outcome));
    assert w.pending[rq := OpeningAt(id, token, now)] - {rq} == w.pending;
  }

  lemma SweepDoes(settings: Settings, w: World, rq: nat, now: Time, outcome: Outcome)
    requires MayBegin(settings, w, rq, Sweep(now, outcome))
    ensures var served := Serve(settings, w.store, Sweep(now, outcome));
            Does(settings, w, Whole(settings, w.store, rq, Sweep(now, outcome)), served.store, w.pending,
                 [Call(Sweep(now, outcome), served.answer)])
  {
    hide Does, CleanedUp;
    DoesThree(settings, w, now, StartCleanup(rq), CommitCleanup(rq, outcome));
    assert w.pending[rq := CleaningAt(now)] - {rq} == w.pending;
  }

  /** One attempt, if it settles the creation. */
  lemma AttemptDoes(settings: Settings, w: World, rq: nat, p: Pending)
    requires p.Ready? && rq in w.pending && w.pending[rq] == p
    requires var step := InsertStep(w.store, p.admitted.id, p.admitted.metadata, p.req.payload, p.admitted.ticketExp,
                                    OutcomeOf(p));
             step.answer == Err(MaxSizeReached) ==> p.retried
    ensures var step := InsertStep(w.store, p.admitted.id, p.admitted.metadata, p.req.payload, p.admitted.ticketExp,
                                   OutcomeOf(p));
            Does(settings, w, [Insert(rq)], step.store, w.pending - {rq},
                 [Call(Create(p.req), Creating(Created(step.answer, p.admitted.id)))])
  {
    hide Does;
    DoesLast(settings, w, Insert(rq));
  }

  lemma FullDoes(settings: Settings, w: World, rq: nat, req: CreateRequest, a: Admitted)
    requires rq in w.pending && w.pending[rq] == Full(req, a) && w.clock <= req.cleanedAt
    ensures req.cleaning != Commits ==> Does(settings, w, FromFull(rq, req), w.store, w.pending - {rq}, [])
    ensures req.cleaning == Commits ==>
              var second := SecondAttempt(settings, w.store, req, a);
              Does(settings, w, FromFull(rq, req), second.store, w.pending - {rq},
                   [Call(Create(req), Creating(Created(second.answer, a.id)))])
  {
    hide Does, CleanedUp, InsertStep, Insertion;
    var u := w.(clock := req.cleanedAt);
    var v := Apply(settings, u, StartClearing(rq));
    var t := Apply(settings, v, Clear(rq));
    if req.cleaning != Commits {
      DoesThree(settings, w, req.cleanedAt, StartClearing(rq), Clear(rq));
      assert w.pending[rq := Clearing(req, a, req.cleanedAt)] - {rq} == w.pending - {rq};
      assert FromFull(rq, req) == [Advance(req.cleanedAt), StartClearing(rq), Clear(rq)];
    } else {
      var second := SecondAttempt(settings, w.store, req, a);
      var calls := [Call(Create(req), Creating(Created(second.answer, a.id)))];
      AttemptDoes(settings, t, rq, Ready(req, a, true));
      assert t.pending - {rq} == w.pending - {rq};
      DoesQuietly(settings, v, Clear(rq), [Insert(rq)], second.store, w.pending - {rq}, calls);
      DoesQuietly(settings, u, StartClearing(rq), [Clear(rq)] + [Insert(rq)], second.store, w.pending - {rq}, calls);
      DoesLater(settings, w, req.cleanedAt, [StartClearing(rq)] + ([Clear(rq)] + [Insert(rq)]), second.store,
                w.pending - {rq}, calls);
      assert FromFull(rq, req) == [Advance(req.cleanedAt)] + ([StartClearing(rq)] + ([Clear(rq)] + [Insert(rq)]));
    }
  }

  /** What becomes of a creation that passed its checks. */
  function Attempts(settings: Settings, s: Store, req: CreateRequest, a: Admitted): Step<NoteID> {
    var first := FirstAttempt(s, req, a);
    if first.answer != Err(MaxSizeReached) then Step(first.store, Created(first.answer, a.id))
    else if req.cleaning != Commits then Step(s, Err(Reported(req.cleaning).error))
    else
      var second := SecondAttempt(settings, s, req, a);
      Step(second.store, Created(second.answer, a.id))
  }

  lemma OnlyTheFileIsFull(s: Store, req: CreateRequest, a: Admitted)
    requires FirstAttempt(s, req, a).answer == Err(MaxSizeReached)
    ensures Inserted(s, a.id, a.metadata, req.payload, a.ticketExp).Ok? && req.first == FillsUp
  {
  }

  lemma ReadyDoes(settings: Settings, w: World, rq: nat, req: CreateRequest, a: Admitted)
    requires rq in w.pending && w.pending[rq] == Ready(req, a, false) && w.clock <= req.cleanedAt
    ensures var done := Attempts(settings, w.store, req, a);
            Does(settings, w, FromReady(w.store, rq, req, a), done.store, w.pending - {rq},
                 [Call(Create(req), Creating(done.answer))])
  {
    hide Does, CleanedUp, Inserted;
    var first := FirstAttempt(w.store, req, a);
    if first.answer != Err(MaxSizeReached) {
      AttemptDoes(settings, w, rq, Ready(req, a, false));
      assert [Insert(rq)] + [] == [Insert(rq)];
    } else {
      var done := Attempts(settings, w.store, req, a);
      var v := Apply(settings, w, Insert(rq));
      OnlyTheFileIsFull(w.store, req, a);
      FullDoes(settings, v, rq, req, a);
      assert v.pending - {rq} == w.pending - {rq};
      var calls := if req.cleaning != Commits then [] else [Call(Create(req), Creating(done.answer))];
      DoesFirst(settings, w, Insert(rq), FromFull(rq, req), done.store, w.pending - {rq}, calls);
      assert Settled(settings, w, Insert(rq)) + calls == [Call(Create(req), Creating(done.answer))];
    }
  }

  lemma AttemptsAreCreate(settings: Settings, s: Store, req: CreateRequest)
    ensures var admitted := Admit(settings, s.rootKey, req);
            CreateStep(settings, s, req)
            == if admitted.Err? then Step(s, Err(admitted.error)) else Attempts(settings, s, req, admitted.value)
  {
    hide Admit, CleanedUp, Inserted;
  }

  lemma VerifiedDoes(settings: Settings, w: World, rq: nat, req: CreateRequest, accepted: Accepted)
    requires rq in w.pending && w.pending[rq] == Verified(req, accepted)
    requires w.clock <= req.createdAt <= req.cleanedAt
    ensures var stamped := Stamped(req, accepted);
            var done := if stamped.Err? then Step(w.store, Err(stamped.error))
                        else Attempts(settings, w.store, req, stamped.value);
            Does(settings, w, FromVerified(w.store, rq, req, accepted), done.store, w.pending - {rq},
                 [Call(Create(req), Creating(done.answer))])
  {
    hide Does, Attempts, Stamped, FromReady;
    var u := w.(clock := req.createdAt);
    var stamped := Stamped(req, accepted);
    assert CreatedNow(u, req) == req;
    if stamped.Err? {
      DoesLast(settings, u, ReadClock(rq));
      var calls := [Call(Create(req), Creating(Err(stamped.error)))];
      DoesLater(settings, w, req.createdAt, [ReadClock(rq)], w.store, w.pending - {rq}, calls);
      assert FromVerified(w.store, rq, req, accepted) == [Advance(req.createdAt)] + [ReadClock(rq)];
    } else {
      var done := Attempts(settings, w.store, req, stamped.value);
      var calls := [Call(Create(req), Creating(done.answer))];
      var v := Apply(settings, u, ReadClock(rq));
      var rest := FromReady(w.store, rq, req, stamped.value);
      ReadyDoes(settings, v, rq, req, stamped.value);
      assert v.pending - {rq} == w.pending - {rq};
      DoesQuietly(settings, u, ReadClock(rq), rest, done.store, w.pending - {rq}, calls);
      DoesLater(settings, w, req.createdAt, [ReadClock(rq)] + rest, done.store, w.pending - {rq}, calls);
      assert FromVerified(w.store, rq, req, accepted) == [Advance(req.createdAt)] + ([ReadClock(rq)] + rest);
    }
  }

  lemma CreateDoes(settings: Settings, w: World, rq: nat, req: CreateRequest)
    requires MayBegin(settings, w, rq, Create(req))
    ensures var served := Serve(settings, w.store, Create(req));
            Does(settings, w, Whole(settings, w.store, rq, Create(req)), served.store, w.pending,
                 [Call(Create(req), served.answer)])
  {
    hide Does, Attempts, Stamped, Checked, FromVerified, Unforged, CreateStep, GetRootKey;
    var u := w.(clock := req.verifiedAt);
    var accepted := Checked(settings, w.store.rootKey, req);
    AttemptsAreCreate(settings, w.store, req);
    assert VerifiedNow(u, req) == req;
    if accepted.Err? {
      DoesLast(settings, u, Verify(rq, req));
      var calls := [Call(Create(req), Creating(Err(accepted.error)))];
      DoesLater(settings, w, req.verifiedAt, [Verify(rq, req)], w.store, w.pending, calls);
      assert Whole(settings, w.store, rq, Create(req)) == [Advance(req.verifiedAt)] + [Verify(rq, req)];
    } else {
      var done := CreateStep(settings, w.store, req);
      var calls := [Call(Create(req), Creating(done.answer))];
      var v := Apply(settings, u, Verify(rq, req));
      var rest := FromVerified(w.store, rq, req, accepted.value);
      VerifiedDoes(settings, v, rq, req, accepted.value);
      assert v.pending - {rq} == w.pending;
      DoesQuietly(settings, u, Verify(rq, req), rest, done.store, w.pending, calls);
      DoesLater(settings, w, req.verifiedAt, [Verify(rq, req)] + rest, done.store, w.pending, calls);
      assert Whole(settings, w.store, rq, Create(req)) == [Advance(req.verifiedAt)] + ([Verify(rq, req)] + rest);
    }
  }

  /** Every whole operation is a run of steps: with nothing else in between, they leave the contents that the operation
      leaves, no request in flight, and settle just this call, with the operation's answer. */
  lemma OperationsAreRuns(settings: Settings, w: World, rq: nat, op: Operation)
    requires MayBegin(settings, w, rq, op)
    ensures var served := Serve(settings, w.store, op);
            Does(settings, w, Whole(settings, w.store, rq, op), served.store, w.pending, [Call(op, served.answer)])
  {
    hide Does, Whole, Serve, MayBegin;
    match op
    case Issue(now, id, token) => IssueDoes(settings, w, rq, now, id, token);
    case Create(req) => CreateDoes(settings, w, rq, req);
    case Open(id, token, now, outcome) => OpenDoes(settings, w, rq, id, token, now, outcome);
    case Sweep(now, outcome) => SweepDoes(settings, w, rq, now, outcome);
    case Restart(_) => NoRestart(settings, w, rq, op);
  }

  lemma NoRestart(settings: Settings, w: World, rq: nat, op: Operation)
    requires MayBegin(settings, w, rq, op)
    ensures !op.Restart?
  {
  }

  // ---- whole runs ----

  ghost predicate MayRun(settings: Settings, w: World, rq: nat, ops: seq<Operation>)
    decreases |ops|
  {
    ops == [] ||
    var actions := Whole(settings, w.store, rq, ops[0]);
    && MayBegin(settings, w, rq, ops[0])
    && Run(settings, w, actions) && MayRun(settings, Final(settings, w, actions), rq, ops[1..])
  }

  /** The actions of whole operations, one after the other. */
  ghost function WholeRun(settings: Settings, w: World, rq: nat, ops: seq<Operation>): seq<Action>
    requires MayRun(settings, w, rq, ops)
    decreases |ops|
  {
    if ops == [] then []
    else
      var actions := Whole(settings, w.store, rq, ops[0]);
      actions + WholeRun(settings, Final(settings, w, actions), rq, ops[1..])
  }

  lemma {:induction false} DoesBoth(settings: Settings, w: World, a: seq<Action>, b: seq<Action>, s: Store,
                                    pending: map<nat, Pending>, calls: seq<Call>)
    requires Run(settings, w, a) && Does(settings, Final(settings, w, a), b, s, pending, calls)
    ensures Does(settings, w, a + b, s, pending, History(settings, w, a) + calls)
    decreases |a|
  {
    hide Enabled, Apply, Settled;
    if a == [] {
      assert a + b == b && [] + calls == calls;
    } else {
      var next := Apply(settings, w, a[0]);
      DoesBoth(settings, next, a[1..], b, s, pending, calls);
      DoesFirst(settings, w, a[0], a[1..] + b, s, pending, History(settings, next, a[1..]) + calls);
      assert [a[0]] + (a[1..] + b) == a + b;
      assert Settled(settings, w, a[0]) + (History(settings, next, a[1..]) + calls)
             == History(settings, w, a) + calls;
    }
  }

  /** Every run of whole operations is one of steps, with the same contents at its end and, in its history, the same
      operations with the same answers. */
  lemma {:induction false} RunsAreInterleavings(settings: Settings, w: World, rq: nat, ops: seq<Operation>)
    requires MayRun(settings, w, rq, ops)
    ensures var actions := WholeRun(settings, w, rq, ops);
            && Run(settings, w, actions) && Final(settings, w, actions).store == After(settings, w.store, ops)
            && Operations(History(settings, w, actions)) == ops
            && Replies(History(settings, w, actions)) == Answers(settings, w.store, ops)
    decreases |ops|
  {
    hide MayBegin, Whole, Enabled, Apply, Settled, Serve;
    if ops != [] {
      var actions := Whole(settings, w.store, rq, ops[0]);
      var served := Serve(settings, w.store, ops[0]);
      OperationsAreRuns(settings, w, rq, ops[0]);
      var next := Final(settings, w, actions);
      RunsAreInterleavings(settings, next, rq, ops[1..]);
      var rest := WholeRun(settings, next, rq, ops[1..]);
      var end := Final(settings, next, rest);
      var calls := History(settings, next, rest);
      DoesBoth(settings, w, actions, rest, end.store, end.pending, calls);
      assert Operations([Call(ops[0], served.answer)] + calls) == [ops[0]] + Operations(calls) == ops;
      assert Replies([Call(ops[0], served.answer)] + calls) == [served.answer] + Replies(calls);
    }
  }
}
