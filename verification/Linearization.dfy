/** Requests in flight against the ledger: every interleaving answers like some order of whole operations. */
module Linearization {
  import opened Base
  import opened Tickets
  import opened NoteStore
  import opened Traces
  import opened Runs
  import opened Interleavings

  /** A call of the service and what it is answered. */
  datatype Call = Call(op: Operation, answer: Answer)

  // ---- when a call is settled, and how ----

  /** A creation is settled by the transaction that decides it: by the first one, unless that finds the file full and
      the cleanup then commits. (A cleanup that is going to fail answers later, but nothing in between matters to it.)
      */
  function SettledByInsert(w: World, p: Pending): seq<Call>
    requires p.Ready?
  {
    var after := Insertion(w.store, p);
    if after.Err? then [Call(Create(p.req), Creating(Err(after.error)))]
    else match OutcomeOf(p)
      case Commits => [Call(Create(p.req), Creating(Ok(p.admitted.id)))]
      case Fails => [Call(Create(p.req), Creating(Err(IoFailed)))]
      case FillsUp =>
        if p.retried then [Call(Create(p.req), Creating(Err(StorageFull)))]
        else if p.req.cleaning != Commits then [Call(Create(p.req), Creating(Err(Reported(p.req.cleaning).error)))]
        else []
  }

  /** An open is settled by its commit. One that hands out the note did so as of the reading that it made at its start;
      one that does not may have been overtaken by a cleanup that read the clock later, and counts as of its commit. */
  function SettledByOpen(settings: Settings, w: World, p: Pending, outcome: Outcome): seq<Call>
    requires p.OpeningAt?
  {
    var answer := OpenStep(settings, w.store, p.id, p.token, p.now, outcome).answer;
    [Call(Open(p.id, p.token, if answer.Ok? then p.now else w.clock, outcome), Opening(answer))]
  }

  /** The call, if any, that an action settles. */
  ghost function Settled(settings: Settings, w: World, a: Action): seq<Call>
    requires Enabled(settings, w, a)
  {
    match a
    case DrawTicket(rq, id, token) =>
      var now := w.pending[rq].now;
      var ticket := Tickets.CreateTicket(settings.crypto, settings.json, w.store.rootKey, now, id, token);
      [Call(Issue(now, id, token), Issuing(ticket))]
    case Verify(rq, req) =>
      var accepted := Checked(settings, w.store.rootKey, VerifiedNow(w, req));
      if accepted.Err? then [Call(Create(VerifiedNow(w, req)), Creating(Err(accepted.error)))] else []
    case ReadClock(rq) =>
      var req := CreatedNow(w, w.pending[rq].req);
      var admitted := Stamped(req, w.pending[rq].accepted);
      if admitted.Err? then [Call(Create(req), Creating(Err(admitted.error)))] else []
    case Insert(rq) => SettledByInsert(w, w.pending[rq])
    case CommitOpen(rq, outcome) => SettledByOpen(settings, w, w.pending[rq], outcome)
    case CommitCleanup(rq, outcome) => [Call(Sweep(w.pending[rq].now, outcome), Maintaining(Reported(outcome)))]
    case _ => []
  }

  /** All calls of a run, in the order in which they are settled. */
  ghost function History(settings: Settings, w: World, actions: seq<Action>): seq<Call>
    requires Run(settings, w, actions)
    decreases |actions|
  {
    if actions == [] then []
    else Settled(settings, w, actions[0]) + History(settings, Apply(settings, w, actions[0]), actions[1..])
  }

  function Operations(calls: seq<Call>): seq<Operation> {
    seq(|calls|, i requires 0 <= i < |calls| => calls[i].op)
  }

  function Replies(calls: seq<Call>): seq<Answer> {
    seq(|calls|, i requires 0 <= i < |calls| => calls[i].answer)
  }

  /** Insertions that get past their checks do so before their tickets expire. */
  ghost predicate Timely(w: World, a: Action) {
    a.Insert? && a.rq in w.pending && w.pending[a.rq].Ready? && Insertion(w.store, w.pending[a.rq]).Ok? ==>
      w.clock <= w.pending[a.rq].admitted.ticketExp
  }

  ghost predicate TimelyRun(settings: Settings, w: World, actions: seq<Action>)
    requires Run(settings, w, actions)
    decreases |actions|
  {
    actions == []
    || (Timely(w, actions[0]) && TimelyRun(settings, Apply(settings, w, actions[0]), actions[1..]))
  }

  // ---- the simulation ----

  /** What a request in flight has found out is still what the atomic operation would find. */
  ghost predicate Fits(settings: Settings, root: RootKey, p: Pending) {
    match p
    case Verified(req, accepted) => Checked(settings, Some(Parsed(root)), req) == Ok(accepted)
    case Ready(req, admitted, retried) =>
      && Admit(settings, Some(Parsed(root)), req) == Ok(admitted)
      && (retried ==> req.first == FillsUp && req.cleaning == Commits)
    case Full(req, admitted) => Admit(settings, Some(Parsed(root)), req) == Ok(admitted) && req.first == FillsUp
    case Clearing(req, admitted, _) => Admit(settings, Some(Parsed(root)), req) == Ok(admitted) && req.first == FillsUp
    case _ => true
  }

  ghost predicate AllFit(settings: Settings, root: RootKey, pending: map<nat, Pending>) {
    forall rq :: rq in pending ==> Fits(settings, root, pending[rq])
  }

  ghost predicate Mirrors(settings: Settings, w: World, l: Ledger) {
    && Sound(settings, w)
    && Agree(settings, w.store, l, w.clock)
    && w.issued == l.issued
    && AllFit(settings, l.root, w.pending)
  }

  /** What a step has to show: its call, if it settles one, is answered as by the ledger, and the worlds go on together.
      */
  ghost predicate StepMirrors(settings: Settings, w: World, l: Ledger, a: Action)
    requires Enabled(settings, w, a)
  {
    var calls := Settled(settings, w, a);
    var after := Apply(settings, w, a);
    if calls == [] then Mirrors(settings, after, l)
    else
      && |calls| == 1
      && Record(settings, l, calls[0].op).answer == calls[0].answer
      && Mirrors(settings, after, Record(settings, l, calls[0].op).ledger)
  }

  lemma FirstStartMirrors(settings: Settings, start: Startup)
    requires 0 < start.keysAt <= start.cleanedAt
    requires StartupStep(settings, Store(map[], map[], map[], None), start).answer.Ok?
    ensures var started := StartupStep(settings, Store(map[], map[], map[], None), start).store;
            Mirrors(settings, World(started, start.cleanedAt, map[], map[], multiset{}),
                    Ledger(RootKey(start.keysAt, start.secret), map[], map[], {}))
  {
    hide StartupStep, Sound, Agree;
    StartIsSound(settings, start);
    FirstStartAgrees(settings, start);
  }

  lemma FitsLater(settings: Settings, root: RootKey, pending: map<nat, Pending>, rq: nat, p: Pending)
    requires AllFit(settings, root, pending) && Fits(settings, root, p)
    ensures AllFit(settings, root, pending[rq := p]) && AllFit(settings, root, pending - {rq})
    ensures AllFit(settings, root, map[])
  {
    hide Fits;
  }

  lemma MirrorFacts(settings: Settings, w: World, l: Ledger, rq: nat)
    requires Mirrors(settings, w, l) && rq in w.pending
    ensures PendingSound(settings, w, w.pending[rq]) && Fits(settings, l.root, w.pending[rq])
    ensures w.store.rootKey == Some(Parsed(l.root)) && SoundLedger(settings, l)
  {
    hide IssuedTable, StoreSound, Conserved, Marked, PendingSound, Fits, SoundLedger, NotesAgree, MarkersAgree;
  }

  lemma RootIsTheLedgers(settings: Settings, w: World, l: Ledger)
    requires Mirrors(settings, w, l)
    ensures w.store.rootKey == Some(Parsed(l.root)) && SoundLedger(settings, l)
  {
    hide Sound, AllFit, SoundLedger, NotesAgree, MarkersAgree;
  }

  lemma TicketMirrors(settings: Settings, w: World, l: Ledger, rq: nat, id: NoteID, token: BurnToken)
    requires Laws(settings) && Mirrors(settings, w, l) && Enabled(settings, w, DrawTicket(rq, id, token))
    ensures StepMirrors(settings, w, l, DrawTicket(rq, id, token))
  {
    hide Laws, Sound, SoundLedger, NotesAgree, MarkersAgree, Sealed, MarshalTicket, FreshTicketData, AllFit;
    RootIsTheLedgers(settings, w, l);
    SoundRoot(settings, l);
    ActionKeeps(settings, w, DrawTicket(rq, id, token));
    FitsLater(settings, l.root, w.pending, rq, TicketAt(0));
    var now := w.pending[rq].now;
    var data := FreshTicketData(settings.crypto, l.root.secret, now, id, token);
    FreshTicketTimes(settings.crypto, l.root.secret, now, id, token);
    if JsonTime(now) && JsonTime(now + TICKET_TIMEOUT) {
      NewTicketIsSound(settings, l, now, id, token);
      NewTicketKeepsBuckets(w.store, l, l.(issued := l.issued[id := data]), w.clock);
    }
  }

  lemma VerifyMirrors(settings: Settings, w: World, l: Ledger, rq: nat, req: CreateRequest)
    requires Laws(settings) && Mirrors(settings, w, l) && Enabled(settings, w, Verify(rq, req))
    ensures StepMirrors(settings, w, l, Verify(rq, req))
  {
    hide Laws, Sound, Agree, Checked, Unforged, AllFit;
    RootIsTheLedgers(settings, w, l);
    ActionKeeps(settings, w, Verify(rq, req));
    var accepted := Checked(settings, w.store.rootKey, VerifiedNow(w, req));
    if accepted.Ok? {
      FitsLater(settings, l.root, w.pending, rq, Verified(VerifiedNow(w, req), accepted.value));
    }
  }

  lemma ReadingKeepsCheck(settings: Settings, w: World, root: Option<Stored<RootKey>>, req: CreateRequest)
    ensures Checked(settings, root, CreatedNow(w, req)) == Checked(settings, root, req)
  {
    hide VerifyTicket;
  }

  lemma ReadClockMirrors(settings: Settings, w: World, l: Ledger, rq: nat)
    requires Laws(settings) && Mirrors(settings, w, l) && Enabled(settings, w, ReadClock(rq))
    ensures StepMirrors(settings, w, l, ReadClock(rq))
  {
    hide Laws, Sound, Agree, Checked, Stamped, AllFit;
    MirrorFacts(settings, w, l, rq);
    ActionKeeps(settings, w, ReadClock(rq));
    var p := w.pending[rq];
    ReadingKeepsCheck(settings, w, Some(Parsed(l.root)), p.req);
    var admitted := Stamped(CreatedNow(w, p.req), p.accepted);
    FitsLater(settings, l.root, w.pending, rq, TicketAt(0));
    if admitted.Ok? {
      FitsLater(settings, l.root, w.pending, rq, Ready(CreatedNow(w, p.req), admitted.value, false));
    }
  }

  /** An insertion gets past its checks exactly if its identifier has not made a note. */
  lemma InsertionIsFirst(settings: Settings, w: World, l: Ledger, rq: nat)
    requires Mirrors(settings, w, l) && rq in w.pending && w.pending[rq].Ready? && Timely(w, Insert(rq))
    ensures var p := w.pending[rq];
            && p.admitted.id in l.issued && p.admitted.ticketExp == l.issued[p.admitted.id].exp
            && ValidMetadata(settings.maxLifetime, p.admitted.metadata)
            && Insertion(w.store, p) ==
               if p.admitted.id in l.notes then Err(TicketUnusable) else Ok(Insertion(w.store, p).value)
  {
    hide Sound, ValidMetadata, IssuedTable;
    MirrorFacts(settings, w, l, rq);
    var id := w.pending[rq].admitted.id;
    if id in l.notes {
      NoteHasItsTicket(settings, l, id);
      if w.clock <= l.notes[id].ticketExp {
        SpentTicketIsRefused(settings, w.store, l, id, w.clock);
      }
    }
  }

  lemma InsertMirrors(settings: Settings, w: World, l: Ledger, rq: nat)
    requires Laws(settings) && Mirrors(settings, w, l) && Enabled(settings, w, Insert(rq)) && Timely(w, Insert(rq))
    ensures StepMirrors(settings, w, l, Insert(rq))
  {
    hide Laws, Sound, Agree, Admit, AllFit, Inserted, ValidMetadata;
    MirrorFacts(settings, w, l, rq);
    ActionKeeps(settings, w, Insert(rq));
    InsertionIsFirst(settings, w, l, rq);
    var p := w.pending[rq];
    FitsLater(settings, l.root, w.pending, rq, if p.req.first == FillsUp then Full(p.req, p.admitted) else TicketAt(0));
    if p.admitted.id !in l.notes {
      NewNoteAgrees(settings, w.store, l, p.admitted, p.req.payload, w.clock);
    }
  }

  lemma ClearMirrors(settings: Settings, w: World, l: Ledger, rq: nat)
    requires Laws(settings) && Mirrors(settings, w, l) && Enabled(settings, w, Clear(rq))
    ensures StepMirrors(settings, w, l, Clear(rq))
  {
    hide Laws, Sound, Agree, Admit, AllFit, CleanedUp, StaleNotes;
    MirrorFacts(settings, w, l, rq);
    ActionKeeps(settings, w, Clear(rq));
    var p := w.pending[rq];
    EarlierCleanupAgrees(settings, w.store, l, p.now, w.clock);
    FitsLater(settings, l.root, w.pending, rq, TicketAt(0));
    if p.req.cleaning == Commits {
      FitsLater(settings, l.root, w.pending, rq, Ready(p.req, p.admitted, true));
    }
  }

  lemma StartClearingMirrors(settings: Settings, w: World, l: Ledger, rq: nat)
    requires Laws(settings) && Mirrors(settings, w, l) && Enabled(settings, w, StartClearing(rq))
    ensures StepMirrors(settings, w, l, StartClearing(rq))
  {
    hide Laws, Sound, Agree, Admit, AllFit;
    MirrorFacts(settings, w, l, rq);
    ActionKeeps(settings, w, StartClearing(rq));
    FitsLater(settings, l.root, w.pending, rq, Clearing(w.pending[rq].req, w.pending[rq].admitted, w.clock));
  }

  /** A commit of an open does to the buckets what the ledger records, as of the reading that settles it. */
  lemma CommitAgrees(settings: Settings, s: Store, l: Ledger, id: NoteID, token: BurnToken, now: Time, outcome: Outcome,
                     clock: Time)
    requires Agree(settings, s, l, clock) && now <= clock
    ensures var done := OpenStep(settings, s, id, token, now, outcome);
            var settledAt := if done.answer.Ok? then now else clock;
            && RecordOpen(settings, l, id, token, settledAt, outcome).answer == Opening(done.answer)
            && Agree(settings, done.store, RecordOpen(settings, l, id, token, settledAt, outcome).ledger, clock)
  {
    hide Agree, BurnVerifier, ValidMetadata, DeleteNote, GetRootKey;
    StoredNote(settings, s, l, id, clock);
    if id in s.metadata {
      BurnedNoteAgrees(settings, s, l, id, clock);
      if l.notes[id].note.metadata.expiresAt < now {
        ExpiredNoteAgrees(settings, s, l, id, clock);
      }
    }
  }

  lemma OpenMirrors(settings: Settings, w: World, l: Ledger, rq: nat, outcome: Outcome)
    requires Laws(settings) && Mirrors(settings, w, l) && Enabled(settings, w, CommitOpen(rq, outcome))
    ensures StepMirrors(settings, w, l, CommitOpen(rq, outcome))
  {
    hide Laws, Sound, Agree, AllFit, OpenStep, RecordOpen, AfterOpen;
    MirrorFacts(settings, w, l, rq);
    ActionKeeps(settings, w, CommitOpen(rq, outcome));
    var p := w.pending[rq];
    CommitAgrees(settings, w.store, l, p.id, p.token, p.now, outcome, w.clock);
    OpenCommits(settings, w, rq, outcome);
    OpenKeepsLedger(settings, l, p.id, p.token, p.now, outcome);
    OpenKeepsLedger(settings, l, p.id, p.token, w.clock, outcome);
    FitsLater(settings, l.root, w.pending, rq, TicketAt(0));
  }

  lemma OpenCommits(settings: Settings, w: World, rq: nat, outcome: Outcome)
    requires rq in w.pending && w.pending[rq].OpeningAt?
    ensures var p := w.pending[rq];
            var after := AfterOpen(settings, w, rq, p, outcome);
            && after.store == OpenStep(settings, w.store, p.id, p.token, p.now, outcome).store
            && after.pending == Answered(w, rq).pending && after.clock == w.clock && after.issued == w.issued
  {
    hide OpenedBy, Removed;
  }

  lemma OpenKeepsLedger(settings: Settings, l: Ledger, id: NoteID, token: BurnToken, now: Time, outcome: Outcome)
    ensures var k := RecordOpen(settings, l, id, token, now, outcome).ledger; k.root == l.root && k.issued == l.issued
  {
    hide Openable;
  }

  lemma CleanupMirrors(settings: Settings, w: World, l: Ledger, rq: nat, outcome: Outcome)
    requires Laws(settings) && Mirrors(settings, w, l) && Enabled(settings, w, CommitCleanup(rq, outcome))
    ensures StepMirrors(settings, w, l, CommitCleanup(rq, outcome))
  {
    hide Laws, Sound, Agree, AllFit, CleanedUp, StaleNotes;
    MirrorFacts(settings, w, l, rq);
    ActionKeeps(settings, w, CommitCleanup(rq, outcome));
    EarlierCleanupAgrees(settings, w.store, l, w.pending[rq].now, w.clock);
    FitsLater(settings, l.root, w.pending, rq, TicketAt(0));
  }

  /** Actions that only begin something, or end everything. */
  lemma OtherwiseMirrors(settings: Settings, w: World, l: Ledger, a: Action)
    requires Laws(settings) && Mirrors(settings, w, l) && Enabled(settings, w, a)
    requires a.Advance? || a.StartTicket? || a.StartOpen? || a.StartCleanup? || a.Crash?
    ensures StepMirrors(settings, w, l, a)
  {
    hide Laws, Sound, Agree, AllFit;
    ActionKeeps(settings, w, a);
    match a
    case Advance(now) => LaterAgrees(settings, w.store, l, w.clock, now);
    case StartTicket(rq) => FitsLater(settings, l.root, w.pending, rq, TicketAt(w.clock));
    case StartOpen(rq, id, token) => FitsLater(settings, l.root, w.pending, rq, OpeningAt(id, token, w.clock));
    case StartCleanup(rq) => FitsLater(settings, l.root, w.pending, rq, CleaningAt(w.clock));
    case Crash => FitsLater(settings, l.root, w.pending, 0, TicketAt(0));
  }

  lemma AnyStepMirrors(settings: Settings, w: World, l: Ledger, a: Action)
    requires Laws(settings) && Mirrors(settings, w, l) && Enabled(settings, w, a) && Timely(w, a)
    ensures StepMirrors(settings, w, l, a)
  {
    hide Laws, Mirrors, StepMirrors, Timely, Unforged;
    match a
    case DrawTicket(rq, id, token) => TicketMirrors(settings, w, l, rq, id, token);
    case Verify(rq, req) => VerifyMirrors(settings, w, l, rq, req);
    case ReadClock(rq) => ReadClockMirrors(settings, w, l, rq);
    case Insert(rq) => InsertMirrors(settings, w, l, rq);
    case StartClearing(rq) => StartClearingMirrors(settings, w, l, rq);
    case Clear(rq) => ClearMirrors(settings, w, l, rq);
    case CommitOpen(rq, outcome) => OpenMirrors(settings, w, l, rq, outcome);
    case CommitCleanup(rq, outcome) => CleanupMirrors(settings, w, l, rq, outcome);
    case _ => OtherwiseMirrors(settings, w, l, a);
  }

  // ---- the theorem ----

  /** If insertions get past their checks before their tickets expire, then every interleaving answers like the ledger
      that keeps everything, given whole operations one after the other, in the order in which the calls were settled.
      */
  lemma {:induction false} AnswersLikeSomeOrder(settings: Settings, w: World, l: Ledger, actions: seq<Action>)
    requires Laws(settings) && Mirrors(settings, w, l)
    requires Run(settings, w, actions) && TimelyRun(settings, w, actions)
    ensures var calls := History(settings, w, actions);
            && RecordedAnswers(settings, l, Operations(calls)) == Replies(calls)
            && Mirrors(settings, Final(settings, w, actions), RecordAll(settings, l, Operations(calls)))
    decreases |actions|
  {
    hide Laws, Mirrors, Enabled, Apply, Settled, Timely, Record;
    if actions != [] {
      var a := actions[0];
      var next := Apply(settings, w, a);
      var settled := Settled(settings, w, a);
      var rest := History(settings, next, actions[1..]);
      AnyStepMirrors(settings, w, l, a);
      if settled == [] {
        assert settled + rest == rest;
        AnswersLikeSomeOrder(settings, next, l, actions[1..]);
      } else {
        AnswersLikeSomeOrder(settings, next, Record(settings, l, settled[0].op).ledger, actions[1..]);
        OneMoreCall(settings, l, settled[0], rest);
        assert settled == [settled[0]];
      }
    }
  }

  lemma OneMoreCall(settings: Settings, l: Ledger, call: Call, rest: seq<Call>)
    ensures var next := Record(settings, l, call.op);
            && RecordedAnswers(settings, l, Operations([call] + rest))
               == [next.answer] + RecordedAnswers(settings, next.ledger, Operations(rest))
            && RecordAll(settings, l, Operations([call] + rest)) == RecordAll(settings, next.ledger, Operations(rest))
            && Replies([call] + rest) == [call.answer] + Replies(rest)
  {
    hide Record;
    assert Operations([call] + rest)[1..] == Operations(rest);
  }

  /** The reading with which an open is settled lies between its start and its commit, and is the one that it made if it
      hands out the note. */
  lemma OpensAreSettledInTime(settings: Settings, w: World, rq: nat, outcome: Outcome)
    requires Sound(settings, w) && rq in w.pending && w.pending[rq].OpeningAt?
    ensures var p := w.pending[rq];
            var call := SettledByOpen(settings, w, p, outcome)[0];
            && call.op.Open? && p.now <= call.op.now <= w.clock
            && (call.answer.note.Ok? ==> call.op.now == p.now)
  {
    hide IssuedTable, StoreSound, Conserved, Marked, OpenStep;
    assert PendingSound(settings, w, w.pending[rq]);
  }
}
