/** The note service under concurrency: requests in flight hold what they read, and their transactions come later. */
module Interleavings {
  import opened Base
  import opened Tickets
  import opened NoteStore

  /** What a request in flight has read and checked so far. A creation carries its request, with the readings of the
      clock filled in as they are made and with what its transactions are going to meet. */
  datatype Pending =
    | TicketAt(now: Time)
    | Verified(req: CreateRequest, accepted: Accepted)
    | Ready(req: CreateRequest, admitted: Admitted, retried: bool)
    | Full(req: CreateRequest, admitted: Admitted)                     // the file was full at the first attempt
    | Clearing(req: CreateRequest, admitted: Admitted, now: Time)      // the cleanup before the second
    | OpeningAt(id: NoteID, token: BurnToken, now: Time)
    | CleaningAt(now: Time)

  /** What became of a note. A removal without a hand-out is a drop if the note had expired by then, and a loss if
      not. */
  datatype Event = Made(id: NoteID) | Handed(id: NoteID) | Dropped(id: NoteID) | Lost(id: NoteID)

  datatype World = World(
    store: Store, clock: Time, issued: map<NoteID, TicketData>, pending: map<nat, Pending>, log: multiset<Event>)

  datatype Action =
    | Advance(now: Time)
    | StartTicket(rq: nat)
    | DrawTicket(rq: nat, id: NoteID, token: BurnToken)
    | Verify(rq: nat, req: CreateRequest)
    | ReadClock(rq: nat)
    | Insert(rq: nat)
    | StartClearing(rq: nat)
    | Clear(rq: nat)
    | StartOpen(rq: nat, id: NoteID, token: BurnToken)
    | CommitOpen(rq: nat, outcome: Outcome)
    | StartCleanup(rq: nat)
    | CommitCleanup(rq: nat, outcome: Outcome)
    | Crash

  /** When an action can happen; only a verification makes a claim, that signatures are not forged. */
  ghost predicate Enabled(settings: Settings, w: World, a: Action) {
    match a
    case Advance(now) => w.clock <= now
    case StartTicket(rq) => rq !in w.pending
    case DrawTicket(rq, id, _) => rq in w.pending && w.pending[rq].TicketAt? && id !in w.issued
    case Verify(rq, req) =>
      rq !in w.pending && (GetRootKey(w.store.rootKey).Ok? ==>
        Unforged(settings.crypto, settings.json, GetRootKey(w.store.rootKey).value.secret, w.issued, req.ticket))
    case ReadClock(rq) => rq in w.pending && w.pending[rq].Verified?
    case Insert(rq) => rq in w.pending && w.pending[rq].Ready?
    case StartClearing(rq) => rq in w.pending && w.pending[rq].Full?
    case Clear(rq) => rq in w.pending && w.pending[rq].Clearing?
    case StartOpen(rq, _, _) => rq !in w.pending
    case CommitOpen(rq, _) => rq in w.pending && w.pending[rq].OpeningAt?
    case StartCleanup(rq) => rq !in w.pending
    case CommitCleanup(rq, _) => rq in w.pending && w.pending[rq].CleaningAt?
    case Crash => true
  }

  function Answered(w: World, rq: nat): World {
    w.(pending := w.pending - {rq})
  }

  function Waiting(w: World, rq: nat, p: Pending): World {
    w.(pending := w.pending[rq := p])
  }

  function AfterDraw(settings: Settings, w: World, rq: nat, p: Pending, id: NoteID, token: BurnToken): World
    requires p.TicketAt?
  {
    var ticket := CreateTicket(settings.crypto, settings.json, w.store.rootKey, p.now, id, token);
    if ticket.Ok? then Answered(w, rq).(issued := w.issued[id := ticket.value.data]) else Answered(w, rq)
  }

  /** A request that fails its checks is answered at once and never waits. */
  function AfterVerify(settings: Settings, w: World, rq: nat, req: CreateRequest): World {
    var accepted := Checked(settings, w.store.rootKey, VerifiedNow(w, req));
    if accepted.Err? then w else Waiting(w, rq, Verified(VerifiedNow(w, req), accepted.value))
  }

  function VerifiedNow(w: World, req: CreateRequest): CreateRequest {
    req.(verifiedAt := w.clock)
  }

  function CreatedNow(w: World, req: CreateRequest): CreateRequest {
    req.(createdAt := w.clock)
  }

  function AfterReadClock(w: World, rq: nat, p: Pending): World
    requires p.Verified?
  {
    var admitted := Stamped(CreatedNow(w, p.req), p.accepted);
    if admitted.Err? then Answered(w, rq) else Waiting(w, rq, Ready(CreatedNow(w, p.req), admitted.value, false))
  }

  /** What the insert transaction makes of the contents, and what the database then makes of it. */
  function Insertion(s: Store, p: Pending): Result<Store>
    requires p.Ready?
  {
    Inserted(s, p.admitted.id, p.admitted.metadata, p.req.payload, p.admitted.ticketExp)
  }

  function OutcomeOf(p: Pending): Outcome
    requires p.Ready?
  {
    if p.retried then p.req.second else p.req.first
  }

  /** One run of the insert transaction. A full file is met with a cleanup and one retry. */
  function AfterInsert(w: World, rq: nat, p: Pending): World
    requires p.Ready?
  {
    var after := Insertion(w.store, p);
    if after.Err? then Answered(w, rq)
    else match OutcomeOf(p)
      case Commits => Answered(w, rq).(store := after.value, log := w.log + multiset{Made(p.admitted.id)})
      case Fails => Answered(w, rq)
      case FillsUp => if p.retried then Answered(w, rq) else Waiting(w, rq, Full(p.req, p.admitted))
  }

  predicate Expired(w: World, id: NoteID) {
    id in w.store.metadata && w.store.metadata[id].Parsed? && w.store.metadata[id].value.expiresAt < w.clock
  }

  function Removed(w: World, id: NoteID): Event {
    if Expired(w, id) then Dropped(id) else Lost(id)
  }

  /** The payload leaves only with the commit of the deletion. */
  function AfterOpen(settings: Settings, w: World, rq: nat, p: Pending, outcome: Outcome): World
    requires p.OpeningAt?
  {
    var attempt := OpenedBy(settings, w.store, p.id, p.token, p.now);
    if attempt.Err? || outcome != Commits then Answered(w, rq)
    else
      var after := attempt.value.store;
      var event :=
        if attempt.value.note.Some? then multiset{Handed(p.id)}
        else if p.id in w.store.metadata && p.id !in after.metadata then multiset{Removed(w, p.id)}
        else multiset{};
      Answered(w, rq).(store := after, log := w.log + event)
  }

  /** What a cleanup at `now` commits. */
  function Emptied(settings: Settings, w: World, now: Time): World {
    w.(store := CleanedUp(settings.maxLifetime, w.store, now),
       log := w.log + multiset(set id | id in StaleNotes(settings.maxLifetime, w.store, now) :: Removed(w, id)))
  }

  function AfterCleanup(settings: Settings, w: World, rq: nat, p: Pending, outcome: Outcome): World
    requires p.CleaningAt?
  {
    if outcome != Commits then Answered(w, rq) else Emptied(settings, Answered(w, rq), p.now)
  }

  /** The cleanup between the two attempts of a creation. */
  function AfterClear(settings: Settings, w: World, rq: nat, p: Pending): World
    requires p.Clearing?
  {
    if p.req.cleaning != Commits then Answered(w, rq)
    else Waiting(Emptied(settings, w, p.now), rq, Ready(p.req, p.admitted, true))
  }

  ghost function Apply(settings: Settings, w: World, a: Action): World
    requires Enabled(settings, w, a)
  {
    match a
    case Advance(now) => w.(clock := now)
    case StartTicket(rq) => Waiting(w, rq, TicketAt(w.clock))
    case DrawTicket(rq, id, token) => AfterDraw(settings, w, rq, w.pending[rq], id, token)
    case Verify(rq, req) => AfterVerify(settings, w, rq, req)
    case ReadClock(rq) => AfterReadClock(w, rq, w.pending[rq])
    case Insert(rq) => AfterInsert(w, rq, w.pending[rq])
    case StartClearing(rq) => Waiting(w, rq, Clearing(w.pending[rq].req, w.pending[rq].admitted, w.clock))
    case Clear(rq) => AfterClear(settings, w, rq, w.pending[rq])
    case StartOpen(rq, id, token) => Waiting(w, rq, OpeningAt(id, token, w.clock))
    case CommitOpen(rq, outcome) => AfterOpen(settings, w, rq, w.pending[rq], outcome)
    case StartCleanup(rq) => Waiting(w, rq, CleaningAt(w.clock))
    case CommitCleanup(rq, outcome) => AfterCleanup(settings, w, rq, w.pending[rq], outcome)
    case Crash => w.(pending := map[])
  }

  // ---- runs ----

  /** No insertion for `id` commits after `limit`. */
  ghost predicate Prompt(w: World, a: Action, id: NoteID, limit: Time) {
    a.Insert? && a.rq in w.pending && w.pending[a.rq].Ready? && w.pending[a.rq].admitted.id == id
    && OutcomeOf(w.pending[a.rq]) == Commits ==>
      w.clock <= limit
  }

  ghost predicate Run(settings: Settings, w: World, actions: seq<Action>)
    decreases |actions|
  {
    actions == [] || (Enabled(settings, w, actions[0]) && Run(settings, Apply(settings, w, actions[0]), actions[1..]))
  }

  ghost function Final(settings: Settings, w: World, actions: seq<Action>): World
    requires Run(settings, w, actions)
    decreases |actions|
  {
    if actions == [] then w else Final(settings, Apply(settings, w, actions[0]), actions[1..])
  }

  ghost predicate PromptRun(settings: Settings, w: World, actions: seq<Action>, id: NoteID, limit: Time)
    requires Run(settings, w, actions)
    decreases |actions|
  {
    actions == [] || (Prompt(w, actions[0], id, limit)
      && PromptRun(settings, Apply(settings, w, actions[0]), actions[1..], id, limit))
  }

  // ---- the invariant ----

  ghost predicate AdmittedSound(settings: Settings, w: World, a: Admitted) {
    && a.id in w.issued && a.ticketExp == w.issued[a.id].exp
    && ValidMetadata(settings.maxLifetime, a.metadata)
  }

  ghost predicate PendingSound(settings: Settings, w: World, p: Pending) {
    match p
    case TicketAt(now) => 0 < now <= w.clock
    case Verified(req, accepted) =>
      && accepted.data.id in w.issued && accepted.data.exp == w.issued[accepted.data.id].exp
      && |accepted.verifier| == BURN_VERIFIER_LENGTH && MIN_NOTE_LIFETIME <= req.lifetime <= settings.maxLifetime
    case Ready(_, admitted, _) => AdmittedSound(settings, w, admitted)
    case Full(_, admitted) => AdmittedSound(settings, w, admitted)
    case Clearing(_, admitted, now) => AdmittedSound(settings, w, admitted) && now <= w.clock
    case OpeningAt(_, _, now) => now <= w.clock
    case CleaningAt(now) => now <= w.clock
  }

  ghost predicate RequestsSound(settings: Settings, w: World) {
    forall rq :: rq in w.pending ==> PendingSound(settings, w, w.pending[rq])
  }

  ghost predicate StoreSound(settings: Settings, w: World) {
    && w.store.metadata.Keys == w.store.payloads.Keys
    && (forall id :: id in w.store.metadata ==> Readable(settings.maxLifetime, w.store.metadata[id]))
    && (forall id :: id in w.store.usedTickets ==>
         id in w.issued && w.store.usedTickets[id] == Parsed(Marker(w.issued[id].exp)))
  }

  ghost predicate TicketsSound(settings: Settings, w: World) {
    && GetRootKey(w.store.rootKey).Ok?
    && IssuedTable(settings.crypto, GetRootKey(w.store.rootKey).value.secret, w.issued)
    && (forall id :: id in w.issued ==> 0 < w.issued[id].issuedAt <= w.clock)
  }

  /** Every note made is stored still, or was handed out, or was dropped after it expired. */
  ghost predicate Conserved(w: World) {
    forall id: NoteID ::
      w.log[Made(id)] == w.log[Handed(id)] + w.log[Dropped(id)] + (if id in w.store.metadata then 1 else 0)
  }

  /** No note was removed before it expired except into the hands of whoever opened it. */
  ghost predicate NothingLost(w: World) {
    forall id: NoteID :: w.log[Lost(id)] == 0
  }

  /** The marker of a ticket that made a note outlasts the ticket. */
  ghost predicate Marked(w: World) {
    && (forall id :: w.log[Made(id)] > 0 ==>
         id in w.issued && (id in w.store.usedTickets || w.issued[id].exp < w.clock))
    && (forall id :: id in w.store.usedTickets ==> w.log[Made(id)] > 0)
  }

  ghost predicate Sound(settings: Settings, w: World) {
    && w.clock > 0
    && TicketsSound(settings, w) && RequestsSound(settings, w) && StoreSound(settings, w)
    && Conserved(w) && NothingLost(w) && Marked(w)
  }

  /** The invariant holds where every database begins: after the first start-up that succeeds on an empty one. */
  lemma StartIsSound(settings: Settings, start: Startup)
    requires 0 < start.keysAt <= start.cleanedAt
    requires StartupStep(settings, Store(map[], map[], map[], None), start).answer.Ok?
    ensures var started := StartupStep(settings, Store(map[], map[], map[], None), start).store;
            Sound(settings, World(started, start.cleanedAt, map[], map[], multiset{}))
  {
    var s := Store(map[], map[], map[], Some(Parsed(RootKey(start.keysAt, start.secret))));
    assert CleanedUp(settings.maxLifetime, s, start.cleanedAt) == s;
  }

  // ---- what each action keeps ----

  lemma AdvanceKeeps(settings: Settings, w: World, now: Time)
    requires Sound(settings, w) && w.clock <= now
    ensures Sound(settings, w.(clock := now))
  {
    hide IssuedTable, ValidMetadata;
  }

  lemma NewTicketKeepsStore(settings: Settings, w: World, id: NoteID, d: TicketData)
    requires StoreSound(settings, w) && Marked(w) && Conserved(w) && id !in w.issued
    ensures var v := w.(issued := w.issued[id := d]);
            StoreSound(settings, v) && Marked(v) && Conserved(v)
  {
    hide Readable;
  }

  lemma NewTicketKeepsRequests(settings: Settings, w: World, id: NoteID, d: TicketData)
    requires RequestsSound(settings, w) && id !in w.issued
    ensures RequestsSound(settings, w.(issued := w.issued[id := d]))
  {
    hide ValidMetadata;
    var v := w.(issued := w.issued[id := d]);
    forall rq | rq in w.pending ensures PendingSound(settings, v, w.pending[rq]) {
      assert PendingSound(settings, w, w.pending[rq]);
    }
  }

  lemma NewTicketKeeps(settings: Settings, w: World, id: NoteID, d: TicketData)
    requires Sound(settings, w) && id !in w.issued && d.id == id && 0 < d.issuedAt <= w.clock
    requires IssuedData(settings.crypto, GetRootKey(w.store.rootKey).value.secret, d)
    ensures Sound(settings, w.(issued := w.issued[id := d]))
  {
    hide IssuedData, GetRootKey, StoreSound, Marked, Conserved, RequestsSound;
    NewTicketKeepsStore(settings, w, id, d);
    NewTicketKeepsRequests(settings, w, id, d);
  }

  lemma DrawKeeps(settings: Settings, w: World, rq: nat, id: NoteID, token: BurnToken)
    requires Sound(settings, w) && rq in w.pending && w.pending[rq].TicketAt? && id !in w.issued
    ensures Sound(settings, AfterDraw(settings, w, rq, w.pending[rq], id, token))
  {
    hide BurnVerifier, Sealed, MarshalTicket, Readable, StoreSound, Conserved, Marked, IssuedTable, GetRootKey,
         JsonTime;
    var now := w.pending[rq].now;
    assert PendingSound(settings, w, w.pending[rq]);
    AnsweredKeeps(settings, w, rq);
    var ticket := CreateTicket(settings.crypto, settings.json, w.store.rootKey, now, id, token);
    if ticket.Ok? {
      NewTicketKeeps(settings, Answered(w, rq), id, ticket.value.data);
    }
  }

  lemma WaitingKeeps(settings: Settings, w: World, rq: nat, p: Pending)
    requires Sound(settings, w) && PendingSound(settings, w, p)
    ensures Sound(settings, Waiting(w, rq, p))
  {
    hide IssuedTable, Readable, ValidMetadata;
  }

  lemma AnsweredKeeps(settings: Settings, w: World, rq: nat)
    requires Sound(settings, w)
    ensures Sound(settings, Answered(w, rq))
  {
    hide IssuedTable, Readable, ValidMetadata;
  }

  lemma VerifyKeeps(settings: Settings, w: World, rq: nat, req: CreateRequest)
    requires Laws(settings) && Sound(settings, w) && Enabled(settings, w, Verify(rq, req))
    ensures Sound(settings, AfterVerify(settings, w, rq, req))
  {
    hide VerifyTicket, Unforged, IssuedTable, JsonLaws, CryptoLaws, StoreSound, Conserved, Marked, RequestsSound,
         ValidatePayload;
    var answer := VerifyTicket(settings.crypto, settings.json, w.store.rootKey, req.ticket, req.pathID, req.burnToken,
                               w.clock);
    if Checked(settings, w.store.rootKey, VerifiedNow(w, req)).Ok? {
      var p := AcceptedOnlySealed(settings.crypto, settings.json, w.store.rootKey, req.ticket, req.pathID,
                                  req.burnToken, w.clock, answer.value);
      AcceptedWasIssued(settings.crypto, settings.json, w.store.rootKey, w.issued, req.ticket, req.pathID,
                        req.burnToken, w.clock);
      ValidatedFacts(answer.value.data, req.pathID, w.clock);
      WaitingKeeps(settings, w, rq, Verified(VerifiedNow(w, req), answer.value));
    }
  }

  lemma ReadClockKeeps(settings: Settings, w: World, rq: nat)
    requires Sound(settings, w) && rq in w.pending && w.pending[rq].Verified?
    ensures Sound(settings, AfterReadClock(w, rq, w.pending[rq]))
  {
    hide IssuedTable, StoreSound, Conserved, Marked, TicketsSound;
    AnsweredKeeps(settings, w, rq);
    var p := w.pending[rq];
    assert PendingSound(settings, w, p);
    var admitted := Stamped(CreatedNow(w, p.req), p.accepted);
    if admitted.Ok? {
      WaitingKeeps(settings, w, rq, Ready(CreatedNow(w, p.req), admitted.value, false));
    }
  }

  /** The world after a committed insertion, without its request. */
  function WithNote(w: World, p: Pending): World
    requires p.Ready? && Insertion(w.store, p).Ok?
  {
    w.(store := Insertion(w.store, p).value, log := w.log + multiset{Made(p.admitted.id)})
  }

  lemma InsertionKeepsStore(settings: Settings, w: World, p: Pending)
    requires p.Ready? && PendingSound(settings, w, p) && StoreSound(settings, w)
    requires Insertion(w.store, p).Ok?
    ensures StoreSound(settings, WithNote(w, p))
  {
    hide ValidMetadata;
  }

  lemma InsertionKeepsCounts(w: World, p: Pending)
    requires p.Ready? && Insertion(w.store, p).Ok? && p.admitted.id in w.issued
    requires Conserved(w) && Marked(w)
    ensures Conserved(WithNote(w, p)) && Marked(WithNote(w, p))
  {
  }

  lemma InsertKeeps(settings: Settings, w: World, rq: nat)
    requires Sound(settings, w) && rq in w.pending && w.pending[rq].Ready?
    ensures Sound(settings, AfterInsert(w, rq, w.pending[rq]))
  {
    hide IssuedTable, StoreSound, Conserved, Marked, ValidMetadata, Inserted;
    var p := w.pending[rq];
    assert PendingSound(settings, w, p);
    AnsweredKeeps(settings, w, rq);
    WaitingKeeps(settings, w, rq, Full(p.req, p.admitted));
    if Insertion(w.store, p).Ok? {
      InsertionKeepsStore(settings, w, p);
      InsertionKeepsCounts(w, p);
      InsertionKeepsRoot(w.store, p);
      assert Sound(settings, WithNote(w, p));
      AnsweredKeeps(settings, WithNote(w, p), rq);
    }
  }

  lemma InsertionKeepsRoot(s: Store, p: Pending)
    requires p.Ready? && Insertion(s, p).Ok?
    ensures Insertion(s, p).value.rootKey == s.rootKey
  {
  }

  function WithoutNote(w: World, id: NoteID, event: Event): World {
    w.(store := DeleteNote(w.store, id), log := w.log + multiset{event})
  }

  lemma DeletionKeepsCounts(w: World, id: NoteID, event: Event)
    requires Conserved(w) && Marked(w) && id in w.store.metadata && (event == Handed(id) || event == Dropped(id))
    ensures Conserved(WithoutNote(w, id, event)) && Marked(WithoutNote(w, id, event))
  {
  }

  /** Deleting one stored note and logging why keeps everything. */
  lemma DeletionKeeps(settings: Settings, w: World, id: NoteID, event: Event)
    requires Sound(settings, w) && id in w.store.metadata && (event == Handed(id) || event == Dropped(id))
    ensures Sound(settings, WithoutNote(w, id, event))
  {
    hide IssuedTable, Conserved, Marked, NothingLost, StoreSound, RequestsSound;
    DeletionKeepsCounts(w, id, event);
    DeletionKeepsStore(settings, w, id, event);
    RequestsIgnoreStore(settings, w, WithoutNote(w, id, event));
  }

  lemma DeletionKeepsStore(settings: Settings, w: World, id: NoteID, event: Event)
    requires StoreSound(settings, w) && NothingLost(w) && !event.Lost?
    ensures StoreSound(settings, WithoutNote(w, id, event)) && NothingLost(WithoutNote(w, id, event))
  {
    hide Readable;
  }

  lemma RequestsIgnoreStore(settings: Settings, w: World, v: World)
    requires RequestsSound(settings, w) && v == w.(store := v.store, log := v.log)
    ensures RequestsSound(settings, v)
  {
    forall rq | rq in v.pending ensures PendingSound(settings, v, v.pending[rq]) {
      assert PendingSound(settings, w, w.pending[rq]);
    }
  }

  /** An open that removes a note without handing it out finds it expired. */
  lemma OpenRemovesExpired(settings: Settings, w: World, rq: nat)
    requires Sound(settings, w) && rq in w.pending && w.pending[rq].OpeningAt?
    ensures var p := w.pending[rq];
            var attempt := OpenedBy(settings, w.store, p.id, p.token, p.now);
            attempt.Ok? && attempt.value.note.None? && p.id in w.store.metadata
              && p.id !in attempt.value.store.metadata ==>
              Expired(w, p.id)
  {
    hide IssuedTable, ValidMetadata, Conserved, Marked, BurnVerifier, GetRootKey;
    assert PendingSound(settings, w, w.pending[rq]);
  }

  /** An open changes nothing, or takes the note out for its reader, or drops it expired. */
  lemma OpenDoesOneOf(settings: Settings, w: World, rq: nat, outcome: Outcome)
    requires Sound(settings, w) && rq in w.pending && w.pending[rq].OpeningAt?
    ensures var p := w.pending[rq];
            var after := AfterOpen(settings, w, rq, p, outcome);
            || after == Answered(w, rq)
            || (p.id in w.store.metadata
                && (after == WithoutNote(Answered(w, rq), p.id, Handed(p.id))
                   || after == WithoutNote(Answered(w, rq), p.id, Dropped(p.id))))
  {
    hide Sound, GetRootKey, BurnVerifier, Readable, Expired;
    OpenRemovesExpired(settings, w, rq);
    assert w.log + multiset{} == w.log;
  }

  lemma OpenKeeps(settings: Settings, w: World, rq: nat, outcome: Outcome)
    requires Sound(settings, w) && rq in w.pending && w.pending[rq].OpeningAt?
    ensures Sound(settings, AfterOpen(settings, w, rq, w.pending[rq], outcome))
  {
    hide Sound, AfterOpen, WithoutNote;
    var p := w.pending[rq];
    OpenDoesOneOf(settings, w, rq, outcome);
    AnsweredKeeps(settings, w, rq);
    if p.id in w.store.metadata {
      DeletionKeeps(settings, Answered(w, rq), p.id, Handed(p.id));
      DeletionKeeps(settings, Answered(w, rq), p.id, Dropped(p.id));
    }
  }

  lemma CleanupCounts(settings: Settings, w: World, now: Time, id: NoteID)
    ensures var stale := StaleNotes(settings.maxLifetime, w.store, now);
            var removed := multiset(set i | i in stale :: Removed(w, i));
            && removed[Dropped(id)] == (if id in stale && Expired(w, id) then 1 else 0)
            && removed[Lost(id)] == (if id in stale && !Expired(w, id) then 1 else 0)
            && removed[Made(id)] == 0 && removed[Handed(id)] == 0
  {
    hide StaleNotes, Expired;
    var stale := StaleNotes(settings.maxLifetime, w.store, now);
    var removed := set i | i in stale :: Removed(w, i);
    assert Dropped(id) in removed <==> id in stale && Expired(w, id);
    assert Lost(id) in removed <==> id in stale && !Expired(w, id);
  }

  /** A cleanup that read the clock earlier finds only notes that have expired by now. */
  lemma StaleNotesHaveExpired(settings: Settings, w: World, now: Time, id: NoteID)
    requires StoreSound(settings, w) && now <= w.clock && id in StaleNotes(settings.maxLifetime, w.store, now)
    ensures Expired(w, id)
  {
    hide ValidMetadata;
  }

  lemma CleanupKeepsConserved(settings: Settings, w: World, now: Time)
    requires Conserved(w) && StoreSound(settings, w) && now <= w.clock
    ensures Conserved(Emptied(settings, w, now))
    ensures NothingLost(w) ==> NothingLost(Emptied(settings, w, now))
  {
    hide StaleNote, Expired, StoreSound;
    var after := Emptied(settings, w, now);
    forall id: NoteID
      ensures after.log[Lost(id)] == w.log[Lost(id)]
      ensures after.log[Made(id)] == after.log[Handed(id)] + after.log[Dropped(id)]
              + (if id in after.store.metadata then 1 else 0)
    {
      CleanupCounts(settings, w, now, id);
      if id in StaleNotes(settings.maxLifetime, w.store, now) {
        StaleNotesHaveExpired(settings, w, now, id);
      }
    }
  }

  lemma CleanupKeepsMarked(settings: Settings, w: World, now: Time)
    requires Marked(w) && StoreSound(settings, w) && now <= w.clock
    ensures Marked(Emptied(settings, w, now)) && StoreSound(settings, Emptied(settings, w, now))
  {
    hide ValidMetadata;
    forall id: NoteID ensures Emptied(settings, w, now).log[Made(id)] == w.log[Made(id)] {
      CleanupCounts(settings, w, now, id);
    }
  }

  lemma EmptyingKeeps(settings: Settings, w: World, now: Time)
    requires Sound(settings, w) && now <= w.clock
    ensures Sound(settings, Emptied(settings, w, now))
  {
    hide IssuedTable, StoreSound, Conserved, Marked, StaleNotes, StaleMarkers, ValidMetadata;
    CleanupKeepsConserved(settings, w, now);
    CleanupKeepsMarked(settings, w, now);
  }

  lemma CleanupKeeps(settings: Settings, w: World, rq: nat, outcome: Outcome)
    requires Sound(settings, w) && rq in w.pending && w.pending[rq].CleaningAt?
    ensures Sound(settings, AfterCleanup(settings, w, rq, w.pending[rq], outcome))
  {
    hide Sound, Emptied;
    AnsweredKeeps(settings, w, rq);
    CleanupReadEarlier(settings, w, rq);
    EmptyingKeeps(settings, Answered(w, rq), w.pending[rq].now);
  }

  lemma ClearKeeps(settings: Settings, w: World, rq: nat)
    requires Sound(settings, w) && rq in w.pending && w.pending[rq].Clearing?
    ensures Sound(settings, AfterClear(settings, w, rq, w.pending[rq]))
  {
    hide Sound, AdmittedSound;
    var p := w.pending[rq];
    AnsweredKeeps(settings, w, rq);
    CleanupReadEarlier(settings, w, rq);
    EmptyingKeeps(settings, w, p.now);
    assert AdmittedSound(settings, Emptied(settings, w, p.now), p.admitted) by { ClearingIsAdmitted(settings, w, rq); }
    WaitingKeeps(settings, Emptied(settings, w, p.now), rq, Ready(p.req, p.admitted, true));
  }

  lemma ClearingIsAdmitted(settings: Settings, w: World, rq: nat)
    requires Sound(settings, w) && rq in w.pending && w.pending[rq].Clearing?
    ensures AdmittedSound(settings, Emptied(settings, w, w.pending[rq].now), w.pending[rq].admitted)
  {
    hide IssuedTable, StoreSound, Conserved, Marked, ValidMetadata, StaleNotes;
    assert PendingSound(settings, w, w.pending[rq]);
  }

  lemma CleanupReadEarlier(settings: Settings, w: World, rq: nat)
    requires Sound(settings, w) && rq in w.pending && (w.pending[rq].CleaningAt? || w.pending[rq].Clearing?)
    ensures StoreSound(settings, w) && w.pending[rq].now <= w.clock
  {
    hide IssuedTable, StoreSound, Conserved, Marked;
    assert PendingSound(settings, w, w.pending[rq]);
  }

  lemma FullKeeps(settings: Settings, w: World, rq: nat)
    requires Sound(settings, w) && rq in w.pending && w.pending[rq].Full?
    ensures Sound(settings, Waiting(w, rq, Clearing(w.pending[rq].req, w.pending[rq].admitted, w.clock)))
  {
    hide IssuedTable, StoreSound, Conserved, Marked, AdmittedSound;
    assert PendingSound(settings, w, w.pending[rq]);
    WaitingKeeps(settings, w, rq, Clearing(w.pending[rq].req, w.pending[rq].admitted, w.clock));
  }

  lemma TicketWaits(settings: Settings, w: World, rq: nat)
    requires Sound(settings, w)
    ensures Sound(settings, Waiting(w, rq, TicketAt(w.clock)))
  {
    hide IssuedTable, StoreSound, RequestsSound, Conserved, Marked;
    WaitingKeeps(settings, w, rq, TicketAt(w.clock));
  }

  lemma CrashKeeps(settings: Settings, w: World)
    requires Sound(settings, w)
    ensures Sound(settings, w.(pending := map[]))
  {
    hide IssuedTable, ValidMetadata;
  }

  lemma ActionKeeps(settings: Settings, w: World, a: Action)
    requires Laws(settings) && Sound(settings, w) && Enabled(settings, w, a)
    ensures Sound(settings, Apply(settings, w, a))
  {
    hide AfterDraw, AfterVerify, AfterReadClock, AfterInsert, AfterClear, AfterOpen, AfterCleanup, Sound, Laws,
         Unforged;
    match a
    case Advance(now) => AdvanceKeeps(settings, w, now);
    case StartTicket(rq) => TicketWaits(settings, w, rq);
    case DrawTicket(rq, id, token) => DrawKeeps(settings, w, rq, id, token);
    case Verify(rq, req) => VerifyKeeps(settings, w, rq, req);
    case ReadClock(rq) => ReadClockKeeps(settings, w, rq);
    case Insert(rq) => InsertKeeps(settings, w, rq);
    case StartClearing(rq) => FullKeeps(settings, w, rq);
    case Clear(rq) => ClearKeeps(settings, w, rq);
    case StartOpen(rq, id, token) => WaitingKeeps(settings, w, rq, OpeningAt(id, token, w.clock));
    case CommitOpen(rq, outcome) => OpenKeeps(settings, w, rq, outcome);
    case StartCleanup(rq) => WaitingKeeps(settings, w, rq, CleaningAt(w.clock));
    case CommitCleanup(rq, outcome) => CleanupKeeps(settings, w, rq, outcome);
    case Crash => CrashKeeps(settings, w);
  }

  lemma {:induction false} RunKeeps(settings: Settings, w: World, actions: seq<Action>)
    requires Laws(settings) && Sound(settings, w) && Run(settings, w, actions)
    ensures Sound(settings, Final(settings, w, actions))
    decreases |actions|
  {
    hide Sound, Laws, Enabled, Apply;
    if actions != [] {
      ActionKeeps(settings, w, actions[0]);
      RunKeeps(settings, Apply(settings, w, actions[0]), actions[1..]);
    }
  }

  // ---- the theorems ----

  /** In every interleaving, failed commits and crashes included, nothing is handed out that was not made, nothing is
      handed out twice for one making, nothing is removed otherwise before it expires, and payloads and metadata stay
      paired and readable. */
  lemma Conservation(settings: Settings, w: World, actions: seq<Action>, id: NoteID)
    requires Laws(settings) && Sound(settings, w) && Run(settings, w, actions)
    ensures var v := Final(settings, w, actions);
            && v.log[Made(id)] == v.log[Handed(id)] + v.log[Dropped(id)] + (if id in v.store.metadata then 1 else 0)
            && v.log[Lost(id)] == 0
            && v.store.metadata.Keys == v.store.payloads.Keys
            && (id in v.store.metadata ==> Readable(settings.maxLifetime, v.store.metadata[id]))
  {
    hide Run, Final, Laws, Readable, IssuedTable;
    RunKeeps(settings, w, actions);
  }

  ghost predicate Holds(w: World, id: NoteID, note: Note) {
    && id in w.store.metadata && w.store.metadata[id] == Parsed(note.metadata)
    && id in w.store.payloads && w.store.payloads[id] == note.payload
  }

  /** The note is stored as it was, or has expired, or was handed out just now. */
  ghost predicate Leaves(w: World, v: World, id: NoteID, note: Note) {
    || Holds(v, id, note)
    || note.metadata.expiresAt < w.clock
    || v.log[Handed(id)] == w.log[Handed(id)] + 1
  }

  lemma OpenLeavesNote(settings: Settings, w: World, rq: nat, outcome: Outcome, id: NoteID, note: Note)
    requires Sound(settings, w) && rq in w.pending && w.pending[rq].OpeningAt? && Holds(w, id, note)
    ensures Leaves(w, AfterOpen(settings, w, rq, w.pending[rq], outcome), id, note)
  {
    hide Sound, Readable, BurnVerifier, GetRootKey;
    OpenRemovesExpired(settings, w, rq);
  }

  lemma EmptyingLeavesNote(settings: Settings, w: World, v: World, now: Time, id: NoteID, note: Note)
    requires StoreSound(settings, w) && now <= w.clock && Holds(w, id, note)
    requires v.store == CleanedUp(settings.maxLifetime, w.store, now)
    ensures Leaves(w, v, id, note)
  {
    hide StaleNotes, StoreSound;
    if id in StaleNotes(settings.maxLifetime, w.store, now) {
      StaleNotesHaveExpired(settings, w, now, id);
    }
  }

  /** One step leaves a stored note as it is, unless it hands the note out or the note has expired. */
  lemma ActionLeavesNote(settings: Settings, w: World, a: Action, id: NoteID, note: Note)
    requires Sound(settings, w) && Enabled(settings, w, a) && Holds(w, id, note)
    ensures Leaves(w, Apply(settings, w, a), id, note)
  {
    hide VerifyTicket, Unforged, CreateTicket, Sound, AfterOpen, CleanedUp, StoreSound;
    match a
    case CommitOpen(rq, outcome) => OpenLeavesNote(settings, w, rq, outcome, id, note);
    case CommitCleanup(rq, outcome) =>
      CleanupReadEarlier(settings, w, rq);
      if outcome == Commits {
        EmptyingLeavesNote(settings, w, Apply(settings, w, a), w.pending[rq].now, id, note);
      }
    case Clear(rq) =>
      CleanupReadEarlier(settings, w, rq);
      if w.pending[rq].req.cleaning == Commits {
        EmptyingLeavesNote(settings, w, Apply(settings, w, a), w.pending[rq].now, id, note);
      }
    case _ =>
  }

  lemma {:induction false} RunMovesOn(settings: Settings, w: World, actions: seq<Action>, id: NoteID)
    requires Run(settings, w, actions)
    ensures w.clock <= Final(settings, w, actions).clock
            && w.log[Handed(id)] <= Final(settings, w, actions).log[Handed(id)]
    decreases |actions|
  {
    hide Enabled, Apply;
    if actions != [] {
      ActionMovesOn(settings, w, actions[0], id);
      RunMovesOn(settings, Apply(settings, w, actions[0]), actions[1..], id);
    }
  }

  lemma ActionMovesOn(settings: Settings, w: World, a: Action, id: NoteID)
    requires Enabled(settings, w, a)
    ensures w.clock <= Apply(settings, w, a).clock && w.log[Handed(id)] <= Apply(settings, w, a).log[Handed(id)]
  {
    hide VerifyTicket, Unforged, CreateTicket, Inserted, OpenedBy, CleanedUp, StaleNotes, Removed;
  }

  /** A live note survives every interleaving: as long as it has not expired and was not handed out, it is stored with
      the bytes and the metadata that it had. */
  lemma {:induction false} LiveNoteStays(settings: Settings, w: World, actions: seq<Action>, id: NoteID, note: Note)
    requires Laws(settings) && Sound(settings, w) && Run(settings, w, actions) && Holds(w, id, note)
    requires Final(settings, w, actions).clock <= note.metadata.expiresAt
    requires Final(settings, w, actions).log[Handed(id)] == w.log[Handed(id)]
    ensures Holds(Final(settings, w, actions), id, note)
    decreases |actions|
  {
    hide Sound, Laws, Enabled, Apply, Holds;
    if actions != [] {
      var next := Apply(settings, w, actions[0]);
      ActionKeeps(settings, w, actions[0]);
      ActionLeavesNote(settings, w, actions[0], id, note);
      ActionMovesOn(settings, w, actions[0], id);
      RunMovesOn(settings, next, actions[1..], id);
      LiveNoteStays(settings, next, actions[1..], id, note);
    }
  }

  /** Until it expires, a stored note is what its first successful open hands out, with whatever requests in between. */
  lemma HandsWhatIsStored(settings: Settings, w: World, actions: seq<Action>, rq: nat, note: Note)
    requires Laws(settings) && Sound(settings, w) && Run(settings, w, actions)
    requires var v := Final(settings, w, actions);
             && rq in v.pending && v.pending[rq].OpeningAt? && Holds(w, v.pending[rq].id, note)
             && v.clock <= note.metadata.expiresAt && v.log[Handed(v.pending[rq].id)] == w.log[Handed(v.pending[rq].id)]
    ensures var v := Final(settings, w, actions);
            var p := v.pending[rq];
            var key := GetRootKey(v.store.rootKey);
            && key.Ok?
            && OpenedBy(settings, v.store, p.id, p.token, p.now).Ok?
            && OpenedBy(settings, v.store, p.id, p.token, p.now).value.note
               == (if BurnVerifier(settings.crypto, key.value.secret, p.token) == note.metadata.burnVerifier
                 then Some(note) else None)
  {
    hide Run, Final, Laws, IssuedTable, ValidMetadata, BurnVerifier, Conserved, Marked;
    var v := Final(settings, w, actions);
    RunKeeps(settings, w, actions);
    LiveNoteStays(settings, w, actions, v.pending[rq].id, note);
    assert PendingSound(settings, v, v.pending[rq]);
  }

  /** An insertion that commits no later than its ticket expires is the first one of that ticket. */
  lemma PromptInsertionIsFirst(settings: Settings, w: World, rq: nat)
    requires Sound(settings, w) && rq in w.pending && w.pending[rq].Ready?
    requires Insertion(w.store, w.pending[rq]).Ok? && w.clock <= w.pending[rq].admitted.ticketExp
    ensures w.log[Made(w.pending[rq].admitted.id)] == 0
  {
    hide IssuedTable, StoreSound, Conserved, ValidMetadata;
    assert PendingSound(settings, w, w.pending[rq]);
  }

  lemma ActionMakesAtMostOnce(settings: Settings, w: World, a: Action, id: NoteID, limit: Time)
    requires Laws(settings) && Sound(settings, w) && Enabled(settings, w, a) && Prompt(w, a, id, limit)
    requires id in w.issued && limit <= w.issued[id].exp && w.log[Made(id)] <= 1
    ensures var v := Apply(settings, w, a); id in v.issued && v.issued[id] == w.issued[id] && v.log[Made(id)] <= 1
  {
    hide Checked, Stamped, Unforged, Laws, Sound, CreateTicket, Inserted, OpenedBy, CleanedUp, StaleNotes, Expired;
    match a
    case Insert(rq) =>
      var p := w.pending[rq];
      if Insertion(w.store, p).Ok? && OutcomeOf(p) == Commits && p.admitted.id == id {
        ReadyCarriesItsTicket(settings, w, rq);
        PromptInsertionIsFirst(settings, w, rq);
      }
    case Clear(rq) => CleanupCounts(settings, w, w.pending[rq].now, id);
    case CommitCleanup(rq, outcome) => CleanupCounts(settings, w, w.pending[rq].now, id);
    case _ =>
  }

  lemma ReadyCarriesItsTicket(settings: Settings, w: World, rq: nat)
    requires Sound(settings, w) && rq in w.pending && w.pending[rq].Ready?
    ensures var a := w.pending[rq].admitted; a.id in w.issued && a.ticketExp == w.issued[a.id].exp
  {
    hide IssuedTable, StoreSound, Conserved, Marked, ValidMetadata;
    assert PendingSound(settings, w, w.pending[rq]);
  }

  /** A ticket makes at most one note on every interleaving in which its insertions commit before it expires. */
  lemma {:induction false} PromptTicketsAreSingleUse(settings: Settings, w: World, actions: seq<Action>, id: NoteID,
                                                     limit: Time)
    requires Laws(settings) && Sound(settings, w) && Run(settings, w, actions)
             && PromptRun(settings, w, actions, id, limit)
    requires id in w.issued && limit <= w.issued[id].exp && w.log[Made(id)] <= 1
    ensures Final(settings, w, actions).log[Made(id)] <= 1
    decreases |actions|
  {
    hide Sound, Laws, Enabled, Apply, Prompt;
    if actions != [] {
      ActionKeeps(settings, w, actions[0]);
      ActionMakesAtMostOnce(settings, w, actions[0], id, limit);
      PromptTicketsAreSingleUse(settings, Apply(settings, w, actions[0]), actions[1..], id, limit);
    }
  }
}
