/** Whole runs of the note service, one operation after the other, against a service that never forgets. */
module Traces {
  import opened Base
  import opened Tickets
  import opened NoteStore

  datatype Operation =
    | Issue(now: Time, id: NoteID, token: BurnToken)              // CreateTicket and its two random draws
    | Create(request: CreateRequest)
    | Open(id: NoteID, token: BurnToken, now: Time, outcome: Outcome)
    | Sweep(now: Time, outcome: Outcome)                          // Cleanup
    | Restart(start: Startup)

  datatype Answer =
    | Issuing(ticket: Result<Ticket>)
    | Creating(created: Result<NoteID>)
    | Opening(note: Result<Note>)
    | Maintaining(done: Result<()>)

  datatype Served = Served(store: Store, answer: Answer)

  function Serve(settings: Settings, s: Store, op: Operation): Served {
    match op
    case Issue(now, id, token) =>
      Served(s, Issuing(CreateTicket(settings.crypto, settings.json, s.rootKey, now, id, token)))
    case Create(request) =>
      var done := CreateStep(settings, s, request);
      Served(done.store, Creating(done.answer))
    case Open(id, token, now, outcome) =>
      var done := OpenStep(settings, s, id, token, now, outcome);
      Served(done.store, Opening(done.answer))
    case Sweep(now, outcome) =>
      var done := CleanupStep(settings, s, now, outcome);
      Served(done.store, Maintaining(done.answer))
    case Restart(start) =>
      var done := StartupStep(settings, s, start);
      Served(done.store, Maintaining(done.answer))
  }

  /** The contents after a run, and the answers given along it. */
  function After(settings: Settings, s: Store, ops: seq<Operation>): Store
    decreases |ops|
  {
    if ops == [] then s else After(settings, Serve(settings, s, ops[0]).store, ops[1..])
  }

  function Answers(settings: Settings, s: Store, ops: seq<Operation>): seq<Answer>
    decreases |ops|
  {
    if ops == [] then []
    else [Serve(settings, s, ops[0]).answer] + Answers(settings, Serve(settings, s, ops[0]).store, ops[1..])
  }

  // ---- the reference: a ledger from which nothing is ever removed ----

  datatype Entry = Entry(note: Note, ticketExp: Time)

  datatype Ledger = Ledger(root: RootKey, issued: map<NoteID, TicketData>, notes: map<NoteID, Entry>,
                           burned: set<NoteID>)

  datatype Recorded = Recorded(ledger: Ledger, answer: Answer)

  function Record(settings: Settings, l: Ledger, op: Operation): Recorded {
    match op
    case Issue(now, id, token) =>
      var ticket := CreateTicket(settings.crypto, settings.json, Some(Parsed(l.root)), now, id, token);
      Recorded(if ticket.Ok? then l.(issued := l.issued[id := ticket.value.data]) else l, Issuing(ticket))
    case Create(request) => RecordCreate(settings, l, request)
    case Open(id, token, now, outcome) => RecordOpen(settings, l, id, token, now, outcome)
    case Sweep(_, outcome) => Recorded(l, Maintaining(Reported(outcome)))
    case Restart(start) =>
      Recorded(l, Maintaining(if Reported(start.keys).Err? then Reported(start.keys) else Reported(start.cleaning)))
  }

  function WithNote(l: Ledger, a: Admitted, payload: Bytes): Ledger {
    l.(notes := l.notes[a.id := Entry(Note(payload, a.metadata), a.ticketExp)])
  }

  /** A note is created once per identifier, ever. */
  function RecordCreate(settings: Settings, l: Ledger, req: CreateRequest): Recorded {
    var admitted := Admit(settings, Some(Parsed(l.root)), req);
    if admitted.Err? then Recorded(l, Creating(Err(admitted.error)))
    else if admitted.value.id in l.notes then Recorded(l, Creating(Err(TicketUnusable)))
    else if CreateOutcome(req).Err? then Recorded(l, Creating(Err(CreateOutcome(req).error)))
    else
      Recorded(WithNote(l, admitted.value, req.payload), Creating(Ok(admitted.value.id)))
  }

  /** What becomes of an insertion that nothing speaks against: stored at once, or on the retry after a cleanup. */
  function CreateOutcome(req: CreateRequest): Result<()> {
    match req.first
    case Commits => Ok(())
    case Fails => Err(IoFailed)
    case FillsUp =>
      if Reported(req.cleaning).Err? then Reported(req.cleaning)
      else match req.second
        case Commits => Ok(())
        case FillsUp => Err(StorageFull)
        case Fails => Err(IoFailed)
  }

  /** A note is handed out once, to its token, no later than it expires. */
  function RecordOpen(settings: Settings, l: Ledger, id: NoteID, token: BurnToken, now: Time,
                      outcome: Outcome): Recorded {
    if Reported(outcome).Err? then Recorded(l, Opening(Err(Reported(outcome).error)))
    else if Openable(settings, l, id, token, now) then
      Recorded(l.(burned := l.burned + {id}), Opening(Ok(l.notes[id].note)))
    else Recorded(l, Opening(Err(NoteOpenFailed)))
  }

  predicate Openable(settings: Settings, l: Ledger, id: NoteID, token: BurnToken, now: Time) {
    && id in l.notes && id !in l.burned
    && BurnVerifier(settings.crypto, l.root.secret, token) == l.notes[id].note.metadata.burnVerifier
    && now <= l.notes[id].note.metadata.expiresAt
  }

  function RecordAll(settings: Settings, l: Ledger, ops: seq<Operation>): Ledger
    decreases |ops|
  {
    if ops == [] then l else RecordAll(settings, Record(settings, l, ops[0]).ledger, ops[1..])
  }

  function RecordedAnswers(settings: Settings, l: Ledger, ops: seq<Operation>): seq<Answer>
    decreases |ops|
  {
    if ops == [] then []
    else [Record(settings, l, ops[0]).answer] + RecordedAnswers(settings, Record(settings, l, ops[0]).ledger, ops[1..])
  }

  // ---- the runs that can happen ----

  function LastReading(op: Operation): Time {
    match op
    case Issue(now, _, _) => now
    case Create(request) => request.cleanedAt
    case Open(_, _, now, _) => now
    case Sweep(now, _) => now
    case Restart(start) => start.cleanedAt
  }

  /** The clock does not go back, drawn identifiers are new, and ticket signatures are not forged. */
  ghost predicate Possible(settings: Settings, l: Ledger, op: Operation, clock: Time) {
    match op
    case Issue(now, id, _) => clock <= now && id !in l.issued
    case Create(request) =>
      && clock <= request.verifiedAt <= request.createdAt <= request.cleanedAt
      && Unforged(settings.crypto, settings.json, l.root.secret, l.issued, request.ticket)
    case Open(_, _, now, _) => clock <= now
    case Sweep(now, _) => clock <= now
    case Restart(start) => clock <= start.keysAt <= start.cleanedAt
  }

  ghost predicate PossibleRun(settings: Settings, l: Ledger, ops: seq<Operation>, clock: Time)
    decreases |ops|
  {
    ops == [] ||
    (Possible(settings, l, ops[0], clock)
     && PossibleRun(settings, Record(settings, l, ops[0]).ledger, ops[1..], LastReading(ops[0])))
  }

  function ClockAfter(ops: seq<Operation>, clock: Time): Time {
    if ops == [] then clock else LastReading(ops[|ops| - 1])
  }

  // ---- the buckets against the ledger ----

  /** What a note that the buckets hold looks like, and why a note may be missing from them. */
  ghost predicate NotesAgree(s: Store, l: Ledger, clock: Time) {
    && s.metadata.Keys == s.payloads.Keys
    && (forall id :: id in s.metadata ==>
          id in l.notes && id !in l.burned
          && s.metadata[id] == Parsed(l.notes[id].note.metadata) && s.payloads[id] == l.notes[id].note.payload)
    && (forall id :: id in l.notes && id !in s.metadata ==>
          id in l.burned || l.notes[id].note.metadata.expiresAt < clock)
  }

  /** A marker may be missing only for a ticket that has expired. */
  ghost predicate MarkersAgree(s: Store, l: Ledger, clock: Time) {
    && (forall id :: id in s.usedTickets ==>
         id in l.notes && s.usedTickets[id] == Parsed(Marker(l.notes[id].ticketExp)))
    && (forall id :: id in l.notes && id !in s.usedTickets ==> l.notes[id].ticketExp < clock)
  }

  ghost predicate SoundLedger(settings: Settings, l: Ledger) {
    && ValidRootKey(l.root)
    && IssuedTable(settings.crypto, l.root.secret, l.issued)
    && l.burned <= l.notes.Keys
    && (forall id :: id in l.notes ==>
          && id in l.issued && l.issued[id].exp == l.notes[id].ticketExp
          && ValidMetadata(settings.maxLifetime, l.notes[id].note.metadata))
  }

  ghost predicate Agree(settings: Settings, s: Store, l: Ledger, clock: Time) {
    && clock > 0
    && s.rootKey == Some(Parsed(l.root))
    && SoundLedger(settings, l)
    && NotesAgree(s, l, clock)
    && MarkersAgree(s, l, clock)
  }

  lemma AdmittedFacts(settings: Settings, l: Ledger, req: CreateRequest, clock: Time)
    requires Laws(settings) && SoundLedger(settings, l) && 0 < clock && Possible(settings, l, Create(req), clock)
    requires Admit(settings, Some(Parsed(l.root)), req).Ok?
    ensures var a := Admit(settings, Some(Parsed(l.root)), req).value;
            && a.id == req.pathID && a.id in l.issued && a.ticketExp == l.issued[a.id].exp
            && a.ticketExp >= req.verifiedAt
            && ValidMetadata(settings.maxLifetime, a.metadata)
            && a.metadata.expiresAt == req.createdAt + req.lifetime
            && a.metadata.burnVerifier == BurnVerifier(settings.crypto, l.root.secret, req.burnToken)
  {
    hide VerifyTicket, ValidatePayload, Unforged, IssuedTable, JsonLaws;
    var root := Some(Parsed(l.root));
    var accepted := VerifyTicket(settings.crypto, settings.json, root, req.ticket, req.pathID, req.burnToken,
                                 req.verifiedAt).value;
    var p := AcceptedOnlySealed(settings.crypto, settings.json, root, req.ticket, req.pathID, req.burnToken,
                                req.verifiedAt, accepted);
    AcceptedWasIssued(settings.crypto, settings.json, root, l.issued, req.ticket, req.pathID, req.burnToken,
                      req.verifiedAt);
    ValidatedFacts(accepted.data, req.pathID, req.verifiedAt);
  }

  /** A cleanup may have read the clock earlier: what had expired then has expired now. */
  lemma CleanupKeepsNotes(settings: Settings, s: Store, l: Ledger, now: Time, clock: Time)
    requires SoundLedger(settings, l) && NotesAgree(s, l, clock) && now <= clock
    ensures NotesAgree(CleanedUp(settings.maxLifetime, s, now), l, clock)
  {
    hide IssuedTable, ValidMetadata;
  }

  lemma CleanupKeepsMarkers(settings: Settings, s: Store, l: Ledger, now: Time, clock: Time)
    requires MarkersAgree(s, l, clock) && now <= clock
    ensures MarkersAgree(CleanedUp(settings.maxLifetime, s, now), l, clock)
  {
  }

  lemma EarlierCleanupAgrees(settings: Settings, s: Store, l: Ledger, now: Time, clock: Time)
    requires Agree(settings, s, l, clock) && now <= clock
    ensures Agree(settings, CleanedUp(settings.maxLifetime, s, now), l, clock)
  {
    hide NotesAgree, MarkersAgree, SoundLedger, StaleNotes, StaleMarkers;
    CleanupKeepsNotes(settings, s, l, now, clock);
    CleanupKeepsMarkers(settings, s, l, now, clock);
  }

  lemma CleanupAgrees(settings: Settings, s: Store, l: Ledger, clock: Time, now: Time, outcome: Outcome)
    requires Agree(settings, s, l, clock) && clock <= now
    ensures CleanupStep(settings, s, now, outcome).answer == Reported(outcome)
    ensures Agree(settings, CleanupStep(settings, s, now, outcome).store, l, now)
  {
    hide Agree, CleanedUp;
    LaterAgrees(settings, s, l, clock, now);
    EarlierCleanupAgrees(settings, s, l, now, now);
  }

  lemma SoundRoot(settings: Settings, l: Ledger)
    ensures SoundLedger(settings, l) ==> ValidRootKey(l.root)
  {
  }

  lemma LaterAgrees(settings: Settings, s: Store, l: Ledger, clock: Time, now: Time)
    requires Agree(settings, s, l, clock) && clock <= now
    ensures Agree(settings, s, l, now)
  {
    hide IssuedTable;
  }

  lemma NewNoteIsSound(settings: Settings, l: Ledger, a: Admitted, payload: Bytes)
    requires SoundLedger(settings, l)
    requires a.id in l.issued && a.ticketExp == l.issued[a.id].exp
    requires ValidMetadata(settings.maxLifetime, a.metadata)
    ensures SoundLedger(settings, WithNote(l, a, payload))
  {
    hide IssuedTable, ValidMetadata;
  }

  lemma NewNoteKeepsBuckets(s: Store, l: Ledger, a: Admitted, payload: Bytes, clock: Time)
    requires NotesAgree(s, l, clock) && MarkersAgree(s, l, clock) && l.burned <= l.notes.Keys
    requires a.id !in l.notes
    ensures Inserted(s, a.id, a.metadata, payload, a.ticketExp).Ok?
    ensures NotesAgree(Inserted(s, a.id, a.metadata, payload, a.ticketExp).value, WithNote(l, a, payload), clock)
    ensures MarkersAgree(Inserted(s, a.id, a.metadata, payload, a.ticketExp).value, WithNote(l, a, payload), clock)
  {
  }

  lemma NewNoteAgrees(settings: Settings, s: Store, l: Ledger, a: Admitted, payload: Bytes, clock: Time)
    requires Agree(settings, s, l, clock)
    requires a.id !in l.notes && a.id in l.issued && a.ticketExp == l.issued[a.id].exp
    requires ValidMetadata(settings.maxLifetime, a.metadata)
    ensures Inserted(s, a.id, a.metadata, payload, a.ticketExp).Ok?
    ensures Agree(settings, Inserted(s, a.id, a.metadata, payload, a.ticketExp).value, WithNote(l, a, payload), clock)
  {
    hide ValidMetadata, NotesAgree, MarkersAgree, IssuedTable;
    NewNoteIsSound(settings, l, a, payload);
    NewNoteKeepsBuckets(s, l, a, payload, clock);
  }

  /** As long as a ticket has not expired, its marker is still there and speaks against a second note. */
  lemma SpentTicketIsRefused(settings: Settings, s: Store, l: Ledger, id: NoteID, clock: Time)
    requires Agree(settings, s, l, clock) && id in l.notes && l.notes[id].ticketExp >= clock
    ensures id in s.usedTickets
  {
  }

  lemma NoteHasItsTicket(settings: Settings, l: Ledger, id: NoteID)
    requires SoundLedger(settings, l) && id in l.notes
    ensures id in l.issued && l.notes[id].ticketExp == l.issued[id].exp
  {
  }

  lemma CreateAgrees(settings: Settings, s: Store, l: Ledger, req: CreateRequest, clock: Time)
    requires Laws(settings) && Agree(settings, s, l, clock) && Possible(settings, l, Create(req), clock)
    ensures Creating(CreateStep(settings, s, req).answer) == RecordCreate(settings, l, req).answer
    ensures Agree(settings, CreateStep(settings, s, req).store, RecordCreate(settings, l, req).ledger, req.cleanedAt)
  {
    hide Admit, Unforged, CryptoLaws, JsonLaws, ValidMetadata, CleanedUp, IssuedTable, SoundLedger, NotesAgree,
         MarkersAgree;
    SoundRoot(settings, l);
    LaterAgrees(settings, s, l, clock, req.verifiedAt);
    LaterAgrees(settings, s, l, clock, req.cleanedAt);
    CleanupAgrees(settings, s, l, clock, req.cleanedAt, req.cleaning);
    var admitted := Admit(settings, s.rootKey, req);
    if admitted.Ok? {
      AdmittedFacts(settings, l, req, clock);
      var a := admitted.value;
      if a.id in l.notes {
        NoteHasItsTicket(settings, l, a.id);
        SpentTicketIsRefused(settings, s, l, a.id, req.verifiedAt);
      } else {
        var cleaned := CleanupStep(settings, s, req.cleanedAt, req.cleaning).store;
        NewNoteAgrees(settings, s, l, a, req.payload, req.cleanedAt);
        NewNoteAgrees(settings, cleaned, l, a, req.payload, req.cleanedAt);
      }
    }
  }

  lemma BurnedNoteAgrees(settings: Settings, s: Store, l: Ledger, id: NoteID, clock: Time)
    requires Agree(settings, s, l, clock) && id in s.metadata
    ensures Agree(settings, DeleteNote(s, id), l.(burned := l.burned + {id}), clock)
  {
    hide IssuedTable, ValidMetadata;
  }

  lemma ExpiredNoteAgrees(settings: Settings, s: Store, l: Ledger, id: NoteID, clock: Time)
    requires Agree(settings, s, l, clock) && id in l.notes && l.notes[id].note.metadata.expiresAt < clock
    ensures Agree(settings, DeleteNote(s, id), l, clock)
  {
    hide IssuedTable, ValidMetadata;
  }

  lemma StoredNote(settings: Settings, s: Store, l: Ledger, id: NoteID, clock: Time)
    requires Agree(settings, s, l, clock)
    ensures id in s.metadata <==> id in s.payloads
    ensures id in s.metadata ==>
              && id in l.notes && id !in l.burned
              && s.metadata[id] == Parsed(l.notes[id].note.metadata) && s.payloads[id] == l.notes[id].note.payload
              && ValidMetadata(settings.maxLifetime, l.notes[id].note.metadata)
    ensures id in l.notes && id !in s.metadata ==> id in l.burned || l.notes[id].note.metadata.expiresAt < clock
    ensures GetRootKey(s.rootKey) == Ok(l.root)
  {
  }

  lemma OpenAgrees(settings: Settings, s: Store, l: Ledger, id: NoteID, token: BurnToken, now: Time, outcome: Outcome,
                   clock: Time)
    requires Agree(settings, s, l, clock) && clock <= now
    ensures Opening(OpenStep(settings, s, id, token, now, outcome).answer)
            == RecordOpen(settings, l, id, token, now, outcome).answer
    ensures Agree(settings, OpenStep(settings, s, id, token, now, outcome).store,
                  RecordOpen(settings, l, id, token, now, outcome).ledger, now)
  {
    hide Agree, BurnVerifier, ValidMetadata, DeleteNote, GetRootKey;
    LaterAgrees(settings, s, l, clock, now);
    StoredNote(settings, s, l, id, clock);
    if id in s.metadata {
      BurnedNoteAgrees(settings, s, l, id, now);
      if l.notes[id].note.metadata.expiresAt < now {
        ExpiredNoteAgrees(settings, s, l, id, now);
      }
    }
  }

  lemma NewTicketIsSound(settings: Settings, l: Ledger, now: Time, id: NoteID, token: BurnToken)
    requires SoundLedger(settings, l) && id !in l.issued && JsonTime(now) && JsonTime(now + TICKET_TIMEOUT)
    ensures var data := FreshTicketData(settings.crypto, l.root.secret, now, id, token);
            SoundLedger(settings, l.(issued := l.issued[id := data]))
  {
    hide BurnVerifier, ValidMetadata;
  }

  lemma IssueAgrees(settings: Settings, s: Store, l: Ledger, now: Time, id: NoteID, token: BurnToken, clock: Time)
    requires Agree(settings, s, l, clock) && clock <= now && id !in l.issued
    ensures CreateTicket(settings.crypto, settings.json, s.rootKey, now, id, token)
            == CreateTicket(settings.crypto, settings.json, Some(Parsed(l.root)), now, id, token)
    ensures Agree(settings, s, Record(settings, l, Issue(now, id, token)).ledger, now)
  {
    hide Sealed, MarshalTicket, FreshTicketData, SoundLedger, JsonTime;
    LaterAgrees(settings, s, l, clock, now);
    SoundRoot(settings, l);
    var data := FreshTicketData(settings.crypto, l.root.secret, now, id, token);
    FreshTicketTimes(settings.crypto, l.root.secret, now, id, token);
    if JsonTime(now) && JsonTime(now + TICKET_TIMEOUT) {
      NewTicketIsSound(settings, l, now, id, token);
      NewTicketKeepsBuckets(s, l, l.(issued := l.issued[id := data]), now);
    }
  }

  lemma FreshTicketTimes(c: Crypto, secret: Bytes, now: Time, id: NoteID, token: BurnToken)
    ensures var d := FreshTicketData(c, secret, now, id, token); d.issuedAt == now && d.exp == now + TICKET_TIMEOUT
  {
  }

  lemma NewTicketKeepsBuckets(s: Store, l: Ledger, k: Ledger, clock: Time)
    requires NotesAgree(s, l, clock) && MarkersAgree(s, l, clock) && k.notes == l.notes && k.burned == l.burned
    ensures NotesAgree(s, k, clock) && MarkersAgree(s, k, clock)
  {
  }

  lemma RestartAgrees(settings: Settings, s: Store, l: Ledger, start: Startup, clock: Time)
    requires Agree(settings, s, l, clock) && clock <= start.keysAt <= start.cleanedAt
    ensures Maintaining(StartupStep(settings, s, start).answer) == Record(settings, l, Restart(start)).answer
    ensures Agree(settings, StartupStep(settings, s, start).store, l, start.cleanedAt)
  {
    hide NotesAgree, MarkersAgree, CleanedUp, SoundLedger;
    SoundRoot(settings, l);
    LaterAgrees(settings, s, l, clock, start.cleanedAt);
    CleanupAgrees(settings, s, l, clock, start.cleanedAt, start.cleaning);
  }

  lemma OperationAgrees(settings: Settings, s: Store, l: Ledger, op: Operation, clock: Time)
    requires Laws(settings) && Agree(settings, s, l, clock) && Possible(settings, l, op, clock)
    ensures Serve(settings, s, op).answer == Record(settings, l, op).answer
    ensures Agree(settings, Serve(settings, s, op).store, Record(settings, l, op).ledger, LastReading(op))
  {
    hide Agree, CreateStep, RecordCreate, OpenStep, RecordOpen, CleanupStep, StartupStep, CreateTicket, Unforged, Laws;
    match op
    case Issue(now, id, token) => IssueAgrees(settings, s, l, now, id, token, clock);
    case Create(request) => CreateAgrees(settings, s, l, request, clock);
    case Open(id, token, now, outcome) => OpenAgrees(settings, s, l, id, token, now, outcome, clock);
    case Sweep(now, outcome) => CleanupAgrees(settings, s, l, clock, now, outcome);
    case Restart(start) => RestartAgrees(settings, s, l, start, clock);
  }

  // ---- the theorems ----

  /** Forgetting is invisible: on every possible run the service answers like the ledger that keeps everything. */
  lemma {:induction false} CleanupIsInvisible(settings: Settings, s: Store, l: Ledger, ops: seq<Operation>, clock: Time)
    requires Laws(settings) && Agree(settings, s, l, clock) && PossibleRun(settings, l, ops, clock)
    ensures Answers(settings, s, ops) == RecordedAnswers(settings, l, ops)
    ensures Agree(settings, After(settings, s, ops), RecordAll(settings, l, ops), ClockAfter(ops, clock))
    decreases |ops|
  {
    hide Agree, Serve, Record, Possible, Laws, LastReading;
    if ops != [] {
      OperationAgrees(settings, s, l, ops[0], clock);
      CleanupIsInvisible(settings, Serve(settings, s, ops[0]).store, Record(settings, l, ops[0]).ledger, ops[1..],
                         LastReading(ops[0]));
    }
  }
}
