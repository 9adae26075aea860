/** The database of the note service and its transactions, as functions on its contents (`note_service.go`). */
module NoteStore {
  import opened Base
  import opened Tickets

  const MIN_NOTE_LIFETIME := HOUR
  const MAX_NOTE_LIFETIME := 14 * DAY

  datatype Metadata = Metadata(burnVerifier: Bytes, createdAt: Time, expiresAt: Time)

  datatype Marker = Marker(expiresAt: Time)

  datatype Note = Note(payload: Bytes, metadata: Metadata)

  /** The buckets "metadata", "payloads", "used_tickets" and "root_keys". */
  datatype Store = Store(
    metadata: map<NoteID, Stored<Metadata>>,
    payloads: map<NoteID, Bytes>,
    usedTickets: map<NoteID, Stored<Marker>>,
    rootKey: Option<Stored<RootKey>>)

  datatype Settings = Settings(crypto: Crypto, json: TicketJson, maxSize: int, maxLifetime: Duration)

  /** The laws assumed of the cryptography and of the JSON codec. */
  ghost predicate Laws(settings: Settings) {
    CryptoLaws(settings.crypto) && JsonLaws(settings.json)
  }

  /** What the database does with a transaction whose function returned without error. */
  datatype Outcome = Commits | FillsUp | Fails

  datatype Step<+T> = Step(store: Store, answer: Result<T>)

  function Reported(outcome: Outcome): Result<()> {
    match outcome
    case Commits => Ok(())
    case FillsUp => Err(MaxSizeReached)
    case Fails => Err(IoFailed)
  }

  /** A transaction commits as a whole or leaves the contents as they were. */
  function Finish<T>(before: Store, after: Store, value: T, outcome: Outcome): Step<T> {
    if Reported(outcome).Err? then Step(before, Err(Reported(outcome).error)) else Step(after, Ok(value))
  }

  // ---- single transactions ----

  predicate ValidMetadata(maxLifetime: Duration, m: Metadata) {
    && m.createdAt != 0 && m.expiresAt != 0
    && m.createdAt <= m.expiresAt && Sub(m.expiresAt, m.createdAt) <= maxLifetime
    && |m.burnVerifier| == BURN_VERIFIER_LENGTH
  }

  predicate Readable(maxLifetime: Duration, m: Stored<Metadata>) {
    m.Parsed? && ValidMetadata(maxLifetime, m.value)
  }

  /** The metadata records and the markers that a cleanup at `now` drops. */
  predicate StaleNote(maxLifetime: Duration, m: Stored<Metadata>, now: Time) {
    !Readable(maxLifetime, m) || m.value.expiresAt < now
  }

  predicate StaleMarker(m: Stored<Marker>, now: Time) {
    m.Corrupt? || m.value.expiresAt < now
  }

  function DeleteNote(s: Store, id: NoteID): Store {
    s.(payloads := s.payloads - {id}, metadata := s.metadata - {id})
  }

  function StaleNotes(maxLifetime: Duration, s: Store, now: Time): set<NoteID> {
    set id | id in s.metadata && StaleNote(maxLifetime, s.metadata[id], now)
  }

  function StaleMarkers(s: Store, now: Time): set<NoteID> {
    set id | id in s.usedTickets && StaleMarker(s.usedTickets[id], now)
  }

  function CleanedUp(maxLifetime: Duration, s: Store, now: Time): Store {
    s.(metadata := s.metadata - StaleNotes(maxLifetime, s, now),
       payloads := s.payloads - StaleNotes(maxLifetime, s, now),
       usedTickets := s.usedTickets - StaleMarkers(s, now))
  }

  function Inserted(s: Store, id: NoteID, metadata: Metadata, payload: Bytes, ticketExp: Time): Result<Store> {
    if id in s.usedTickets then Err(TicketUnusable)
    else if id in s.metadata || id in s.payloads then Err(TicketUnusable)
    else Ok(s.(metadata := s.metadata[id := Parsed(metadata)],
               payloads := s.payloads[id := payload],
               usedTickets := s.usedTickets[id := Parsed(Marker(ticketExp))]))
  }

  datatype Opened = Opened(store: Store, note: Option<Note>)

  /** The transaction of `OpenNote`: the note is handed out only together with its deletion. */
  function OpenedBy(settings: Settings, s: Store, id: NoteID, token: BurnToken, now: Time): Result<Opened> {
    if id !in s.metadata || id !in s.payloads then Ok(Opened(s, None))
    else if !Readable(settings.maxLifetime, s.metadata[id]) then Ok(Opened(DeleteNote(s, id), None))
    else
      var metadata := s.metadata[id].value;
      var key := GetRootKey(s.rootKey);
      if key.Err? then Err(key.error)
      else if BurnVerifier(settings.crypto, key.value.secret, token) != metadata.burnVerifier then Ok(Opened(s, None))
      else if metadata.expiresAt < now then Ok(Opened(DeleteNote(s, id), None))
      else Ok(Opened(DeleteNote(s, id), Some(Note(s.payloads[id], metadata))))
  }

  // ---- whole operations ----

  function InsertStep(s: Store, id: NoteID, metadata: Metadata, payload: Bytes, ticketExp: Time,
                      outcome: Outcome): Step<()> {
    var after := Inserted(s, id, metadata, payload, ticketExp);
    if after.Err? then Step(s, Err(after.error)) else Finish(s, after.value, (), outcome)
  }

  function CleanupStep(settings: Settings, s: Store, now: Time, outcome: Outcome): Step<()> {
    Finish(s, CleanedUp(settings.maxLifetime, s, now), (), outcome)
  }

  function OpenStep(settings: Settings, s: Store, id: NoteID, token: BurnToken, now: Time,
                    outcome: Outcome): Step<Note> {
    var attempt := OpenedBy(settings, s, id, token, now);
    if attempt.Err? then Step(s, Err(attempt.error))
    else
      var done := Finish(s, attempt.value.store, attempt.value.note, outcome);
      Step(done.store,
           if done.answer.Err? then Err(done.answer.error)
           else if done.answer.value.None? then Err(NoteOpenFailed)
           else Ok(done.answer.value.value))
  }

  /** A call of `CreateNote`: its arguments, the three readings of the clock, and what each transaction meets. */
  datatype CreateRequest = CreateRequest(
    pathID: NoteID, ticket: string, burnToken: BurnToken, payload: Bytes, lifetime: Duration,
    verifiedAt: Time, createdAt: Time, cleanedAt: Time,
    first: Outcome, cleaning: Outcome, second: Outcome)

  datatype Admitted = Admitted(id: NoteID, ticketExp: Time, metadata: Metadata)

  /** What `CreateNote` checks before it reads the clock for the note. */
  function Checked(settings: Settings, root: Option<Stored<RootKey>>, req: CreateRequest): Result<Accepted> {
    if |req.ticket| > MAX_TICKET_LENGTH then Err(TicketInvalid)
    else if req.payload == [] then Err(PayloadEmpty)
    else if |req.payload| > settings.maxSize then Err(PayloadTooLarge)
    else if req.lifetime < MIN_NOTE_LIFETIME || req.lifetime > settings.maxLifetime then Err(LifetimeInvalid)
    else
      VerifyTicket(settings.crypto, settings.json, root, req.ticket, req.pathID, req.burnToken, req.verifiedAt)
  }

  /** The records that it then marshals. */
  function Stamped(req: CreateRequest, accepted: Accepted): Result<Admitted> {
    if !JsonTime(req.createdAt) || !JsonTime(req.createdAt + req.lifetime) || !JsonTime(accepted.data.exp) then
      Err(MarshalFailed)
    else
      Ok(Admitted(accepted.data.id, accepted.data.exp,
                  Metadata(accepted.verifier, req.createdAt, req.createdAt + req.lifetime)))
  }

  /** Everything `CreateNote` does before it writes. */
  function Admit(settings: Settings, root: Option<Stored<RootKey>>, req: CreateRequest): Result<Admitted> {
    var accepted := Checked(settings, root, req);
    if accepted.Err? then Err(accepted.error) else Stamped(req, accepted.value)
  }

  /** `requestedLifetime`: the handler's check of a request, in whole seconds. */
  function RequestedLifetime(seconds: int): Result<Duration> {
    if seconds < MIN_NOTE_LIFETIME / SECOND || seconds > MAX_NOTE_LIFETIME / SECOND then Err(LifetimeInvalid)
    else Ok(seconds * SECOND)
  }

  /** The handler lets through exactly the seconds that `CreateNote` accepts as nanoseconds, from an hour to fourteen
      days, and asks for just as long. */
  lemma HandlerAgreesOnLifetimes(settings: Settings, root: Option<Stored<RootKey>>, req: CreateRequest, seconds: int)
    requires settings.maxLifetime == MAX_NOTE_LIFETIME && req.lifetime == seconds * SECOND
    requires |req.ticket| <= MAX_TICKET_LENGTH && 1 <= |req.payload| <= settings.maxSize
    ensures RequestedLifetime(seconds)
            == if 3600 <= seconds <= 1209600 then Ok(seconds * 1_000_000_000) else Err(LifetimeInvalid)
    ensures RequestedLifetime(seconds).Err? <==> Admit(settings, root, req) == Err(LifetimeInvalid)
    ensures RequestedLifetime(seconds).Ok? ==> 0 < RequestedLifetime(seconds).value <= MAX_DURATION
  {
    hide VerifyParts, Cut;
    assert MIN_NOTE_LIFETIME == 3600 * SECOND && MAX_NOTE_LIFETIME == 1209600 * SECOND;
    VerificationErrors(settings.crypto, settings.json, root, req.ticket, req.pathID, req.burnToken, req.verifiedAt);
  }

  /** Everything that is checked before a note is written, in the order in which it is reported, and what is then
      written. */
  lemma ChecksInOrder(settings: Settings, root: Option<Stored<RootKey>>, req: CreateRequest)
    ensures var admitted := Admit(settings, root, req);
            var verified := VerifyTicket(settings.crypto, settings.json, root, req.ticket, req.pathID, req.burnToken,
                                         req.verifiedAt);
            if |req.ticket| > 512 then admitted == Err(TicketInvalid)
            else if req.payload == [] then admitted == Err(PayloadEmpty)
            else if |req.payload| > settings.maxSize then admitted == Err(PayloadTooLarge)
            else if req.lifetime < HOUR || req.lifetime > settings.maxLifetime then admitted == Err(LifetimeInvalid)
            else if verified.Err? then admitted == Err(verified.error)
            else if !(JsonTime(req.createdAt) && JsonTime(req.createdAt + req.lifetime)
              && JsonTime(verified.value.data.exp))
            then admitted == Err(MarshalFailed)
            else
              admitted == Ok(Admitted(verified.value.data.id, verified.value.data.exp,
                                      Metadata(verified.value.verifier, req.createdAt, req.createdAt + req.lifetime)))
    ensures var admitted := Admit(settings, root, req);
            && (admitted == Err(PayloadEmpty) <==> |req.ticket| <= 512 && req.payload == [])
            && (admitted == Err(PayloadTooLarge) <==>
                  |req.ticket| <= 512 && req.payload != [] && |req.payload| > settings.maxSize)
  {
    hide VerifyTicket, JsonTime;
    VerificationErrors(settings.crypto, settings.json, root, req.ticket, req.pathID, req.burnToken, req.verifiedAt);
  }

  function CreateStep(settings: Settings, s: Store, req: CreateRequest): Step<NoteID> {
    var admitted := Admit(settings, s.rootKey, req);
    if admitted.Err? then Step(s, Err(admitted.error))
    else
      var a := admitted.value;
      var first := InsertStep(s, a.id, a.metadata, req.payload, a.ticketExp, req.first);
      if first.answer != Err(MaxSizeReached) then Step(first.store, Created(first.answer, a.id))
      else
        var cleaned := CleanupStep(settings, first.store, req.cleanedAt, req.cleaning);
        if cleaned.answer.Err? then Step(cleaned.store, Err(cleaned.answer.error))
        else
          var second := InsertStep(cleaned.store, a.id, a.metadata, req.payload, a.ticketExp, req.second);
          Step(second.store, Created(second.answer, a.id))
  }

  function Created(r: Result<()>, id: NoteID): Result<NoteID> {
    if r == Err(MaxSizeReached) then Err(StorageFull)
    else if r.Err? then Err(r.error)
    else Ok(id)
  }

  /** The checks before the first transaction never blame the file. */
  lemma AdmissionErrors(settings: Settings, root: Option<Stored<RootKey>>, req: CreateRequest)
    ensures var admitted := Admit(settings, root, req);
            admitted.Err? ==> admitted.error !in {MaxSizeReached, StorageFull, IoFailed, TicketUnusable}
  {
    hide VerifyTicket;
    VerificationErrors(settings.crypto, settings.json, root, req.ticket, req.pathID, req.burnToken, req.verifiedAt);
  }

  /** How a full file is answered, on any contents. The error meant for it, "storage full", comes exactly if the cleanup
      commits and the retry finds the file full again. If the cleanup itself finds the file full, its own error comes
      instead, and nothing has changed. */
  lemma FullFileExactly(settings: Settings, s: Store, req: CreateRequest)
    ensures var done := CreateStep(settings, s, req);
            var admitted := Admit(settings, s.rootKey, req);
            var refused := admitted.Ok? && req.first == FillsUp
                           && Inserted(s, admitted.value.id, admitted.value.metadata, req.payload,
                                       admitted.value.ticketExp).Ok?;
            && (done.answer == Err(StorageFull) <==> refused && req.cleaning == Commits && req.second == FillsUp)
            && (done.answer == Err(MaxSizeReached) <==> refused && req.cleaning == FillsUp)
            && (done.answer == Err(MaxSizeReached) ==> done.store == s)
  {
    hide Admit, StaleNotes, StaleMarkers;
    AdmissionErrors(settings, s.rootKey, req);
  }

  function EnsureRootKeysStep(s: Store, now: Time, secret: Bytes32, outcome: Outcome): Step<()> {
    if s.rootKey.Some? then
      var key := GetRootKey(s.rootKey);
      if key.Err? then Step(s, Err(key.error)) else Finish(s, s, (), outcome)
    else if now == 0 then Step(s, Err(RootKeyUnavailable))
    else if !JsonTime(now) then Step(s, Err(MarshalFailed))
    else Finish(s, s.(rootKey := Some(Parsed(RootKey(now, secret)))), (), outcome)
  }

  /** A start of the process: its two clock readings, the drawn secret and what each transaction meets. */
  datatype Startup = Startup(keysAt: Time, secret: Bytes32, keys: Outcome, cleanedAt: Time, cleaning: Outcome)

  function StartupStep(settings: Settings, s: Store, start: Startup): Step<()> {
    var keys := EnsureRootKeysStep(s, start.keysAt, start.secret, start.keys);
    if keys.answer.Err? then keys
    else CleanupStep(settings, keys.store, start.cleanedAt, start.cleaning)
  }

  // ---- the operations on arbitrary contents, told without their helpers ----

  /** A record that makes sense: both times set and in order, no longer apart than a note may live, and a whole MAC. */
  predicate WellFormed(maxLifetime: Duration, m: Metadata) {
    && m.createdAt != 0 && m.expiresAt != 0
    && m.createdAt <= m.expiresAt <= m.createdAt + maxLifetime
    && |m.burnVerifier| == 32
  }

  predicate Usable(root: Option<Stored<RootKey>>) {
    root.Some? && root.value.Parsed? && |root.value.value.secret| == 32 && root.value.value.createdAt != 0
  }

  /** What a committed cleanup leaves: exactly the well-formed notes that have not expired, exactly the readable markers
      that have not expired, and nothing changed. Only payloads without a record escape it. */
  lemma CleanupExactly(settings: Settings, s: Store, now: Time, id: NoteID)
    requires settings.maxLifetime < MAX_DURATION
    ensures var after := CleanupStep(settings, s, now, Commits).store;
            var keeps := id in s.metadata && s.metadata[id].Parsed?
                         && WellFormed(settings.maxLifetime, s.metadata[id].value)
                         && now <= s.metadata[id].value.expiresAt;
            var marks := id in s.usedTickets && s.usedTickets[id].Parsed? && now <= s.usedTickets[id].value.expiresAt;
            && (id in after.metadata <==> keeps) && (keeps ==> after.metadata[id] == s.metadata[id])
            && (id in after.payloads <==> id in s.payloads && (id in s.metadata ==> keeps))
            && (id in after.payloads ==> after.payloads[id] == s.payloads[id])
            && (id in after.usedTickets <==> marks) && (marks ==> after.usedTickets[id] == s.usedTickets[id])
            && after.rootKey == s.rootKey
  {
  }

  /** After a start that succeeds, nothing that has expired or makes no sense is left, and the root key is usable: the
      one that was there, or else the one that was drawn. */
  lemma StartLeavesNothingStale(settings: Settings, s: Store, start: Startup, id: NoteID)
    requires settings.maxLifetime < MAX_DURATION && StartupStep(settings, s, start).answer.Ok?
    ensures var after := StartupStep(settings, s, start).store;
            && (id in after.metadata ==>
                  id in s.metadata && after.metadata[id] == s.metadata[id] && after.metadata[id].Parsed?
                  && WellFormed(settings.maxLifetime, after.metadata[id].value)
                  && start.cleanedAt <= after.metadata[id].value.expiresAt)
            && (id in after.usedTickets ==>
                  id in s.usedTickets && after.usedTickets[id] == s.usedTickets[id] && after.usedTickets[id].Parsed?
                  && start.cleanedAt <= after.usedTickets[id].value.expiresAt)
            && Usable(after.rootKey)
            && after.rootKey == if s.rootKey.Some? then s.rootKey else Some(Parsed(RootKey(start.keysAt, start.secret)))
  {
    hide CleanupStep;
    KeysExactly(s, start.keysAt, start.secret);
    CleanupExactly(settings, EnsureRootKeysStep(s, start.keysAt, start.secret, start.keys).store, start.cleanedAt, id);
    assert start.cleaning == Commits by { OnlyCommitsSucceed(settings, s, start); }
  }

  lemma OnlyCommitsSucceed(settings: Settings, s: Store, start: Startup)
    requires StartupStep(settings, s, start).answer.Ok?
    ensures start.keys == Commits && start.cleaning == Commits
  {
    hide CleanedUp;
  }

  /** What becomes of the root key at a start whose transaction commits. */
  lemma KeysExactly(s: Store, now: Time, secret: Bytes32)
    ensures var done := EnsureRootKeysStep(s, now, secret, Commits);
            if Usable(s.rootKey) then done == Step(s, Ok(()))
            else if s.rootKey.Some? then done == Step(s, Err(RootKeyUnavailable))
            else if now == 0 then done == Step(s, Err(RootKeyUnavailable))
            else if !JsonTime(now) then done == Step(s, Err(MarshalFailed))
            else done == Step(s.(rootKey := Some(Parsed(RootKey(now, secret)))), Ok(()))
  {
  }

  /** An open, on any contents: when it hands out the note, which note that is, when it removes one, and what it
      reports. */
  lemma OpenExactly(settings: Settings, s: Store, id: NoteID, token: BurnToken, now: Time, outcome: Outcome)
    requires settings.maxLifetime < MAX_DURATION
    ensures var done := OpenStep(settings, s, id, token, now, outcome);
            var found := id in s.metadata && id in s.payloads;
            var sound := found && s.metadata[id].Parsed? && WellFormed(settings.maxLifetime, s.metadata[id].value);
            var usable := Usable(s.rootKey);
            var matches := sound && usable
                           && settings.crypto.mac(settings.crypto.derive(s.rootKey.value.value.secret,
                               "burn verifier v1"), token)
                              == s.metadata[id].value.burnVerifier;
            && (done.answer.Ok? <==> outcome == Commits && matches && now <= s.metadata[id].value.expiresAt)
            && (done.answer.Ok? ==> done.answer == Ok(Note(s.payloads[id], s.metadata[id].value)))
            && (done.answer == Err(RootKeyUnavailable) <==> sound && !usable)
            && (outcome == Commits && !(sound && !usable) && done.answer.Err? ==> done.answer == Err(NoteOpenFailed))
            && done.store == (if outcome == Commits && found && (!sound || matches)
                              then s.(metadata := s.metadata - {id}, payloads := s.payloads - {id}) else s)
  {
  }
}
