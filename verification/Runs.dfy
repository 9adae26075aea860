/** What whole runs of the note service promise, read off the ledger and carried over by CleanupIsInvisible. */
module Runs {
  import opened Base
  import opened Tickets
  import opened NoteStore
  import opened Traces

  // ---- facts about the ledger alone ----

  predicate Hands(op: Operation, answer: Answer, id: NoteID) {
    op.Open? && op.id == id && answer.Opening? && answer.note.Ok?
  }

  lemma {:induction false} AnswersLength(settings: Settings, s: Store, l: Ledger, ops: seq<Operation>)
    ensures |Answers(settings, s, ops)| == |ops| && |RecordedAnswers(settings, l, ops)| == |ops|
    decreases |ops|
  {
    hide Serve, Record;
    if ops != [] {
      AnswersLength(settings, Serve(settings, s, ops[0]).store, Record(settings, l, ops[0]).ledger, ops[1..]);
    }
  }

  /** One entry of the ledger never changes once it is there, and stays burned once it is burned. */
  lemma RecordKeeps(settings: Settings, l: Ledger, op: Operation, id: NoteID)
    ensures Record(settings, l, op).ledger.root == l.root
    ensures id in l.notes ==>
              id in Record(settings, l, op).ledger.notes && Record(settings, l, op).ledger.notes[id] == l.notes[id]
    ensures id in l.burned ==> id in Record(settings, l, op).ledger.burned
    ensures Record(settings, l, op).answer == Creating(Ok(id)) ==>
              id !in l.notes && id in Record(settings, l, op).ledger.notes
    ensures Hands(op, Record(settings, l, op).answer, id) ==>
              id in l.notes && id !in l.burned && id in Record(settings, l, op).ledger.burned
    ensures id !in l.burned && !Hands(op, Record(settings, l, op).answer, id) ==>
              id !in Record(settings, l, op).ledger.burned
  {
    hide Admit, CreateTicket, BurnVerifier;
  }

  lemma CreatedEntry(settings: Settings, l: Ledger, op: Operation, id: NoteID)
    requires id !in l.notes && id in Record(settings, l, op).ledger.notes
    ensures op.Create? && Record(settings, l, op).answer == Creating(Ok(id))
    ensures var note := Record(settings, l, op).ledger.notes[id].note;
            note.payload == op.request.payload && note.metadata.createdAt == op.request.createdAt
            && note.metadata.expiresAt == op.request.createdAt + op.request.lifetime
  {
    hide VerifyTicket, CreateTicket;
  }

  lemma {:induction false} SpentForGood(settings: Settings, l: Ledger, ops: seq<Operation>, id: NoteID, j: nat)
    requires j < |ops|
    ensures |RecordedAnswers(settings, l, ops)| == |ops|
    ensures id in l.notes ==> RecordedAnswers(settings, l, ops)[j] != Creating(Ok(id))
    ensures id in l.burned ==> !Hands(ops[j], RecordedAnswers(settings, l, ops)[j], id)
    decreases |ops|
  {
    hide Record, Hands;
    RecordKeeps(settings, l, ops[0], id);
    if j > 0 {
      SpentForGood(settings, Record(settings, l, ops[0]).ledger, ops[1..], id, j - 1);
    } else if |ops| > 1 {
      SpentForGood(settings, Record(settings, l, ops[0]).ledger, ops[1..], id, 0);
    }
  }

  lemma {:induction false} LedgerAnswersOnce(settings: Settings, l: Ledger, ops: seq<Operation>, id: NoteID, i: nat,
                                             j: nat)
    requires i < j < |ops|
    ensures |RecordedAnswers(settings, l, ops)| == |ops|
    ensures RecordedAnswers(settings, l, ops)[i] == Creating(Ok(id)) ==>
              RecordedAnswers(settings, l, ops)[j] != Creating(Ok(id))
    ensures Hands(ops[i], RecordedAnswers(settings, l, ops)[i], id) ==>
              !Hands(ops[j], RecordedAnswers(settings, l, ops)[j], id)
    decreases |ops|
  {
    hide Record, Hands;
    RecordKeeps(settings, l, ops[0], id);
    if i > 0 {
      LedgerAnswersOnce(settings, Record(settings, l, ops[0]).ledger, ops[1..], id, i - 1, j - 1);
    } else {
      SpentForGood(settings, Record(settings, l, ops[0]).ledger, ops[1..], id, j - 1);
    }
  }

  /** The note that an entry was made for. */
  ghost predicate MadeBy(op: Operation, answer: Answer, id: NoteID, note: Note) {
    && op.Create? && answer == Creating(Ok(id))
    && note.payload == op.request.payload
    && note.metadata.createdAt == op.request.createdAt
    && note.metadata.expiresAt == op.request.createdAt + op.request.lifetime
  }

  lemma {:induction false} LedgerHandsWhatWasMade(settings: Settings, l: Ledger, ops: seq<Operation>, id: NoteID,
                                                  j: nat) returns (i: int)
    requires j < |ops|
    requires |RecordedAnswers(settings, l, ops)| == |ops| && Hands(ops[j], RecordedAnswers(settings, l, ops)[j], id)
    ensures if i < 0 then id in l.notes && l.notes[id].note == RecordedAnswers(settings, l, ops)[j].note.value
            else i < j && MadeBy(ops[i], RecordedAnswers(settings, l, ops)[i], id,
                                 RecordedAnswers(settings, l, ops)[j].note.value)
    decreases |ops|
  {
    var next := Record(settings, l, ops[0]);
    RecordKeeps(settings, l, ops[0], id);
    if j == 0 {
      hide BurnVerifier;
      return -1;
    }
    hide Record, Hands;
    i := LedgerHandsWhatWasMade(settings, next.ledger, ops[1..], id, j - 1);
    if i >= 0 {
      i := i + 1;
    } else if id !in l.notes {
      CreatedEntry(settings, l, ops[0], id);
      i := 0;
    }
  }

  // ---- the same facts about the service ----

  /** A ticket makes at most one note, and a note is handed out at most once. */
  lemma AtMostOnce(settings: Settings, s: Store, l: Ledger, ops: seq<Operation>, clock: Time, id: NoteID, i: nat,
                   j: nat)
    requires Laws(settings) && Agree(settings, s, l, clock) && PossibleRun(settings, l, ops, clock)
    requires i < j < |ops|
    ensures |Answers(settings, s, ops)| == |ops|
    ensures Answers(settings, s, ops)[i] == Creating(Ok(id)) ==> Answers(settings, s, ops)[j] != Creating(Ok(id))
    ensures Hands(ops[i], Answers(settings, s, ops)[i], id) ==> !Hands(ops[j], Answers(settings, s, ops)[j], id)
  {
    hide Agree, PossibleRun, Laws, Hands;
    CleanupIsInvisible(settings, s, l, ops, clock);
    LedgerAnswersOnce(settings, l, ops, id, i, j);
  }

  /** Whatever is handed out was stored, byte for byte, by an earlier successful creation of that identifier. */
  lemma HandsWhatWasMade(settings: Settings, s: Store, l: Ledger, ops: seq<Operation>, clock: Time, id: NoteID, j: nat)
    returns (i: nat)
    requires Laws(settings) && Agree(settings, s, l, clock) && PossibleRun(settings, l, ops, clock)
    requires id !in l.notes
    requires j < |ops| && |Answers(settings, s, ops)| == |ops| && Hands(ops[j], Answers(settings, s, ops)[j], id)
    ensures i < j && MadeBy(ops[i], Answers(settings, s, ops)[i], id, Answers(settings, s, ops)[j].note.value)
  {
    hide Agree, PossibleRun, Laws;
    CleanupIsInvisible(settings, s, l, ops, clock);
    i := LedgerHandsWhatWasMade(settings, l, ops, id, j);
  }

  lemma {:induction false} UnopenedStays(settings: Settings, l: Ledger, ops: seq<Operation>, id: NoteID)
    requires id in l.notes && id !in l.burned
    ensures |RecordedAnswers(settings, l, ops)| == |ops|
    ensures var k := RecordAll(settings, l, ops);
            && k.root == l.root
            && id in k.notes && k.notes[id] == l.notes[id]
            && (id in k.burned <==> exists i ::
                 0 <= i < |ops| && Hands(ops[i], RecordedAnswers(settings, l, ops)[i], id))
    decreases |ops|
  {
    hide Record, Hands;
    if ops != [] {
      var next := Record(settings, l, ops[0]);
      RecordKeeps(settings, l, ops[0], id);
      AnswersLength(settings, Store(map[], map[], map[], None), next.ledger, ops[1..]);
      var rest := RecordedAnswers(settings, next.ledger, ops[1..]);
      assert RecordedAnswers(settings, l, ops) == [next.answer] + rest;
      if id in next.ledger.burned {
        BurnedStays(settings, next.ledger, ops[1..], id);
        assert Hands(ops[0], RecordedAnswers(settings, l, ops)[0], id);
      } else {
        UnopenedStays(settings, next.ledger, ops[1..], id);
        assert !Hands(ops[0], RecordedAnswers(settings, l, ops)[0], id);
        if i :| 0 <= i < |ops| && Hands(ops[i], RecordedAnswers(settings, l, ops)[i], id) {
          assert Hands(ops[1..][i - 1], rest[i - 1], id);
        }
        if i :| 0 <= i < |ops| - 1 && Hands(ops[1..][i], rest[i], id) {
          assert Hands(ops[i + 1], RecordedAnswers(settings, l, ops)[i + 1], id);
        }
      }
    }
  }

  lemma {:induction false} BurnedStays(settings: Settings, l: Ledger, ops: seq<Operation>, id: NoteID)
    requires id in l.notes && id in l.burned
    ensures var k := RecordAll(settings, l, ops);
            k.root == l.root && id in k.notes && k.notes[id] == l.notes[id] && id in k.burned
    decreases |ops|
  {
    hide Record, Hands;
    if ops != [] {
      RecordKeeps(settings, l, ops[0], id);
      BurnedStays(settings, Record(settings, l, ops[0]).ledger, ops[1..], id);
    }
  }

  /** What a successful creation puts into the ledger. */
  lemma NewEntry(settings: Settings, l: Ledger, req: CreateRequest, clock: Time)
    requires Laws(settings) && SoundLedger(settings, l) && 0 < clock && Possible(settings, l, Create(req), clock)
    requires RecordCreate(settings, l, req).answer.created.Ok?
    ensures RecordCreate(settings, l, req).answer == Creating(Ok(req.pathID))
    ensures var k := RecordCreate(settings, l, req).ledger;
            && k.root == l.root && req.pathID in k.notes && req.pathID !in k.burned
            && k.notes[req.pathID].note.payload == req.payload
            && k.notes[req.pathID].note.metadata.expiresAt == req.createdAt + req.lifetime
            && k.notes[req.pathID].note.metadata.burnVerifier
               == BurnVerifier(settings.crypto, l.root.secret, req.burnToken)
  {
    hide Admit, Laws, IssuedTable, ValidMetadata, BurnVerifier;
    if Admit(settings, Some(Parsed(l.root)), req).Ok? {
      AdmittedFacts(settings, l, req, clock);
    }
  }

  /** A stored note stays until it is opened: after any operations whatever, an open with the creator's token
      returns the stored bytes exactly when it comes no later than the expiry and no open before it succeeded. */
  lemma LiveNoteSurvives(settings: Settings, s: Store, l: Ledger, clock: Time,
                         req: CreateRequest, others: seq<Operation>, now: Time)
    requires Laws(settings) && Agree(settings, s, l, clock) && Possible(settings, l, Create(req), clock)
    requires CreateStep(settings, s, req).answer.Ok?
    requires PossibleRun(settings, RecordCreate(settings, l, req).ledger, others, req.cleanedAt)
    requires ClockAfter(others, req.cleanedAt) <= now
    ensures var stored := CreateStep(settings, s, req).store;
            var given := Answers(settings, stored, others);
            var last := OpenStep(settings, After(settings, stored, others), req.pathID, req.burnToken, now,
                                 Commits).answer;
            && |given| == |others|
            && (last.Ok? <==> now <= req.createdAt + req.lifetime
                              && !exists i :: 0 <= i < |others| && Hands(others[i], given[i], req.pathID))
            && (last.Ok? ==> last.value.payload == req.payload)
            && (last.Err? ==> last == Err(NoteOpenFailed))
  {
    hide Agree, PossibleRun, CreateStep, OpenStep, Laws, Hands, RecordCreate, Possible, BurnVerifier;
    CreateAgrees(settings, s, l, req, clock);
    AgreementIsSound(settings, s, l, clock);
    NewEntry(settings, l, req, clock);
    var k := RecordCreate(settings, l, req).ledger;
    var stored := CreateStep(settings, s, req).store;
    CleanupIsInvisible(settings, stored, k, others, req.cleanedAt);
    UnopenedStays(settings, k, others, req.pathID);
    OpenAgrees(settings, After(settings, stored, others), RecordAll(settings, k, others), req.pathID, req.burnToken,
               now,
               Commits, ClockAfter(others, req.cleanedAt));
  }

  lemma AgreementIsSound(settings: Settings, s: Store, l: Ledger, clock: Time)
    requires Agree(settings, s, l, clock)
    ensures clock > 0 && SoundLedger(settings, l) && s.rootKey == Some(Parsed(l.root)) && ValidRootKey(l.root)
  {
  }

  lemma VerifiersTellTokens(c: Crypto, secret: Bytes, a: BurnToken, b: BurnToken)
    requires MacTellsTokens(c) && a != b
    ensures BurnVerifier(c, secret, a) != BurnVerifier(c, secret, b)
  {
    assert c.mac(c.derive(secret, "burn verifier v1"), a) != c.mac(c.derive(secret, "burn verifier v1"), b);
  }

  /** After a note was created with one token, and whatever happened since, any other token opens nothing, and changes
      nothing that a later open could notice. */
  lemma WrongTokenOpensNothing(settings: Settings, s: Store, l: Ledger, clock: Time, req: CreateRequest,
                               others: seq<Operation>, wrong: BurnToken, now: Time, outcome: Outcome)
    requires Laws(settings) && MacTellsTokens(settings.crypto)
    requires Agree(settings, s, l, clock) && Possible(settings, l, Create(req), clock)
    requires CreateStep(settings, s, req).answer.Ok? && wrong != req.burnToken
    requires PossibleRun(settings, RecordCreate(settings, l, req).ledger, others, req.cleanedAt)
    requires ClockAfter(others, req.cleanedAt) <= now
    ensures var reached := After(settings, CreateStep(settings, s, req).store, others);
            var ledger := RecordAll(settings, RecordCreate(settings, l, req).ledger, others);
            var done := OpenStep(settings, reached, req.pathID, wrong, now, outcome);
            && done.answer.Err? && (outcome == Commits ==> done.answer == Err(NoteOpenFailed))
            && Agree(settings, reached, ledger, now) && Agree(settings, done.store, ledger, now)
  {
    hide Agree, PossibleRun, CreateStep, OpenStep, Laws, Hands, RecordCreate, Possible, BurnVerifier, Record;
    CreateAgrees(settings, s, l, req, clock);
    AgreementIsSound(settings, s, l, clock);
    NewEntry(settings, l, req, clock);
    var k := RecordCreate(settings, l, req).ledger;
    var stored := CreateStep(settings, s, req).store;
    CleanupIsInvisible(settings, stored, k, others, req.cleanedAt);
    UnopenedStays(settings, k, others, req.pathID);
    VerifiersTellTokens(settings.crypto, l.root.secret, wrong, req.burnToken);
    OpenAgrees(settings, After(settings, stored, others), RecordAll(settings, k, others), req.pathID, wrong, now,
               outcome, ClockAfter(others, req.cleanedAt));
    LaterAgrees(settings, After(settings, stored, others), RecordAll(settings, k, others),
                ClockAfter(others, req.cleanedAt), now);
  }


  /** A creation that fails leaves no trace: whatever follows is answered as if it had never been tried. */
  lemma FailedCreateIsInvisible(settings: Settings, s: Store, l: Ledger, clock: Time, req: CreateRequest,
                                others: seq<Operation>)
    requires Laws(settings) && Agree(settings, s, l, clock) && Possible(settings, l, Create(req), clock)
    requires CreateStep(settings, s, req).answer.Err?
    requires PossibleRun(settings, l, others, req.cleanedAt)
    ensures Answers(settings, CreateStep(settings, s, req).store, others) == Answers(settings, s, others)
  {
    hide Agree, PossibleRun, CreateStep, Laws, Possible;
    CreateAgrees(settings, s, l, req, clock);
    FailedEntry(settings, l, req);
    assert clock <= req.cleanedAt by { ReadingsInOrder(settings, l, req, clock); }
    LaterAgrees(settings, s, l, clock, req.cleanedAt);
    CleanupIsInvisible(settings, s, l, others, req.cleanedAt);
    CleanupIsInvisible(settings, CreateStep(settings, s, req).store, l, others, req.cleanedAt);
  }

  lemma ReadingsInOrder(settings: Settings, l: Ledger, req: CreateRequest, clock: Time)
    requires Possible(settings, l, Create(req), clock)
    ensures clock <= req.cleanedAt
  {
  }

  lemma FailedEntry(settings: Settings, l: Ledger, req: CreateRequest)
    ensures RecordCreate(settings, l, req).answer.Creating?
    ensures RecordCreate(settings, l, req).answer.created.Err? ==> RecordCreate(settings, l, req).ledger == l
  {
    hide Admit;
  }

  /** On any buckets at all, a failed creation adds nothing and drops at most what a cleanup would drop. */
  lemma FailedCreateOnlyForgets(settings: Settings, s: Store, req: CreateRequest)
    requires CreateStep(settings, s, req).answer.Err?
    ensures var after := CreateStep(settings, s, req).store;
            && after.metadata.Keys <= s.metadata.Keys && after.payloads.Keys <= s.payloads.Keys
            && after.usedTickets.Keys <= s.usedTickets.Keys && after.rootKey == s.rootKey
            && (forall id :: id in s.metadata && Readable(settings.maxLifetime, s.metadata[id])
                             && s.metadata[id].value.expiresAt >= req.cleanedAt ==>
                               id in after.metadata && after.metadata[id] == s.metadata[id]
                               && (id in s.payloads ==> id in after.payloads && after.payloads[id] == s.payloads[id]))
            && (forall id :: id in s.usedTickets && s.usedTickets[id].Parsed?
                             && s.usedTickets[id].value.expiresAt >= req.cleanedAt ==>
                               id in after.usedTickets && after.usedTickets[id] == s.usedTickets[id])
  {
    hide Admit, Inserted, ValidMetadata;
    assert CreateStep(settings, s, req).store == s
           || CreateStep(settings, s, req).store == CleanedUp(settings.maxLifetime, s, req.cleanedAt) by {
      hide CleanedUp;
    }
  }

  /** On every possible run the buckets stay readable and paired, and the root key is the one they started with. */
  lemma RecordsStayReadable(settings: Settings, s: Store, l: Ledger, ops: seq<Operation>, clock: Time)
    requires Laws(settings) && Agree(settings, s, l, clock) && PossibleRun(settings, l, ops, clock)
    ensures var after := After(settings, s, ops);
            && after.metadata.Keys == after.payloads.Keys
            && (forall id :: id in after.metadata ==> Readable(settings.maxLifetime, after.metadata[id]))
            && (forall id :: id in after.usedTickets ==> after.usedTickets[id].Parsed?)
            && after.rootKey == s.rootKey
  {
    hide PossibleRun, Laws, ValidMetadata, After, RecordAll, IssuedTable;
    CleanupIsInvisible(settings, s, l, ops, clock);
    RootStays(settings, l, ops);
  }

  lemma {:induction false} RootStays(settings: Settings, l: Ledger, ops: seq<Operation>)
    ensures RecordAll(settings, l, ops).root == l.root
    decreases |ops|
  {
    hide Record;
    if ops != [] {
      RecordKeeps(settings, l, ops[0], seq(32, i => 0));
      RootStays(settings, Record(settings, l, ops[0]).ledger, ops[1..]);
    }
  }

  /** A stored root key, even an unreadable one, is never replaced, whatever the buckets hold and whatever happens. */
  lemma {:induction false} RootKeyIsNeverReplaced(settings: Settings, s: Store, ops: seq<Operation>)
    requires s.rootKey.Some?
    ensures After(settings, s, ops).rootKey == s.rootKey
    decreases |ops|
  {
    hide Serve;
    if ops != [] {
      OperationKeepsRoot(settings, s, ops[0]);
      RootKeyIsNeverReplaced(settings, Serve(settings, s, ops[0]).store, ops[1..]);
    }
  }

  lemma OperationKeepsRoot(settings: Settings, s: Store, op: Operation)
    requires s.rootKey.Some?
    ensures Serve(settings, s, op).store.rootKey == s.rootKey
  {
    hide CreateTicket, CreateStep, OpenStep;
    match op
    case Create(request) =>
      assert CreateStep(settings, s, request).store.rootKey == s.rootKey by { CreateKeepsRoot(settings, s, request); }
    case Open(id, token, now, outcome) => OpenKeepsRoot(settings, s, id, token, now, outcome);
    case _ =>
  }

  lemma CreateKeepsRoot(settings: Settings, s: Store, req: CreateRequest)
    ensures CreateStep(settings, s, req).store.rootKey == s.rootKey
  {
    hide Admit, StaleNotes, StaleMarkers;
  }

  lemma OpenKeepsRoot(settings: Settings, s: Store, id: NoteID, token: BurnToken, now: Time, outcome: Outcome)
    ensures OpenStep(settings, s, id, token, now, outcome).store.rootKey == s.rootKey
  {
    hide Readable, BurnVerifier;
  }

  /** A new database, once its first start-up succeeds, agrees with the empty ledger of the key it drew. */
  lemma FirstStartAgrees(settings: Settings, start: Startup)
    requires 0 < start.keysAt <= start.cleanedAt
    requires StartupStep(settings, Store(map[], map[], map[], None), start).answer.Ok?
    ensures Agree(settings, StartupStep(settings, Store(map[], map[], map[], None), start).store,
                  Ledger(RootKey(start.keysAt, start.secret), map[], map[], {}), start.cleanedAt)
  {
  }

  lemma {:induction false} NotesComeFromCreations(settings: Settings, l: Ledger, ops: seq<Operation>, id: NoteID)
    ensures |RecordedAnswers(settings, l, ops)| == |ops|
    ensures id in RecordAll(settings, l, ops).notes <==>
              id in l.notes || exists i :: 0 <= i < |ops| && RecordedAnswers(settings, l, ops)[i] == Creating(Ok(id))
    decreases |ops|
  {
    hide Record;
    if ops != [] {
      var next := Record(settings, l, ops[0]);
      RecordKeeps(settings, l, ops[0], id);
      NotesComeFromCreations(settings, next.ledger, ops[1..], id);
      var rest := RecordedAnswers(settings, next.ledger, ops[1..]);
      assert RecordedAnswers(settings, l, ops) == [next.answer] + rest;
      if id !in l.notes && id in next.ledger.notes {
        CreatedEntry(settings, l, ops[0], id);
        assert RecordedAnswers(settings, l, ops)[0] == Creating(Ok(id));
      }
      if i :| 0 <= i < |rest| && rest[i] == Creating(Ok(id)) {
        assert RecordedAnswers(settings, l, ops)[i + 1] == Creating(Ok(id));
      }
      if i :| 0 <= i < |ops| && RecordedAnswers(settings, l, ops)[i] == Creating(Ok(id)) {
        if i > 0 {
          assert rest[i - 1] == Creating(Ok(id));
        }
      }
    }
  }

  lemma {:induction false} TicketsStayIssued(settings: Settings, l: Ledger, ops: seq<Operation>, clock: Time,
                                             id: NoteID)
    requires PossibleRun(settings, l, ops, clock) && id in l.issued
    ensures id in RecordAll(settings, l, ops).issued && RecordAll(settings, l, ops).issued[id] == l.issued[id]
    decreases |ops|
  {
    if ops != [] {
      TicketStaysIssued(settings, l, ops[0], clock, id);
      hide Record, Possible, LastReading;
      TicketsStayIssued(settings, Record(settings, l, ops[0]).ledger, ops[1..], LastReading(ops[0]), id);
    }
  }

  lemma TicketStaysIssued(settings: Settings, l: Ledger, op: Operation, clock: Time, id: NoteID)
    requires Possible(settings, l, op, clock) && id in l.issued
    ensures id in Record(settings, l, op).ledger.issued && Record(settings, l, op).ledger.issued[id] == l.issued[id]
  {
    hide Admit, CreateTicket, Unforged, BurnVerifier;
  }

  /** The request that uses a ticket as its holder should. */
  predicate ProperUse(settings: Settings, req: CreateRequest, id: NoteID, token: BurnToken, ticket: string) {
    && req.pathID == id && req.burnToken == token && req.ticket == ticket
    && 1 <= |req.payload| <= settings.maxSize
    && MIN_NOTE_LIFETIME <= req.lifetime <= settings.maxLifetime
    && req.verifiedAt <= req.createdAt && JsonTime(req.createdAt) && JsonTime(req.createdAt + req.lifetime)
  }

  lemma ProperUseIsAdmitted(settings: Settings, key: RootKey, issuedAt: Time, id: NoteID, token: BurnToken,
                            req: CreateRequest)
    requires Laws(settings) && ValidRootKey(key) && 0 < issuedAt <= req.verifiedAt
    requires JsonTime(issuedAt) && JsonTime(issuedAt + TICKET_TIMEOUT)
    ensures var ticket := CreateTicket(settings.crypto, settings.json, Some(Parsed(key)), issuedAt, id, token);
            && ticket.Ok?
            && (ProperUse(settings, req, id, token, ticket.value.value) ==>
                  var admitted := Admit(settings, Some(Parsed(key)), req);
                  if req.verifiedAt > issuedAt + TICKET_TIMEOUT then admitted == Err(TicketExpired)
                  else admitted.Ok? && admitted.value.id == id)
  {
    hide VerifyTicket, CreateTicket, JsonLaws;
    IssueThenVerify(settings.crypto, settings.json, key, issuedAt, id, token, req.verifiedAt);
    assert CreateTicket(settings.crypto, settings.json, Some(Parsed(key)), issuedAt, id, token).value.data
           == FreshTicketData(settings.crypto, key.secret, issuedAt, id, token)
             by { IssuedDataIsFresh(settings, key, issuedAt, id, token); }
  }

  lemma IssuedDataIsFresh(settings: Settings, key: RootKey, now: Time, id: NoteID, token: BurnToken)
    requires ValidRootKey(key) && JsonTime(now) && JsonTime(now + TICKET_TIMEOUT)
    ensures var ticket := CreateTicket(settings.crypto, settings.json, Some(Parsed(key)), now, id, token);
            ticket.Ok? && ticket.value.data == FreshTicketData(settings.crypto, key.secret, now, id, token)
            && ticket.value.data.id == id && ticket.value.burnToken == token
  {
    hide Sealed, MarshalTicket;
  }

  /** An issued ticket, used properly after any other operations, restarts included, makes its note exactly when it has
      not expired and no note was made from it before. */
  lemma TicketWorksOnce(settings: Settings, s: Store, l: Ledger, clock: Time, issuedAt: Time, id: NoteID,
                        token: BurnToken,
                        others: seq<Operation>, req: CreateRequest)
    requires Laws(settings) && Agree(settings, s, l, clock) && clock <= issuedAt && id !in l.issued
    requires JsonTime(issuedAt) && JsonTime(issuedAt + TICKET_TIMEOUT)
    requires PossibleRun(settings, Record(settings, l, Issue(issuedAt, id, token)).ledger, others, issuedAt)
    requires ClockAfter(others, issuedAt) <= req.verifiedAt && issuedAt <= req.verifiedAt
    ensures var issued := CreateTicket(settings.crypto, settings.json, s.rootKey, issuedAt, id, token);
            var given := Answers(settings, s, others);
            && issued.Ok? && |given| == |others|
            && var t := issued.value;
            && t.data.id == id
            && (ProperUse(settings, req, t.data.id, t.burnToken, t.value) && req.first == Commits ==>
                  CreateStep(settings, After(settings, s, others), req).answer ==
                  if req.verifiedAt > issuedAt + 15 * MINUTE then Err(TicketExpired)
                  else if exists i :: 0 <= i < |given| && given[i] == Creating(Ok(id)) then Err(TicketUnusable)
                  else Ok(id))
  {
    hide Agree, PossibleRun, Laws, Record, CreateTicket, Admit, ProperUse, SoundLedger, Inserted;
    AgreementIsSound(settings, s, l, clock);
    IssueAgrees(settings, s, l, issuedAt, id, token, clock);
    ProperUseIsAdmitted(settings, l.root, issuedAt, id, token, req);
    IssuedDataIsFresh(settings, l.root, issuedAt, id, token);
    var k := Record(settings, l, Issue(issuedAt, id, token)).ledger;
    IssuedRecord(settings, l, issuedAt, id, token);
    CleanupIsInvisible(settings, s, k, others, issuedAt);
    TicketsStayIssued(settings, k, others, issuedAt, id);
    NotesComeFromCreations(settings, k, others, id);
    RootStays(settings, k, others);
    var after, kept := After(settings, s, others), RecordAll(settings, k, others);
    AgreementIsSound(settings, after, kept, ClockAfter(others, issuedAt));
    LaterAgrees(settings, after, kept, ClockAfter(others, issuedAt), req.verifiedAt);
    InsertionIsDecided(settings, after, kept, id, req.verifiedAt);
  }

  lemma IssuedRecord(settings: Settings, l: Ledger, now: Time, id: NoteID, token: BurnToken)
    requires SoundLedger(settings, l) && JsonTime(now) && JsonTime(now + TICKET_TIMEOUT) && id !in l.issued
    ensures var k := Record(settings, l, Issue(now, id, token)).ledger;
            k.root == l.root && id !in k.notes && id in k.issued && k.issued[id].exp == now + TICKET_TIMEOUT
  {
    hide CreateTicket;
    IssuedDataIsFresh(settings, l.root, now, id, token);
  }

  /** A request that meets the condition of FullFileExactly: a ticket is issued and used at once, for a note of an hour,
      while the file is full even for the cleanup. */
  function FullFileRequest(settings: Settings, key: RootKey, issuedAt: Time, id: NoteID, token: BurnToken,
                           payload: Bytes): CreateRequest
    requires CreateTicket(settings.crypto, settings.json, Some(Parsed(key)), issuedAt, id, token).Ok?
  {
    var ticket := CreateTicket(settings.crypto, settings.json, Some(Parsed(key)), issuedAt, id, token).value.value;
    CreateRequest(id, ticket, token, payload, MIN_NOTE_LIFETIME, issuedAt, issuedAt, issuedAt, FillsUp, FillsUp,
                  FillsUp)
  }

  /** On any service whose buckets do not know the identifier, that request is answered with the database's own
      error. */
  lemma FullFileSurfaces(settings: Settings, s: Store, key: RootKey, issuedAt: Time, id: NoteID, token: BurnToken,
                         payload: Bytes)
    requires Laws(settings) && s.rootKey == Some(Parsed(key)) && ValidRootKey(key)
    requires 0 < issuedAt && JsonTime(issuedAt + MIN_NOTE_LIFETIME) && settings.maxLifetime >= MIN_NOTE_LIFETIME
    requires 1 <= |payload| <= settings.maxSize
    requires id !in s.metadata && id !in s.payloads && id !in s.usedTickets
    ensures CreateTicket(settings.crypto, settings.json, s.rootKey, issuedAt, id, token).Ok?
    ensures CreateStep(settings, s, FullFileRequest(settings, key, issuedAt, id, token, payload)).answer
            == Err(MaxSizeReached)
  {
    hide Laws, CreateTicket, Admit, CreateStep;
    assert JsonTime(issuedAt + TICKET_TIMEOUT);
    IssuedDataIsFresh(settings, key, issuedAt, id, token);
    var req := FullFileRequest(settings, key, issuedAt, id, token, payload);
    ProperUseIsAdmitted(settings, key, issuedAt, id, token, req);
    FullFileExactly(settings, s, req);
  }

  /** Before its ticket expires, whether an identifier can be inserted depends only on whether it ever was. */
  lemma InsertionIsDecided(settings: Settings, s: Store, l: Ledger, id: NoteID, now: Time)
    requires Agree(settings, s, l, now) && id in l.issued
    ensures forall m: Metadata, payload: Bytes, exp: Time :: l.issued[id].exp >= now ==>
              if id in l.notes then Inserted(s, id, m, payload, exp) == Err(TicketUnusable)
                else Inserted(s, id, m, payload, exp).Ok?
  {
    hide IssuedTable, ValidMetadata;
  }
}
