/** From the creator's page to the reader's page, and the assumptions that all of it rests on. */
module EndToEnd {
  import opened Base
  import opened Base64Url
  import opened Json
  import opened Tickets
  import opened NoteStore
  import opened Traces
  import opened Runs
  import opened JsonObjects
  import opened SecretLink
  import opened Envelopes
  import opened Viewers
  import Utf8

  lemma BytesTextInverts(s: string)
    requires Ascii(s)
    ensures BytesText(TextBytes(s)) == s
  {
    forall i | 0 <= i < |s| ensures BytesText(TextBytes(s))[i] == s[i] {
      assert TextBytes(s)[i] == s[i] as int;
    }
  }

  lemma PayloadIsAscii(e: Envelope)
    requires Plain(e.header) && Plain(e.iv) && Plain(e.ct)
    ensures Ascii(PayloadText(e))
  {
    hide PayloadText, Member;
    PayloadShape(e);
    MemberCount("protected", e.header);
    MemberCount("iv", e.iv);
    MemberCount("ct", e.ct);
  }

  /** What the creator's page uploads, and the link that it shows. */
  function Upload(a: Aead, text: string, key: Bytes32, id: NoteID, iv: IV): Bytes {
    TextBytes(PayloadText(EncryptString(a, text, key, id, iv)))
  }

  /** The stored bytes decrypt, on the page of whoever holds the link, to the text that was written. */
  lemma UploadDecrypts(a: Aead, parse: string -> Option<JsonValue>, text: string, key: Bytes32, id: NoteID, iv: IV)
    requires AeadLaws(a) && ParserLaw(parse)
    ensures DecryptPayload(a, parse, BytesText(Upload(a, text, key, id, iv)), key, id) == Some(text)
            <==> text != "" && text[0] != Utf8.BYTE_ORDER_MARK
    ensures DecryptPayload(a, parse, BytesText(Upload(a, text, key, id, iv)), key, id)
            == if text == "" then None else if text[0] == Utf8.BYTE_ORDER_MARK then Some(text[1..]) else Some(text)
  {
    hide EncryptString, PayloadText, DecryptPayload, TextBytes, BytesText;
    EnvelopeIsPlain(a, text, key, id, iv);
    PayloadIsAscii(EncryptString(a, text, key, id, iv));
    BytesTextInverts(PayloadText(EncryptString(a, text, key, id, iv)));
    EnvelopeRoundTripExactly(a, parse, text, key, id, iv);
  }

  lemma UploadLength(a: Aead, text: string, key: Bytes32, id: NoteID, iv: IV)
    requires AeadLaws(a)
    ensures |Upload(a, text, key, id, iv)| + 16 == EstimatedPayloadBytes(text)
    ensures Upload(a, text, key, id, iv) != []
  {
    hide EstimatedPayloadBytes, PrintMembers, EncryptString;
    EstimateIsSixteenOver(a, text, key, id, iv);
  }

  lemma IssuedTicketText(settings: Settings, root: RootKey, issuedAt: Time, id: NoteID, token: BurnToken,
                         ticket: Ticket)
    requires NoteStore.Laws(settings) && ValidRootKey(root)
    requires CreateTicket(settings.crypto, settings.json, Some(Parsed(root)), issuedAt, id, token) == Ok(ticket)
    ensures JsonTime(issuedAt) && JsonTime(issuedAt + TICKET_TIMEOUT)
    ensures Plain(ticket.value) && |ticket.value| <= MAX_TICKET_LENGTH
  {
    hide Sealed, MarshalTicket, BurnVerifier, Encode, TextBytes;
    var data := FreshTicketData(settings.crypto, root.secret, issuedAt, id, token);
    assert IssuedData(settings.crypto, root.secret, data);
    IssuedTicketLength(settings.crypto, settings.json, root.secret, data);
    SealedIsPlain(settings.crypto, root.secret, TextBytes(MarshalTicket(settings.json, data)));
  }

  /** The page's size check meets the server's. With an issued ticket, the server finds a payload too large exactly when
      the estimate exceeds its limit by more than 16. A text that passes the page's check makes a body that fits the
      body limit, and a creation that is admitted as long as the ticket is valid. */
  lemma SizeCheckMeetsServer(settings: Settings, a: Aead, text: string, key: Bytes32, iv: IV,
                             root: RootKey, issuedAt: Time, ticket: Ticket, req: CreateRequest, seconds: nat)
    requires NoteStore.Laws(settings) && AeadLaws(a) && ValidRootKey(root) && settings.maxLifetime == MAX_NOTE_LIFETIME
    requires CreateTicket(settings.crypto, settings.json, Some(Parsed(root)), issuedAt, req.pathID, req.burnToken)
             == Ok(ticket)
    requires req.ticket == ticket.value && req.payload == Upload(a, text, key, req.pathID, iv)
    requires RequestedLifetime(seconds) == Ok(req.lifetime)
    ensures var admitted := Admit(settings, Some(Parsed(root)), req);
            var passes := EstimatedPayloadBytes(text) <= settings.maxSize;
            && (admitted == Err(PayloadTooLarge) <==> EstimatedPayloadBytes(text) > settings.maxSize + 16)
            && (passes ==> |CreateBody(ticket.value, Encode(req.burnToken),
                                       PayloadText(EncryptString(a, text, key, req.pathID, iv)),
                                       seconds)| <= MaxCreateNoteBodySize(settings.maxSize))
            && (passes && 0 < issuedAt <= req.verifiedAt <= req.createdAt
                && JsonTime(req.createdAt) && JsonTime(req.createdAt + req.lifetime) ==>
                  if req.verifiedAt > issuedAt + 15 * MINUTE then admitted == Err(TicketExpired)
                  else admitted.Ok? && admitted.value.id == req.pathID
                       && admitted.value.metadata.expiresAt == req.createdAt + seconds * 1_000_000_000)
  {
    hide NoteStore.Laws, AeadLaws, Upload, EstimatedPayloadBytes, CreateBody, CreateTicket, Admit, Encode, PayloadText,
         EncryptString,
         ValidRootKey, MaxCreateNoteBodySize;
    var payload := PayloadText(EncryptString(a, text, key, req.pathID, iv));
    UploadLength(a, text, key, req.pathID, iv);
    assert |req.payload| == |payload| by { EstimateIsSixteenOver(a, text, key, req.pathID, iv); }
    IssuedTicketText(settings, root, issuedAt, req.pathID, req.burnToken, ticket);
    ChecksInOrder(settings, Some(Parsed(root)), req);
    SizeCheckIsSafe(a, text, key, req.pathID, iv, ticket.value, req.burnToken, seconds, settings.maxSize);
    if 0 < issuedAt <= req.verifiedAt {
      ProperUseIsAdmitted(settings, root, issuedAt, req.pathID, req.burnToken, req);
    }
  }

  /** A note reaches its reader. The creator's page encrypts a text and stores it; after any other operations, a reader
      who opens the link sees exactly that text, provided no open before succeeded, the note has not expired, and the
      text is not empty and does not begin with a byte order mark. */
  lemma NoteReachesReader(settings: Settings, a: Aead, parse: string -> Option<JsonValue>,
                          s: Store, l: Ledger, clock: Time, req: CreateRequest, others: seq<Operation>, now: Time,
                          text: string, key: Bytes32, iv: IV)
    requires NoteStore.Laws(settings) && AeadLaws(a) && ParserLaw(parse)
    requires Agree(settings, s, l, clock) && Possible(settings, l, Create(req), clock)
    requires req.payload == Upload(a, text, key, req.pathID, iv) && CreateStep(settings, s, req).answer.Ok?
    requires PossibleRun(settings, RecordCreate(settings, l, req).ledger, others, req.cleanedAt)
    requires ClockAfter(others, req.cleanedAt) <= now
    ensures var stored := CreateStep(settings, s, req).store;
            var given := Answers(settings, stored, others);
            var secret := ParseFragment(parse, EncodeFragment(key, req.burnToken));
            && |given| == |others| && secret.Some? && ParseBytes32(secret.value.burnToken).Some?
            && var answer := OpenStep(settings, After(settings, stored, others), req.pathID,
                                      ParseBytes32(secret.value.burnToken).value, now, Commits).answer;
            && (answer.Ok? <==> now <= req.createdAt + req.lifetime
                                && !exists i :: 0 <= i < |others| && Hands(others[i], given[i], req.pathID))
            && (answer.Ok? ==>
                  (DecryptPayload(a, parse, BytesText(answer.value.payload), secret.value.keyBytes, req.pathID)
                    == Some(text)
                   <==> text != "" && text[0] != Utf8.BYTE_ORDER_MARK))
  {
    hide NoteStore.Laws, AeadLaws, ParserLaw, Agree, Possible, PossibleRun, Upload, CreateStep, OpenStep, RecordCreate,
         Encode,
         ParseFragment, EncodeFragment, ParseBytes32, DecryptPayload, BytesText, Hands;
    LiveNoteSurvives(settings, s, l, clock, req, others, now);
    FragmentRoundTrip(parse, key, req.burnToken);
    ParseBytes32IsInverse(Encode(req.burnToken), req.burnToken);
    UploadDecrypts(a, parse, text, key, req.pathID, iv);
  }

  lemma ResponseIsShown(c: Context, s: Store, l: Ledger, clock: Time, req: CreateRequest, others: seq<Operation>,
                        now: Time, text: string, key: Bytes32, iv: IV)
    requires NoteStore.Laws(c.settings) && AeadLaws(c.aead) && ParserLaw(c.parse) && c.id == req.pathID
    requires Agree(c.settings, s, l, clock) && Possible(c.settings, l, Create(req), clock)
    requires req.payload == Upload(c.aead, text, key, req.pathID, iv) && CreateStep(c.settings, s, req).answer.Ok?
    requires PossibleRun(c.settings, RecordCreate(c.settings, l, req).ledger, others, req.cleanedAt)
    requires ClockAfter(others, req.cleanedAt) <= now
    ensures var stored := CreateStep(c.settings, s, req).store;
            var given := Answers(c.settings, stored, others);
            var clicked := Clicked(c, Loaded(EncodeFragment(key, req.burnToken)));
            && |given| == |others|
            && clicked.phase == Waiting(None) && clicked.sent == [Encode(req.burnToken)]
            && var response := Viewers.Opened(c, After(c.settings, stored, others), clicked.sent[0], now, Commits).1;
            var live := now <= req.createdAt + req.lifetime
                        && !exists i :: 0 <= i < |others| && Hands(others[i], given[i], req.pathID);
            Received(c, clicked, response).phase
            == if !live || text == "" then Failed
               else if text[0] == Utf8.BYTE_ORDER_MARK then Shown(text[1..]) else Shown(text)
  {
    hide NoteStore.Laws, AeadLaws, ParserLaw, Agree, Possible, PossibleRun, Upload, CreateStep, OpenStep, RecordCreate,
         Encode, ParseFragment, EncodeFragment, ParseBytes32, DecryptPayload, BytesText, Hands, Clicked, Received,
         Viewers.Opened;
    var fragment := EncodeFragment(key, req.burnToken);
    LiveNoteSurvives(c.settings, s, l, clock, req, others, now);
    FragmentRoundTrip(c.parse, key, req.burnToken);
    assert fragment != "" by { LinkIsNotEmpty(key, req.burnToken); }
    FirstClick(c, fragment);
    var reached := After(c.settings, CreateStep(c.settings, s, req).store, others);
    ParseBytes32IsInverse(Encode(req.burnToken), req.burnToken);
    HandlerAnswers(c, reached, Encode(req.burnToken), now, Commits);
    var clicked := Clicked(c, Loaded(fragment));
    var answer := OpenStep(c.settings, reached, req.pathID, req.burnToken, now, Commits).answer;
    if answer.Ok? {
      UploadDecrypts(c.aead, c.parse, text, key, req.pathID, iv);
      PayloadIsShown(c, clicked, req.payload);
    } else {
      RetriesWithTheSameToken(c, clicked, "");
    }
  }

  /** And it is shown. A page that is loaded with the creator's link and clicked sends the creator's token; if that open
      comes no later than the expiry and is the first to succeed, the page shows the text that was written. It fails for
      a note that is gone and for an empty text, and drops a leading byte order mark. */
  lemma NoteIsShown(c: Context, s: Store, l: Ledger, clock: Time, req: CreateRequest, others: seq<Operation>, now: Time,
                    text: string, key: Bytes32, iv: IV, w: Viewers.World, v: nat)
    requires NoteStore.Laws(c.settings) && AeadLaws(c.aead) && ParserLaw(c.parse) && c.id == req.pathID
    requires Agree(c.settings, s, l, clock) && Possible(c.settings, l, Create(req), clock)
    requires req.payload == Upload(c.aead, text, key, req.pathID, iv) && CreateStep(c.settings, s, req).answer.Ok?
    requires PossibleRun(c.settings, RecordCreate(c.settings, l, req).ledger, others, req.cleanedAt)
    requires ClockAfter(others, req.cleanedAt) <= now
    requires w.store == After(c.settings, CreateStep(c.settings, s, req).store, others) && v !in w.viewers
    ensures var given := Answers(c.settings, CreateStep(c.settings, s, req).store, others);
            var opening := WholeOpening(v, EncodeFragment(key, req.burnToken), now, Commits);
            && |given| == |others| && Viewers.Run(c, w, opening)
            && v in Viewers.Final(c, w, opening).viewers
            && var page := Viewers.Final(c, w, opening).viewers[v];
            var live := now <= req.createdAt + req.lifetime
                        && !exists i :: 0 <= i < |others| && Hands(others[i], given[i], req.pathID);
            && page.sent == [Encode(req.burnToken)] && page.fragment == ""
            && page.phase == if !live || text == "" then Failed
                             else if text[0] == Utf8.BYTE_ORDER_MARK then Shown(text[1..]) else Shown(text)
  {
    hide NoteStore.Laws, AeadLaws, ParserLaw, Agree, Possible, PossibleRun, Upload, CreateStep, RecordCreate, Encode,
         ParseFragment, EncodeFragment, DecryptPayload, BytesText, Hands, Clicked, Received, Viewers.Opened,
         Viewers.Run, Viewers.Final, WholeOpening, After, Answers, ClockAfter;
    var fragment := EncodeFragment(key, req.burnToken);
    ResponseIsShown(c, s, l, clock, req, others, now, text, key, iv);
    FragmentRoundTrip(c.parse, key, req.burnToken);
    LinkIsNotEmpty(key, req.burnToken);
    OpeningEnds(c, w, v, fragment, Secret(key, Encode(req.burnToken), req.burnToken), now);
  }

  /** How an opening ends for a page whose fragment holds a secret. */
  lemma OpeningEnds(c: Context, w: Viewers.World, v: nat, fragment: string, secret: Secret, now: Time)
    requires v !in w.viewers && fragment != "" && ParseFragment(c.parse, fragment) == Some(secret)
    ensures Viewers.Run(c, w, WholeOpening(v, fragment, now, Commits))
    ensures var end := Viewers.Final(c, w, WholeOpening(v, fragment, now, Commits));
            var response := Viewers.Opened(c, w.store, secret.burnToken, now, Commits).1;
            && v in end.viewers
            && var page := end.viewers[v];
            && page.sent == [secret.burnToken] && page.fragment == ""
            && page.phase == Received(c, Clicked(c, Loaded(fragment)), response).phase
  {
    hide ParseFragment, Clicked, Received, Viewers.Opened, Viewers.Run, Viewers.Final, WholeOpening;
    FirstClick(c, fragment);
    OpeningRuns(c, w, v, fragment, now, Commits);
    OnlyThePhase(c, Clicked(c, Loaded(fragment)), Viewers.Opened(c, w.store, secret.burnToken, now, Commits).1);
  }

  lemma LinkIsNotEmpty(key: Bytes32, token: BurnToken)
    ensures EncodeFragment(key, token) != ""
  {
  }
}
