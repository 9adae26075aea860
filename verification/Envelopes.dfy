/** The encrypted envelope: its round trip, and the size arithmetic of the page that creates it. */
module Envelopes {
  import opened Base
  import opened Base64Url
  import opened Json
  import opened JsonObjects
  import opened SecretLink
  import opened Tickets
  import NoteStore
  import Utf8

  const GCM_TAG_LENGTH := 16
  const IV_LENGTH := 12
  const HEADER_JSON := "{\"v\":1,\"alg\":\"A256GCM\"}"

  type IV = b: Bytes | |b| == IV_LENGTH witness seq(12, i => 0)

  /** AES-GCM with key, initialisation vector and additional data; only the laws below are used. */
  datatype Aead = Aead(seal: (Bytes32, IV, Bytes, Bytes) -> Bytes, unseal: (Bytes32, IV, Bytes, Bytes) -> Option<Bytes>)

  ghost predicate AeadLaws(a: Aead) {
    forall key, iv, data, plain ::
      var sealed := a.seal(key, iv, data, plain);
      |sealed| == |plain| + GCM_TAG_LENGTH && a.unseal(key, iv, data, sealed) == Some(plain)
  }

  datatype Envelope = Envelope(header: string, iv: string, ct: string)

  /** `encodeProtectedHeader`. */
  function ProtectedHeader(): string {
    Encode(TextBytes(HEADER_JSON))
  }

  /** `encodeAuthenticatedData`, for the note's identifier as printed. */
  function AuthenticatedData(id: NoteID, header: string): Bytes {
    Utf8.Encode(Encode(id) + "." + header)
  }

  /** `encryptString`, given the vector that the browser draws. */
  function EncryptString(a: Aead, text: string, key: Bytes32, id: NoteID, iv: IV): Envelope {
    Envelope(ProtectedHeader(), Encode(iv),
             Encode(a.seal(key, iv, AuthenticatedData(id, ProtectedHeader()), Utf8.Encode(text))))
  }

  function Members(e: Envelope): seq<(string, Scalar)> {
    [("protected", Str(e.header)), ("iv", Str(e.iv)), ("ct", Str(e.ct))]
  }

  /** `JSON.stringify` of the envelope: the payload that is uploaded and stored. */
  function PayloadText(e: Envelope): string {
    PrintObject(Members(e))
  }

  datatype Decoded = Decoded(iv: IV, ciphertext: Bytes)

  /** `decodeEncryptedPayload`. */
  function DecodePayload(payload: JsonValue): Option<Decoded> {
    if !payload.Object? || payload.members.Keys != {"ct", "iv", "protected"} then None
    else
      var header, ivText, ctText := payload.members["protected"], payload.members["iv"], payload.members["ct"];
      if !header.Text? || !ivText.Text? || !ctText.Text? then None
      else if header.text != ProtectedHeader() then None
      else
        var iv := BrowserDecode(ivText.text);
        if iv.None? || |iv.value| != IV_LENGTH then None
        else
          var ciphertext := BrowserDecode(ctText.text);
          if ciphertext.None? || |ciphertext.value| <= GCM_TAG_LENGTH then None
          else Some(Decoded(iv.value, ciphertext.value))
  }

  /** What the reader's page does with the payload text: parse it and `decryptString` it. */
  function DecryptPayload(a: Aead, parse: string -> Option<JsonValue>, payload: string, key: Bytes32,
                          id: NoteID): Option<string> {
    var parsed := parse(payload);
    if parsed.None? then None
    else
      var decoded := DecodePayload(parsed.value);
      if decoded.None? then None
      else
        var plain := a.unseal(key, decoded.value.iv, AuthenticatedData(id, ProtectedHeader()),
                              decoded.value.ciphertext);
        if plain.None? then None else Utf8.TextDecode(plain.value)
  }

  lemma HeaderLength()
    ensures |ProtectedHeader()| == 31
  {
    EncodeShape(TextBytes(HEADER_JSON));
  }

  lemma EnvelopeIsPlain(a: Aead, text: string, key: Bytes32, id: NoteID, iv: IV)
    ensures var e := EncryptString(a, text, key, id, iv);
            Plain(e.header) && Plain(e.iv) && Plain(e.ct)
  {
    hide Encode;
    Base64IsPlain(TextBytes(HEADER_JSON));
    Base64IsPlain(iv);
    Base64IsPlain(a.seal(key, iv, AuthenticatedData(id, ProtectedHeader()), Utf8.Encode(text)));
  }

  lemma MembersOfEnvelope(e: Envelope)
    ensures MembersOf(Members(e)) == map["protected" := Text(e.header), "iv" := Text(e.iv), "ct" := Text(e.ct)]
  {
    hide MembersOf;
    var m := Members(e);
    assert "protected"[0] == 'p' && "iv"[0] == 'i' && "ct"[0] == 'c';
    LastOfItsName(m, 0);
    LastOfItsName(m, 1);
    LastOfItsName(m, 2);
    forall name | name in MembersOf(m) ensures name == "protected" || name == "iv" || name == "ct" {
      NoOtherNames(m, name);
    }
  }

  /** Whatever bytes were sealed, the reader's page unseals and decodes them, unless nothing was sealed. */
  lemma DecryptsWhatWasSealed(a: Aead, parse: string -> Option<JsonValue>, text: string, key: Bytes32, id: NoteID,
                              iv: IV)
    requires AeadLaws(a) && ParserLaw(parse)
    ensures DecryptPayload(a, parse, PayloadText(EncryptString(a, text, key, id, iv)), key, id)
            == if Utf8.Encode(text) == [] then None else Utf8.TextDecode(Utf8.Encode(text))
  {
    hide Encode, BrowserDecode, Utf8.TextDecode, Utf8.Encode, PrintObject, ReadObject, AuthenticatedData,
         ProtectedHeader,
         MembersOf;
    var e := EncryptString(a, text, key, id, iv);
    var plain := Utf8.Encode(text);
    var sealed := a.seal(key, iv, AuthenticatedData(id, ProtectedHeader()), plain);
    EnvelopeIsPlain(a, text, key, id, iv);
    ReadsObject(Members(e));
    assert parse(PrintObject(Members(e))) == Some(Object(MembersOf(Members(e))));
    MembersOfEnvelope(e);
    BrowserDecodesEncoding(iv);
    BrowserDecodesEncoding(sealed);
    assert DecodePayload(Object(MembersOf(Members(e)))) == if |sealed| <= GCM_TAG_LENGTH then None
           else Some(Decoded(iv, sealed));
  }

  /** The reader gets back the text exactly when it is not empty and does not begin with a byte order mark. */
  lemma EnvelopeRoundTripExactly(a: Aead, parse: string -> Option<JsonValue>, text: string, key: Bytes32, id: NoteID,
                                 iv: IV)
    requires AeadLaws(a) && ParserLaw(parse)
    ensures DecryptPayload(a, parse, PayloadText(EncryptString(a, text, key, id, iv)), key, id) == Some(text)
            <==> text != "" && text[0] != Utf8.BYTE_ORDER_MARK
    ensures DecryptPayload(a, parse, PayloadText(EncryptString(a, text, key, id, iv)), key, id)
            == if text == "" then None else if text[0] == Utf8.BYTE_ORDER_MARK then Some(text[1..]) else Some(text)
  {
    hide EncryptString, DecryptPayload, PayloadText, Utf8.TextDecode, Utf8.Encode;
    DecryptsWhatWasSealed(a, parse, text, key, id, iv);
    Utf8.OnlyEmptyIsEmpty(text);
    Utf8.TextDecodeInvertsExactly(text);
  }

  /** The additional data ties a ciphertext to its note and its header: other identifiers or headers give other data. */
  lemma OtherNoteOtherData(id: NoteID, other: NoteID, header: string, otherHeader: string)
    ensures AuthenticatedData(id, header) == AuthenticatedData(other, otherHeader)
            <==> id == other && header == otherHeader
    ensures Utf8.DecodeAll(AuthenticatedData(id, header)) == Some(Encode(id) + "." + header)
  {
    hide Encode, Utf8.Encode, Utf8.DecodeAll;
    var s, t := Encode(id) + "." + header, Encode(other) + "." + otherHeader;
    Utf8.DecodeInvertsEncode(s);
    Utf8.DecodeInvertsEncode(t);
    if AuthenticatedData(id, header) == AuthenticatedData(other, otherHeader) {
      Bytes32Length(id);
      Bytes32Length(other);
      assert Encode(id) == s[..43] == t[..43] == Encode(other);
      assert header == s[44..] == t[44..] == otherHeader;
      EncodeInjective(id, other);
    }
  }

  lemma AsciiBytes(s: string)
    requires Ascii(s)
    ensures TextBytes(s) == Utf8.Encode(s)
  {
    Utf8.AsciiIsItself(s);
  }

  lemma HeaderBytes()
    ensures TextBytes(HEADER_JSON) == Utf8.Encode(HEADER_JSON) && TextBytes(HEADER_JSON) != []
    ensures HEADER_JSON[0] == '{'
  {
    hide TextBytes, Utf8.Encode;
    AsciiBytes(HEADER_JSON);
  }

  /** The header names version 1 and AES-GCM with 256-bit keys. */
  lemma HeaderIsRead()
    ensures var bytes := BrowserDecode(ProtectedHeader());
            && bytes.Some?
            && var text := Utf8.TextDecode(bytes.value);
            && text.Some? && ReadObject(text.value) == Some([("v", Num(1)), ("alg", Str("A256GCM"))])
  {
    hide Encode, BrowserDecode, ReadObject, Utf8.TextDecode, Utf8.Encode, TextBytes, PrintObject;
    HeaderBytes();
    BrowserDecodesEncoding(TextBytes(HEADER_JSON));
    Utf8.TextDecodeInvertsExactly(HEADER_JSON);
    ReadsObject([("v", Num(1)), ("alg", Str("A256GCM"))]);
    HeaderIsPrinted();
  }

  lemma HeaderPieces()
    ensures "\"alg\"" + ":" + "\"A256GCM\"" + "" == "\"alg\":\"A256GCM\""
    ensures "\"v\"" + ":" + "1" + ("," + "\"alg\":\"A256GCM\"") == "\"v\":1,\"alg\":\"A256GCM\""
    ensures "{" + "\"v\":1,\"alg\":\"A256GCM\"" + "}" == HEADER_JSON
  {
  }

  lemma HeaderIsPrinted()
    ensures PrintObject([("v", Num(1)), ("alg", Str("A256GCM"))]) == HEADER_JSON
  {
    hide Quote, PrintNumber;
    var members := [("v", Num(1)), ("alg", Str("A256GCM"))];
    assert PrintNumber(1) == "1" by { OneIsPrinted(); }
    HeaderQuotes();
    HeaderPieces();
    assert members[1..] == [("alg", Str("A256GCM"))];
    assert PrintMembers(members[1..]) == "\"alg\"" + ":" + "\"A256GCM\"" + "";
  }

  lemma OneIsPrinted()
    ensures PrintNumber(1) == "1"
  {
  }

  lemma HeaderQuotes()
    ensures Quote("v") == "\"v\"" && Quote("alg") == "\"alg\"" && Quote("A256GCM") == "\"A256GCM\""
  {
    hide Quote;
    QuotePlain("v");
    QuotePlain("alg");
    QuotePlain("A256GCM");
  }

  /** What the reader's page decrypts: an object of just the three members, all texts; the one header; twelve bytes of
      initialisation vector; more ciphertext than its tag; all of it unsealed with the vector that came with it and with
      the note's own data, and read as UTF-8. */
  lemma DecryptsExactly(a: Aead, parse: string -> Option<JsonValue>, payload: string, key: Bytes32, id: NoteID,
                        text: string)
    ensures DecryptPayload(a, parse, payload, key, id) == Some(text) <==>
              exists iv: IV, ivText: string, ct: Bytes, ctText: string, plain: Bytes ::
                && parse(payload) == Some(Object(map["protected" :=
                   Text(Encode(TextBytes("{\"v\":1,\"alg\":\"A256GCM\"}"))),
                                                     "iv" := Text(ivText), "ct" := Text(ctText)]))
                && BrowserDecode(ivText) == Some(iv) && BrowserDecode(ctText) == Some(ct) && |ct| > 16
                && a.unseal(key, iv, AuthenticatedData(id, ProtectedHeader()), ct) == Some(plain)
                && Utf8.TextDecode(plain) == Some(text)
  {
    hide Encode, BrowserDecode, Utf8.TextDecode, AuthenticatedData;
    if DecryptPayload(a, parse, payload, key, id) == Some(text) {
      var m := parse(payload).value.members;
      var ivText, ctText := m["iv"].text, m["ct"].text;
      var iv, ct := BrowserDecode(ivText).value, BrowserDecode(ctText).value;
      assert m == map["protected" := Text(ProtectedHeader()), "iv" := Text(ivText), "ct" := Text(ctText)];
      assert a.unseal(key, iv, AuthenticatedData(id, ProtectedHeader()), ct).Some?;
    }
    assert "protected"[0] == 'p' && "iv"[0] == 'i' && "ct"[0] == 'c';
  }

  // ---- the size check of the creating page ----

  const ASSUMED_HEADER_BYTES := 35

  /** `base64urlEncodedLength`. */
  function Base64UrlEncodedLength(n: nat): int {
    if n == 0 then 0 else 4 * ((n + 2) / 3) - (3 - n % 3) % 3
  }

  lemma EncodedLengthAgrees(n: nat)
    ensures Base64UrlEncodedLength(n) == EncodedLen(n)
  {
    assert n == n / 3 * 3 + n % 3;
    assert n % 3 == 0 ==> (n + 2) / 3 == n / 3;
    assert n % 3 != 0 ==> (n + 2) / 3 == n / 3 + 1;
  }

  function Filler(n: int): string {
    seq(if n < 0 then 0 else n, i => 'A')
  }

  /** `estimatedPayloadBytes`. */
  function EstimatedPayloadBytes(text: string): nat {
    |PayloadText(Envelope(
      Filler(Base64UrlEncodedLength(ASSUMED_HEADER_BYTES)),
      Filler(Base64UrlEncodedLength(IV_LENGTH)),
      Filler(Base64UrlEncodedLength(|Utf8.Encode(text)| + GCM_TAG_LENGTH))))|
  }

  lemma PayloadShape(e: Envelope)
    ensures PayloadText(e) == "{" + (Member("protected", e.header)
            + ("," + (Member("iv", e.iv) + ("," + Member("ct", e.ct))))) + "}"
  {
    hide Quote;
    var m := Members(e);
    assert m[1..] == [("iv", Str(e.iv)), ("ct", Str(e.ct))];
    assert m[1..][1..] == [("ct", Str(e.ct))];
    assert PrintMembers(m[1..][1..]) == Member("ct", e.ct) + "" == Member("ct", e.ct);
    assert PrintMembers(m[1..]) == Member("iv", e.iv) + ("," + Member("ct", e.ct));
  }

  lemma PayloadLength(e: Envelope)
    requires Plain(e.header) && Plain(e.iv) && Plain(e.ct)
    ensures |PayloadText(e)| == 32 + |e.header| + |e.iv| + |e.ct|
  {
    hide PayloadText, Member;
    PayloadShape(e);
    MemberLength("protected", e.header);
    MemberLength("iv", e.iv);
    MemberLength("ct", e.ct);
  }

  lemma FillerIsPlain(n: int)
    ensures Plain(Filler(n)) && |Filler(n)| == if n < 0 then 0 else n
  {
  }

  /** The estimate is the true length of the payload plus exactly 16, for every text. */
  lemma EstimateIsSixteenOver(a: Aead, text: string, key: Bytes32, id: NoteID, iv: IV)
    requires AeadLaws(a)
    ensures EstimatedPayloadBytes(text) == |PayloadText(EncryptString(a, text, key, id, iv))| + 16
  {
    hide Encode, Utf8.Encode, PayloadText, Filler, Base64UrlEncodedLength, ProtectedHeader;
    var e := EncryptString(a, text, key, id, iv);
    var n := |Utf8.Encode(text)| + GCM_TAG_LENGTH;
    EnvelopeIsPlain(a, text, key, id, iv);
    PayloadLength(e);
    HeaderLength();
    EncodeShape(iv);
    EncodeShape(a.seal(key, iv, AuthenticatedData(id, ProtectedHeader()), Utf8.Encode(text)));
    EncodedLengthAgrees(ASSUMED_HEADER_BYTES);
    EncodedLengthAgrees(IV_LENGTH);
    EncodedLengthAgrees(n);
    FillerIsPlain(Base64UrlEncodedLength(ASSUMED_HEADER_BYTES));
    FillerIsPlain(Base64UrlEncodedLength(IV_LENGTH));
    FillerIsPlain(Base64UrlEncodedLength(n));
    PayloadLength(Envelope(
      Filler(Base64UrlEncodedLength(ASSUMED_HEADER_BYTES)),
      Filler(Base64UrlEncodedLength(IV_LENGTH)),
      Filler(Base64UrlEncodedLength(n))));
  }

  // ---- the request body ----

  const JSON_BODY_OVERHEAD := 256

  /** `maxCreateNoteBodySize`. */
  function MaxCreateNoteBodySize(maxPayloadBytes: int): int {
    maxPayloadBytes + MAX_TICKET_LENGTH + |Encode(seq(32, i => 0))| + JSON_BODY_OVERHEAD
  }

  /** A ticket of 512 characters, a token of 43, and 256 more. */
  lemma BodyLimit(maxPayloadBytes: int)
    ensures MaxCreateNoteBodySize(maxPayloadBytes) == maxPayloadBytes + 512 + 43 + 256
  {
    Bytes32Length(seq(32, i => 0));
  }

  /** The body that `createNote` posts: the payload is itself a JSON text, so its quotes are escaped. */
  function CreateBody(ticket: string, burnToken: string, payload: string, expiresInSeconds: nat): string {
    PrintObject(BodyMembers(ticket, burnToken, payload, expiresInSeconds))
  }

  function BodyMembers(ticket: string, burnToken: string, payload: string, expiresInSeconds: nat)
    : seq<(string, Scalar)>
  {
    [("ticket", Str(ticket)), ("burnToken", Str(burnToken)), ("payload", Str(payload)),
     ("expiresInSeconds", Num(expiresInSeconds))]
  }

  /** What the server's decoder finds under each name. */
  lemma BodyIsRead(ticket: string, burnToken: string, payload: string, seconds: nat)
    requires NoteStore.RequestedLifetime(seconds).Ok?
    ensures ReadObject(CreateBody(ticket, burnToken, payload, seconds))
            == Some([("ticket", Str(ticket)), ("burnToken", Str(burnToken)), ("payload", Str(payload)),
                     ("expiresInSeconds", Num(seconds))])
  {
    hide PrintObject, ReadObject;
    ReadsObject(BodyMembers(ticket, burnToken, payload, seconds));
  }

  lemma BodyShape(ticket: string, burnToken: string, payload: string, seconds: nat)
    ensures CreateBody(ticket, burnToken, payload, seconds)
            == "{" + (Member("ticket", ticket)
              + ("," + (Member("burnToken", burnToken) + ("," + (Member("payload", payload)
               + ("," + (Quote("expiresInSeconds") + ":" + Decimal(seconds)))))))) + "}"
  {
    hide Quote, Decimal;
    var m := BodyMembers(ticket, burnToken, payload, seconds);
    assert m[1..][1..][1..] == [("expiresInSeconds", Num(seconds))];
    var last := Quote("expiresInSeconds") + ":" + Decimal(seconds);
    assert PrintMembers(m[1..][1..][1..]) == last + "" == last;
    assert m[1..][1..][0] == ("payload", Str(payload)) && |m[1..][1..]| == 2;
    assert PrintMembers(m[1..][1..]) == Member("payload", payload) + ("," + last);
    assert m[1..][0] == ("burnToken", Str(burnToken)) && |m[1..]| == 3;
    assert PrintMembers(m[1..]) == Member("burnToken", burnToken) + ("," + PrintMembers(m[1..][1..]));
  }

  /** Escaped inside the body, a payload grows by its twelve quotes. */
  lemma EscapedPayload(e: Envelope)
    requires Plain(e.header) && Plain(e.iv) && Plain(e.ct)
    ensures |Quote(PayloadText(e))| == |PayloadText(e)| + 14
  {
    hide Quote, PayloadText, Member;
    PayloadShape(e);
    MemberCount("protected", e.header);
    MemberCount("iv", e.iv);
    MemberCount("ct", e.ct);
    ThreeMembers(Member("protected", e.header), Member("iv", e.iv), Member("ct", e.ct));
    EscapeQuotesLength(PayloadText(e));
    QuoteLength(PayloadText(e));
  }

  lemma ThreeMembers(m1: string, m2: string, m3: string)
    requires CountQuotes(m1) == CountQuotes(m2) == CountQuotes(m3) == 4
    requires PlainOrQuote(m1) && PlainOrQuote(m2) && PlainOrQuote(m3)
    ensures var s := "{" + (m1 + ("," + (m2 + ("," + m3)))) + "}";
            CountQuotes(s) == 12 && PlainOrQuote(s)
  {
    CountQuotesPlain("{");
    CountQuotesPlain(",");
    CountQuotesPlain("}");
    CountQuotesAppend(",", m3);
    CountQuotesAppend(m2, "," + m3);
    CountQuotesAppend(",", m2 + ("," + m3));
    CountQuotesAppend(m1, "," + (m2 + ("," + m3)));
    CountQuotesAppend("{", m1 + ("," + (m2 + ("," + m3))));
    CountQuotesAppend("{" + (m1 + ("," + (m2 + ("," + m3)))), "}");
  }

  lemma QuoteLength(s: string)
    ensures |Quote(s)| == |Escape(s)| + 2
  {
  }

  lemma BodyLength(ticket: string, token: BurnToken, e: Envelope, expiresInSeconds: nat)
    requires Plain(ticket) && Plain(e.header) && Plain(e.iv) && Plain(e.ct)
    requires NoteStore.RequestedLifetime(expiresInSeconds).Ok?
    ensures |CreateBody(ticket, Encode(token), PayloadText(e), expiresInSeconds)| <= |ticket| + |PayloadText(e)| + 43
            + 80
  {
    hide Quote, Encode, PayloadText, CreateBody, Decimal;
    BodyShape(ticket, Encode(token), PayloadText(e), expiresInSeconds);
    QuotePlain("ticket");
    QuotePlain("burnToken");
    QuotePlain("payload");
    QuotePlain("expiresInSeconds");
    QuotePlain(ticket);
    Base64IsPlain(token);
    Bytes32Length(token);
    EscapedPayload(e);
    assert Pow10(7) == 10_000_000 by { SevenDigits(); }
    DecimalLength(expiresInSeconds, 7);
  }

  lemma SevenDigits()
    ensures Pow10(7) == 10_000_000
  {
    assert Pow10(3) == 1000 by { assert Pow10(1) == 10; }
    assert Pow10(5) == 100 * Pow10(3) by { assert Pow10(5) == 10 * Pow10(4); }
    assert Pow10(7) == 100 * Pow10(5) by { assert Pow10(7) == 10 * Pow10(6); }
  }

  /** A text that passes the page's size check fits the server's payload limit, and its whole request body fits the
      body limit; the check turns away nothing but what comes within 16 bytes of the payload limit. */
  lemma SizeCheckIsSafe(a: Aead, text: string, key: Bytes32, id: NoteID, iv: IV, ticket: string, token: BurnToken,
                        expiresInSeconds: nat, maxNoteSize: int)
    requires AeadLaws(a) && Plain(ticket) && |ticket| <= MAX_TICKET_LENGTH
             && NoteStore.RequestedLifetime(expiresInSeconds).Ok?
    ensures var payload := PayloadText(EncryptString(a, text, key, id, iv));
            && (|payload| <= maxNoteSize <==> EstimatedPayloadBytes(text) <= maxNoteSize + 16)
            && (|payload| <= maxNoteSize ==>
                  |CreateBody(ticket, Encode(token), payload, expiresInSeconds)| <= MaxCreateNoteBodySize(maxNoteSize))
  {
    hide Encode, PayloadText, EstimatedPayloadBytes, CreateBody;
    EstimateIsSixteenOver(a, text, key, id, iv);
    EnvelopeIsPlain(a, text, key, id, iv);
    BodyLength(ticket, token, EncryptString(a, text, key, id, iv), expiresInSeconds);
    Bytes32Length(seq(32, i => 0));
  }
}
