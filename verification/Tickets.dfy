/** The signed ticket: `ticket.go`, and the root key that signs it. */
module Tickets {
  import opened Base
  import opened Base64Url
  import opened Json
  import opened JsonObjects

  const MAX_TICKET_LENGTH := 512
  const CLOCK_SKEW := MINUTE
  const TICKET_TIMEOUT := 15 * MINUTE
  const BURN_VERIFIER_LENGTH := 32

  /** HMAC-SHA256 and HKDF-SHA256, about which only the laws below are ever used. */
  datatype Crypto = Crypto(mac: (Bytes, Bytes) -> Bytes, derive: (Bytes, string) -> Bytes)

  ghost predicate CryptoLaws(c: Crypto) {
    forall key, message :: |c.mac(key, message)| == 32
  }

  /** The further law that tells burn tokens apart: under one key, different tokens have different MACs. */
  ghost predicate MacTellsTokens(c: Crypto) {
    forall key: Bytes, a: BurnToken, b: BurnToken {:trigger c.mac(key, a), c.mac(key, b)} ::
      c.mac(key, a) == c.mac(key, b) ==> a == b
  }

  datatype TicketData = TicketData(v: int, id: NoteID, issuedAt: Time, exp: Time, burnVerifier: string)

  datatype Ticket = Ticket(value: string, data: TicketData, burnToken: BurnToken)

  /** Go's printer and reader of RFC 3339 times, and its reader of ticket payloads. */
  datatype TicketJson = TicketJson(
    formatTime: Time -> string, parseTime: string -> Option<Time>, parse: Bytes -> Option<TicketData>)

  function TicketMembers(j: TicketJson, d: TicketData): seq<(string, Scalar)> {
    [("v", Num(d.v)), ("id", Str(Encode(d.id))), ("iat", Str(j.formatTime(d.issuedAt))),
     ("exp", Str(j.formatTime(d.exp))), ("burnVerifier", Str(d.burnVerifier))]
  }

  function MarshalTicket(j: TicketJson, d: TicketData): string {
    PrintObject(TicketMembers(j, d))
  }

  /** The ticket that an object of five members holds, member by member. */
  function TicketOf(j: TicketJson, members: seq<(string, Scalar)>): Option<TicketData> {
    if |members| != 5 || members[0].0 != "v" || members[1].0 != "id" || members[2].0 != "iat" || members[3].0 != "exp"
      || members[4].0 != "burnVerifier" then None
    else match (members[0].1, members[1].1, members[2].1, members[3].1, members[4].1)
      case (Num(v), Str(id), Str(issuedAt), Str(exp), Str(verifier)) =>
        if ParseBytes32(id).None? || j.parseTime(issuedAt).None? || j.parseTime(exp).None? then None
        else Some(TicketData(v, ParseBytes32(id).value, j.parseTime(issuedAt).value, j.parseTime(exp).value, verifier))
      case _ => None
  }

  /** Printed times are short and are read back, and the reader agrees with the member-by-member reading of a text. */
  ghost predicate JsonLaws(j: TicketJson) {
    && (forall t {:trigger j.formatTime(t)} :: JsonTime(t) ==>
          |j.formatTime(t)| <= 35 && Plain(j.formatTime(t)) && j.parseTime(j.formatTime(t)) == Some(t))
    && (forall text {:trigger ReadObject(text)} ::
          Ascii(text) && ReadObject(text).Some? && TicketOf(j, ReadObject(text).value).Some? ==>
            j.parse(TextBytes(text)) == TicketOf(j, ReadObject(text).value))
  }

  /** A record as found in a bucket: its JSON is read back, or it cannot be read. */
  datatype Stored<+T> = Parsed(value: T) | Corrupt

  datatype RootKey = RootKey(createdAt: Time, secret: Bytes)

  predicate ValidRootKey(key: RootKey) {
    |key.secret| == 32 && key.createdAt != 0
  }

  /** `getRootKey`. */
  function GetRootKey(root: Option<Stored<RootKey>>): Result<RootKey> {
    if root.None? then Err(RootKeyUnavailable)
    else if root.value.Corrupt? then Err(RootKeyUnavailable)
    else if !ValidRootKey(root.value.value) then Err(RootKeyUnavailable)
    else Ok(root.value.value)
  }

  function Signature(c: Crypto, secret: Bytes, signed: string): Bytes {
    c.mac(c.derive(secret, "ticket signing v1"), TextBytes(signed))
  }

  function BurnVerifier(c: Crypto, secret: Bytes, token: BurnToken): Bytes {
    c.mac(c.derive(secret, "burn verifier v1"), token)
  }

  /** The text that a ticket for payload bytes `p` signs, and the whole ticket. */
  function SignedText(p: Bytes): string {
    "v1." + Encode(p)
  }

  function Sealed(c: Crypto, secret: Bytes, p: Bytes): string {
    SignedText(p) + "." + Encode(Signature(c, secret, SignedText(p)))
  }

  /** `signTicket`. */
  function SignTicket(c: Crypto, j: TicketJson, secret: Bytes, d: TicketData): Result<string> {
    if !JsonTime(d.issuedAt) || !JsonTime(d.exp) then Err(MarshalFailed)
    else Ok(Sealed(c, secret, TextBytes(MarshalTicket(j, d))))
  }

  function FreshTicketData(c: Crypto, secret: Bytes, now: Time, id: NoteID, token: BurnToken): TicketData {
    TicketData(1, id, now, now + TICKET_TIMEOUT, Encode(BurnVerifier(c, secret, token)))
  }

  /** `CreateTicket`, given what the clock and the random source return. */
  function CreateTicket(c: Crypto, j: TicketJson, root: Option<Stored<RootKey>>, now: Time, id: NoteID,
                        token: BurnToken)
    : Result<Ticket>
  {
    var key := GetRootKey(root);
    if key.Err? then Err(key.error)
    else
      var data := FreshTicketData(c, key.value.secret, now, id, token);
      var value := SignTicket(c, j, key.value.secret, data);
      if value.Err? then Err(value.error) else Ok(Ticket(value.value, data, token))
  }

  /** `bytes.Cut` at the first dot. */
  function Cut(s: string): Option<(string, string)> {
    if s == "" then None
    else if s[0] == '.' then Some(("", s[1..]))
    else
      var rest := Cut(s[1..]);
      if rest.None? then None else Some(([s[0]] + rest.value.0, rest.value.1))
  }

  /** `validateTicketPayload`. */
  function ValidatePayload(d: TicketData, pathID: NoteID, now: Time): Result<Bytes> {
    if d.v != 1 || d.id != pathID || d.issuedAt == 0 || d.exp == 0 then Err(TicketInvalid)
    else if d.issuedAt > now + CLOCK_SKEW then Err(TicketInvalid)
    else if d.exp < now then Err(TicketExpired)
    else if Sub(d.exp, d.issuedAt) > TICKET_TIMEOUT then Err(TicketInvalid)
    else
      var verifier := StrictDecode(d.burnVerifier);
      if verifier.None? || |verifier.value| != BURN_VERIFIER_LENGTH then Err(TicketInvalid) else Ok(verifier.value)
  }

  datatype Accepted = Accepted(data: TicketData, verifier: Bytes)

  /** `verifyTicket`. */
  function VerifyTicket(c: Crypto, j: TicketJson, root: Option<Stored<RootKey>>,
                        ticket: string, pathID: NoteID, token: BurnToken, now: Time): Result<Accepted>
  {
    if |ticket| > MAX_TICKET_LENGTH then Err(TicketInvalid)
    else if !("v1." <= ticket) then Err(TicketInvalid)
    else
      var version := Cut(ticket);
      if version.None? then Err(TicketInvalid)
      else
        var parts := Cut(version.value.1);
        if parts.None? || parts.value.1 == "" then Err(TicketInvalid)
        else if version.value.0 != "v1" then Err(TicketInvalid)
        else
          VerifyParts(c, j, root, parts.value.0, parts.value.1, pathID, token, now)
  }

  /** The rest of `verifyTicket`, once the dotted text is taken apart. */
  function VerifyParts(c: Crypto, j: TicketJson, root: Option<Stored<RootKey>>,
                       payloadText: string, signatureText: string, pathID: NoteID, token: BurnToken, now: Time)
    : Result<Accepted>
  {
    var payload := StrictDecode(payloadText);
    if payload.None? then Err(TicketInvalid)
    else
      var data := j.parse(payload.value);
      if data.None? then Err(TicketInvalid)
      else
        var verifier := ValidatePayload(data.value, pathID, now);
        if verifier.Err? then Err(verifier.error)
        else
          var key := GetRootKey(root);
          if key.Err? then Err(key.error)
          else
            var signature := StrictDecode(signatureText);
            if signature.None? then Err(TicketInvalid)
            else if signature.value != Signature(c, key.value.secret, "v1." + payloadText) then Err(TicketInvalid)
            else if verifier.value != BurnVerifier(c, key.value.secret, token) then Err(TicketInvalid)
            else Ok(Accepted(data.value, verifier.value))
  }

  /** The only ways in which verification fails. */
  lemma VerificationErrors(c: Crypto, j: TicketJson, root: Option<Stored<RootKey>>, ticket: string, pathID: NoteID,
                           token: BurnToken, now: Time)
    ensures var verified := VerifyTicket(c, j, root, ticket, pathID, token, now);
            verified.Err? ==> verified.error in {TicketInvalid, TicketExpired, RootKeyUnavailable}
  {
    hide StrictDecode, Cut, BurnVerifier, Signature;
  }

  lemma ValidatedFacts(d: TicketData, pathID: NoteID, now: Time)
    requires ValidatePayload(d, pathID, now).Ok?
    ensures d.id == pathID && d.exp >= now && |ValidatePayload(d, pathID, now).value| == BURN_VERIFIER_LENGTH
  {
  }

  /** Whoever signed it and whatever times it names: a payload is not valid at two times more than sixteen minutes
      apart. */
  lemma ValidityIsShort(d: TicketData, pathID: NoteID, now: Time, otherID: NoteID, later: Time)
    requires ValidatePayload(d, pathID, now).Ok? && ValidatePayload(d, otherID, later).Ok?
    ensures pathID == otherID && later - now <= CLOCK_SKEW + TICKET_TIMEOUT
  {
    hide StrictDecode;
    assert d.issuedAt - CLOCK_SKEW <= now && later <= d.exp;
  }

  // ---- taking the dotted text apart ----

  predicate NoDot(s: string) {
    forall i :: 0 <= i < |s| ==> s[i] != '.'
  }

  lemma {:induction false} CutIsExact(s: string, a: string, b: string)
    ensures Cut(s) == Some((a, b)) <==> NoDot(a) && s == a + "." + b
  {
    if s != "" && s[0] != '.' {
      if a != "" {
        CutIsExact(s[1..], a[1..], b);
        assert a == [a[0]] + a[1..];
        if NoDot(a) && s == a + "." + b {
          assert s[1..] == a[1..] + "." + b;
        }
        if Cut(s) == Some((a, b)) {
          assert Cut(s[1..]) == Some((a[1..], b))
                 by { assert ([s[0]] + Cut(s[1..]).value.0)[1..] == Cut(s[1..]).value.0; }
          assert s == [s[0]] + s[1..];
        }
      }
    }
  }

  lemma Base64HasNoDot(b: Bytes)
    ensures NoDot(Encode(b))
  {
    EncodeShape(b);
    forall i | 0 <= i < |Encode(b)| ensures Encode(b)[i] != '.' {
      assert InAlphabet(Encode(b)[i]);
    }
  }

  /** The dotted text comes apart into exactly the two encoded parts it was built from. */
  lemma TicketParts(p: string, s: string)
    requires NoDot(p)
    ensures var t := "v1." + p + "." + s;
            "v1." <= t && Cut(t) == Some(("v1", p + "." + s)) && Cut(p + "." + s) == Some((p, s))
  {
    var t := "v1." + p + "." + s;
    assert t == "v1" + "." + (p + "." + s);
    CutIsExact(t, "v1", p + "." + s);
    CutIsExact(p + "." + s, p, s);
  }

  // ---- what verification accepts ----

  ghost predicate AcceptedFor(c: Crypto, j: TicketJson, root: Option<Stored<RootKey>>, ticket: string,
                              pathID: NoteID, token: BurnToken, now: Time, a: Accepted, p: Bytes)
  {
    var key := GetRootKey(root);
    && key.Ok?
    && p != []
    && |ticket| <= MAX_TICKET_LENGTH
    && ticket == Sealed(c, key.value.secret, p)
    && j.parse(p) == Some(a.data)
    && ValidatePayload(a.data, pathID, now) == Ok(a.verifier)
    && a.verifier == BurnVerifier(c, key.value.secret, token)
  }

  lemma AcceptedParts(c: Crypto, j: TicketJson, root: Option<Stored<RootKey>>, payloadText: string,
                      signatureText: string,
                      pathID: NoteID, token: BurnToken, now: Time, a: Accepted) returns (p: Bytes)
    requires VerifyParts(c, j, root, payloadText, signatureText, pathID, token, now) == Ok(a)
    ensures GetRootKey(root).Ok? && p != []
    ensures payloadText == Encode(p)
    ensures signatureText == Encode(Signature(c, GetRootKey(root).value.secret, SignedText(p)))
    ensures j.parse(p) == Some(a.data) && ValidatePayload(a.data, pathID, now) == Ok(a.verifier)
    ensures a.verifier == BurnVerifier(c, GetRootKey(root).value.secret, token)
  {
    p := StrictDecode(payloadText).value;
    StrictDecodeIsInverse(payloadText, p);
    StrictDecodeIsInverse(signatureText, StrictDecode(signatureText).value);
  }

  lemma AcceptedOnlySealed(c: Crypto, j: TicketJson, root: Option<Stored<RootKey>>, ticket: string,
                           pathID: NoteID, token: BurnToken, now: Time, a: Accepted) returns (p: Bytes)
    requires VerifyTicket(c, j, root, ticket, pathID, token, now) == Ok(a)
    ensures AcceptedFor(c, j, root, ticket, pathID, token, now, a, p)
  {
    hide Encode, StrictDecode, Cut, ValidatePayload, VerifyParts, GetRootKey;
    var (version, rest) := Cut(ticket).value;
    var (payloadText, signatureText) := Cut(rest).value;
    CutIsExact(ticket, version, rest);
    CutIsExact(rest, payloadText, signatureText);
    assert ticket == "v1." + payloadText + "." + signatureText;
    p := AcceptedParts(c, j, root, payloadText, signatureText, pathID, token, now, a);
  }

  lemma SealedIsTakenApart(c: Crypto, j: TicketJson, root: Option<Stored<RootKey>>, p: Bytes,
                           pathID: NoteID, token: BurnToken, now: Time)
    requires CryptoLaws(c) && GetRootKey(root).Ok? && p != []
    requires |Sealed(c, GetRootKey(root).value.secret, p)| <= MAX_TICKET_LENGTH
    ensures var secret := GetRootKey(root).value.secret;
            var verifier := if j.parse(p).None? then Err(TicketInvalid)
              else ValidatePayload(j.parse(p).value, pathID, now);
            VerifyTicket(c, j, root, Sealed(c, secret, p), pathID, token, now) ==
            if verifier.Err? then Err(verifier.error)
            else if verifier.value != BurnVerifier(c, secret, token) then Err(TicketInvalid)
            else Ok(Accepted(j.parse(p).value, verifier.value))
  {
    hide Encode, StrictDecode, ValidatePayload;
    var secret := GetRootKey(root).value.secret;
    var ticket := Sealed(c, secret, p);
    var signature := Signature(c, secret, SignedText(p));
    Base64HasNoDot(p);
    TicketParts(Encode(p), Encode(signature));
    assert ticket == "v1." + Encode(p) + "." + Encode(signature);
    StrictDecodeIsInverse(Encode(p), p);
    assert |signature| == 32;
    StrictDecodeIsInverse(Encode(signature), signature);
    EncodeShape(signature);
  }

  /** A ticket as the design describes it: version, payload and a MAC over both under the subkey for tickets; a payload
      of version 1 for this identifier, not expired, issued at most a minute ahead and valid for at most fifteen
      minutes; and in it the MAC of the token under the subkey for burn tokens. */
  ghost predicate Genuine(c: Crypto, j: TicketJson, root: Option<Stored<RootKey>>, ticket: string,
                          pathID: NoteID, token: BurnToken, now: Time, a: Accepted, p: Bytes)
  {
    && root.Some? && root.value.Parsed? && |root.value.value.secret| == 32 && root.value.value.createdAt != 0
    && var secret := root.value.value.secret;
    && p != [] && |ticket| <= 512
    && ticket == "v1." + Encode(p) + "."
       + Encode(c.mac(c.derive(secret, "ticket signing v1"), TextBytes("v1." + Encode(p))))
    && j.parse(p) == Some(a.data)
    && a.data.v == 1 && a.data.id == pathID && a.data.issuedAt != 0 && a.data.exp != 0
    && a.data.issuedAt - MINUTE <= now <= a.data.exp && a.data.exp - a.data.issuedAt <= 15 * MINUTE
    && |a.verifier| == 32 && a.data.burnVerifier == Encode(a.verifier)
    && a.verifier == c.mac(c.derive(secret, "burn verifier v1"), token)
  }

  lemma GenuineIsAccepted(c: Crypto, j: TicketJson, root: Option<Stored<RootKey>>, ticket: string,
                          pathID: NoteID, token: BurnToken, now: Time, a: Accepted, p: Bytes)
    ensures Genuine(c, j, root, ticket, pathID, token, now, a, p)
            <==> AcceptedFor(c, j, root, ticket, pathID, token, now, a, p)
  {
    hide Encode, StrictDecode;
    StrictDecodeIsInverse(a.data.burnVerifier, a.verifier);
  }

  /** Verification accepts exactly the genuine tickets. */
  lemma VerifyTicketAcceptsExactly(c: Crypto, j: TicketJson, root: Option<Stored<RootKey>>, ticket: string,
                                   pathID: NoteID, token: BurnToken, now: Time, a: Accepted)
    requires CryptoLaws(c)
    ensures VerifyTicket(c, j, root, ticket, pathID, token, now) == Ok(a)
            <==> exists p :: Genuine(c, j, root, ticket, pathID, token, now, a, p)
  {
    hide VerifyTicket, AcceptedFor, Genuine;
    if VerifyTicket(c, j, root, ticket, pathID, token, now) == Ok(a) {
      var p := AcceptedOnlySealed(c, j, root, ticket, pathID, token, now, a);
      GenuineIsAccepted(c, j, root, ticket, pathID, token, now, a, p);
    }
    if p :| Genuine(c, j, root, ticket, pathID, token, now, a, p) {
      GenuineIsAccepted(c, j, root, ticket, pathID, token, now, a, p);
      AcceptedVerifies(c, j, root, ticket, pathID, token, now, a, p);
    }
  }

  lemma AcceptedVerifies(c: Crypto, j: TicketJson, root: Option<Stored<RootKey>>, ticket: string,
                         pathID: NoteID, token: BurnToken, now: Time, a: Accepted, p: Bytes)
    requires CryptoLaws(c) && AcceptedFor(c, j, root, ticket, pathID, token, now, a, p)
    ensures VerifyTicket(c, j, root, ticket, pathID, token, now) == Ok(a)
  {
    hide VerifyTicket, Encode, ValidatePayload;
    SealedIsTakenApart(c, j, root, p, pathID, token, now);
  }

  // ---- which error is reported ----

  /** A dotted text with some signature, over a payload for this identifier that was not issued in the future. */
  ghost predicate NamesNote(j: TicketJson, ticket: string, pathID: NoteID, now: Time, d: TicketData, p: Bytes,
                            signature: string)
  {
    && |ticket| <= 512 && ticket == "v1." + Encode(p) + "." + signature && p != [] && signature != ""
    && j.parse(p) == Some(d)
    && d.v == 1 && d.id == pathID && d.issuedAt != 0 && d.exp != 0 && d.issuedAt - MINUTE <= now
  }

  lemma NamedIsTakenApart(c: Crypto, j: TicketJson, root: Option<Stored<RootKey>>, ticket: string, pathID: NoteID,
                          token: BurnToken, now: Time, d: TicketData, p: Bytes, signature: string)
    requires NamesNote(j, ticket, pathID, now, d, p, signature)
    ensures VerifyTicket(c, j, root, ticket, pathID, token, now)
            == VerifyParts(c, j, root, Encode(p), signature, pathID, token, now)
    ensures StrictDecode(Encode(p)) == Some(p)
  {
    hide Encode, StrictDecode, VerifyParts;
    Base64HasNoDot(p);
    TicketParts(Encode(p), signature);
    StrictDecodeIsInverse(Encode(p), p);
  }

  /** Whatever is not refused as invalid names its note. */
  lemma OtherwiseNamed(c: Crypto, j: TicketJson, root: Option<Stored<RootKey>>, ticket: string, pathID: NoteID,
                       token: BurnToken, now: Time)
    returns (d: TicketData, p: Bytes, signature: string)
    requires VerifyTicket(c, j, root, ticket, pathID, token, now) != Err(TicketInvalid)
    ensures NamesNote(j, ticket, pathID, now, d, p, signature)
  {
    hide Encode, StrictDecode, Cut, Signature, BurnVerifier;
    var (version, rest) := Cut(ticket).value;
    var (payloadText, rawSignature) := Cut(rest).value;
    CutIsExact(ticket, version, rest);
    CutIsExact(rest, payloadText, rawSignature);
    signature := rawSignature;
    p := StrictDecode(payloadText).value;
    StrictDecodeIsInverse(payloadText, p);
    d := j.parse(p).value;
  }

  /** "Expired" is reported for every readable ticket of the note that has passed its time, whatever its signature
      says, and for nothing else. */
  lemma ExpiredExactly(c: Crypto, j: TicketJson, root: Option<Stored<RootKey>>, ticket: string, pathID: NoteID,
                       token: BurnToken, now: Time)
    ensures VerifyTicket(c, j, root, ticket, pathID, token, now) == Err(TicketExpired)
            <==> exists d, p, signature :: NamesNote(j, ticket, pathID, now, d, p, signature) && d.exp < now
  {
    hide VerifyTicket, Encode, StrictDecode, Signature, BurnVerifier, NamesNote;
    if VerifyTicket(c, j, root, ticket, pathID, token, now) == Err(TicketExpired) {
      var d, p, signature := OtherwiseNamed(c, j, root, ticket, pathID, token, now);
      NamedError(c, j, root, ticket, pathID, token, now, d, p, signature);
    }
    if d, p, signature :| NamesNote(j, ticket, pathID, now, d, p, signature) && d.exp < now {
      NamedError(c, j, root, ticket, pathID, token, now, d, p, signature);
    }
  }

  /** The missing or unreadable root key is reported for every readable, unexpired ticket with a verifier of 32 bytes,
      and for nothing else. */
  lemma RootKeyUnavailableExactly(c: Crypto, j: TicketJson, root: Option<Stored<RootKey>>, ticket: string,
                                  pathID: NoteID, token: BurnToken, now: Time)
    ensures VerifyTicket(c, j, root, ticket, pathID, token, now) == Err(RootKeyUnavailable)
            <==> (!(root.Some? && root.value.Parsed? && |root.value.value.secret| == 32
                    && root.value.value.createdAt != 0)
                  && exists d, p, signature ::
                       NamesNote(j, ticket, pathID, now, d, p, signature) && HasVerifier(d, now))
  {
    hide VerifyTicket, Encode, StrictDecode, Signature, BurnVerifier, NamesNote, HasVerifier;
    if VerifyTicket(c, j, root, ticket, pathID, token, now) == Err(RootKeyUnavailable) {
      var d, p, signature := OtherwiseNamed(c, j, root, ticket, pathID, token, now);
      NamedError(c, j, root, ticket, pathID, token, now, d, p, signature);
    }
    if d, p, signature :| NamesNote(j, ticket, pathID, now, d, p, signature) && HasVerifier(d, now) {
      NamedError(c, j, root, ticket, pathID, token, now, d, p, signature);
    }
  }

  ghost predicate HasVerifier(d: TicketData, now: Time) {
    && now <= d.exp && d.exp - d.issuedAt <= 15 * MINUTE
    && exists verifier: Bytes :: |verifier| == 32 && d.burnVerifier == Encode(verifier)
  }

  lemma NamedError(c: Crypto, j: TicketJson, root: Option<Stored<RootKey>>, ticket: string, pathID: NoteID,
                   token: BurnToken, now: Time, d: TicketData, p: Bytes, signature: string)
    requires NamesNote(j, ticket, pathID, now, d, p, signature)
    ensures VerifyTicket(c, j, root, ticket, pathID, token, now) == Err(TicketExpired) <==> d.exp < now
    ensures VerifyTicket(c, j, root, ticket, pathID, token, now) == Err(RootKeyUnavailable)
            <==> HasVerifier(d, now) && GetRootKey(root).Err?
  {
    hide VerifyTicket, Encode, StrictDecode, Signature, BurnVerifier;
    NamedIsTakenApart(c, j, root, ticket, pathID, token, now, d, p, signature);
    var verifier := StrictDecode(d.burnVerifier);
    if verifier.Some? {
      StrictDecodeIsInverse(d.burnVerifier, verifier.value);
    }
    if known: Bytes :| |known| == 32 && d.burnVerifier == Encode(known) {
      StrictDecodeIsInverse(d.burnVerifier, known);
    }
  }

  /** A signature stays with its payload: moved to another one, whose MAC differs, it is refused. */
  lemma SignatureIsBound(c: Crypto, j: TicketJson, root: Option<Stored<RootKey>>, p: Bytes, q: Bytes,
                         pathID: NoteID, token: BurnToken, now: Time)
    requires GetRootKey(root).Ok?
    requires var key := c.derive(GetRootKey(root).value.secret, "ticket signing v1");
             c.mac(key, TextBytes("v1." + Encode(p))) != c.mac(key, TextBytes("v1." + Encode(q)))
    ensures var key := c.derive(GetRootKey(root).value.secret, "ticket signing v1");
            var moved := "v1." + Encode(q) + "." + Encode(c.mac(key, TextBytes("v1." + Encode(p))));
            VerifyTicket(c, j, root, moved, pathID, token, now).Err?
  {
    hide Encode, VerifyTicket, TextBytes, ValidatePayload;
    var secret := GetRootKey(root).value.secret;
    var signature := Signature(c, secret, SignedText(p));
    var moved := "v1." + Encode(q) + "." + Encode(signature);
    var verified := VerifyTicket(c, j, root, moved, pathID, token, now);
    if verified.Ok? {
      var r := AcceptedOnlySealed(c, j, root, moved, pathID, token, now, verified.value);
      Base64HasNoDot(q);
      Base64HasNoDot(r);
      TicketParts(Encode(q), Encode(signature));
      TicketParts(Encode(r), Encode(Signature(c, secret, SignedText(r))));
      assert moved == "v1." + Encode(r) + "." + Encode(Signature(c, secret, SignedText(r)));
      EncodeInjective(q, r);
      EncodeInjective(signature, Signature(c, secret, SignedText(r)));
    }
  }

  /** Each payload has exactly one text that can be accepted. */
  lemma OneTextPerPayload(c: Crypto, secret: Bytes, p: Bytes, q: Bytes)
    ensures Sealed(c, secret, p) == Sealed(c, secret, q) <==> p == q
  {
    hide Encode;
    if Sealed(c, secret, p) == Sealed(c, secret, q) {
      var s, u := Encode(Signature(c, secret, SignedText(p))), Encode(Signature(c, secret, SignedText(q)));
      Base64HasNoDot(p);
      Base64HasNoDot(q);
      TicketParts(Encode(p), s);
      TicketParts(Encode(q), u);
      assert Sealed(c, secret, p) == "v1." + Encode(p) + "." + s;
      assert Sealed(c, secret, q) == "v1." + Encode(q) + "." + u;
      EncodeInjective(p, q);
    }
  }

  // ---- issued tickets ----

  ghost predicate IssuedData(c: Crypto, secret: Bytes, d: TicketData) {
    && (exists token: BurnToken :: d.burnVerifier == Encode(BurnVerifier(c, secret, token)))
    && d.v == 1
    && d.exp == d.issuedAt + TICKET_TIMEOUT
    && JsonTime(d.issuedAt) && JsonTime(d.exp)
  }

  lemma TicketShape(j: TicketJson, d: TicketData)
    ensures MarshalTicket(j, d)
            == "{" + (Quote("v") + ":" + PrintNumber(d.v) + ("," + (Member("id", Encode(d.id)) + ("," +
               (Member("iat", j.formatTime(d.issuedAt)) + ("," + (Member("exp", j.formatTime(d.exp)) + ("," +
               Member("burnVerifier", d.burnVerifier))))))))) + "}"
  {
    hide Quote, PrintNumber, Encode;
    var m := TicketMembers(j, d);
    var m1, m2, m3, m4 := m[1..], m[1..][1..], m[1..][1..][1..], m[1..][1..][1..][1..];
    assert m4 == [("burnVerifier", Str(d.burnVerifier))];
    assert PrintMembers(m4) == Member("burnVerifier", d.burnVerifier) + "" == Member("burnVerifier", d.burnVerifier);
    assert m3[0] == ("exp", Str(j.formatTime(d.exp))) && |m3| == 2;
    assert PrintMembers(m3) == Member("exp", j.formatTime(d.exp)) + ("," + PrintMembers(m4));
    assert m2[0] == ("iat", Str(j.formatTime(d.issuedAt))) && |m2| == 3;
    assert PrintMembers(m2) == Member("iat", j.formatTime(d.issuedAt)) + ("," + PrintMembers(m3));
    assert m1[0] == ("id", Str(Encode(d.id))) && |m1| == 4;
    assert PrintMembers(m1) == Member("id", Encode(d.id)) + ("," + PrintMembers(m2));
  }

  lemma IssuedIsAscii(c: Crypto, j: TicketJson, secret: Bytes, d: TicketData)
    requires JsonLaws(j) && IssuedData(c, secret, d)
    ensures Ascii(MarshalTicket(j, d))
  {
    hide Encode, Quote, MarshalTicket, Member;
    var token: BurnToken :| d.burnVerifier == Encode(BurnVerifier(c, secret, token));
    TicketShape(j, d);
    Base64IsPlain(BurnVerifier(c, secret, token));
    Base64IsPlain(d.id);
    QuotedCount("v");
    assert PrintNumber(1) == "1";
    MemberCount("id", Encode(d.id));
    MemberCount("iat", j.formatTime(d.issuedAt));
    MemberCount("exp", j.formatTime(d.exp));
    MemberCount("burnVerifier", d.burnVerifier);
  }

  lemma IssuedPayloadLength(c: Crypto, j: TicketJson, secret: Bytes, d: TicketData)
    requires CryptoLaws(c) && JsonLaws(j) && IssuedData(c, secret, d)
    ensures 1 <= |MarshalTicket(j, d)| <= 207
  {
    hide Encode, Quote, MarshalTicket, Member;
    var token: BurnToken :| d.burnVerifier == Encode(BurnVerifier(c, secret, token));
    var verifier := BurnVerifier(c, secret, token);
    TicketShape(j, d);
    Base64IsPlain(verifier);
    Base64IsPlain(d.id);
    EncodeShape(verifier);
    EncodeShape(d.id);
    QuotePlain("v");
    assert PrintNumber(1) == "1";
    MemberLength("id", Encode(d.id));
    MemberLength("iat", j.formatTime(d.issuedAt));
    MemberLength("exp", j.formatTime(d.exp));
    MemberLength("burnVerifier", d.burnVerifier);
  }

  /** What is marshalled for a ticket is read back. */
  lemma IssuedDataParses(c: Crypto, j: TicketJson, secret: Bytes, d: TicketData)
    requires JsonLaws(j) && IssuedData(c, secret, d)
    ensures j.parse(TextBytes(MarshalTicket(j, d))) == Some(d)
  {
    hide PrintObject, ReadObject, Encode, StrictDecode, TextBytes, IssuedData;
    IssuedIsAscii(c, j, secret, d);
    IssuedTimes(c, secret, d);
    ReadsObject(TicketMembers(j, d));
    StrictDecodeIsInverse(Encode(d.id), d.id);
    assert TicketOf(j, TicketMembers(j, d)) == Some(d);
  }

  lemma IssuedTimes(c: Crypto, secret: Bytes, d: TicketData)
    requires IssuedData(c, secret, d)
    ensures d.v == 1 && d.exp == d.issuedAt + TICKET_TIMEOUT && JsonTime(d.issuedAt) && JsonTime(d.exp)
  {
  }

  lemma IssuedTicketLength(c: Crypto, j: TicketJson, secret: Bytes, d: TicketData)
    requires CryptoLaws(c) && JsonLaws(j) && IssuedData(c, secret, d)
    ensures 1 <= |MarshalTicket(j, d)| <= 207
    ensures |Sealed(c, secret, TextBytes(MarshalTicket(j, d)))| <= 323
  {
    hide Encode, MarshalTicket, JsonLaws, IssuedData;
    IssuedPayloadLength(c, j, secret, d);
    SealedLength(c, secret, TextBytes(MarshalTicket(j, d)), 207);
  }

  lemma SealedIsPlain(c: Crypto, secret: Bytes, p: Bytes)
    ensures Plain(Sealed(c, secret, p))
  {
    hide Encode;
    Base64IsPlain(p);
    Base64IsPlain(Signature(c, secret, SignedText(p)));
  }

  lemma SealedLength(c: Crypto, secret: Bytes, p: Bytes, n: nat)
    requires CryptoLaws(c) && |p| <= n
    ensures |Sealed(c, secret, p)| <= 4 + EncodedLen(n) + EncodedLen(32)
  {
    hide Encode;
    EncodeShape(p);
    EncodedLenMonotone(|p|, n);
    EncodeShape(Signature(c, secret, SignedText(p)));
  }

  lemma EncodedLenMonotone(m: nat, n: nat)
    requires m <= n
    ensures EncodedLen(m) <= EncodedLen(n)
  {
    assert m == 3 * (m / 3) + m % 3 && n == 3 * (n / 3) + n % 3;
  }

  /** What is issued, verified as it was handed out: the ticket is short enough, and with its identifier and its token
      it verifies exactly from a minute before its issue until fifteen minutes after; too early it is invalid, too late
      it is expired. */
  lemma IssueThenVerify(c: Crypto, j: TicketJson, key: RootKey, issuedAt: Time, id: NoteID, token: BurnToken, now: Time)
    requires CryptoLaws(c) && JsonLaws(j) && ValidRootKey(key)
    requires JsonTime(issuedAt) && JsonTime(issuedAt + TICKET_TIMEOUT)
    requires issuedAt != 0 && issuedAt + TICKET_TIMEOUT != 0
    ensures var root := Some(Parsed(key));
            var issued := CreateTicket(c, j, root, issuedAt, id, token);
            && issued.Ok?
            && var t := issued.value;
            && |t.value| <= 512 && t.data.id == id && t.burnToken == token
            && VerifyTicket(c, j, root, t.value, t.data.id, t.burnToken, now) ==
               if issuedAt - MINUTE <= now <= issuedAt + 15 * MINUTE then
                 Ok(Accepted(t.data, c.mac(c.derive(key.secret, "burn verifier v1"), token)))
               else Err(if now > issuedAt + 15 * MINUTE then TicketExpired else TicketInvalid)
  {
    hide Encode, Sealed, MarshalTicket, StrictDecode, VerifyTicket, TextBytes;
    var root := Some(Parsed(key));
    var data := FreshTicketData(c, key.secret, issuedAt, id, token);
    var verifier := BurnVerifier(c, key.secret, token);
    assert IssuedData(c, key.secret, data);
    IssuedDataParses(c, j, key.secret, data);
    IssuedTicketLength(c, j, key.secret, data);
    StrictDecodeIsInverse(data.burnVerifier, verifier);
    SealedIsTakenApart(c, j, root, TextBytes(MarshalTicket(j, data)), id, token, now);
  }

  /** When no ticket is issued, and why. */
  lemma IssueFailsExactly(c: Crypto, j: TicketJson, root: Option<Stored<RootKey>>, now: Time, id: NoteID,
                          token: BurnToken)
    ensures var issued := CreateTicket(c, j, root, now, id, token);
            var usable := root.Some? && root.value.Parsed?
                          && |root.value.value.secret| == 32 && root.value.value.createdAt != 0;
            && (issued == Err(RootKeyUnavailable) <==> !usable)
            && (issued == Err(MarshalFailed) <==> usable && !(JsonTime(now) && JsonTime(now + 15 * MINUTE)))
            && (issued.Ok? <==> usable && JsonTime(now) && JsonTime(now + 15 * MINUTE))
  {
    hide Sealed, MarshalTicket, JsonTime, BurnVerifier;
  }

  /** Another identifier in the path is refused at every time, and so is another token. */
  lemma IssuedTicketIsBound(c: Crypto, j: TicketJson, key: RootKey, issuedAt: Time, id: NoteID, token: BurnToken,
                            pathID: NoteID, other: BurnToken, now: Time)
    requires CryptoLaws(c) && JsonLaws(j) && ValidRootKey(key)
    requires JsonTime(issuedAt) && JsonTime(issuedAt + TICKET_TIMEOUT)
    requires pathID != id || (MacTellsTokens(c) && other != token)
    ensures var root := Some(Parsed(key));
            var ticket := CreateTicket(c, j, root, issuedAt, id, token);
            ticket.Ok? && VerifyTicket(c, j, root, ticket.value.value, pathID, other, now).Err?
  {
    hide Encode, Sealed, MarshalTicket, StrictDecode, VerifyTicket, TextBytes;
    var data := FreshTicketData(c, key.secret, issuedAt, id, token);
    assert IssuedData(c, key.secret, data);
    IssuedDataParses(c, j, key.secret, data);
    IssuedTicketLength(c, j, key.secret, data);
    StrictDecodeIsInverse(data.burnVerifier, BurnVerifier(c, key.secret, token));
    SealedIsTakenApart(c, j, Some(Parsed(key)), TextBytes(MarshalTicket(j, data)), pathID, other, now);
  }

  /** A ticket text whose signature checks under the root secret. */
  ghost predicate WellSigned(c: Crypto, secret: Bytes, ticket: string, p: Bytes) {
    p != [] && ticket == Sealed(c, secret, p)
  }

  /** The unforgeability hypothesis: every well signed text was signed for one of the issued tickets. */
  ghost predicate Unforged(c: Crypto, j: TicketJson, secret: Bytes, issued: map<NoteID, TicketData>, ticket: string) {
    forall p :: WellSigned(c, secret, ticket, p) ==>
                  exists id :: id in issued && SignedText(p) == SignedText(TextBytes(MarshalTicket(j, issued[id])))
  }

  /** The tickets issued so far, filed under their identifiers. */
  ghost predicate IssuedTable(c: Crypto, secret: Bytes, issued: map<NoteID, TicketData>) {
    forall id :: id in issued ==> issued[id].id == id && IssuedData(c, secret, issued[id])
  }

  /** The payload of a well signed text is the data of an issued ticket. */
  lemma WellSignedWasIssued(c: Crypto, j: TicketJson, secret: Bytes, issued: map<NoteID, TicketData>, ticket: string,
                            p: Bytes)
    requires JsonLaws(j) && IssuedTable(c, secret, issued) && Unforged(c, j, secret, issued, ticket)
    requires WellSigned(c, secret, ticket, p)
    ensures exists id :: id in issued && j.parse(p) == Some(issued[id])
  {
    hide Encode, MarshalTicket, TextBytes, Sealed;
    var id :| id in issued && SignedText(p) == SignedText(TextBytes(MarshalTicket(j, issued[id])));
    var q := TextBytes(MarshalTicket(j, issued[id]));
    assert Encode(p) == SignedText(p)[3..] == SignedText(q)[3..] == Encode(q);
    EncodeInjective(p, q);
    IssuedDataParses(c, j, secret, issued[id]);
  }

  /** Whatever verification accepts is the data of the one ticket issued for the path's identifier. */
  lemma AcceptedWasIssued(c: Crypto, j: TicketJson, root: Option<Stored<RootKey>>, issued: map<NoteID, TicketData>,
                          ticket: string, pathID: NoteID, token: BurnToken, now: Time)
    requires JsonLaws(j) && GetRootKey(root).Ok?
    requires IssuedTable(c, GetRootKey(root).value.secret, issued)
    requires Unforged(c, j, GetRootKey(root).value.secret, issued, ticket)
    requires VerifyTicket(c, j, root, ticket, pathID, token, now).Ok?
    ensures pathID in issued
    ensures VerifyTicket(c, j, root, ticket, pathID, token, now).value.data == issued[pathID]
  {
    hide Encode, MarshalTicket, TextBytes, Sealed, VerifyTicket, StrictDecode;
    var secret := GetRootKey(root).value.secret;
    var accepted := VerifyTicket(c, j, root, ticket, pathID, token, now).value;
    var p := AcceptedOnlySealed(c, j, root, ticket, pathID, token, now, accepted);
    assert WellSigned(c, secret, ticket, p);
    WellSignedWasIssued(c, j, secret, issued, ticket, p);
  }
}
