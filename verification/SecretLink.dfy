/** Identifiers, burn tokens and the secret fragment of a note link (`note_id.go`, `burn_token.go`,
    `crypto-utils.js`). */
module SecretLink {
  import opened Base
  import opened Base64Url
  import opened Json
  import opened JsonObjects
  import Utf8

  /** The pattern that the browser holds an identifier against: 43 characters of the alphabet. */
  predicate LooksLikeNoteID(text: string) {
    |text| == 43 && AllInAlphabet(text)
  }

  /** `decodeKey` and `decodeBurnToken`. */
  function BrowserBytes32(text: string): Option<Bytes32> {
    var decoded := BrowserDecode(text);
    if decoded.None? || |decoded.value| != 32 then None else Some(decoded.value)
  }

  // ---- the fragment ----

  function FragmentMembers(key: Bytes32, token: BurnToken): seq<(string, Scalar)> {
    [("k", Str(Encode(key))), ("b", Str(Encode(token)))]
  }

  /** `encodeSecretFragment`, for a key and a token of the only length that it takes. */
  function EncodeFragment(key: Bytes32, token: BurnToken): string {
    "v1." + Encode(Utf8.Encode(PrintObject(FragmentMembers(key, token))))
  }

  datatype Secret = Secret(keyBytes: Bytes32, burnToken: string, burnTokenBytes: Bytes32)

  /** `parseSecretFragment`. Bytes that are not UTF-8 are refused here at once; in the browser the replacement
      characters they turn into make the JSON, its member names or its base64url texts fail. */
  function ParseFragment(parse: string -> Option<JsonValue>, fragment: string): Option<Secret> {
    if !("v1." <= fragment) then None
    else
      var bytes := BrowserDecode(fragment[3..]);
      if bytes.None? then None
      else
        var text := Utf8.TextDecode(bytes.value);
        if text.None? then None
        else
          var parsed := parse(text.value);
          if parsed.None? || !parsed.value.Object? then None
          else SecretOf(parsed.value.members)
  }

  function SecretOf(members: map<string, JsonValue>): Option<Secret> {
    if members.Keys != {"b", "k"} || !members["b"].Text? || !members["k"].Text? then None
    else
      var key, token := BrowserBytes32(members["k"].text), BrowserBytes32(members["b"].text);
      if key.None? || token.None? then None else Some(Secret(key.value, members["b"].text, token.value))
  }

  // ---- identifiers and tokens ----

  lemma Bytes32Length(b: Bytes32)
    ensures |Encode(b)| == 43 && LooksLikeNoteID(Encode(b))
  {
    EncodeShape(b);
  }

  /** The printer and the parser of identifiers and tokens are inverse to each other. */
  lemma ParseBytes32IsInverse(text: string, b: Bytes32)
    ensures ParseBytes32(text) == Some(b) <==> text == Encode(b)
  {
    StrictDecodeIsInverse(text, b);
  }

  /** `UnmarshalText`: the receiver's array is filled on success and left alone on failure. */
  method UnmarshalText(text: string, receiver: array<byte>) returns (ok: bool)
    requires receiver.Length == 32
    modifies receiver
    ensures ok <==> ParseBytes32(text).Some?
    ensures receiver[..] == if ok then ParseBytes32(text).value else old(receiver[..])
  {
    var decoded := StrictDecode(text);
    if decoded.None? || |decoded.value| != receiver.Length {
      return false;
    }
    forall i | 0 <= i < receiver.Length {
      receiver[i] := decoded.value[i];
    }
    return true;
  }

  /** The server accepts exactly the texts of the browser's pattern whose last digit carries no stray bits. */
  lemma ParseBytes32AcceptsExactly(text: string)
    ensures ParseBytes32(text).Some? <==> LooksLikeNoteID(text) && Value(text[42]) % 4 == 0
  {
    hide StrictDecode;
    StrictDecodeAcceptsExactly(text);
    if StrictDecode(text).Some? {
      var b := StrictDecode(text).value;
      StrictDecodeIsInverse(text, b);
      EncodeShape(b);
      LengthOf43(|b|);
    }
  }

  lemma LengthOf43(n: nat)
    ensures EncodedLen(n) == 43 <==> n == 32
  {
    assert n == n / 3 * 3 + n % 3;
  }

  /** A token that the browser takes from a link is one that the server takes exactly when its text is canonical, and
      then both read the same bytes. */
  lemma BrowserTokenReachesServerExactly(text: string)
    requires BrowserBytes32(text).Some?
    ensures ParseBytes32(text).Some? <==> text == Encode(BrowserBytes32(text).value)
    ensures ParseBytes32(text).Some? ==> ParseBytes32(text) == BrowserBytes32(text)
  {
    hide StrictDecode, BrowserDecode;
    StrictIsCanonicalBrowser(text);
    ParseBytes32IsInverse(text, BrowserBytes32(text).value);
  }

  // ---- round trips ----

  lemma FragmentIsParsed(parse: string -> Option<JsonValue>, key: Bytes32, token: BurnToken)
    requires ParserLaw(parse)
    ensures parse(PrintObject(FragmentMembers(key, token)))
            == Some(Object(map["k" := Text(Encode(key)), "b" := Text(Encode(token))]))
  {
    hide Encode, MembersOf, PrintObject, ReadObject;
    var members := FragmentMembers(key, token);
    ReadsObject(members);
    assert parse(PrintObject(members)) == Some(Object(MembersOf(members)));
    MembersOfTwo(members);
  }

  /** The fragment gives back the key, the token's bytes and the token's own text, for every key and every token. */
  lemma FragmentRoundTrip(parse: string -> Option<JsonValue>, key: Bytes32, token: BurnToken)
    requires ParserLaw(parse)
    ensures ParseFragment(parse, EncodeFragment(key, token)) == Some(Secret(key, Encode(token), token))
  {
    hide Encode, BrowserDecode, Utf8.TextDecode, Utf8.Encode, PrintMembers, SecretOf;
    var json := PrintObject(FragmentMembers(key, token));
    FragmentIsParsed(parse, key, token);
    assert json[0] == '{';
    var bytes := Utf8.Encode(json);
    Utf8.OnlyEmptyIsEmpty(json);
    BrowserDecodesEncoding(bytes);
    Utf8.TextDecodeInvertsExactly(json);
    assert EncodeFragment(key, token)[3..] == Encode(bytes);
    FragmentSecret(key, token);
  }

  /** What stands in a link: the version, and in base64url a JSON object of the key and the token, each in base64url. */
  lemma FragmentIsRead(key: Bytes32, token: BurnToken)
    ensures var fragment := EncodeFragment(key, token);
            && fragment[..3] == "v1." && BrowserDecode(fragment[3..]).Some?
            && var text := Utf8.TextDecode(BrowserDecode(fragment[3..]).value);
            && text.Some? && ReadObject(text.value) == Some([("k", Str(Encode(key))), ("b", Str(Encode(token)))])
  {
    hide Encode, BrowserDecode, Utf8.TextDecode, Utf8.Encode, PrintMembers, ReadObject;
    var json := PrintObject(FragmentMembers(key, token));
    assert json[0] == '{';
    Utf8.OnlyEmptyIsEmpty(json);
    BrowserDecodesEncoding(Utf8.Encode(json));
    Utf8.TextDecodeInvertsExactly(json);
    assert EncodeFragment(key, token)[3..] == Encode(Utf8.Encode(json));
    ReadsObject(FragmentMembers(key, token));
  }

  /** Which fragments are read, and as what. */
  lemma ParseFragmentExactly(parse: string -> Option<JsonValue>, fragment: string, secret: Secret)
    ensures ParseFragment(parse, fragment) == Some(secret) <==>
              exists bytes: Bytes, text: string, k: string ::
                && "v1." <= fragment && BrowserDecode(fragment[3..]) == Some(bytes)
                   && Utf8.TextDecode(bytes) == Some(text)
                && parse(text) == Some(Object(map["k" := Text(k), "b" := Text(secret.burnToken)]))
                && BrowserDecode(k) == Some(secret.keyBytes)
                   && BrowserDecode(secret.burnToken) == Some(secret.burnTokenBytes)
  {
    hide BrowserDecode, Utf8.TextDecode;
    assert "k"[0] == 'k' && "b"[0] == 'b';
    if ParseFragment(parse, fragment) == Some(secret) {
      var bytes := BrowserDecode(fragment[3..]).value;
      var text := Utf8.TextDecode(bytes).value;
      var m := parse(text).value.members;
      assert m == map["k" := Text(m["k"].text), "b" := Text(m["b"].text)];
    }
  }

  lemma FragmentSecret(key: Bytes32, token: BurnToken)
    ensures SecretOf(map["k" := Text(Encode(key)), "b" := Text(Encode(token))])
            == Some(Secret(key, Encode(token), token))
  {
    hide Encode, BrowserDecode;
    assert "k"[0] == 'k' && "b"[0] == 'b';
    BrowserDecodesEncoding(key);
    BrowserDecodesEncoding(token);
  }

  lemma MembersOfTwo(members: seq<(string, Scalar)>)
    requires |members| == 2 && members[0].0 == "k" && members[1].0 == "b"
    ensures MembersOf(members) == map["k" := ValueOfScalar(members[0].1), "b" := ValueOfScalar(members[1].1)]
  {
    hide MembersOf;
    assert "k"[0] == 'k' && "b"[0] == 'b';
    LastOfItsName(members, 0);
    LastOfItsName(members, 1);
    forall name | name in MembersOf(members) ensures name == "k" || name == "b" {
      NoOtherNames(members, name);
    }
  }

  lemma BrowserDecodesEncoding(b: Bytes)
    requires b != []
    ensures BrowserDecode(Encode(b)) == Some(b)
  {
    hide Encode, LooseDecode;
    EncodeShape(b);
    DecodeInvertsEncode(b);
    NotEmpty(b);
  }

  lemma NotEmpty(b: Bytes)
    requires b != []
    ensures Encode(b) != ""
  {
  }

  /** The whole journey of a burn token: printed by the server, decoded by the creator's browser, carried in the link,
      parsed by the reader's browser, sent back as text and parsed by the server. */
  lemma BurnTokenJourney(parse: string -> Option<JsonValue>, key: Bytes32, token: BurnToken)
    requires ParserLaw(parse)
    ensures var received := BrowserBytes32(Encode(token));
            && received == Some(token)
            && var secret := ParseFragment(parse, EncodeFragment(key, received.value));
            && secret.Some? && secret.value.keyBytes == key && ParseBytes32(secret.value.burnToken) == Some(token)
  {
    hide Encode, ParseFragment, EncodeFragment, BrowserDecode, StrictDecode;
    BrowserDecodesEncoding(token);
    FragmentRoundTrip(parse, key, token);
    ParseBytes32IsInverse(Encode(token), token);
  }
}
