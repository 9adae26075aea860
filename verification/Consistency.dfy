/** The laws assumed of the cryptography and of the JSON parsers can all hold at once. */
module Consistency {
  import opened Base
  import opened Json
  import opened JsonObjects
  import opened Tickets
  import opened Envelopes

  function Zeros(n: nat): (b: Bytes)
    ensures |b| == n
  {
    seq(n, i => 0)
  }

  /** A MAC that a token passes through, and keys that are all alike: as bad as can be, but lawful. */
  const LAWFUL_CRYPTO := Crypto(
    (key: Bytes, message: Bytes) => if |message| == 32 then message
      else Zeros(32), (secret: Bytes, purpose: string) => [])

  /** A cipher that leaves the text as it is and appends an empty tag. */
  const LAWFUL_AEAD := Aead(
    (key: Bytes32, iv: IV, data: Bytes, plain: Bytes) => plain + Zeros(GCM_TAG_LENGTH),
    (key: Bytes32, iv: IV, data: Bytes, sealed: Bytes) => Stripped(sealed))

  function Stripped(sealed: Bytes): Option<Bytes> {
    if |sealed| < GCM_TAG_LENGTH then None else Some(sealed[..|sealed| - GCM_TAG_LENGTH])
  }

  function ParseText(text: string): Option<JsonValue> {
    if ReadObject(text).Some? then Some(Object(MembersOf(ReadObject(text).value))) else None
  }

  /** Times as plain numbers of nanoseconds. */
  function ReadTime(s: string): Option<Time> {
    if s != "" && s[0] == '-' then
      if SpanDigits(s[1..]) == |s| - 1 then Some(0 - ValueOf(s[1..])) else None
    else if SpanDigits(s) == |s| then Some(ValueOf(s)) else None
  }

  function Chars(b: Bytes): string {
    seq(|b|, i requires 0 <= i < |b| => b[i] as char)
  }

  function ReadTicket(b: Bytes): Option<TicketData> {
    var members := ReadObject(Chars(b));
    if members.None? then None else TicketOf(TIMES, members.value)
  }

  const TIMES := TicketJson((t: Time) => PrintNumber(t), (s: string) => ReadTime(s), (b: Bytes) => None)

  const LAWFUL_JSON := TicketJson((t: Time) => PrintNumber(t), (s: string) => ReadTime(s), (b: Bytes) => ReadTicket(b))

  lemma ReadsTime(t: Time)
    ensures ReadTime(PrintNumber(t)) == Some(t) && Plain(PrintNumber(t))
  {
    hide Decimal, SpanDigits, ValueOf;
    var n := if t < 0 then -t else t;
    var d := Decimal(n);
    DecimalDigits(n);
    SpansAllDigits(d, "");
    assert d + "" == d;
    assert t < 0 ==> PrintNumber(t)[1..] == d;
    assert IsDigit(d[0]);
    forall i | 0 <= i < |d| ensures PlainChar(d[i]) {
      assert IsDigit(d[i]);
    }
  }

  lemma Powers()
    ensures Pow10(21) == 1_000_000_000_000_000_000_000
  {
    assert Pow10(7) == 10_000_000 by { SevenDigits(); }
    assert Pow10(14) == 10_000_000 * Pow10(7) by { SevenMore(7); }
    assert Pow10(21) == 10_000_000 * Pow10(14) by { SevenMore(14); }
  }

  lemma SevenMore(n: nat)
    ensures Pow10(n + 7) == 10_000_000 * Pow10(n)
  {
    assert Pow10(n + 2) == 100 * Pow10(n) by { assert Pow10(n + 1) == 10 * Pow10(n); }
    assert Pow10(n + 4) == 100 * Pow10(n + 2) by { assert Pow10(n + 3) == 10 * Pow10(n + 2); }
    assert Pow10(n + 6) == 100 * Pow10(n + 4) by { assert Pow10(n + 5) == 10 * Pow10(n + 4); }
  }

  lemma TimesAreShort(t: Time)
    requires JsonTime(t)
    ensures |PrintNumber(t)| <= 35
  {
    hide Decimal, Pow10;
    Powers();
    DecimalLength(if t < 0 then -t else t, 21);
  }

  lemma CharsInvert(s: string)
    requires Ascii(s)
    ensures Chars(TextBytes(s)) == s
  {
    forall i | 0 <= i < |s| ensures Chars(TextBytes(s))[i] == s[i] {
      assert TextBytes(s)[i] == s[i] as int;
    }
  }

  lemma SameTicket(members: seq<(string, Scalar)>)
    ensures TicketOf(LAWFUL_JSON, members) == TicketOf(TIMES, members)
  {
  }

  lemma JsonIsLawful()
    ensures JsonLaws(LAWFUL_JSON)
  {
    hide PrintNumber, ReadTime, ReadObject, TicketOf, TextBytes, JsonTime;
    var j := LAWFUL_JSON;
    forall t | JsonTime(t)
      ensures |j.formatTime(t)| <= 35 && Plain(j.formatTime(t)) && j.parseTime(j.formatTime(t)) == Some(t)
    {
      TimesAreShort(t);
      ReadsTime(t);
    }
    forall text | Ascii(text) && ReadObject(text).Some? && TicketOf(j, ReadObject(text).value).Some?
      ensures j.parse(TextBytes(text)) == TicketOf(j, ReadObject(text).value)
    {
      CharsInvert(text);
      SameTicket(ReadObject(text).value);
    }
  }

  /** No theorem here is empty for want of a service that meets its laws. */
  lemma LawsCanHold()
    ensures CryptoLaws(LAWFUL_CRYPTO) && MacTellsTokens(LAWFUL_CRYPTO)
    ensures JsonLaws(LAWFUL_JSON)
    ensures AeadLaws(LAWFUL_AEAD)
    ensures ParserLaw((text: string) => ParseText(text))
  {
    JsonIsLawful();
    forall key, iv, data, plain
      ensures var sealed := LAWFUL_AEAD.seal(key, iv, data, plain);
              |sealed| == |plain| + GCM_TAG_LENGTH && LAWFUL_AEAD.unseal(key, iv, data, sealed) == Some(plain)
    {
      assert (plain + Zeros(GCM_TAG_LENGTH))[..|plain|] == plain;
    }
  }
}
