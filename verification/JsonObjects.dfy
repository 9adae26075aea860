/** JSON objects of strings and numbers: how the protocol prints them, and a reader of its own for what is printed. */
module JsonObjects {
  import opened Base
  import opened Json

  datatype Scalar = Str(text: string) | Num(value: int)

  function PrintNumber(n: int): string {
    if n < 0 then "-" + Decimal(-n) else Decimal(n)
  }

  function PrintScalar(v: Scalar): string {
    match v
    case Str(text) => Quote(text)
    case Num(n) => PrintNumber(n)
  }

  function PrintMembers(members: seq<(string, Scalar)>): string {
    if members == [] then ""
    else Quote(members[0].0) + ":" + PrintScalar(members[0].1)
         + (if |members| == 1 then "" else "," + PrintMembers(members[1..]))
  }

  /** Go's and the browser's printer, for an object whose members are strings and integers. */
  function PrintObject(members: seq<(string, Scalar)>): string {
    "{" + PrintMembers(members) + "}"
  }

  // ---- reading: sections 4, 6 and 7 of RFC 8259, without white space ----

  function HexValue(c: char): Option<int> {
    if '0' <= c <= '9' then Some(c as int - '0' as int)
    else if 'a' <= c <= 'f' then Some(c as int - 'a' as int + 10)
    else if 'A' <= c <= 'F' then Some(c as int - 'A' as int + 10)
    else None
  }

  /** The character that a backslash and the first character of `s` stand for, if they are an escape of two characters.
      */
  function ShortEscape(c: char): Option<char> {
    if c == '"' || c == '\\' || c == '/' then Some(c)
    else if c == 'b' then Some(8 as char)
    else if c == 't' then Some(9 as char)
    else if c == 'n' then Some(10 as char)
    else if c == 'f' then Some(12 as char)
    else if c == 'r' then Some(13 as char)
    else None
  }

  /** The character that four hexadecimal digits stand for; surrogates are not read. */
  function LongEscape(s: string): Option<char>
    requires |s| == 4
  {
    var h0, h1, h2, h3 := HexValue(s[0]), HexValue(s[1]), HexValue(s[2]), HexValue(s[3]);
    if h0.None? || h1.None? || h2.None? || h3.None? then None
    else
      var n := ((h0.value * 16 + h1.value) * 16 + h2.value) * 16 + h3.value;
      if n < 0xD800 || 0xE000 <= n < 0x1_0000 then Some(n as char) else None
  }

  /** The characters up to the closing quote, and what follows it. */
  function ReadChars(s: string): (r: Option<(string, string)>)
    ensures r.Some? ==> |r.value.1| < |s|
  {
    if s == "" then None
    else if s[0] == '"' then Some(("", s[1..]))
    else if s[0] as int < 32 then None
    else if s[0] != '\\' then Prepend(s[0], ReadChars(s[1..]))
    else if |s| < 2 then None
    else if s[1] == 'u' then
      if |s| < 6 || LongEscape(s[2..6]).None? then None else Prepend(LongEscape(s[2..6]).value, ReadChars(s[6..]))
    else if ShortEscape(s[1]).None? then None
    else Prepend(ShortEscape(s[1]).value, ReadChars(s[2..]))
  }

  function Prepend(c: char, rest: Option<(string, string)>): Option<(string, string)> {
    if rest.None? then None else Some(([c] + rest.value.0, rest.value.1))
  }

  function ReadQuoted(s: string): (r: Option<(string, string)>)
    ensures r.Some? ==> |r.value.1| < |s|
  {
    if s == "" || s[0] != '"' then None else ReadChars(s[1..])
  }

  predicate IsDigit(c: char) {
    '0' <= c <= '9'
  }

  function SpanDigits(s: string): (n: nat)
    ensures n <= |s| && forall i :: 0 <= i < n ==> IsDigit(s[i])
  {
    if s == "" || !IsDigit(s[0]) then 0 else 1 + SpanDigits(s[1..])
  }

  function DigitValue(c: char): nat
    requires IsDigit(c)
  {
    c as int - '0' as int
  }

  function ValueOf(digits: string): nat
    requires forall i :: 0 <= i < |digits| ==> IsDigit(digits[i])
  {
    if digits == "" then 0 else ValueOf(digits[..|digits| - 1]) * 10 + DigitValue(digits[|digits| - 1])
  }

  /** Numbers beyond this lose digits in the browser, and nothing is claimed about them. */
  const MAX_SAFE_INTEGER := 9007199254740991

  function ReadNatural(s: string): (r: Option<(int, string)>)
    ensures r.Some? ==> |r.value.1| < |s|
  {
    var n := SpanDigits(s);
    if n == 0 || (n > 1 && s[0] == '0') || ValueOf(s[..n]) > MAX_SAFE_INTEGER then None
    else Some((ValueOf(s[..n]), s[n..]))
  }

  function ReadScalar(s: string): (r: Option<(Scalar, string)>)
    ensures r.Some? ==> |r.value.1| < |s|
  {
    if s != "" && s[0] == '"' then
      var text := ReadQuoted(s);
      if text.None? then None else Some((Str(text.value.0), text.value.1))
    else if s != "" && s[0] == '-' then
      var n := ReadNatural(s[1..]);
      if n.None? || n.value.0 == 0 then None else Some((Num(-n.value.0), n.value.1))
    else
      var n := ReadNatural(s);
      if n.None? then None else Some((Num(n.value.0), n.value.1))
  }

  function ReadMembers(s: string): Option<seq<(string, Scalar)>>
    decreases |s|
  {
    var name := ReadQuoted(s);
    if name.None? || name.value.1 == "" || name.value.1[0] != ':' then None
    else
      var value := ReadScalar(name.value.1[1..]);
      if value.None? then None
      else
        var member := (name.value.0, value.value.0);
        var after := value.value.1;
        if after == "}" then Some([member])
        else if after == "" || after[0] != ',' then None
        else
          var more := ReadMembers(after[1..]);
          if more.None? then None else Some([member] + more.value)
  }

  /** The members of an object in the order in which they stand, if the text is one of strings and numbers. */
  function ReadObject(s: string): Option<seq<(string, Scalar)>> {
    if s == "" || s[0] != '{' then None
    else if s == "{}" then Some([])
    else ReadMembers(s[1..])
  }

  // ---- what a parser is assumed to do ----

  datatype JsonValue = Text(text: string) | Number(value: int) | Object(members: map<string, JsonValue>) | Other

  function ValueOfScalar(v: Scalar): JsonValue {
    match v
    case Str(text) => Text(text)
    case Num(n) => Number(n)
  }

  /** Of members with the same name the last one counts. */
  function MembersOf(members: seq<(string, Scalar)>): map<string, JsonValue> {
    map i | 0 <= i < |members| && (forall j :: i < j < |members| ==> members[j].0 != members[i].0)
      :: members[i].0 := ValueOfScalar(members[i].1)
  }

  /** `JSON.parse`, of which only this is used: on the objects that the reader above reads, it agrees with it. */
  ghost predicate ParserLaw(parse: string -> Option<JsonValue>) {
    forall text {:trigger ReadObject(text)} ::
      ReadObject(text).Some? ==> parse(text) == Some(Object(MembersOf(ReadObject(text).value)))
  }

  // ---- what is printed is read back ----

  predicate Safe(v: Scalar) {
    v.Num? ==> -MAX_SAFE_INTEGER <= v.value <= MAX_SAFE_INTEGER
  }

  lemma HexInverts(v: int)
    requires 0 <= v < 16
    ensures HexValue(HexDigit(v)) == Some(v)
  {
  }

  /** An escaped character followed by readable text reads as the character followed by that text. */
  lemma ReadsEscapedChar(c: char, t: string)
    ensures ReadChars(EscapeChar(c) + t) == Prepend(c, ReadChars(t))
  {
    var e := EscapeChar(c);
    var s := e + t;
    if c == '"' || c == '\\' || c as int in {8, 9, 10, 12, 13} {
      assert s[0] == '\\' && s[1] == e[1] && s[2..] == t;
    } else if c as int < 32 {
      assert |e| == 6 && s[0] == '\\' && s[1] == 'u' && s[6..] == t;
      assert s[2..6] == ['0', '0', HexDigit(c as int / 16), HexDigit(c as int % 16)];
      HexInverts(c as int / 16);
      HexInverts(c as int % 16);
    } else {
      assert s[0] == c && s[1..] == t;
    }
  }

  lemma {:induction false} ReadsEscaped(x: string, rest: string)
    ensures ReadChars(Escape(x) + "\"" + rest) == Some((x, rest))
  {
    hide EscapeChar;
    if x == "" {
      assert Escape(x) + "\"" + rest == "\"" + rest;
      assert ("\"" + rest)[1..] == rest;
    } else {
      ReadsEscaped(x[1..], rest);
      ReadsEscapedChar(x[0], Escape(x[1..]) + "\"" + rest);
      assert Escape(x) + "\"" + rest == EscapeChar(x[0]) + (Escape(x[1..]) + "\"" + rest);
      assert x == [x[0]] + x[1..];
    }
  }

  lemma ReadsQuoted(x: string, rest: string)
    ensures ReadQuoted(Quote(x) + rest) == Some((x, rest))
    ensures (Quote(x) + rest)[0] == '"'
  {
    hide ReadChars, Escape;
    ReadsEscaped(x, rest);
    assert (Quote(x) + rest)[1..] == Escape(x) + "\"" + rest;
  }

  lemma {:induction false} DecimalDigits(n: nat)
    ensures Decimal(n) != "" && (forall i :: 0 <= i < |Decimal(n)| ==> IsDigit(Decimal(n)[i]))
    ensures ValueOf(Decimal(n)) == n
    ensures |Decimal(n)| > 1 ==> Decimal(n)[0] != '0'
    ensures n > 0 ==> Decimal(n)[0] != '0'
  {
    if n >= 10 {
      DecimalDigits(n / 10);
      var d := Decimal(n);
      assert Decimal(n % 10) == [(n % 10 + '0' as int) as char];
      assert d[..|d| - 1] == Decimal(n / 10);
    } else {
      assert Decimal(n)[..0] == "";
    }
  }

  lemma {:induction false} SpansAllDigits(digits: string, rest: string)
    requires forall i :: 0 <= i < |digits| ==> IsDigit(digits[i])
    requires rest == "" || !IsDigit(rest[0])
    ensures SpanDigits(digits + rest) == |digits|
  {
    if digits == "" {
      assert digits + rest == rest;
    } else {
      SpansAllDigits(digits[1..], rest);
      assert (digits + rest)[1..] == digits[1..] + rest;
    }
  }

  lemma ReadsDecimal(n: nat, rest: string)
    requires n <= MAX_SAFE_INTEGER && (rest == "" || !IsDigit(rest[0]))
    ensures ReadNatural(Decimal(n) + rest) == Some((n, rest))
  {
    hide SpanDigits, ValueOf, Decimal;
    DecimalDigits(n);
    SpansAllDigits(Decimal(n), rest);
    assert (Decimal(n) + rest)[..|Decimal(n)|] == Decimal(n);
    assert (Decimal(n) + rest)[|Decimal(n)|..] == rest;
  }

  lemma ReadsScalar(v: Scalar, rest: string)
    requires Safe(v) && (rest == "" || !IsDigit(rest[0]))
    ensures ReadScalar(PrintScalar(v) + rest) == Some((v, rest))
  {
    hide Quote, Decimal, ReadQuoted, ReadNatural;
    match v
    case Str(text) => ReadsQuoted(text, rest);
    case Num(n) =>
      var m := if n < 0 then -n else n;
      DecimalDigits(m);
      ReadsDecimal(m, rest);
      if n < 0 {
        assert ("-" + Decimal(m) + rest)[1..] == Decimal(m) + rest;
      } else {
        assert IsDigit((Decimal(m) + rest)[0]);
      }
  }

  lemma {:induction false} ReadsMembers(members: seq<(string, Scalar)>)
    requires members != [] && forall i :: 0 <= i < |members| ==> Safe(members[i].1)
    ensures ReadMembers(PrintMembers(members) + "}") == Some(members)
    ensures PrintMembers(members) != "" && PrintMembers(members)[0] == '"'
    decreases |members|
  {
    hide Quote, PrintScalar, ReadQuoted, ReadScalar;
    var (name, value) := members[0];
    var tail := (if |members| == 1 then "" else "," + PrintMembers(members[1..])) + "}";
    var text := PrintMembers(members) + "}";
    assert text == Quote(name) + (":" + (PrintScalar(value) + tail));
    ReadsQuoted(name, ":" + (PrintScalar(value) + tail));
    assert (":" + (PrintScalar(value) + tail))[1..] == PrintScalar(value) + tail;
    assert Quote(name)[0] == '"'
           by { assert Quote(name) == (Quote(name) + "")[..|Quote(name)|]; ReadsQuoted(name, ""); }
    ReadsScalar(value, tail);
    if |members| > 1 {
      ReadsMembers(members[1..]);
      assert tail[1..] == PrintMembers(members[1..]) + "}";
      assert |tail| > 1;
      assert members == [members[0]] + members[1..];
    } else {
      assert members == [members[0]];
    }
  }

  /** Every printed object is read back, member by member. */
  lemma ReadsObject(members: seq<(string, Scalar)>)
    requires forall i :: 0 <= i < |members| ==> Safe(members[i].1)
    ensures ReadObject(PrintObject(members)) == Some(members)
  {
    hide PrintMembers, ReadMembers;
    if members == [] {
      assert PrintMembers(members) == "" by { NothingToPrint(); }
      assert PrintObject(members) == "{}";
    } else {
      ReadsMembers(members);
      assert PrintObject(members)[1..] == PrintMembers(members) + "}";
      assert PrintObject(members)[1] == '"';
    }
  }

  lemma NothingToPrint()
    ensures PrintMembers([]) == ""
  {
  }

  lemma LastOfItsName(members: seq<(string, Scalar)>, i: nat)
    requires i < |members| && forall j :: i < j < |members| ==> members[j].0 != members[i].0
    ensures members[i].0 in MembersOf(members) && MembersOf(members)[members[i].0] == ValueOfScalar(members[i].1)
  {
  }

  lemma NoOtherNames(members: seq<(string, Scalar)>, name: string)
    requires name in MembersOf(members)
    ensures exists i :: 0 <= i < |members| && members[i].0 == name
  {
  }

  // ---- members whose values are strings: their length and their characters ----

  function Member(name: string, value: string): string {
    Quote(name) + ":" + Quote(value)
  }

  lemma MemberLength(name: string, value: string)
    requires Plain(name) && Plain(value)
    ensures |Member(name, value)| == |name| + |value| + 5
  {
    hide Quote;
    QuotePlain(name);
    QuotePlain(value);
  }

  predicate PlainOrQuote(s: string) {
    forall i :: 0 <= i < |s| ==> PlainChar(s[i]) || s[i] == '"'
  }

  lemma QuotedCount(s: string)
    requires Plain(s)
    ensures CountQuotes(Quote(s)) == 2
    ensures forall i :: 0 <= i < |Quote(s)| ==> PlainChar(Quote(s)[i]) || Quote(s)[i] == '"'
  {
    QuotePlain(s);
    CountQuotesPlain(s);
    CountQuotesAppend("\"" + s, "\"");
    CountQuotesAppend("\"", s);
  }

  lemma MemberCount(name: string, value: string)
    requires Plain(name) && Plain(value)
    ensures CountQuotes(Member(name, value)) == 4 && PlainOrQuote(Member(name, value))
  {
    hide Quote;
    QuotedCount(name);
    QuotedCount(value);
    CountQuotesPlain(":");
    CountQuotesAppend(Quote(name) + ":", Quote(value));
    CountQuotesAppend(Quote(name), ":");
  }
}
