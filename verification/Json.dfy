/** The few JSON texts that the protocol prints, with exact lengths. */
module Json {
  import opened Base
  import opened Base64Url

  /** Printable ASCII that neither Go's nor the browser's printer escapes. */
  predicate PlainChar(c: char) {
    ' ' <= c <= '~' && c != '"' && c != '\\' && c != '<' && c != '>' && c != '&'
  }

  predicate Plain(s: string) {
    forall i :: 0 <= i < |s| ==> PlainChar(s[i])
  }

  function HexDigit(v: int): char
    requires 0 <= v < 16
  {
    if v < 10 then (v + '0' as int) as char else (v - 10 + 'a' as int) as char
  }

  /** The escapes of `JSON.stringify` for one character. */
  function EscapeChar(c: char): string {
    if c == '"' then "\\\""
    else if c == '\\' then "\\\\"
    else if c as int == 8 then "\\b"
    else if c as int == 9 then "\\t"
    else if c as int == 10 then "\\n"
    else if c as int == 12 then "\\f"
    else if c as int == 13 then "\\r"
    else if c as int < 32 then "\\u00" + [HexDigit(c as int / 16), HexDigit(c as int % 16)]
    else [c]
  }

  function Escape(s: string): string {
    if s == "" then "" else EscapeChar(s[0]) + Escape(s[1..])
  }

  function Quote(s: string): string {
    "\"" + Escape(s) + "\""
  }

  function Decimal(n: nat): string {
    if n < 10 then [(n + '0' as int) as char] else Decimal(n / 10) + Decimal(n % 10)
  }

  /** ASCII text as bytes: Go's conversion from string, and the browser's TextEncoder on such text. */
  function TextBytes(s: string): (b: Bytes)
    ensures |b| == |s| && forall i :: 0 <= i < |s| ==> b[i] == s[i] as int % 256
  {
    seq(|s|, i requires 0 <= i < |s| => s[i] as int % 256)
  }

  predicate Ascii(s: string) {
    forall i :: 0 <= i < |s| ==> s[i] as int < 128
  }

  lemma {:induction false} EscapePlain(s: string)
    requires Plain(s)
    ensures Escape(s) == s
  {
    if s != "" {
      EscapePlain(s[1..]);
      assert s == [s[0]] + s[1..];
    }
  }

  lemma QuotePlain(s: string)
    requires Plain(s)
    ensures Quote(s) == "\"" + s + "\""
  {
    EscapePlain(s);
  }

  lemma Base64IsPlain(b: Bytes)
    ensures Plain(Encode(b)) && Quote(Encode(b)) == "\"" + Encode(b) + "\""
  {
    EncodeShape(b);
    forall i | 0 <= i < |Encode(b)| ensures PlainChar(Encode(b)[i]) {
      assert InAlphabet(Encode(b)[i]);
    }
    QuotePlain(Encode(b));
  }

  function CountQuotes(s: string): nat {
    if s == "" then 0 else (if s[0] == '"' then 1 else 0) + CountQuotes(s[1..])
  }

  lemma {:induction false} CountQuotesAppend(s: string, t: string)
    ensures CountQuotes(s + t) == CountQuotes(s) + CountQuotes(t)
  {
    if s == "" {
      assert s + t == t;
    } else {
      assert (s + t)[1..] == s[1..] + t;
      CountQuotesAppend(s[1..], t);
    }
  }

  lemma {:induction false} CountQuotesPlain(s: string)
    requires Plain(s)
    ensures CountQuotes(s) == 0
  {
    if s != "" {
      CountQuotesPlain(s[1..]);
    }
  }

  /** Escaping a text whose only special characters are double quotes adds one character for each of them. */
  lemma {:induction false} EscapeQuotesLength(s: string)
    requires forall i :: 0 <= i < |s| ==> PlainChar(s[i]) || s[i] == '"'
    ensures |Escape(s)| == |s| + CountQuotes(s)
  {
    if s != "" {
      EscapeQuotesLength(s[1..]);
    }
  }

  lemma {:induction false} DecimalLength(n: nat, digits: nat)
    requires digits >= 1 && n < Pow10(digits)
    ensures 1 <= |Decimal(n)| <= digits
    decreases digits
  {
    if n >= 10 {
      assert Pow10(1) == 10 * Pow10(0);
      assert Pow10(digits) == 10 * Pow10(digits - 1);
      DecimalLength(n / 10, digits - 1);
      assert |Decimal(n % 10)| == 1;
    }
  }

  function Pow10(n: nat): nat {
    if n == 0 then 1 else 10 * Pow10(n - 1)
  }
}
