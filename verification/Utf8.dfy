/** UTF-8 as the browser's TextEncoder and TextDecoder read it, on well-formed text. */
module Utf8 {
  import opened Base

  function EncodeChar(c: char): Bytes {
    var n := c as int;
    if n < 0x80 then [n]
    else if n < 0x800 then [0xC0 + n / 0x40, 0x80 + n % 0x40]
    else if n < 0x1_0000 then [0xE0 + n / 0x1000, 0x80 + n / 0x40 % 0x40, 0x80 + n % 0x40]
    else [0xF0 + n / 0x4_0000, 0x80 + n / 0x1000 % 0x40, 0x80 + n / 0x40 % 0x40, 0x80 + n % 0x40]
  }

  /** `new TextEncoder().encode(text)`. */
  function Encode(s: string): Bytes {
    if s == "" then [] else EncodeChar(s[0]) + Encode(s[1..])
  }

  /** How many bytes a character takes, told from the first. */
  function Width(lead: byte): nat {
    if lead < 0xC0 then 1 else if lead < 0xE0 then 2 else if lead < 0xF0 then 3 else 4
  }

  function Minus(b: int, marker: int): int {
    b - marker
  }

  function CodePoint(b: Bytes): int
    requires b != [] && |b| == Width(b[0])
  {
    match |b|
    case 1 => b[0]
    case 2 => Minus(b[0], 0xC0) * 0x40 + Minus(b[1], 0x80)
    case 3 => Minus(b[0], 0xE0) * 0x1000 + Minus(b[1], 0x80) * 0x40 + Minus(b[2], 0x80)
    case _ => Minus(b[0], 0xF0) * 0x4_0000 + Minus(b[1], 0x80) * 0x1000 + Minus(b[2], 0x80) * 0x40 + Minus(b[3], 0x80)
  }

  predicate IsScalar(n: int) {
    0 <= n < 0xD800 || 0xE000 <= n < 0x11_0000
  }

  /** The character that the bytes begin with; nothing if they begin with no well-formed sequence. */
  function DecodeChar(b: Bytes): Option<char>
    requires b != []
  {
    if |b| < Width(b[0]) then None
    else
      var n := CodePoint(b[..Width(b[0])]);
      if !IsScalar(n) then None
      else if EncodeChar(n as char) != b[..Width(b[0])] then None
      else Some(n as char)
  }

  function DecodeAll(b: Bytes): Option<string>
    decreases |b|
  {
    if b == [] then Some("")
    else
      var c := DecodeChar(b);
      if c.None? then None
      else
        var rest := DecodeAll(b[Width(b[0])..]);
        if rest.None? then None else Some([c.value] + rest.value)
  }

  const BYTE_ORDER_MARK := '\U{FEFF}'

  predicate HasMark(b: Bytes) {
    |b| >= 3 && b[..3] == [0xEF, 0xBB, 0xBF]
  }

  /** `new TextDecoder().decode(bytes)`, which drops a leading byte order mark. */
  function TextDecode(b: Bytes): Option<string> {
    DecodeAll(if HasMark(b) then b[3..] else b)
  }

  // ---- round trip ----

  lemma CharWidth(c: char)
    ensures EncodeChar(c) != [] && |EncodeChar(c)| == Width(EncodeChar(c)[0])
  {
  }

  lemma OnlyEmptyIsEmpty(s: string)
    ensures Encode(s) == [] <==> s == ""
  {
    if s != "" {
      CharWidth(s[0]);
    }
  }

  lemma {:induction false} AsciiIsItself(s: string)
    requires forall i :: 0 <= i < |s| ==> s[i] as int < 128
    ensures |Encode(s)| == |s| && forall i :: 0 <= i < |s| ==> Encode(s)[i] == s[i] as int
  {
    if s != "" {
      AsciiIsItself(s[1..]);
    }
  }

  lemma CharCodePoint(c: char)
    ensures EncodeChar(c) != [] && |EncodeChar(c)| == Width(EncodeChar(c)[0])
    ensures CodePoint(EncodeChar(c)) == c as int
  {
    var n := c as int;
    assert n == n / 0x40 * 0x40 + n % 0x40;
    assert n / 0x40 / 0x40 == n / 0x1000;
    assert n / 0x1000 / 0x40 == n / 0x4_0000;
  }

  lemma DecodeCharInverts(c: char, rest: Bytes)
    ensures var b := EncodeChar(c) + rest;
            && b != [] && DecodeChar(b) == Some(c) && |b| >= Width(b[0]) && b[Width(b[0])..] == rest
  {
    hide EncodeChar, CodePoint, Width;
    CharCodePoint(c);
    var b := EncodeChar(c) + rest;
    assert b[..|EncodeChar(c)|] == EncodeChar(c);
    assert b[|EncodeChar(c)|..] == rest;
  }

  lemma {:induction false} DecodeInvertsEncode(s: string)
    ensures DecodeAll(Encode(s)) == Some(s)
  {
    hide DecodeChar, EncodeChar, Width;
    if s != "" {
      DecodeInvertsEncode(s[1..]);
      DecodeCharInverts(s[0], Encode(s[1..]));
      assert s == [s[0]] + s[1..];
    }
  }

  lemma MarkOfText(s: string)
    ensures HasMark(Encode(s)) <==> s != "" && s[0] == BYTE_ORDER_MARK
  {
    if s != "" {
      CharCodePoint(s[0]);
      var head := EncodeChar(s[0]);
      if HasMark(Encode(s)) {
        assert Encode(s)[0] == head[0] == 0xEF;
        assert |head| == 3;
        assert Encode(s)[..3] == head;
      }
    }
  }

  /** Text survives encoding and decoding exactly when it does not begin with a byte order mark; otherwise it comes back
      without that. */
  lemma TextDecodeInvertsExactly(s: string)
    ensures TextDecode(Encode(s)) == Some(if s != "" && s[0] == BYTE_ORDER_MARK then s[1..] else s)
    ensures TextDecode(Encode(s)) == Some(s) <==> s == "" || s[0] != BYTE_ORDER_MARK
  {
    hide DecodeAll, EncodeChar;
    MarkOfText(s);
    DecodeInvertsEncode(s);
    if s != "" && s[0] == BYTE_ORDER_MARK {
      MarkBytes();
      assert Encode(s)[3..] == Encode(s[1..]);
      DecodeInvertsEncode(s[1..]);
      assert |s[1..]| != |s|;
    }
  }

  lemma MarkBytes()
    ensures EncodeChar(BYTE_ORDER_MARK) == [0xEF, 0xBB, 0xBF]
  {
  }

  /** Where section 3 of RFC 3629 places the bits of a character, for each of the four lengths. */
  lemma BitsAreInPlace(c: char)
    ensures var n := c as int;
            var b: seq<int> := EncodeChar(c);
            && (n <= 0x7F ==> b == [n])
            && (0x80 <= n <= 0x7FF ==>
                  |b| == 2 && b[0] / 32 == 6 && b[1] / 64 == 2 && n == b[0] % 32 * 64 + b[1] % 64)
            && (0x800 <= n <= 0xFFFF ==>
                  |b| == 3 && b[0] / 16 == 14 && b[1] / 64 == 2 && b[2] / 64 == 2
                  && n == (b[0] % 16 * 64 + b[1] % 64) * 64 + b[2] % 64)
            && (0x1_0000 <= n ==>
                  |b| == 4 && b[0] / 8 == 30 && b[1] / 64 == 2 && b[2] / 64 == 2 && b[3] / 64 == 2
                  && n == ((b[0] % 8 * 64 + b[1] % 64) * 64 + b[2] % 64) * 64 + b[3] % 64)
  {
    var n := c as int;
    assert n / 0x40 / 0x40 == n / 0x1000;
    assert n / 0x1000 / 0x40 == n / 0x4_0000;
  }
}
