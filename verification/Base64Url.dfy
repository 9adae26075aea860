/** Unpadded base64url: sections 3.5 and 5 of RFC 4648, as the server and the browser implement them. */
module Base64Url {
  import opened Base

  type Sextet = v: int | 0 <= v < 64

  predicate InAlphabet(c: char) {
    'A' <= c <= 'Z' || 'a' <= c <= 'z' || '0' <= c <= '9' || c == '-' || c == '_'
  }

  function Digit(v: Sextet): (c: char)
    ensures InAlphabet(c) && Value(c) == v
  {
    if v < 26 then (v + 'A' as int) as char
    else if v < 52 then (v - 26 + 'a' as int) as char
    else if v < 62 then (v - 52 + '0' as int) as char
    else if v == 62 then '-'
    else '_'
  }

  function Value(c: char): Sextet
    requires InAlphabet(c)
  {
    if 'A' <= c <= 'Z' then c as int - 'A' as int
    else if 'a' <= c <= 'z' then c as int - 'a' as int + 26
    else if '0' <= c <= '9' then c as int - '0' as int + 52
    else if c == '-' then 62
    else 63
  }

  lemma ValueDigit(c: char)
    requires InAlphabet(c)
    ensures Digit(Value(c)) == c
  {
  }

  predicate AllInAlphabet(s: string) {
    forall i :: 0 <= i < |s| ==> InAlphabet(s[i])
  }

  function Digits(v: seq<Sextet>): (s: string)
    ensures |s| == |v| && forall i :: 0 <= i < |v| ==> s[i] == Digit(v[i])
  {
    seq(|v|, i requires 0 <= i < |v| => Digit(v[i]))
  }

  function Values(s: string): (v: seq<Sextet>)
    requires AllInAlphabet(s)
    ensures |v| == |s| && forall i :: 0 <= i < |v| ==> v[i] == Value(s[i])
  {
    seq(|s|, i requires 0 <= i < |s| => Value(s[i]))
  }

  /** The bytes cut into groups of six bits, the last group filled up with zeros. */
  function Split(b: Bytes): seq<Sextet> {
    if |b| == 0 then []
    else if |b| == 1 then [b[0] / 4, b[0] % 4 * 16]
    else if |b| == 2 then [b[0] / 4, b[0] % 4 * 16 + b[1] / 16, b[1] % 16 * 4]
    else [b[0] / 4, b[0] % 4 * 16 + b[1] / 16, b[1] % 16 * 4 + b[2] / 64, b[2] % 64] + Split(b[3..])
  }

  /** The bytes that groups of six bits hold; the unused low bits of a short last quantum are dropped. */
  function Join(v: seq<Sextet>): Bytes
    requires |v| % 4 != 1
  {
    if |v| == 0 then []
    else if |v| == 2 then [First(v[0], v[1])]
    else if |v| == 3 then [First(v[0], v[1]), Second(v[1], v[2])]
    else [First(v[0], v[1]), Second(v[1], v[2]), Third(v[2], v[3])] + Join(v[4..])
  }

  function First(v0: Sextet, v1: Sextet): byte {
    v0 * 4 + v1 / 16
  }

  function Second(v1: Sextet, v2: Sextet): byte {
    v1 % 16 * 16 + v2 / 4
  }

  function Third(v2: Sextet, v3: Sextet): byte {
    v2 % 4 * 64 + v3
  }

  /** `b64Encode`, and the browser's `encode`. */
  function Encode(b: Bytes): string {
    Digits(Split(b))
  }

  /** Decoding that ignores the unused low bits of a short last quantum, as both runtimes do. */
  function LooseDecode(s: string): Option<Bytes> {
    if !AllInAlphabet(s) || |s| % 4 == 1 then None else Some(Join(Values(s)))
  }

  function SkipNewlines(s: string): string {
    if s == "" then ""
    else if s[0] == '\r' || s[0] == '\n' then SkipNewlines(s[1..])
    else [s[0]] + SkipNewlines(s[1..])
  }

  /** Go's `base64.RawURLEncoding.DecodeString`, which drops carriage returns and line feeds wherever they stand. */
  function GoDecode(s: string): Option<Bytes> {
    LooseDecode(SkipNewlines(s))
  }

  /** `RawURLEncoding.DecodedLen` and `RawURLEncoding.EncodedLen`. */
  function DecodedLen(n: nat): nat {
    n * 6 / 8
  }

  function EncodedLen(n: nat): nat {
    n / 3 * 4 + (n % 3 * 8 + 5) / 6
  }

  /** `b64Decode`. */
  function StrictDecode(s: string): Option<Bytes> {
    if s == "" then None
    else if EncodedLen(DecodedLen(|s|)) != |s| then None
    else
      var decoded := GoDecode(s);
      if decoded.None? then None
      else if Encode(decoded.value) != s then None
      else decoded
  }

  /** `NoteID.UnmarshalText` and `BurnToken.UnmarshalText`; their printers are `Encode`. */
  function ParseBytes32(text: string): Option<Bytes32> {
    var decoded := StrictDecode(text);
    if decoded.None? || |decoded.value| != 32 then None else Some(decoded.value)
  }

  /** The browser's `decode`. */
  function BrowserDecode(s: string): Option<Bytes> {
    if s == "" || !AllInAlphabet(s) || |s| % 4 == 1 then None else LooseDecode(s)
  }

  // ---- what the codec promises ----

  lemma EncodedLenStep(n: nat)
    ensures EncodedLen(n + 3) == EncodedLen(n) + 4
    ensures EncodedLen(n) % 4 != 1
  {
    assert n == 3 * (n / 3) + n % 3;
    assert (n + 3) / 3 == n / 3 + 1 && (n + 3) % 3 == n % 3;
  }

  lemma {:induction false} SplitLength(b: Bytes)
    ensures |Split(b)| == EncodedLen(|b|)
    decreases |b|
  {
    if |b| >= 3 {
      SplitLength(b[3..]);
      EncodedLenStep(|b| - 3);
    }
  }

  lemma EncodeShape(b: Bytes)
    ensures AllInAlphabet(Encode(b))
    ensures |Encode(b)| == EncodedLen(|b|)
    ensures |Encode(b)| % 4 != 1
  {
    SplitLength(b);
    EncodedLenStep(|b|);
  }

  lemma FirstOfSplit(x: byte, y: byte)
    ensures First(x / 4, x % 4 * 16 + y / 16) == x
  {
    assert (x % 4 * 16 + y / 16) / 16 == x % 4;
  }

  lemma SecondOfSplit(x: byte, y: byte, z: byte)
    ensures Second(x % 4 * 16 + y / 16, y % 16 * 4 + z / 64) == y
  {
    assert (x % 4 * 16 + y / 16) % 16 == y / 16;
    assert (y % 16 * 4 + z / 64) / 4 == y % 16;
  }

  lemma ThirdOfSplit(y: byte, z: byte)
    ensures Third(y % 16 * 4 + z / 64, z % 64) == z
  {
    assert (y % 16 * 4 + z / 64) % 4 == z / 64;
  }

  lemma {:induction false} JoinSplit(b: Bytes)
    ensures |Split(b)| % 4 != 1 && Join(Split(b)) == b
    decreases |b|
  {
    hide First, Second, Third, EncodedLen;
    SplitLength(b);
    EncodedLenStep(|b|);
    if |b| == 1 {
      FirstOfSplit(b[0], 0);
    } else if |b| == 2 {
      FirstOfSplit(b[0], b[1]);
      SecondOfSplit(b[0], b[1], 0);
    } else if |b| >= 3 {
      FirstOfSplit(b[0], b[1]);
      SecondOfSplit(b[0], b[1], b[2]);
      ThirdOfSplit(b[1], b[2]);
      JoinSplit(b[3..]);
      assert Split(b)[4..] == Split(b[3..]);
    }
  }

  lemma DecodeInvertsEncode(b: Bytes)
    ensures LooseDecode(Encode(b)) == Some(b)
  {
    EncodeShape(b);
    assert Values(Encode(b)) == Split(b);
    JoinSplit(b);
  }

  lemma EncodeInjective(a: Bytes, b: Bytes)
    requires Encode(a) == Encode(b)
    ensures a == b
  {
    DecodeInvertsEncode(a);
    DecodeInvertsEncode(b);
  }

  lemma {:induction false} SkipNothing(s: string)
    requires AllInAlphabet(s)
    ensures SkipNewlines(s) == s
  {
    if s != "" {
      SkipNothing(s[1..]);
      assert s == [s[0]] + s[1..];
    }
  }

  /** The length test of `b64Decode` rejects exactly the lengths that no byte string encodes to. */
  lemma LengthTestIsExact(n: nat)
    ensures EncodedLen(DecodedLen(n)) == n <==> n % 4 != 1
    ensures n % 4 != 1 <==> exists m: nat :: EncodedLen(m) == n
  {
    var q, r := n / 4, n % 4;
    assert n == 4 * q + r;
    assert DecodedLen(n) == 3 * q + r * 6 / 8;
    assert r != 1 ==> EncodedLen(DecodedLen(n)) == n;
    forall m: nat | EncodedLen(m) == n
      ensures n % 4 != 1
    {
      assert m == 3 * (m / 3) + m % 3;
    }
  }

  /** The strict decoder accepts exactly the encodings of non-empty byte strings and inverts the encoder both ways. */
  lemma StrictDecodeIsInverse(s: string, b: Bytes)
    ensures StrictDecode(s) == Some(b) <==> b != [] && s == Encode(b)
  {
    if b != [] && s == Encode(b) {
      EncodeShape(b);
      LengthTestIsExact(|s|);
      SkipNothing(s);
      DecodeInvertsEncode(b);
    }
  }

  /** Where the browser is laxer: it also accepts texts whose last digit carries unused bits, and nothing else. */
  lemma StrictIsCanonicalBrowser(s: string)
    ensures StrictDecode(s).Some? <==> BrowserDecode(s).Some? && Encode(BrowserDecode(s).value) == s
    ensures StrictDecode(s).Some? ==> StrictDecode(s) == BrowserDecode(s)
  {
    if StrictDecode(s).Some? {
      var b := StrictDecode(s).value;
      StrictDecodeIsInverse(s, b);
      EncodeShape(b);
      DecodeInvertsEncode(b);
    }
    if BrowserDecode(s).Some? && Encode(BrowserDecode(s).value) == s {
      StrictDecodeIsInverse(s, BrowserDecode(s).value);
    }
  }

  /** The unused low bits of a short last quantum are zero: the canonical form of section 3.5 of RFC 4648. */
  predicate NoStrayBits(v: seq<Sextet>) {
    && (|v| % 4 == 2 ==> v[|v| - 1] % 16 == 0)
    && (|v| % 4 == 3 ==> v[|v| - 1] % 4 == 0)
  }

  lemma SplitOfFirst(v0: Sextet, v1: Sextet)
    ensures First(v0, v1) / 4 == v0 && First(v0, v1) % 4 * 16 == v1 / 16 * 16
  {
  }

  lemma SplitOfSecond(v0: Sextet, v1: Sextet, v2: Sextet)
    ensures First(v0, v1) % 4 * 16 + Second(v1, v2) / 16 == v1 && Second(v1, v2) % 16 * 4 == v2 / 4 * 4
  {
    assert Second(v1, v2) / 16 == v1 % 16;
  }

  lemma SplitOfThird(v1: Sextet, v2: Sextet, v3: Sextet)
    ensures Second(v1, v2) % 16 * 4 + Third(v2, v3) / 64 == v2 && Third(v2, v3) % 64 == v3
  {
    assert Third(v2, v3) / 64 == v2 % 4;
    assert v2 == v2 / 4 * 4 + v2 % 4;
    assert Second(v1, v2) % 16 == v2 / 4;
  }

  lemma SplitJoinTwo(v: seq<Sextet>)
    requires |v| == 2
    ensures Split(Join(v)) == [v[0], v[1] / 16 * 16]
  {
    hide First, Second;
    SplitOfFirst(v[0], v[1]);
  }

  lemma SplitOfPair(v0: Sextet, v1: Sextet, v2: Sextet)
    ensures Split([First(v0, v1), Second(v1, v2)]) == [v0, v1, v2 / 4 * 4]
  {
    hide First, Second;
    SplitOfFirst(v0, v1);
    SplitOfSecond(v0, v1, v2);
  }

  lemma SplitJoinThree(v: seq<Sextet>)
    requires |v| == 3
    ensures Split(Join(v)) == [v[0], v[1], v[2] / 4 * 4]
  {
    hide First, Second, Split;
    SplitOfPair(v[0], v[1], v[2]);
  }

  lemma SplitJoinShort(v: seq<Sextet>)
    requires |v| == 2 || |v| == 3
    ensures Split(Join(v)) == v <==> NoStrayBits(v)
  {
    hide Split, Join;
    if |v| == 2 {
      SplitJoinTwo(v);
      assert v == [v[0], v[1]];
    } else {
      SplitJoinThree(v);
      assert v == [v[0], v[1], v[2]];
    }
  }

  lemma SplitQuantum(v: seq<Sextet>, rest: Bytes)
    requires |v| >= 4
    ensures Split([First(v[0], v[1]), Second(v[1], v[2]), Third(v[2], v[3])] + rest) == v[..4] + Split(rest)
  {
    hide First, Second, Third;
    SplitOfFirst(v[0], v[1]);
    SplitOfSecond(v[0], v[1], v[2]);
    SplitOfThird(v[1], v[2], v[3]);
    var b := [First(v[0], v[1]), Second(v[1], v[2]), Third(v[2], v[3])] + rest;
    assert b[3..] == rest;
    assert v[..4] == [v[0], v[1], v[2], v[3]];
  }

  lemma {:induction false} SplitJoin(v: seq<Sextet>)
    requires |v| % 4 != 1
    ensures Split(Join(v)) == v <==> NoStrayBits(v)
    decreases |v|
  {
    hide First, Second, Third, Split, Join;
    if |v| == 0 {
      NothingToSplit();
    } else if |v| < 4 {
      SplitJoinShort(v);
    } else {
      JoinQuantum(v);
      SplitQuantum(v, Join(v[4..]));
      SplitJoin(v[4..]);
      assert v == v[..4] + v[4..];
      assert (v[..4] + Split(Join(v[4..])))[4..] == Split(Join(v[4..]));
      assert |v| > 4 ==> v[|v| - 1] == v[4..][|v| - 5];
    }
  }

  lemma NothingToSplit()
    ensures Join([]) == [] && Split([]) == []
  {
  }

  lemma JoinQuantum(v: seq<Sextet>)
    requires |v| >= 4 && |v| % 4 != 1
    ensures Join(v) == [First(v[0], v[1]), Second(v[1], v[2]), Third(v[2], v[3])] + Join(v[4..])
  {
  }

  /** What the strict decoder accepts, told from the text alone. */
  lemma StrictDecodeAcceptsExactly(s: string)
    ensures StrictDecode(s).Some? <==> s != "" && AllInAlphabet(s) && |s| % 4 != 1 && NoStrayBits(Values(s))
  {
    if s != "" && AllInAlphabet(s) && |s| % 4 != 1 {
      hide StrictDecode, Join, Split, First, Second, Third;
      var b := Join(Values(s));
      SplitJoin(Values(s));
      JoinSplit(b);
      DigitsOfValues(s);
      if NoStrayBits(Values(s)) {
        NotEmptyJoin(Values(s));
        StrictDecodeIsInverse(s, b);
      }
      if StrictDecode(s).Some? {
        var d := StrictDecode(s).value;
        StrictDecodeIsInverse(s, d);
        assert Values(Digits(Split(d))) == Split(d);
        JoinSplit(d);
      }
    } else if StrictDecode(s).Some? {
      var d := StrictDecode(s).value;
      StrictDecodeIsInverse(s, d);
      EncodeShape(d);
    }
  }

  lemma DigitsOfValues(s: string)
    requires AllInAlphabet(s)
    ensures Digits(Values(s)) == s
  {
    forall i | 0 <= i < |s| ensures Digits(Values(s))[i] == s[i] {
      ValueDigit(s[i]);
    }
  }

  lemma NotEmptyJoin(v: seq<Sextet>)
    requires |v| > 0 && |v| % 4 != 1
    ensures Join(v) != []
  {
  }

  /** A line break anywhere in an accepted text leaves what Go decodes unchanged, and the strict decoder refuses it. */
  lemma LineBreaksAreRefused(s: string, i: nat)
    requires StrictDecode(s).Some? && i <= |s|
    ensures GoDecode(s[..i] + "\n" + s[i..]) == StrictDecode(s)
    ensures StrictDecode(s[..i] + "\n" + s[i..]).None?
  {
    var b := StrictDecode(s).value;
    var t := s[..i] + "\n" + s[i..];
    StrictDecodeIsInverse(s, b);
    EncodeShape(b);
    SkipInserted(s, i);
    DecodeInvertsEncode(b);
    assert t[i] == '\n' && !InAlphabet(t[i]);
    if StrictDecode(t).Some? {
      StrictDecodeIsInverse(t, StrictDecode(t).value);
      EncodeShape(StrictDecode(t).value);
    }
  }

  lemma {:induction false} SkipInserted(s: string, i: nat)
    requires AllInAlphabet(s) && i <= |s|
    ensures SkipNewlines(s[..i] + "\n" + s[i..]) == s
  {
    var t := s[..i] + "\n" + s[i..];
    if i == 0 {
      assert t[1..] == s;
      SkipNothing(s);
    } else {
      assert t[1..] == s[1..][..i - 1] + "\n" + s[1..][i - 1..];
      SkipInserted(s[1..], i - 1);
      assert s == [s[0]] + s[1..];
    }
  }

  // ---- the alphabet and the order of the bits ----

  /** Table 2 of RFC 4648: capitals, small letters, digits, minus, underscore, each run in order. */
  lemma DigitsFollowTheTable(v: Sextet)
    ensures Digit(0) == 'A' && Digit(25) == 'Z' && Digit(26) == 'a' && Digit(51) == 'z' && Digit(52) == '0'
            && Digit(61) == '9' && Digit(62) == '-' && Digit(63) == '_'
    ensures v !in {25, 51, 61, 62, 63} ==> Digit(v + 1) as int == Digit(v) as int + 1
  {
  }

  /** The number that digits of a base make up, read from the left and after `acc`. */
  function Number(acc: nat, digits: seq<int>, base: nat): nat
    requires forall i :: 0 <= i < |digits| ==> 0 <= digits[i]
    decreases |digits|
  {
    if digits == [] then acc else Number(acc * base + digits[0], digits[1..], base)
  }

  function AsInts(v: seq<Sextet>): (r: seq<int>)
    ensures |r| == |v| && forall i :: 0 <= i < |v| ==> r[i] == v[i] && 0 <= r[i]
  {
    seq(|v|, i requires 0 <= i < |v| => v[i])
  }

  /** How many times over the zero bits that fill up the last group count. */
  function Filling(length: nat): nat {
    if length % 3 == 0 then 1 else if length % 3 == 1 then 16 else 4
  }

  lemma NumberOfTwo(acc: nat, b: seq<int>, base: nat)
    requires |b| >= 2 && forall i :: 0 <= i < |b| ==> 0 <= b[i]
    ensures Number(acc, b, base) == Number((acc * base + b[0]) * base + b[1], b[2..], base)
  {
    assert b[1..][1..] == b[2..];
    assert Number(acc * base + b[0], b[1..], base) == Number((acc * base + b[0]) * base + b[1], b[2..], base);
  }

  lemma NumberOfThree(acc: nat, b: seq<int>, base: nat)
    requires |b| >= 3 && forall i :: 0 <= i < |b| ==> 0 <= b[i]
    ensures Number(acc, b, base) == Number(((acc * base + b[0]) * base + b[1]) * base + b[2], b[3..], base)
  {
    NumberOfTwo(acc, b, base);
    assert b[2..][1..] == b[3..];
  }

  lemma NumberOfFour(acc: nat, v: seq<int>, base: nat)
    requires |v| >= 4 && forall i :: 0 <= i < |v| ==> 0 <= v[i]
    ensures Number(acc, v, base)
            == Number((((acc * base + v[0]) * base + v[1]) * base + v[2]) * base + v[3], v[4..], base)
  {
    NumberOfThree(acc, v, base);
    assert v[3..][1..] == v[4..];
  }

  lemma QuantumHasTheSameBits(acc: nat, x: byte, y: byte, z: byte)
    ensures (((acc * 64 + x / 4) * 64 + (x % 4 * 16 + y / 16)) * 64 + (y % 16 * 4 + z / 64)) * 64 + z % 64
            == ((acc * 256 + x) * 256 + y) * 256 + z
  {
  }

  lemma NoBytesKeepTheNumber(acc: nat)
    ensures Number(acc, AsInts(Split([])), 64) == Number(acc, [], 256) == acc
  {
  }

  lemma OneByteKeepsTheNumber(acc: nat, b: Bytes)
    requires |b| == 1
    ensures Number(acc, AsInts(Split(b)), 64) == Number(acc, b, 256) * 16
  {
    var v := AsInts(Split(b));
    assert v == [b[0] / 4, b[0] % 4 * 16] && v[2..] == [] && b[1..] == [];
    NumberOfTwo(acc, v, 64);
  }

  lemma TwoBytesKeepTheNumber(acc: nat, b: Bytes)
    requires |b| == 2
    ensures Number(acc, AsInts(Split(b)), 64) == Number(acc, b, 256) * 4
  {
    var x, y := b[0], b[1];
    var v := AsInts(Split(b));
    assert v == [x / 4, x % 4 * 16 + y / 16, y % 16 * 4];
    hide Split, AsInts;
    NumberOfThree(acc, v, 64);
    NumberOfTwo(acc, b, 256);
    assert v[3..] == [] && b[2..] == [];
    assert ((acc * 64 + x / 4) * 64 + (x % 4 * 16 + y / 16)) * 64 + y % 16 * 4 == ((acc * 256 + x) * 256 + y) * 4;
  }

  lemma QuantumKeepsTheNumber(acc: nat, b: Bytes)
    requires |b| >= 3
    ensures var next := ((acc * 256 + b[0]) * 256 + b[1]) * 256 + b[2];
            && Number(acc, AsInts(Split(b)), 64) == Number(next, AsInts(Split(b[3..])), 64)
            && Number(acc, b, 256) == Number(next, b[3..], 256)
  {
    var x, y, z := b[0], b[1], b[2];
    var v := AsInts(Split(b));
    assert v[4..] == AsInts(Split(b[3..]));
    assert v[0] == x / 4 && v[1] == x % 4 * 16 + y / 16 && v[2] == y % 16 * 4 + z / 64 && v[3] == z % 64;
    hide Split, AsInts, Number;
    NumberOfFour(acc, v, 64);
    NumberOfThree(acc, b, 256);
    QuantumHasTheSameBits(acc, x, y, z);
  }

  /** The groups of six bits are the bytes' own bits in their order: read as a number in base 64, they are the number
      that the bytes make up in base 256, followed by the zeros that fill up the last group. */
  lemma {:induction false} SplitKeepsTheNumber(acc: nat, b: Bytes)
    ensures Number(acc, AsInts(Split(b)), 64) == Number(acc, b, 256) * Filling(|b|)
    decreases |b|
  {
    hide Split, AsInts, Number;
    if |b| == 0 {
      NoBytesKeepTheNumber(acc);
    } else if |b| == 1 {
      OneByteKeepsTheNumber(acc, b);
    } else if |b| == 2 {
      TwoBytesKeepTheNumber(acc, b);
    } else if |b| >= 3 {
      QuantumKeepsTheNumber(acc, b);
      SplitKeepsTheNumber(((acc * 256 + b[0]) * 256 + b[1]) * 256 + b[2], b[3..]);
    }
  }
}
