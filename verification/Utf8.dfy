/** UTF-8 as Python encodes it, and decodes it with `errors="replace"` (section 3.9 of the Unicode
    Standard: one replacement character for each maximal subpart of an ill-formed sequence). */
module Utf8 {

  type Byte = b: int | 0 <= b < 0x100 witness 0

  const REPLACEMENT: char := '\U{FFFD}'

  function EncodeChar(c: char): (bytes: seq<Byte>)
    ensures bytes != []
  {
    var v := c as int;
    if v < 0x80 then [v]
    else if v < 0x800 then [0xC0 + v / 64, 0x80 + v % 64]
    else if v < 0x1_0000 then [0xE0 + v / 4096, 0x80 + v / 64 % 64, 0x80 + v % 64]
    else [0xF0 + v / 262144, 0x80 + v / 4096 % 64, 0x80 + v / 64 % 64, 0x80 + v % 64]
  }

  function Encode(s: string): seq<Byte> {
    if s == "" then [] else EncodeChar(s[0]) + Encode(s[1..])
  }

  /** How many bytes a sequence with this first byte has; 0 when no sequence starts with it. */
  function Length(first: Byte): (n: nat)
    ensures n <= 4
  {
    if first < 0x80 then 1
    else if first < 0xC2 then 0
    else if first < 0xE0 then 2
    else if first < 0xF0 then 3
    else if first < 0xF5 then 4
    else 0
  }

  /** Which second bytes may follow: overlong forms, surrogates and values over U+10FFFF are not. */
  predicate SecondFits(first: Byte, second: Byte) {
    && 0x80 <= second < 0xC0
    && (first == 0xE0 ==> 0xA0 <= second)
    && (first == 0xED ==> second < 0xA0)
    && (first == 0xF0 ==> 0x90 <= second)
    && (first == 0xF4 ==> second < 0x90)
  }

  predicate Continues(b: Byte) {
    0x80 <= b < 0xC0
  }

  /** The next character, and how many bytes it or the ill-formed subpart takes. */
  function DecodeChar(bytes: seq<Byte>): (r: (char, nat))
    requires bytes != []
    ensures 1 <= r.1 <= |bytes|
  {
    var first: int := bytes[0];
    var n := Length(bytes[0]);
    if n == 0 then (REPLACEMENT, 1)
    else if n == 1 then (first as char, 1)
    else if |bytes| < 2 || !SecondFits(bytes[0], bytes[1]) then (REPLACEMENT, 1)
    else
      var second: int := bytes[1];
      if n == 2 then (((first - 0xC0) * 64 + (second - 0x80)) as char, 2)
      else if |bytes| < 3 || !Continues(bytes[2]) then (REPLACEMENT, 2)
      else
        var third: int := bytes[2];
        if n == 3 then (((first - 0xE0) * 4096 + (second - 0x80) * 64 + (third - 0x80)) as char, 3)
        else if |bytes| < 4 || !Continues(bytes[3]) then (REPLACEMENT, 3)
        else
          var fourth: int := bytes[3];
          (((first - 0xF0) * 262144 + (second - 0x80) * 4096 + (third - 0x80) * 64 + (fourth - 0x80)) as char, 4)
  }

  function Decode(bytes: seq<Byte>): string {
    if bytes == [] then ""
    else
      var (c, used) := DecodeChar(bytes);
      [c] + Decode(bytes[used..])
  }

  /** The bytes of a character: the first one says how many follow, and they carry its bits, six each. */
  lemma EncodedForm(c: char)
    ensures var bytes: seq<int> := EncodeChar(c);
            match |bytes|
            case 1 => bytes[0] < 0x80 && c as int == bytes[0]
            case 2 => 0xC2 <= bytes[0] < 0xE0 && c as int == (bytes[0] - 0xC0) * 64 + (bytes[1] - 0x80)
            case 3 => 0xE0 <= bytes[0] < 0xF0 &&
              c as int == (bytes[0] - 0xE0) * 4096 + (bytes[1] - 0x80) * 64 + (bytes[2] - 0x80)
            case 4 => 0xF0 <= bytes[0] < 0xF5 &&
              c as int == (bytes[0] - 0xF0) * 262144 + (bytes[1] - 0x80) * 4096 + (bytes[2] - 0x80) * 64 +
                          (bytes[3] - 0x80)
            case _ => false
    ensures forall i | 1 <= i < |EncodeChar(c)| :: 0x80 <= EncodeChar(c)[i] < 0xC0
  {
    Digits(c as int);
  }

  lemma Digits(v: nat)
    ensures v == v / 64 * 64 + v % 64
    ensures v / 64 == v / 4096 * 64 + v / 64 % 64
    ensures v / 4096 == v / 262144 * 64 + v / 4096 % 64
  {
  }

  lemma DecodeShort(c: char, rest: seq<Byte>)
    requires c as int < 0x800
    ensures DecodeChar(EncodeChar(c) + rest) == (c, |EncodeChar(c)|)
  {
    var bytes := EncodeChar(c) + rest;
    assert bytes[0] == EncodeChar(c)[0];
    assert c as int >= 0x80 ==> bytes[1] == EncodeChar(c)[1];
    Digits(c as int);
  }

  lemma DecodeThree(c: char, rest: seq<Byte>)
    requires 0x800 <= c as int < 0x1_0000
    ensures DecodeChar(EncodeChar(c) + rest) == (c, 3)
  {
    var code, bytes := EncodeChar(c), EncodeChar(c) + rest;
    assert bytes[0] == code[0] && bytes[1] == code[1] && bytes[2] == code[2];
    Digits(c as int);
  }

  lemma DecodeFour(c: char, rest: seq<Byte>)
    requires 0x1_0000 <= c as int
    ensures DecodeChar(EncodeChar(c) + rest) == (c, 4)
  {
    var code, bytes := EncodeChar(c), EncodeChar(c) + rest;
    assert bytes[0] == code[0] && bytes[1] == code[1] && bytes[2] == code[2] && bytes[3] == code[3];
    Digits(c as int);
  }

  lemma DecodeCharOfEncode(c: char, rest: seq<Byte>)
    ensures DecodeChar(EncodeChar(c) + rest) == (c, |EncodeChar(c)|)
  {
    if c as int < 0x800 {
      DecodeShort(c, rest);
    } else if c as int < 0x1_0000 {
      DecodeThree(c, rest);
    } else {
      DecodeFour(c, rest);
    }
  }

  // ---------------------------------------------------------------- ill-formed sequences

  /** The high bits and the low six. */
  lemma SixBits(high: nat, low: nat)
    requires low < 64
    ensures (high * 64 + low) / 64 == high && (high * 64 + low) % 64 == low
  {
  }

  lemma SplitIn(v: nat, a: nat, b: nat, c: nat, d: nat)
    requires b < 64 && c < 64 && d < 64 && v == ((a * 64 + b) * 64 + c) * 64 + d
    ensures v % 64 == d && v / 64 % 64 == c && v / 4096 % 64 == b && v / 262144 == a
    ensures v / 64 == (a * 64 + b) * 64 + c && v / 4096 == a * 64 + b
  {
    SixBits((a * 64 + b) * 64 + c, d);
    SixBits(a * 64 + b, c);
    SixBits(a, b);
    assert v / 4096 == v / 64 / 64 && v / 262144 == v / 4096 / 64;
  }

  /** What is read as a character, other than a replacement, is its encoding. */
  lemma DecodedIsEncoded(bytes: seq<Byte>)
    requires bytes != [] && DecodeChar(bytes).0 != REPLACEMENT
    ensures EncodeChar(DecodeChar(bytes).0) == bytes[..DecodeChar(bytes).1]
  {
    var b: seq<int> := bytes;
    match DecodeChar(bytes).1
    case 2 => SplitIn(DecodeChar(bytes).0 as int, 0, 0, b[0] - 0xC0, b[1] - 0x80);
    case 3 => SplitIn(DecodeChar(bytes).0 as int, 0, b[0] - 0xE0, b[1] - 0x80, b[2] - 0x80);
    case 4 => SplitIn(DecodeChar(bytes).0 as int, b[0] - 0xF0, b[1] - 0x80, b[2] - 0x80, b[3] - 0x80);
    case _ =>
  }

  /** Any other character is read exactly when the bytes begin with its encoding; in all other cases U+FFFD is. */
  lemma DecodedExactly(bytes: seq<Byte>, c: char)
    requires bytes != [] && c != '\U{FFFD}'
    ensures DecodeChar(bytes).0 == c <==> EncodeChar(c) <= bytes
  {
    if EncodeChar(c) <= bytes {
      DecodeCharOfEncode(c, bytes[|EncodeChar(c)|..]);
      assert bytes == EncodeChar(c) + bytes[|EncodeChar(c)|..];
    }
    if DecodeChar(bytes).0 == c {
      DecodedIsEncoded(bytes);
    }
  }

  /** More than one byte is taken only when they begin the encoding of some character. */
  lemma SubpartAgrees(bytes: seq<Byte>) returns (c: char)
    requires bytes != [] && DecodeChar(bytes).1 > 1
    ensures bytes[..DecodeChar(bytes).1] <= EncodeChar(c)
  {
    var n := DecodeChar(bytes).1;
    var missing := Length(bytes[0]) - n;
    if DecodeChar(bytes).0 != REPLACEMENT || missing == 0 {
      c := DecodeChar(bytes).0;
      DecodeCharOfEncode(REPLACEMENT, []);
      if c != REPLACEMENT {
        DecodedIsEncoded(bytes);
      }
    } else {
      var whole := bytes[..n] + if missing == 1 then [0x80] else [0x80, 0x80];
      c := DecodeChar(whole).0;
      assert forall i | 0 <= i < n :: whole[i] == bytes[i];
      DecodedIsEncoded(whole);
    }
  }

  /** And then as many as agree with the encoding of any character. */
  lemma SubpartIsLongest(bytes: seq<Byte>, c: char, k: nat)
    requires bytes != [] && k <= |bytes| && k <= |EncodeChar(c)| && bytes[..k] == EncodeChar(c)[..k]
    ensures DecodeChar(bytes).1 >= k
  {
    var code := EncodeChar(c);
    DecodeCharOfEncode(c, []);
    assert code + [] == code;
    if k > 1 {
      assert bytes[0] == bytes[..k][0] == code[0] && bytes[1] == bytes[..k][1] == code[1];
      assert k > 2 ==> bytes[2] == bytes[..k][2] == code[2];
      assert k > 3 ==> bytes[3] == bytes[..k][3] == code[3];
    }
  }

  /** Decoding undoes encoding, for every text. */
  lemma {:induction false} RoundTrip(s: string)
    ensures Decode(Encode(s)) == s
  {
    if s == "" {
    } else {
      DecodeCharOfEncode(s[0], Encode(s[1..]));
      assert Encode(s)[|EncodeChar(s[0])|..] == Encode(s[1..]);
      RoundTrip(s[1..]);
      assert s == [s[0]] + s[1..];
    }
  }
}
