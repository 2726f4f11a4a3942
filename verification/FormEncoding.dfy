/** `urllib.parse.parse_qsl` with `keep_blank_values` and `urllib.parse.urlencode`: the
    application/x-www-form-urlencoded codec (section 5 of the WHATWG URL Standard). */
module FormEncoding {
  import opened Text
  import opened Utf8

  datatype Pair = Pair(key: string, value: string)

  // ---------------------------------------------------------------- printing

  /** The characters `quote` leaves alone. */
  predicate Unreserved(b: Byte) {
    || 'a' as int <= b <= 'z' as int
    || 'A' as int <= b <= 'Z' as int
    || '0' as int <= b <= '9' as int
    || b == '_' as int || b == '.' as int || b == '-' as int || b == '~' as int
  }

  function HexDigit(n: int): (c: char)
    requires 0 <= n < 16
    ensures IsHex(c) && HexValue(c) == n
  {
    if n < 10 then ('0' as int + n) as char else ('A' as int + n - 10) as char
  }

  function QuoteByte(b: Byte): string {
    if Unreserved(b) then [b as char]
    else if b == ' ' as int then "+"
    else ['%', HexDigit(b / 16), HexDigit(b % 16)]
  }

  function QuoteBytes(bytes: seq<Byte>): string {
    if bytes == [] then "" else QuoteByte(bytes[0]) + QuoteBytes(bytes[1..])
  }

  function QuotePlus(s: string): string {
    QuoteBytes(Encode(s))
  }

  function Field(pair: Pair): string {
    QuotePlus(pair.key) + "=" + QuotePlus(pair.value)
  }

  function Fields(pairs: seq<Pair>): (fields: seq<string>)
    ensures |fields| == |pairs|
  {
    if pairs == [] then [] else [Field(pairs[0])] + Fields(pairs[1..])
  }

  function EncodeQuery(pairs: seq<Pair>): string {
    Join(Fields(pairs), '&')
  }

  // ---------------------------------------------------------------- parsing

  predicate IsHex(c: char) {
    '0' <= c <= '9' || 'a' <= c <= 'f' || 'A' <= c <= 'F'
  }

  function HexValue(c: char): (n: int)
    requires IsHex(c)
    ensures 0 <= n < 16
  {
    if c <= '9' then c as int - '0' as int
    else if c <= 'F' then c as int - 'A' as int + 10
    else c as int - 'a' as int + 10
  }

  predicate IsAscii(c: char) {
    c < '\U{0080}'
  }

  predicate AllAscii(s: string) {
    forall c | c in s :: IsAscii(c)
  }

  /** The bytes of an ASCII text; a `%` that two hexadecimal digits do not follow stands for itself. */
  function UnquoteToBytes(s: string): seq<Byte>
    requires AllAscii(s)
  {
    if s == "" then []
    else if s[0] == '%' && |s| >= 3 && IsHex(s[1]) && IsHex(s[2]) then
      [16 * HexValue(s[1]) + HexValue(s[2])] + UnquoteToBytes(s[3..])
    else
      assert IsAscii(s[0]);
      [s[0] as int] + UnquoteToBytes(s[1..])
  }

  /** The length of the longest ASCII prefix. */
  function AsciiRun(s: string): (n: nat)
    ensures n <= |s| && AllAscii(s[..n])
    ensures AllAscii(s) <==> n == |s|
    ensures n < |s| ==> !IsAscii(s[n])
  {
    if s == "" || !IsAscii(s[0]) then
      assert s != "" ==> s[0] in s;
      0
    else
      var n := 1 + AsciiRun(s[1..]);
      assert s[..n] == [s[0]] + s[1..][..n - 1];
      assert s == [s[0]] + s[1..];
      n
  }

  /** Each run of ASCII is decoded on its own; the other characters stand for themselves. */
  function Unquote(s: string): string {
    var n := AsciiRun(s);
    Decode(UnquoteToBytes(s[..n])) + if n == |s| then "" else [s[n]] + Unquote(s[n + 1..])
  }

  function PlusToSpace(s: string): (r: string)
    ensures |r| == |s|
    ensures forall i | 0 <= i < |s| :: r[i] == if s[i] == '+' then ' ' else s[i]
  {
    if s == "" then "" else [if s[0] == '+' then ' ' else s[0]] + PlusToSpace(s[1..])
  }

  function UnquotePlus(s: string): string {
    Unquote(PlusToSpace(s))
  }

  function ParseField(field: string): Pair {
    var i := FirstIndex(field, '=');
    Pair(UnquotePlus(field[..i]), UnquotePlus(if i < |field| then field[i + 1..] else ""))
  }

  function ParseFields(fields: seq<string>): seq<Pair> {
    if fields == [] then []
    else (if fields[0] == "" then [] else [ParseField(fields[0])]) + ParseFields(fields[1..])
  }

  function ParseQuery(query: string): seq<Pair> {
    ParseFields(Split(query, '&'))
  }

  // ---------------------------------------------------------------- single characters

  /** Letters, digits and four marks are printed as they are, a space as `+`, any other byte as `%` and its two
      hexadecimal digits. */
  lemma PrintedByte(b: Byte)
    ensures QuoteByte(b) ==
            if 48 <= b <= 57 || 65 <= b <= 90 || 97 <= b <= 122 || b in {45, 46, 95, 126} then [b as char]
            else if b == 32 then "+"
            else ['%', "0123456789ABCDEF"[b / 16], "0123456789ABCDEF"[b % 16]]
  {
    HexDigitPrinted(b / 16);
    HexDigitPrinted(b % 16);
  }

  lemma HexDigitPrinted(n: nat)
    requires n < 16
    ensures HexDigit(n) == "0123456789ABCDEF"[n]
  {
  }

  /** Two hexadecimal digits after a `%`, of either case, are one byte; any other ASCII character, and a `%`
      without them, is its own byte. */
  lemma EscapeRead(h: char, l: char, m: nat, n: nat, rest: string)
    requires m < 16 && ("0123456789abcdef"[m] == h || "0123456789ABCDEF"[m] == h)
    requires n < 16 && ("0123456789abcdef"[n] == l || "0123456789ABCDEF"[n] == l)
    requires AllAscii(rest)
    ensures AllAscii(['%', h, l] + rest)
    ensures UnquoteToBytes(['%', h, l] + rest) == [16 * m + n] + UnquoteToBytes(rest)
  {
    var s := ['%', h, l] + rest;
    HexDigitRead(h, m);
    HexDigitRead(l, n);
    assert s[3..] == rest;
  }

  lemma HexDigitRead(h: char, n: nat)
    requires n < 16 && ("0123456789abcdef"[n] == h || "0123456789ABCDEF"[n] == h)
    ensures IsHex(h) && HexValue(h) == n && IsAscii(h)
  {
  }

  lemma HexDigits(h: char)
    ensures IsHex(h) <==> h in "0123456789abcdefABCDEF"
  {
    var digits := "0123456789abcdefABCDEF";
    if IsHex(h) {
      assert digits[HexValue(h) + if h >= 'A' && h <= 'F' then 6 else 0] == h;
    }
  }

  lemma PlainRead(c: char, rest: string)
    requires c as int < 128 && AllAscii(rest)
    requires c != '%' || |rest| < 2 || !IsHex(rest[0]) || !IsHex(rest[1])
    ensures AllAscii([c] + rest) && UnquoteToBytes([c] + rest) == [c as int] + UnquoteToBytes(rest)
  {
    var s := [c] + rest;
    assert s[1..] == rest;
  }

  /** The escapes between two characters that are not ASCII are decoded together, and these stand for
      themselves. */
  lemma RunsRead(a: string, c: char, rest: string)
    requires AllAscii(a)
    ensures Unquote(a) == Decode(UnquoteToBytes(a))
    ensures c as int > 127 ==> Unquote(a + [c] + rest) == Decode(UnquoteToBytes(a)) + ([c] + Unquote(rest))
  {
    assert a[..AsciiRun(a)] == a && Decode(UnquoteToBytes(a)) + "" == Decode(UnquoteToBytes(a));
    if c as int > 127 {
      var s := a + [c] + rest;
      RunEnds(s, |a|);
      assert s[..|a|] == a && s[|a| + 1..] == rest;
    }
  }

  lemma RunEnds(s: string, n: nat)
    requires n < |s| && AllAscii(s[..n]) && !IsAscii(s[n])
    ensures AsciiRun(s) == n
  {
    var m := AsciiRun(s);
    var (front, run) := (s[..n], s[..m]);
    assert forall i | 0 <= i < |front| :: front[i] in front && front[i] == s[i];
    assert forall i | 0 <= i < |run| :: run[i] in run && run[i] == s[i];
  }

  lemma LoneField(field: string)
    ensures ParseFields([field]) == if field == "" then [] else [ParseField(field)]
  {
    assert [field][1..] == [];
    assert ParseFields([field][1..]) == [];
  }

  lemma FirstField(field: string, more: seq<string>)
    ensures ParseFields([field] + more) == ParseFields([field]) + ParseFields(more)
  {
    LoneField(field);
    var fields := [field] + more;
    assert fields[0] == field && fields[1..] == more;
  }

  /** Fields are read one by one. */
  lemma FieldsRead(field: string, rest: string)
    requires '&' !in field
    ensures ParseQuery(field + ['&'] + rest) == ParseQuery(field) + ParseQuery(rest)
  {
    SplitOfConcat(field, '&', rest);
    SplitOfPart(field, '&');
    FirstField(field, Split(rest, '&'));
  }

  lemma OneField(field: string)
    requires '&' !in field
    ensures ParseQuery(field) == if field == "" then [] else [ParseField(field)]
  {
    SplitOfPart(field, '&');
    LoneField(field);
  }

  lemma NoEquals(key: string)
    requires '=' !in key
    ensures ParseField(key) == Pair(UnquotePlus(key), "")
  {
    FirstIndexOfConcat(key, '=', "");
    assert key[..|key|] == key;
    assert UnquotePlus("") == "" by {
      assert AsciiRun("") == 0;
      assert PlusToSpace("") == "";
    }
  }

  /** An empty field is skipped, and one without `=` has an empty value. */
  lemma FieldRead(key: string, value: string)
    requires '&' !in key && '=' !in key && '&' !in value
    ensures ParseQuery(key + "=" + value) == [Pair(UnquotePlus(key), UnquotePlus(value))]
    ensures ParseQuery(key) == if key == "" then [] else [Pair(UnquotePlus(key), "")]
  {
    OneField(key);
    OneField(key + "=" + value);
    ParseOfConcat(key, value);
    NoEquals(key);
  }

  // ---------------------------------------------------------------- parsing undoes printing

  /** What a printed text is made of: in particular none of the separators `&`, `=` and `#`, and no
      white space. */
  predicate IsQuoted(c: char) {
    IsAscii(c) && (Unreserved(c as int) || c == '+' || c == '%')
  }

  lemma {:induction false} QuotedChars(bytes: seq<Byte>)
    ensures forall c | c in QuoteBytes(bytes) :: IsQuoted(c)
  {
    if bytes == [] {
    } else {
      QuotedChars(bytes[1..]);
      forall c | c in QuoteByte(bytes[0]) ensures IsQuoted(c) {
        QuotedByteChars(bytes[0]);
      }
    }
  }

  lemma QuotedByteChars(b: Byte)
    ensures forall c | c in QuoteByte(b) :: IsQuoted(c)
  {
    var hi, lo := HexDigit(b / 16), HexDigit(b % 16);
    assert IsQuoted(hi) && IsQuoted(lo);
  }

  lemma PlusToSpaceOfConcat(a: string, b: string)
    ensures PlusToSpace(a + b) == PlusToSpace(a) + PlusToSpace(b)
  {
  }

  /** The bytes are read back whatever follows them. */
  lemma UnquoteOfQuoteByte(b: Byte, rest: string)
    requires AllAscii(rest)
    ensures AllAscii(PlusToSpace(QuoteByte(b)) + rest)
    ensures UnquoteToBytes(PlusToSpace(QuoteByte(b)) + rest) == [b] + UnquoteToBytes(rest)
  {
    var s := PlusToSpace(QuoteByte(b)) + rest;
    forall c | c in s ensures IsAscii(c) {
      if c in PlusToSpace(QuoteByte(b)) {
        QuotedByteChars(b);
        var i :| 0 <= i < |QuoteByte(b)| && PlusToSpace(QuoteByte(b))[i] == c;
        assert QuoteByte(b)[i] in QuoteByte(b);
      }
    }
    if |QuoteByte(b)| == 1 {
      assert s[1..] == rest;
    } else {
      assert s[3..] == rest;
      assert b == 16 * (b / 16) + b % 16;
    }
  }

  lemma {:induction false} UnquoteOfQuoteBytes(bytes: seq<Byte>)
    ensures AllAscii(PlusToSpace(QuoteBytes(bytes)))
    ensures UnquoteToBytes(PlusToSpace(QuoteBytes(bytes))) == bytes
  {
    if bytes == [] {
    } else {
      UnquoteOfQuoteBytes(bytes[1..]);
      PlusToSpaceOfConcat(QuoteByte(bytes[0]), QuoteBytes(bytes[1..]));
      UnquoteOfQuoteByte(bytes[0], PlusToSpace(QuoteBytes(bytes[1..])));
      assert bytes == [bytes[0]] + bytes[1..];
    }
  }

  lemma UnquotePlusOfQuotePlus(s: string)
    ensures UnquotePlus(QuotePlus(s)) == s
  {
    UnquoteOfQuoteBytes(Encode(s));
    var t := PlusToSpace(QuotePlus(s));
    assert t[..AsciiRun(t)] == t;
    RoundTrip(s);
  }

  lemma QuotePlusFree(s: string)
    ensures '&' !in QuotePlus(s) && '=' !in QuotePlus(s)
  {
    QuotedChars(Encode(s));
    assert !IsQuoted('&') && !IsQuoted('=');
  }

  lemma ParseOfConcat(a: string, b: string)
    requires '=' !in a
    ensures ParseField(a + "=" + b) == Pair(UnquotePlus(a), UnquotePlus(b))
  {
    FirstIndexOfConcat(a, '=', b);
    assert (a + "=" + b)[..|a|] == a;
    assert (a + "=" + b)[|a| + 1..] == b;
  }

  lemma ParseOfField(pair: Pair)
    ensures ParseField(Field(pair)) == pair
    ensures '&' !in Field(pair) && Field(pair) != ""
  {
    QuotePlusFree(pair.key);
    QuotePlusFree(pair.value);
    ParseOfConcat(QuotePlus(pair.key), QuotePlus(pair.value));
    UnquotePlusOfQuotePlus(pair.key);
    UnquotePlusOfQuotePlus(pair.value);
  }

  lemma {:induction false} ParseOfFields(pairs: seq<Pair>)
    ensures ParseFields(Fields(pairs)) == pairs
    ensures forall field | field in Fields(pairs) :: '&' !in field
  {
    if pairs == [] {
    } else {
      ParseOfField(pairs[0]);
      ParseOfFields(pairs[1..]);
      assert pairs == [pairs[0]] + pairs[1..];
    }
  }

  /** Parsing undoes printing, for every list of pairs of texts. */
  lemma ParseUndoesEncode(pairs: seq<Pair>)
    ensures ParseQuery(EncodeQuery(pairs)) == pairs
  {
    ParseOfFields(pairs);
    if pairs != [] {
      SplitOfJoin(Fields(pairs), '&');
    } else {
      assert Split("", '&') == [""];
    }
  }

  predicate IsQueryChar(c: char) {
    IsQuoted(c) || c == '=' || c == '&'
  }

  /** Printed queries hold no `#` and no character that `urlsplit` removes. */
  lemma {:induction false} EncodedChars(pairs: seq<Pair>)
    ensures forall c | c in EncodeQuery(pairs) :: IsQueryChar(c)
  {
    if pairs == [] {
    } else {
      QuotedChars(Encode(pairs[0].key));
      QuotedChars(Encode(pairs[0].value));
      assert Fields(pairs)[1..] == Fields(pairs[1..]);
      EncodedChars(pairs[1..]);
    }
  }
}
