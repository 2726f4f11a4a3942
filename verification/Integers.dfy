/** `int()` of Python in base 10, on text of Latin-1 characters such as a header has. */
module Integers {
  import opened Wrappers

  /** The interpreter refuses to read more digits than this. */
  const MAX_DIGITS: nat := 4300

  predicate IsDigit(c: char) {
    '0' <= c <= '9'
  }

  function DigitValue(c: char): (v: nat)
    requires IsDigit(c)
    ensures v < 10
  {
    c as int - '0' as int
  }

  /** What is skipped at both ends: less than `str.strip` does among the ASCII characters. */
  predicate IsBlank(c: char) {
    '\U{0009}' <= c <= '\U{000D}' || c == ' ' || c == '\U{0085}' || c == '\U{00A0}'
  }

  function TrimLeft(s: string): string {
    if s != "" && IsBlank(s[0]) then TrimLeft(s[1..]) else s
  }

  function TrimRight(s: string): string {
    if s != "" && IsBlank(s[|s| - 1]) then TrimRight(s[..|s| - 1]) else s
  }

  /** Digits, with at most one underscore between any two of them. */
  function ReadDigits(s: string): Option<nat> {
    if s == "" || !IsDigit(s[|s| - 1]) then None
    else
      var front, value := s[..|s| - 1], DigitValue(s[|s| - 1]);
      if front == "" then Some(value)
      else
        var before := if front[|front| - 1] == '_' then front[..|front| - 1] else front;
        match ReadDigits(before)
        case None => None
        case Some(higher) => Some(10 * higher + value)
  }

  function CountDigits(s: string): nat {
    if s == "" then 0 else CountDigits(s[..|s| - 1]) + if IsDigit(s[|s| - 1]) then 1 else 0
  }

  function ReadUnsigned(s: string): Option<nat> {
    if CountDigits(s) > MAX_DIGITS then None else ReadDigits(s)
  }

  /** None stands for the ValueError. */
  function ReadInt(s: string): Option<int> {
    var text := TrimRight(TrimLeft(s));
    if text != "" && (text[0] == '+' || text[0] == '-') then
      match ReadUnsigned(text[1..])
      case None => None
      case Some(value) =>
        var signed: int := if text[0] == '-' then -(value as int) else value;
        Some(signed)
    else
      match ReadUnsigned(text)
      case None => None
      case Some(value) => Some(value)
  }

  // ---------------------------------------------------------------- decimal numbers

  function Decimal(n: nat): (s: string)
    ensures s != "" && forall c | c in s :: IsDigit(c)
  {
    if n < 10 then [('0' as int + n) as char] else Decimal(n / 10) + [('0' as int + n % 10) as char]
  }

  lemma {:induction false} DigitsOfDecimal(n: nat)
    ensures ReadDigits(Decimal(n)) == Some(n) && CountDigits(Decimal(n)) == |Decimal(n)|
  {
    var s := Decimal(n);
    if n < 10 {
      assert s[..0] == "";
    } else {
      var front := s[..|s| - 1];
      DigitsOfDecimal(n / 10);
      assert front == Decimal(n / 10);
      assert front[|front| - 1] in front;
    }
  }

  /** Text between two digits has no sign, and nothing to skip at its ends. */
  lemma BareText(s: string)
    requires s != "" && IsDigit(s[0]) && IsDigit(s[|s| - 1])
    ensures ReadInt(s) == match ReadUnsigned(s) case None => None case Some(value) => Some(value)
  {
    assert TrimLeft(s) == s && TrimRight(s) == s;
  }

  lemma DecimalEnds(n: nat)
    ensures IsDigit(Decimal(n)[0]) && IsDigit(Decimal(n)[|Decimal(n)| - 1])
  {
    var s := Decimal(n);
    assert s[0] in s && s[|s| - 1] in s;
  }

  /** A number written in decimal is read back exactly when it does not have too many digits. */
  lemma ReadDecimal(n: nat)
    ensures ReadInt(Decimal(n)) == if |Decimal(n)| <= 4300 then Some(n) else None
  {
    DecimalEnds(n);
    BareText(Decimal(n));
    DigitsOfDecimal(n);
  }

  /** Which digits a number has. */
  lemma DecimalDigits(n: nat, d: nat)
    requires d < 10
    ensures Decimal(d) == ["0123456789"[d]]
    ensures n > 0 ==> Decimal(10 * n + d) == Decimal(n) + ["0123456789"[d]]
  {
    assert "0123456789"[d] == ('0' as int + d) as char;
  }

  // ---------------------------------------------------------------- signs, blanks and underscores

  lemma {:induction false} TrimOfPadded(left: string, text: string, right: string)
    requires forall c | c in left + right :: IsBlank(c)
    requires text != "" && !IsBlank(text[0]) && !IsBlank(text[|text| - 1])
    ensures TrimRight(TrimLeft(left + text + right)) == text
    decreases |left| + |right|
  {
    if left != "" {
      assert left[0] in left + right && (left + text + right)[1..] == left[1..] + text + right;
      forall c | c in left[1..] + right ensures IsBlank(c) {
        assert c in left + right;
      }
      TrimOfPadded(left[1..], text, right);
    } else if right != "" {
      var n := |right| - 1;
      assert right[n] in left + right;
      assert (left + text + right)[0] == text[0] && (left + text + right[..n])[0] == text[0];
      assert (left + text + right)[..|text| + n] == left + text + right[..n];
      forall c | c in left + right[..n] ensures IsBlank(c) {
        assert c in left + right;
      }
      TrimOfPadded(left, text, right[..n]);
    } else {
      assert left + text + right == text;
    }
  }

  lemma BlankCharacters(c: char)
    ensures IsBlank(c) <==> c as int in {9, 10, 11, 12, 13, 32, 133, 160}
  {
  }

  /** Blanks are skipped at both ends. */
  lemma BlanksSkipped(left: string, text: string, right: string)
    requires forall c | c in left + right :: IsBlank(c)
    requires text != "" && !IsBlank(text[0]) && !IsBlank(text[|text| - 1])
    ensures ReadInt(left + text + right) == ReadInt(text)
  {
    TrimOfPadded(left, text, right);
    NothingTrimmed(text);
  }

  lemma NothingTrimmed(text: string)
    requires text != "" && !IsBlank(text[0]) && !IsBlank(text[|text| - 1])
    ensures TrimRight(TrimLeft(text)) == text
  {
    assert TrimLeft(text) == text;
  }

  lemma ReadSigned(sign: char, digits: string)
    requires sign == '+' || sign == '-'
    requires digits != "" && IsDigit(digits[|digits| - 1])
    ensures ReadInt([sign] + digits) ==
            match ReadUnsigned(digits)
            case None => None
            case Some(value) => if sign == '-' then Some(-(value as int)) else Some(value)
  {
    var text := [sign] + digits;
    assert text[0] == sign && text[|text| - 1] == digits[|digits| - 1] && text[1..] == digits;
    NothingTrimmed(text);
  }

  /** A sign may come first. */
  lemma SignedDecimal(n: nat, sign: char)
    requires sign == '+' || sign == '-'
    ensures ReadInt([sign] + Decimal(n)) ==
            if |Decimal(n)| > 4300 then None else if sign == '-' then Some(-(n as int)) else Some(n)
  {
    DecimalEnds(n);
    ReadSigned(sign, Decimal(n));
    DigitsOfDecimal(n);
  }

  lemma {:induction false} CountOfConcat(a: string, b: string)
    ensures CountDigits(a + b) == CountDigits(a) + CountDigits(b)
    decreases |b|
  {
    if b == "" {
      assert a + b == a;
    } else {
      assert (a + b)[..|a + b| - 1] == a + b[..|b| - 1];
      CountOfConcat(a, b[..|b| - 1]);
    }
  }

  /** An underscore between two digits makes no difference. */
  lemma UnderscoreBetweenDigits(a: string, b: string)
    requires a != "" && b != "" && '0' <= a[|a| - 1] <= '9' && '0' <= b[0] <= '9'
    ensures ReadUnsigned(a + "_" + b) == ReadUnsigned(a + b)
  {
    SameDigits(a, b);
    CountOfConcat(a + "_", b);
    CountOfConcat(a, "_");
    CountOfConcat(a, b);
  }

  lemma WithoutLast(a: string, b: string)
    requires b != ""
    ensures (a + b)[..|a + b| - 1] == a + b[..|b| - 1]
  {
  }

  lemma {:induction false} SameDigits(a: string, b: string)
    requires a != "" && b != "" && IsDigit(a[|a| - 1]) && IsDigit(b[0])
    ensures ReadDigits(a + "_" + b) == ReadDigits(a + b)
    decreases |b|
  {
    var n := |b| - 1;
    var s, t := a + "_" + b, a + b;
    assert s[|s| - 1] == t[|t| - 1] == b[n];
    WithoutLast(a + "_", b);
    WithoutLast(a, b);
    if n == 0 {
      assert b[..0] == "" && a + "_" + "" == a + "_" && (a + "_")[..|a|] == a && a + "" == a;
    } else {
      SameDigits(a, b[..n]);
      if b[n - 1] == '_' && n > 1 {
        assert b[..n][..n - 1] == b[..n - 1];
        SameDigits(a, b[..n - 1]);
        WithoutLast(a + "_", b[..n]);
        WithoutLast(a, b[..n]);
      }
    }
  }

  predicate DigitAt(s: string, i: nat)
    requires i < |s|
  {
    '0' <= s[i] <= '9' || (s[i] == '_' && 0 < i < |s| - 1 && '0' <= s[i - 1] <= '9' && '0' <= s[i + 1] <= '9')
  }

  predicate AllDigits(s: string) {
    forall i {:trigger DigitAt(s, i)} | 0 <= i < |s| :: DigitAt(s, i)
  }

  lemma PrefixDigits(s: string, n: nat)
    requires 0 < n < |s| && IsDigit(s[n - 1])
    ensures AllDigits(s[..n]) <==> forall i {:trigger DigitAt(s, i)} | 0 <= i < n :: DigitAt(s, i)
  {
    forall i | 0 <= i < n ensures DigitAt(s[..n], i) <==> DigitAt(s, i) {
    }
    if AllDigits(s[..n]) {
      forall i | 0 <= i < n ensures DigitAt(s, i) {
        assert DigitAt(s[..n], i);
      }
    }
  }

  lemma OneMoreDigit(s: string, n: nat)
    requires 0 < n < |s| && IsDigit(s[|s| - 1]) && (n == |s| - 1 || (n == |s| - 2 && s[n] == '_'))
    requires n == |s| - 1 ==> s[n - 1] != '_'
    ensures AllDigits(s) <==> AllDigits(s[..n])
  {
    if IsDigit(s[n - 1]) {
      PrefixDigits(s, n);
      assert AllDigits(s) ==> forall i {:trigger DigitAt(s, i)} | 0 <= i < n :: DigitAt(s, i);
      assert DigitAt(s, |s| - 1) && DigitAt(s, n);
    } else {
      assert !DigitAt(s[..n], n - 1);
      assert !DigitAt(s, if n == |s| - 1 then n - 1 else n);
    }
  }

  lemma {:induction false} DigitsExactly(s: string)
    ensures ReadDigits(s).Some? <==> s != "" && AllDigits(s)
    decreases |s|
  {
    if s == "" {
    } else if !IsDigit(s[|s| - 1]) {
      assert !DigitAt(s, |s| - 1);
    } else if |s| == 1 {
      assert s[..0] == "" && DigitAt(s, 0);
    } else {
      var n := if s[|s| - 2] == '_' then |s| - 2 else |s| - 1;
      assert s[..|s| - 1][..n] == s[..n];
      DigitsExactly(s[..n]);
      if n == 0 {
        assert !DigitAt(s, 0);
      } else {
        OneMoreDigit(s, n);
      }
    }
  }

  /** Without a sign, a text is a number exactly when it is made of digits and of underscores between two of
      them. */
  lemma NumbersExactly(s: string)
    ensures ReadDigits(s).Some? <==>
            s != "" && forall i | 0 <= i < |s| ::
              '0' <= s[i] <= '9' ||
              (s[i] == '_' && 0 < i < |s| - 1 && '0' <= s[i - 1] <= '9' && '0' <= s[i + 1] <= '9')
  {
    DigitsExactly(s);
    assert AllDigits(s) <==> forall i {:trigger s[i]} | 0 <= i < |s| :: DigitAt(s, i);
  }
}
