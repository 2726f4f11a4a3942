/** The string operations of Python that the modelled code calls. */
module Text {

  // ---------------------------------------------------------------- whitespace

  /** The characters `str.strip` removes. */
  predicate IsSpace(c: char) {
    || '\U{0009}' <= c <= '\U{000D}'
    || '\U{001C}' <= c <= '\U{0020}'
    || c == '\U{0085}' || c == '\U{00A0}' || c == '\U{1680}'
    || '\U{2000}' <= c <= '\U{200A}'
    || c == '\U{2028}' || c == '\U{2029}' || c == '\U{202F}' || c == '\U{205F}' || c == '\U{3000}'
  }

  predicate Trimmed(s: string) {
    s == "" || (!IsSpace(s[0]) && !IsSpace(s[|s| - 1]))
  }

  function StripLeft(s: string): (r: string)
    ensures r == "" || !IsSpace(r[0])
    ensures |r| <= |s| && r == s[|s| - |r|..]
    ensures forall i | 0 <= i < |s| - |r| :: IsSpace(s[i])
  {
    if s != "" && IsSpace(s[0]) then StripLeft(s[1..]) else s
  }

  function StripRight(s: string): (r: string)
    ensures r == "" || !IsSpace(r[|r| - 1])
    ensures r <= s && forall i | |r| <= i < |s| :: IsSpace(s[i])
    ensures r == s <==> s == "" || !IsSpace(s[|s| - 1])
  {
    if s != "" && IsSpace(s[|s| - 1]) then StripRight(s[..|s| - 1]) else s
  }

  function Strip(s: string): (r: string)
    ensures Trimmed(r) && |r| <= |s|
    ensures Trimmed(s) ==> r == s
    ensures |r| == |s| ==> r == s
  {
    StripRight(StripLeft(s))
  }

  /** They are the white space of Unicode and the four separators below it. */
  lemma SpaceCharacters(c: char)
    ensures IsSpace(c) <==>
            c as int in {9, 10, 11, 12, 13, 28, 29, 30, 31, 32, 133, 160, 5760, 8192, 8193, 8194, 8195, 8196, 8197,
                         8198, 8199, 8200, 8201, 8202, 8232, 8233, 8239, 8287, 12288}
  {
  }

  lemma {:induction false} StripLeftOfConcat(left: string, s: string)
    requires forall c | c in left :: IsSpace(c)
    ensures StripLeft(left + s) == StripLeft(s)
  {
    if left == "" {
      assert left + s == s;
    } else {
      assert left[0] in left && (left + s)[1..] == left[1..] + s;
      StripLeftOfConcat(left[1..], s);
    }
  }

  lemma {:induction false} StripRightOfConcat(s: string, right: string)
    requires forall c | c in right :: IsSpace(c)
    ensures StripRight(s + right) == StripRight(s)
  {
    if right == "" {
      assert s + right == s;
    } else {
      var n := |right| - 1;
      assert right[n] in right && (s + right)[..|s| + n] == s + right[..n];
      StripRightOfConcat(s, right[..n]);
    }
  }

  /** Whatever white space is around a text that neither begins nor ends with any, stripping gives the text. */
  lemma StripOfPadded(left: string, text: string, right: string)
    requires forall c | c in left + right :: IsSpace(c)
    requires text == "" || (!IsSpace(text[0]) && !IsSpace(text[|text| - 1]))
    ensures Strip(left + text + right) == text
  {
    assert forall c | c in left || c in right :: c in left + right;
    assert left + text + right == left + (text + right);
    StripLeftOfConcat(left, text + right);
    if text == "" {
      assert text + right == right + "";
      StripLeftOfConcat(right, "");
    } else {
      assert (text + right)[0] == text[0];
      StripRightOfConcat(text, right);
    }
  }

  /** Every text is such a one. */
  lemma StripSplits(s: string) returns (left: string, right: string)
    ensures s == left + Strip(s) + right && (forall c | c in left + right :: IsSpace(c)) && Trimmed(Strip(s))
  {
    var body := StripLeft(s);
    left, right := s[..|s| - |body|], body[|StripRight(body)|..];
    Pieces(s, left, StripRight(body), right);
    AllSpaces(s, 0, |left|);
    AllSpaces(body, |StripRight(body)|, |body|);
  }

  lemma AllSpaces(s: string, lo: nat, hi: nat)
    requires lo <= hi <= |s| && forall i | lo <= i < hi :: IsSpace(s[i])
    ensures forall c | c in s[lo..hi] :: IsSpace(c)
  {
  }

  lemma Pieces(s: string, left: string, middle: string, right: string)
    requires left <= s && middle <= s[|left|..] && right == s[|left|..][|middle|..]
    ensures s == left + middle + right
  {
  }

  // ---------------------------------------------------------------- searching

  /** The index of the first occurrence, or the length. */
  function FirstIndex(s: string, c: char): (i: nat)
    ensures i <= |s| && c !in s[..i]
    ensures i < |s| ==> s[i] == c
  {
    if s == "" || s[0] == c then 0
    else
      var i := 1 + FirstIndex(s[1..], c);
      assert s[..i] == [s[0]] + s[1..][..i - 1];
      i
  }

  lemma {:induction false} FirstIndexOfConcat(a: string, c: char, b: string)
    requires c !in a
    ensures FirstIndex(a + [c] + b, c) == |a|
    ensures FirstIndex(a, c) == |a|
  {
    if a == "" {
    } else {
      assert (a + [c] + b)[1..] == a[1..] + [c] + b;
      FirstIndexOfConcat(a[1..], c, b);
    }
  }

  /** The index of the last occurrence, or -1. */
  function LastIndex(s: string, c: char): (i: int)
    ensures -1 <= i < |s|
    ensures i >= 0 ==> s[i] == c
  {
    if s == "" then -1
    else if s[|s| - 1] == c then |s| - 1
    else LastIndex(s[..|s| - 1], c)
  }

  lemma {:induction false} LastIndexOfConcat(a: string, c: char, b: string)
    requires c !in b
    ensures LastIndex(a + [c] + b, c) == |a|
  {
    if b == "" {
    } else {
      assert (a + [c] + b)[..|a| + |b|] == a + [c] + b[..|b| - 1];
      LastIndexOfConcat(a, c, b[..|b| - 1]);
    }
  }

  // ---------------------------------------------------------------- split and join

  function Split(s: string, separator: char): (parts: seq<string>)
    ensures parts != []
    ensures forall part | part in parts :: separator !in part
  {
    if s == "" then [""]
    else
      var rest := Split(s[1..], separator);
      if s[0] == separator then [""] + rest else [[s[0]] + rest[0]] + rest[1..]
  }

  function Join(parts: seq<string>, separator: char): string {
    if |parts| == 0 then "" else if |parts| == 1 then parts[0]
    else parts[0] + [separator] + Join(parts[1..], separator)
  }

  lemma {:induction false} SplitOfConcat(a: string, separator: char, b: string)
    requires separator !in a
    ensures Split(a + [separator] + b, separator) == [a] + Split(b, separator)
  {
    var s := a + [separator] + b;
    if a == "" {
      assert s[1..] == b;
    } else {
      assert s[1..] == a[1..] + [separator] + b;
      SplitOfConcat(a[1..], separator, b);
      assert [s[0]] + a[1..] == a;
    }
  }

  lemma {:induction false} SplitOfPart(a: string, separator: char)
    requires separator !in a
    ensures Split(a, separator) == [a]
  {
    if a == "" {
    } else {
      SplitOfPart(a[1..], separator);
      assert [a[0]] + a[1..] == a;
    }
  }

  /** Splitting undoes joining non-empty lists of separator-free parts. */
  lemma {:induction false} SplitOfJoin(parts: seq<string>, separator: char)
    requires parts != [] && forall part | part in parts :: separator !in part
    ensures Split(Join(parts, separator), separator) == parts
  {
    if |parts| == 1 {
      SplitOfPart(parts[0], separator);
    } else {
      SplitOfConcat(parts[0], separator, Join(parts[1..], separator));
      SplitOfJoin(parts[1..], separator);
    }
  }

  /** Joining undoes splitting. */
  lemma {:induction false} JoinOfSplit(s: string, separator: char)
    ensures Join(Split(s, separator), separator) == s
  {
    if s == "" {
    } else {
      var rest := Split(s[1..], separator);
      JoinOfSplit(s[1..], separator);
      assert s == [s[0]] + s[1..];
      if s[0] == separator {
        assert Split(s, separator)[1..] == rest;
      } else if |rest| > 1 {
        assert ([[s[0]] + rest[0]] + rest[1..])[1..] == rest[1..];
      }
    }
  }
}
