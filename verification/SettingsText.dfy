/** The normalisers of `Settings` that work on text and lists. */
module SettingsText {
  import opened Wrappers
  import opened Text
  import Middleware

  // ---------------------------------------------------------------- API prefix

  function RemoveTrailing(s: string, c: char): (r: string)
    ensures r == "" || r[|r| - 1] != c
    ensures r <= s && forall i | |r| <= i < |s| :: s[i] == c
    ensures r == s <==> s == "" || s[|s| - 1] != c
  {
    if s != "" && s[|s| - 1] == c then RemoveTrailing(s[..|s| - 1], c) else s
  }

  /** Empty, or starting with a slash and not ending with one. */
  predicate IsPrefix(p: string) {
    p == "" || (p[0] == '/' && p[|p| - 1] != '/')
  }

  /** A value is refused exactly when its trimmed text starts with something else than a slash;
      otherwise the prefix is that text up to the slashes at its end. */
  function ValidateApiPrefix(value: string): (result: Result<string>)
    ensures result.Err? <==> Strip(value) != "" && Strip(value)[0] != '/'
    ensures result.Ok? ==>
              IsPrefix(result.value) && result.value <= Strip(value) &&
              forall i | |result.value| <= i < |Strip(value)| :: Strip(value)[i] == '/'
  {
    var normalized := Strip(value);
    if normalized == "" || normalized == "/" then Ok("")
    else if normalized[0] != '/' then Err("API_PREFIX must be empty or start with /")
    else Ok(RemoveTrailing(normalized, '/'))
  }

  lemma {:induction false} RemovedAll(text: string, ends: string, c: char)
    requires text == "" || text[|text| - 1] != c
    requires forall x | x in ends :: x == c
    ensures RemoveTrailing(text + ends, c) == text
    decreases |ends|
  {
    if ends == "" {
      assert text + ends == text;
    } else {
      var n := |ends| - 1;
      assert ends[n] in ends && (text + ends)[..|text| + n] == text + ends[..n];
      forall x | x in ends[..n] ensures x == c {
        assert x in ends;
      }
      RemovedAll(text, ends[..n], c);
    }
  }

  /** Whatever the value: when its trimmed text is the given one with slashes at its end, the prefix is that one,
      unless it starts with something else than a slash. */
  lemma PrefixWithoutSlashes(value: string, text: string, slashes: string)
    requires Strip(value) == text + slashes && forall c | c in slashes :: c == '/'
    requires text == "" || text[|text| - 1] != '/'
    ensures ValidateApiPrefix(value) ==
            if text == "" || text[0] == '/' then Ok(text) else Err("API_PREFIX must be empty or start with /")
  {
    RemovedAll(text, slashes, '/');
    if ValidateApiPrefix(value).Ok? {
      AcceptedPrefix(value);
    }
    if text != "" {
      assert Strip(value)[0] == text[0];
    } else if slashes != "" {
      assert slashes[0] in slashes;
    }
  }

  /** The last character that is another one. */
  function LastOther(s: string, c: char): Option<char> {
    if s == "" then None
    else if s[|s| - 1] != c then Some(s[|s| - 1])
    else LastOther(s[..|s| - 1], c)
  }

  lemma {:induction false} EndOfRemoved(s: string, c: char)
    ensures var r := RemoveTrailing(s, c);
            LastOther(s, c) == if r == "" then None else Some(r[|r| - 1])
  {
    if s == "" {
    } else if s[|s| - 1] == c {
      EndOfRemoved(s[..|s| - 1], c);
    }
  }

  lemma AcceptedPrefix(value: string)
    requires ValidateApiPrefix(value).Ok?
    ensures ValidateApiPrefix(value).value == RemoveTrailing(Strip(value), '/')
  {
    if Strip(value) == "/" {
      assert RemoveTrailing("/", '/') == "";
    }
  }

  lemma PrefixFixed(p: string)
    requires IsPrefix(p)
    ensures ValidateApiPrefix(p) == Ok(p) <==> p == "" || !IsSpace(p[|p| - 1])
  {
    if p == "" {
    } else if IsSpace(p[|p| - 1]) {
      assert |Strip(p)| < |p|;
    } else {
      assert Trimmed(p) && Strip(p) == p;
    }
  }

  /** Validating an accepted prefix again keeps it exactly when, in the trimmed value, no white space
      comes right before the slashes at the end. */
  lemma ValidationFixed(value: string)
    requires ValidateApiPrefix(value).Ok?
    ensures var p, last := ValidateApiPrefix(value).value, LastOther(Strip(value), '/');
            ValidateApiPrefix(p) == Ok(p) <==> last == None || !IsSpace(last.value)
  {
    AcceptedPrefix(value);
    EndOfRemoved(Strip(value), '/');
    PrefixFixed(ValidateApiPrefix(value).value);
  }

  /** A value on which it does not. */
  lemma ValidationNotFixed()
    ensures ValidateApiPrefix("/ /") == Ok("/ ") && ValidateApiPrefix("/ ") == Ok("")
  {
    assert "/ /"[..2] == "/ " && "/ "[..1] == "/";
    assert Strip("/ /") == "/ /" && Strip("/ ") == "/";
  }

  /** Mounting the routes under a prefix does not change which of them are public. */
  lemma PrefixTransparent(prefix: string, route: string)
    ensures Middleware.IsPublicPath(prefix, prefix + route) <==> Middleware.IsPublicPath("", route)
  {
    assert (prefix + route)[|prefix|..] == route;
  }

  // ---------------------------------------------------------------- comma-separated lists

  function Kept(part: string): seq<string> {
    if Strip(part) == "" then [] else [Strip(part)]
  }

  /** The trimmed non-blank parts, in order. */
  function NonBlank(parts: seq<string>): (items: seq<string>)
    ensures forall item | item in items :: item != "" && Trimmed(item)
  {
    if parts == [] then [] else Kept(parts[0]) + NonBlank(parts[1..])
  }

  function ParseList(text: string): seq<string> {
    NonBlank(Split(text, ','))
  }

  lemma KeptOfPadded(left: string, item: string, right: string)
    requires forall c | c in left + right :: IsSpace(c)
    requires item == "" || (!IsSpace(item[0]) && !IsSpace(item[|item| - 1]))
    ensures Kept(left + item + right) == if item == "" then [] else [item]
  {
    StripOfPadded(left, item, right);
  }

  lemma NonBlankOfFirst(part: string, parts: seq<string>)
    ensures NonBlank([part] + parts) == Kept(part) + NonBlank(parts)
  {
    assert ([part] + parts)[1..] == parts;
  }

  lemma NoCommaInPadded(left: string, item: string, right: string)
    requires (forall c | c in left + right :: IsSpace(c)) && ',' !in item
    ensures ',' !in left + item + right
  {
    assert !IsSpace(',');
    assert forall c | c in left || c in right :: c in left + right;
  }

  /** A part of the text counts without the white space around it, and not at all when nothing else is there. */
  lemma ParseByParts(left: string, item: string, right: string, rest: string)
    requires forall c | c in left + right :: IsSpace(c)
    requires item == "" || (!IsSpace(item[0]) && !IsSpace(item[|item| - 1]))
    requires ',' !in item
    ensures ParseList(left + item + right) == if item == "" then [] else [item]
    ensures ParseList(left + item + right + [','] + rest) == (if item == "" then [] else [item]) + ParseList(rest)
  {
    var part := left + item + right;
    NoCommaInPadded(left, item, right);
    KeptOfPadded(left, item, right);
    SplitOfPart(part, ',');
    SplitOfConcat(part, ',', rest);
    NonBlankOfFirst(part, []);
    NonBlankOfFirst(part, Split(rest, ','));
    assert [part] + [] == [part] && Kept(part) + [] == Kept(part);
  }

  predicate IsItem(item: string) {
    item != "" && Trimmed(item) && ',' !in item
  }

  predicate AreItems(items: seq<string>) {
    forall item | item in items :: IsItem(item)
  }

  lemma {:induction false} NonBlankFixed(items: seq<string>)
    requires forall item | item in items :: item != "" && Trimmed(item)
    ensures NonBlank(items) == items
  {
    if items == [] {
    } else {
      assert items[0] in items && items == [items[0]] + items[1..];
      forall item | item in items[1..] ensures item != "" && Trimmed(item) {
        assert item in items;
      }
      NonBlankFixed(items[1..]);
    }
  }

  lemma {:induction false} NonBlankKeepsFree(parts: seq<string>)
    requires forall part | part in parts :: ',' !in part
    ensures AreItems(NonBlank(parts))
  {
    if parts == [] {
    } else {
      assert parts == [parts[0]] + parts[1..];
      NonBlankKeepsFree(parts[1..]);
      StripIsInside(parts[0]);
    }
  }

  lemma StripIsInside(s: string)
    ensures forall c | c in Strip(s) :: c in s
  {
    var left := StripLeft(s);
    forall c | c in Strip(s) ensures c in s {
      var i :| 0 <= i < |Strip(s)| && Strip(s)[i] == c;
      assert left[i] == c && s[|s| - |left| + i] == c;
    }
  }

  lemma ParsedAreItems(text: string)
    ensures AreItems(ParseList(text))
  {
    NonBlankKeepsFree(Split(text, ','));
  }

  lemma ParseOfNothing()
    ensures ParseList("") == []
  {
    assert Kept("") == [];
  }

  lemma ParseOfJoin(items: seq<string>)
    requires AreItems(items) && items != []
    ensures ParseList(Join(items, ',')) == items
  {
    forall item | item in items ensures ',' !in item && item != "" && Trimmed(item) {
      assert IsItem(item);
    }
    SplitOfJoin(items, ',');
    NonBlankFixed(items);
  }

  lemma ItemsMean(items: seq<string>)
    ensures AreItems(items) <==> forall item | item in items ::
              item != "" && !IsSpace(item[0]) && !IsSpace(item[|item| - 1]) && ',' !in item
  {
    forall item | item in items
      ensures IsItem(item) <==> item != "" && !IsSpace(item[0]) && !IsSpace(item[|item| - 1]) && ',' !in item
    {
    }
  }

  /** Parsing undoes joining exactly for lists of trimmed, non-empty, comma-free items; whatever the
      text, the parsed list is one of those. */
  lemma ParseUndoesJoin(items: seq<string>)
    ensures ParseList(Join(items, ',')) == items <==>
            forall item | item in items ::
              item != "" && !IsSpace(item[0]) && !IsSpace(item[|item| - 1]) && ',' !in item
  {
    ParsedAreItems(Join(items, ','));
    ItemsMean(items);
    if items == [] {
      ParseOfNothing();
    } else if AreItems(items) {
      ParseOfJoin(items);
    }
  }

  // ---------------------------------------------------------------- timeframe targets

  function Dedup(items: seq<string>): (kept: seq<string>)
    ensures forall item :: item in kept <==> item in items
    ensures kept == [] <==> items == []
  {
    if items == [] then []
    else
      var before := Dedup(items[..|items| - 1]);
      var last := items[|items| - 1];
      assert items == items[..|items| - 1] + [last];
      if last in before then before else before + [last]
  }

  /** The first occurrences, one per distinct target, in the order of the input. */
  function Targets(value: seq<string>): seq<string> {
    Dedup(NonBlank(value))
  }

  method ValidateTargets(value: seq<string>) returns (result: Result<seq<string>>)
    ensures result.Err? <==> forall item | item in value :: Strip(item) == ""
    ensures result.Ok? ==> result.value == Targets(value)
  {
    var normalized: seq<string> := [];
    for i := 0 to |value|
      invariant normalized == Targets(value[..i])
    {
      var item := Strip(value[i]);
      TargetsStep(value, i);
      if item != "" && item !in normalized {
        normalized := normalized + [item];
      }
    }
    assert value[..|value|] == value;
    NonBlankMembers(value);
    AllBlank(value, normalized);
    if normalized == [] {
      return Err("TIMEFRAME_AGGREGATION_ALLOWED_TARGETS must contain at least one timeframe");
    }
    return Ok(normalized);
  }

  lemma AllBlank(value: seq<string>, targets: seq<string>)
    requires forall t :: t in targets <==> t in NonBlank(value)
    requires forall t :: t in NonBlank(value) <==> exists item :: item in value && Strip(item) == t && t != ""
    ensures targets == [] <==> forall item | item in value :: Strip(item) == ""
  {
    if targets != [] {
      assert targets[0] in NonBlank(value);
    }
    if item :| item in value && Strip(item) != "" {
      assert Strip(item) in NonBlank(value);
    }
  }

  lemma TargetsStep(value: seq<string>, i: nat)
    requires i < |value|
    ensures var targets, item := Targets(value[..i]), Strip(value[i]);
            Targets(value[..i + 1]) == if item != "" && item !in targets then targets + [item] else targets
  {
    assert value[..i + 1] == value[..i] + [value[i]];
    TargetsAppend(value[..i], value[i]);
  }

  lemma {:induction false} NonBlankAppend(parts: seq<string>, last: string)
    ensures NonBlank(parts + [last]) == NonBlank(parts) + Kept(last)
  {
    if parts == [] {
      assert parts + [last] == [last] && [last][1..] == [];
    } else {
      assert (parts + [last])[1..] == parts[1..] + [last];
      NonBlankAppend(parts[1..], last);
      assert Kept(parts[0]) + (NonBlank(parts[1..]) + Kept(last)) == NonBlank(parts) + Kept(last);
    }
  }

  lemma DedupAppend(items: seq<string>, last: string)
    ensures Dedup(items + [last]) == if last in Dedup(items) then Dedup(items) else Dedup(items) + [last]
  {
    assert (items + [last])[..|items|] == items;
  }

  lemma TargetsAppend(parts: seq<string>, last: string)
    ensures Targets(parts + [last]) ==
            if Strip(last) == "" || Strip(last) in Targets(parts) then Targets(parts)
            else Targets(parts) + [Strip(last)]
  {
    NonBlankAppend(parts, last);
    if Strip(last) == "" {
      assert NonBlank(parts) + [] == NonBlank(parts);
    } else {
      DedupAppend(NonBlank(parts), Strip(last));
    }
  }

  predicate NoRepeats(items: seq<string>) {
    forall i, j :: 0 <= i < j < |items| ==> items[i] != items[j]
  }

  function FirstAt(items: seq<string>, item: string): (i: nat)
    ensures i <= |items| && item !in items[..i]
    ensures i < |items| <==> item in items
    ensures i < |items| ==> items[i] == item
  {
    if items == [] || items[0] == item then 0
    else
      assert forall k :: 0 < k < |items| ==> items[k] == items[1..][k - 1];
      var i := 1 + FirstAt(items[1..], item);
      assert items[..i] == [items[0]] + items[1..][..i - 1];
      i
  }

  lemma {:induction false} FirstAtAppend(items: seq<string>, last: string, item: string)
    ensures item in items ==> FirstAt(items + [last], item) == FirstAt(items, item)
    ensures last !in items ==> FirstAt(items + [last], last) == |items|
  {
    if items == [] {
    } else {
      assert (items + [last])[1..] == items[1..] + [last];
      assert items == [items[0]] + items[1..];
      FirstAtAppend(items[1..], last, item);
    }
  }

  /** Each target once, in the order in which the targets first occur. */
  ghost predicate InOrderOf(kept: seq<string>, items: seq<string>) {
    forall i, j :: 0 <= i < j < |kept| ==> FirstAt(items, kept[i]) < FirstAt(items, kept[j])
  }

  lemma {:induction false} DedupOrder(items: seq<string>)
    ensures NoRepeats(Dedup(items)) && InOrderOf(Dedup(items), items)
  {
    if items == [] {
    } else {
      var front, last := items[..|items| - 1], items[|items| - 1];
      var before := Dedup(front);
      assert items == front + [last];
      DedupOrder(front);
      forall item | item in before ensures FirstAt(items, item) == FirstAt(front, item) < |front| {
        FirstAtAppend(front, last, item);
      }
      FirstAtAppend(front, last, last);
    }
  }

  lemma {:induction false} DedupFixed(items: seq<string>)
    requires NoRepeats(items)
    ensures Dedup(items) == items
  {
    if items == [] {
    } else {
      DedupFixed(items[..|items| - 1]);
    }
  }

  /** The validated targets are trimmed, non-empty and distinct, cover exactly the non-blank input in
      first-occurrence order, and validate to themselves. */
  lemma TargetsCanonical(value: seq<string>)
    ensures var targets := Targets(value);
            (forall t | t in targets :: t != "" && Trimmed(t)) &&
            (forall t :: t in targets <==> exists item :: item in value && Strip(item) == t && t != "") &&
            (forall i, j :: 0 <= i < j < |targets| ==> targets[i] != targets[j]) &&
            InOrderOf(targets, NonBlank(value)) &&
            Targets(targets) == targets
  {
    DedupOrder(NonBlank(value));
    NonBlankMembers(value);
    NonBlankFixed(Targets(value));
    DedupFixed(Targets(value));
  }

  lemma {:induction false} NonBlankMembers(parts: seq<string>)
    ensures forall t :: t in NonBlank(parts) <==> exists item :: item in parts && Strip(item) == t && t != ""
  {
    if parts == [] {
    } else {
      assert parts == [parts[0]] + parts[1..];
      NonBlankMembers(parts[1..]);
      forall t ensures t in NonBlank(parts) <==> exists item :: item in parts && Strip(item) == t && t != "" {
        if t in NonBlank(parts[1..]) {
          var item :| item in parts[1..] && Strip(item) == t;
          assert item in parts;
        }
        if t == Strip(parts[0]) && t != "" {
          assert parts[0] in parts;
        }
      }
    }
  }

  // ---------------------------------------------------------------- outcome horizons

  predicate Increasing(s: seq<int>) {
    forall i, j :: 0 <= i < j < |s| ==> s[i] < s[j]
  }

  function Insert(sorted: seq<int>, x: int): seq<int> {
    if sorted == [] || x < sorted[0] then [x] + sorted
    else if x == sorted[0] then sorted
    else [sorted[0]] + Insert(sorted[1..], x)
  }

  /** The positive horizons as a sorted set. */
  function SortedPositive(value: seq<int>): seq<int> {
    if value == [] then []
    else if value[0] > 0 then Insert(SortedPositive(value[1..]), value[0])
    else SortedPositive(value[1..])
  }

  function ValidateHorizons(value: seq<int>): Result<seq<int>> {
    var normalized := SortedPositive(value);
    if normalized == [] then Err("OUTCOME_DEFAULT_HORIZONS_MINUTES must contain at least one positive horizon")
    else Ok(normalized)
  }

  lemma {:induction false} InsertKeeps(sorted: seq<int>, x: int)
    requires Increasing(sorted)
    ensures Increasing(Insert(sorted, x))
    ensures forall y :: y in Insert(sorted, x) <==> y == x || y in sorted
  {
    if sorted != [] && x > sorted[0] {
      assert sorted == [sorted[0]] + sorted[1..];
      InsertKeeps(sorted[1..], x);
      var rest := Insert(sorted[1..], x);
      forall k | 0 <= k < |rest| ensures sorted[0] < rest[k] {
        assert rest[k] in rest;
      }
    }
  }

  lemma {:induction false} SortedPositiveMeaning(value: seq<int>)
    ensures Increasing(SortedPositive(value))
    ensures forall y :: y in SortedPositive(value) <==> y in value && y > 0
  {
    if value == [] {
    } else {
      assert value == [value[0]] + value[1..];
      SortedPositiveMeaning(value[1..]);
      if value[0] > 0 {
        InsertKeeps(SortedPositive(value[1..]), value[0]);
      }
    }
  }

  /** A strictly increasing list is determined by its members. */
  lemma {:induction false} IncreasingUnique(s: seq<int>, t: seq<int>)
    requires Increasing(s) && Increasing(t) && forall y :: y in s <==> y in t
    ensures s == t
  {
    if s != [] {
      assert s[0] in s;
    }
    if t != [] {
      assert t[0] in t;
    }
    if s != [] && t != [] {
      assert s[0] in t && t[0] in s;
      assert s[0] == t[0];
      assert s == [s[0]] + s[1..] && t == [t[0]] + t[1..];
      forall y ensures y in s[1..] <==> y in t[1..] {
        if y in s[1..] {
          assert y in t && y != t[0];
        }
        if y in t[1..] {
          assert y in s && y != s[0];
        }
      }
      IncreasingUnique(s[1..], t[1..]);
    }
  }

  /** The horizons are rejected exactly when none is positive; otherwise the result is strictly
      increasing, holds exactly the positive inputs, depends only on which they are, and validates to
      itself. */
  lemma HorizonsCanonical(value: seq<int>, other: seq<int>)
    ensures ValidateHorizons(value).Err? <==> forall y | y in value :: y <= 0
    ensures ValidateHorizons(value).Ok? ==>
              var horizons := ValidateHorizons(value).value;
              (forall i, j :: 0 <= i < j < |horizons| ==> horizons[i] < horizons[j]) &&
              (forall y :: y in horizons <==> y in value && y > 0) &&
              ValidateHorizons(ValidateHorizons(value).value) == ValidateHorizons(value)
    ensures (forall y | y > 0 :: y in value <==> y in other) ==> ValidateHorizons(value) == ValidateHorizons(other)
  {
    var sorted := SortedPositive(value);
    SortedPositiveMeaning(value);
    SortedPositiveMeaning(other);
    SortedPositiveMeaning(sorted);
    if sorted != [] {
      assert sorted[0] in value;
    }
    IncreasingUnique(SortedPositive(sorted), sorted);
    if forall y | y > 0 :: y in value <==> y in other {
      IncreasingUnique(sorted, SortedPositive(other));
    }
  }
}
