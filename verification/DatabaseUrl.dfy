/** `build_async_database_url`: the driver name and the query of a database URL, rewritten for asyncpg. */
module DatabaseUrl {
  import opened Wrappers
  import opened Text
  import opened FormEncoding

  // ---------------------------------------------------------------- query pairs

  predicate IsDropped(key: string) {
    key == "sslmode" || key == "channel_binding"
  }

  predicate IsRequiring(value: string) {
    value == "require" || value == "prefer" || value == "verify-ca" || value == "verify-full"
  }

  function Others(pairs: seq<Pair>): (kept: seq<Pair>)
    ensures forall pair :: pair in kept <==> pair in pairs && !IsDropped(pair.key)
  {
    if pairs == [] then []
    else
      var front, last := pairs[..|pairs| - 1], pairs[|pairs| - 1];
      assert pairs == front + [last];
      if IsDropped(last.key) then Others(front) else Others(front) + [last]
  }

  /** The last `sslmode`, when there is one, asks for encryption. */
  ghost predicate RequiresSsl(pairs: seq<Pair>) {
    exists i | 0 <= i < |pairs| ::
      && pairs[i].key == "sslmode" && IsRequiring(pairs[i].value)
      && forall j | i < j < |pairs| :: pairs[j].key != "sslmode"
  }

  /** The same, looking from the end. */
  predicate SslRequired(pairs: seq<Pair>) {
    pairs != [] &&
    var last := pairs[|pairs| - 1];
    if last.key == "sslmode" then IsRequiring(last.value) else SslRequired(pairs[..|pairs| - 1])
  }

  predicate HasSsl(pairs: seq<Pair>) {
    exists pair | pair in pairs :: pair.key == "ssl"
  }

  function NormalizedPairs(pairs: seq<Pair>): seq<Pair> {
    if SslRequired(pairs) && !HasSsl(Others(pairs)) then Others(pairs) + [Pair("ssl", "require")]
    else Others(pairs)
  }

  lemma RequiresSslAppend(pairs: seq<Pair>, last: Pair)
    ensures RequiresSsl(pairs + [last]) <==>
            if last.key == "sslmode" then IsRequiring(last.value) else RequiresSsl(pairs)
  {
    var all := pairs + [last];
    assert all[|pairs|] == last;
    if last.key != "sslmode" && RequiresSsl(pairs) {
      var i :| 0 <= i < |pairs| && pairs[i].key == "sslmode" && IsRequiring(pairs[i].value)
        && forall j | i < j < |pairs| :: pairs[j].key != "sslmode";
      assert all[i] == pairs[i];
    }
    if last.key != "sslmode" && RequiresSsl(all) {
      var i :| 0 <= i < |all| && all[i].key == "sslmode" && IsRequiring(all[i].value)
        && forall j | i < j < |all| :: all[j].key != "sslmode";
      assert pairs[i] == all[i];
      assert forall j | i < j < |pairs| :: pairs[j] == all[j];
    }
  }

  lemma {:induction false} SslRequiredExactly(pairs: seq<Pair>)
    ensures SslRequired(pairs) <==> RequiresSsl(pairs)
  {
    if pairs == [] {
    } else {
      var front, last := pairs[..|pairs| - 1], pairs[|pairs| - 1];
      assert pairs == front + [last];
      SslRequiredExactly(front);
      RequiresSslAppend(front, last);
    }
  }

  /** What the loop does with one more pair. */
  lemma LoopStep(pairs: seq<Pair>, i: nat)
    requires i < |pairs|
    ensures Others(pairs[..i + 1]) ==
            if IsDropped(pairs[i].key) then Others(pairs[..i]) else Others(pairs[..i]) + [pairs[i]]
    ensures SslRequired(pairs[..i + 1]) ==
            if pairs[i].key == "sslmode" then IsRequiring(pairs[i].value) else SslRequired(pairs[..i])
  {
    assert pairs[..i + 1][..i] == pairs[..i];
  }

  /** Filtering goes pair by pair, so that what it keeps stays in order and as often as it was there. */
  lemma {:induction false} OthersOfConcat(first: seq<Pair>, second: seq<Pair>)
    ensures Others(first + second) == Others(first) + Others(second)
    ensures |first| == 1 ==>
              Others(first) == if first[0].key == "sslmode" || first[0].key == "channel_binding" then [] else first
  {
    if |first| == 1 {
      assert first[..0] == [];
    }
    if second == [] {
      assert first + second == first;
    } else {
      var front, last := second[..|second| - 1], second[|second| - 1];
      assert (first + second)[..|first + second| - 1] == first + front;
      OthersOfConcat(first, front);
      assert Others(first) + (Others(front) + [last]) == (Others(first) + Others(front)) + [last];
    }
  }

  lemma {:induction false} OthersFixed(pairs: seq<Pair>)
    requires forall pair | pair in pairs :: !IsDropped(pair.key)
    ensures Others(pairs) == pairs
  {
    if pairs == [] {
    } else {
      var front, last := pairs[..|pairs| - 1], pairs[|pairs| - 1];
      assert pairs == front + [last];
      assert last in pairs;
      OthersFixed(front);
    }
  }

  lemma HasSslOfOthers(pairs: seq<Pair>)
    ensures HasSsl(Others(pairs)) <==> HasSsl(pairs)
  {
    if HasSsl(pairs) {
      var pair :| pair in pairs && pair.key == "ssl";
      assert pair in Others(pairs);
    }
  }

  /** Without an `ssl` pair, the result asks for encryption exactly when there is an `sslmode` pair and the last
      of them has one of four values. */
  lemma EncryptionAsked(pairs: seq<Pair>)
    requires forall pair | pair in pairs :: pair.key != "ssl"
    ensures Pair("ssl", "require") in NormalizedPairs(pairs) <==>
            exists i | 0 <= i < |pairs| ::
              && pairs[i].key == "sslmode"
              && (pairs[i].value == "require" || pairs[i].value == "prefer" || pairs[i].value == "verify-ca" ||
                  pairs[i].value == "verify-full")
              && forall j | i < j < |pairs| :: pairs[j].key != "sslmode"
  {
    HasSslOfOthers(pairs);
    SslRequiredExactly(pairs);
    if SslRequired(pairs) {
      assert NormalizedPairs(pairs)[|Others(pairs)|] == Pair("ssl", "require");
    }
  }

  /** For instance, the last of these decides alone. */
  lemma LastModeDecides(pairs: seq<Pair>, mode: string)
    requires forall pair | pair in pairs :: pair.key != "ssl"
    ensures Pair("ssl", "require") in NormalizedPairs(pairs + [Pair("sslmode", mode)]) <==>
            mode == "require" || mode == "prefer" || mode == "verify-ca" || mode == "verify-full"
  {
    var all := pairs + [Pair("sslmode", mode)];
    assert all[|pairs|] == Pair("sslmode", mode);
    EncryptionAsked(all);
  }

  /** With an `ssl` pair nothing is added. In all cases no `sslmode` and no `channel_binding` pair is left, the
      others come first, in their order, at most one pair follows them, and normal pairs stay as they are. */
  lemma PairsMeaning(pairs: seq<Pair>)
    ensures var result := NormalizedPairs(pairs);
            (forall pair | pair in result :: pair.key != "sslmode" && pair.key != "channel_binding") &&
            (result == Others(pairs) || result == Others(pairs) + [Pair("ssl", "require")]) &&
            ((exists pair | pair in pairs :: pair.key == "ssl") ==> result == Others(pairs)) &&
            NormalizedPairs(result) == result
  {
    var result := NormalizedPairs(pairs);
    HasSslOfOthers(pairs);
    if result != Others(pairs) {
      assert Pair("ssl", "require") in result;
    }
    forall pair | pair in result ensures !IsDropped(pair.key) {
    }
    OthersFixed(result);
    SslRequiredExactly(pairs);
    SslRequiredExactly(result);
    forall i | 0 <= i < |result| ensures result[i].key != "sslmode" {
      assert result[i] in result;
    }
  }

  // ---------------------------------------------------------------- parts of a URL

  const SCHEME: string := "postgresql+asyncpg"
  const ASYNCPG: string := SCHEME + "://"

  /** What follows the scheme. */
  datatype Parts = Parts(netloc: string, path: string, query: string, fragment: string)

  predicate IsRemoved(c: char) {
    c == '\t' || c == '\r' || c == '\n'
  }

  function Cleaned(s: string): (r: string)
    ensures forall c | c in r :: !IsRemoved(c)
    ensures (forall c | c in s :: !IsRemoved(c)) ==> r == s
  {
    if s == "" then ""
    else
      assert s == [s[0]] + s[1..];
      assert s[0] in s;
      if IsRemoved(s[0]) then Cleaned(s[1..]) else [s[0]] + Cleaned(s[1..])
  }

  predicate IsDelimiter(c: char) {
    c == '/' || c == '?' || c == '#'
  }

  function NetlocEnd(s: string): (n: nat)
    ensures n <= |s| && forall i | 0 <= i < n :: !IsDelimiter(s[i])
    ensures n < |s| ==> IsDelimiter(s[n])
  {
    if s == "" || IsDelimiter(s[0]) then 0 else 1 + NetlocEnd(s[1..])
  }

  function UpTo(s: string, c: char): string {
    s[..FirstIndex(s, c)]
  }

  function After(s: string, c: char): string {
    var i := FirstIndex(s, c);
    if i < |s| then s[i + 1..] else ""
  }

  /** `urlsplit` of what follows the two slashes. */
  function SplitParts(rest: string): Parts {
    var clean := Cleaned(rest);
    var n := NetlocEnd(clean);
    var body := UpTo(clean[n..], '#');
    Parts(clean[..n], UpTo(body, '?'), After(body, '?'), After(clean[n..], '#'))
  }

  function Tail(parts: Parts): string {
    (if parts.query == "" then "" else "?" + parts.query)
    + (if parts.fragment == "" then "" else "#" + parts.fragment)
  }

  function Body(parts: Parts): string {
    parts.netloc + parts.path + Tail(parts)
  }

  /** `urlunsplit`. The scheme is not one that urllib knows, so an empty authority keeps its slashes
      only when the path would be read as one without them. */
  function Unsplit(parts: Parts): string {
    var located :=
      if parts.netloc != "" then
        "//" + parts.netloc + (if parts.path != "" && parts.path[0] != '/' then "/" else "") + parts.path
      else if "//" <= parts.path then "//" + parts.path
      else parts.path;
    SCHEME + ":" + located + Tail(parts)
  }

  // ---------------------------------------------------------------- the rewriting

  /** `urlsplit` refuses an authority with one kind of bracket only, and one that its checks of the
      bracketed host and of the normalised characters, here `valid`, refuse. */
  predicate NetlocAccepted(netloc: string, valid: string -> bool) {
    ('[' in netloc <==> ']' in netloc) && valid(netloc)
  }

  function Rewritten(parts: Parts): Parts {
    parts.(query := EncodeQuery(NormalizedPairs(ParseQuery(parts.query))))
  }

  function Normalized(rest: string, valid: string -> bool): Result<string> {
    var parts := SplitParts(rest);
    if NetlocAccepted(parts.netloc, valid) then Ok(Unsplit(Rewritten(parts))) else Err("Invalid URL")
  }

  /** The loop of `normalize_asyncpg_query`, on the URL whose scheme and slashes `rest` follows. */
  method NormalizeAsyncpgQuery(rest: string, valid: string -> bool) returns (result: Result<string>)
    ensures result == Normalized(rest, valid)
  {
    var url := SplitParts(rest);
    if !NetlocAccepted(url.netloc, valid) {
      return Err("Invalid URL");
    }
    var pairs := ParseQuery(url.query);
    var normalized: seq<Pair> := [];
    var sslRequired := false;
    for i := 0 to |pairs|
      invariant normalized == Others(pairs[..i])
      invariant sslRequired == SslRequired(pairs[..i])
    {
      var pair := pairs[i];
      LoopStep(pairs, i);
      if pair.key == "sslmode" {
        sslRequired := IsRequiring(pair.value);
        continue;
      }
      if pair.key == "channel_binding" {
        continue;
      }
      normalized := normalized + [pair];
    }
    assert pairs[..|pairs|] == pairs;
    if sslRequired && !HasSsl(normalized) {
      normalized := normalized + [Pair("ssl", "require")];
    }
    return Ok(Unsplit(url.(query := EncodeQuery(normalized))));
  }

  /** What follows the scheme and the slashes, when the scheme is one that is rewritten. */
  function AfterScheme(raw: string): Option<string> {
    if ASYNCPG <= raw then Some(raw[|ASYNCPG|..])
    else if "postgresql://" <= raw then Some(raw[13..])
    else if "postgres://" <= raw then Some(raw[11..])
    else None
  }

  function BuildAsyncDatabaseUrl(raw: string, valid: string -> bool): Result<string> {
    match AfterScheme(raw)
    case Some(rest) => Normalized(rest, valid)
    case None => Ok(raw)
  }

  // ---------------------------------------------------------------- splitting undoes unsplitting

  predicate CleanText(s: string) {
    forall c | c in s :: !IsRemoved(c)
  }

  /** The parts that some URL splits into. */
  predicate Splittable(parts: Parts) {
    && CleanText(parts.netloc) && CleanText(parts.path) && CleanText(parts.query) && CleanText(parts.fragment)
    && (forall c | c in parts.netloc :: !IsDelimiter(c))
    && '?' !in parts.path && '#' !in parts.path && '#' !in parts.query
    && (parts.path == "" || parts.path[0] == '/')
  }

  lemma UpToAfter(s: string, c: char)
    ensures c !in UpTo(s, c)
    ensures forall x | x in UpTo(s, c) || x in After(s, c) :: x in s
    ensures UpTo(s, c) != "" ==> UpTo(s, c)[0] == s[0]
  {
  }

  lemma SplitPartsSplittable(rest: string)
    ensures Splittable(SplitParts(rest))
  {
    var clean := Cleaned(rest);
    var n := NetlocEnd(clean);
    var body := UpTo(clean[n..], '#');
    UpToAfter(clean[n..], '#');
    UpToAfter(body, '?');
    forall c | c in clean[..n] || c in clean[n..] ensures !IsRemoved(c) {
      assert c in clean;
    }
    if body != "" && body[0] != '/' {
      assert body[0] == '?' && FirstIndex(body, '?') == 0;
    }
  }

  /** Dividing at the first separator undoes appending a part that is left out when empty. */
  lemma DivideOfAppend(a: string, c: char, b: string)
    requires c !in a
    ensures var s := a + if b == "" then "" else [c] + b;
            UpTo(s, c) == a && After(s, c) == b
  {
    FirstIndexOfConcat(a, c, b);
    if b == "" {
      assert a + "" == a;
      assert a[..|a|] == a;
    } else {
      assert a + ([c] + b) == a + [c] + b;
      assert (a + [c] + b)[..|a|] == a;
      assert (a + [c] + b)[|a| + 1..] == b;
    }
  }

  lemma {:induction false} NetlocEndOfConcat(netloc: string, body: string)
    requires forall c | c in netloc :: !IsDelimiter(c)
    requires body == "" || IsDelimiter(body[0])
    ensures NetlocEnd(netloc + body) == |netloc|
  {
    if netloc == "" {
      assert netloc + body == body;
    } else {
      assert netloc[0] in netloc;
      assert netloc == [netloc[0]] + netloc[1..];
      assert (netloc + body)[1..] == netloc[1..] + body;
      NetlocEndOfConcat(netloc[1..], body);
    }
  }

  lemma SplitOfJoinedParts(parts: Parts)
    requires Splittable(parts)
    ensures SplitParts(Body(parts)) == parts
  {
    var query := if parts.query == "" then "" else "?" + parts.query;
    var fragment := if parts.fragment == "" then "" else "#" + parts.fragment;
    var located := parts.path + query;
    var body := located + fragment;
    var rest := Body(parts);
    assert rest == parts.netloc + body;
    assert CleanText(rest);
    assert '#' !in located;
    DivideOfAppend(located, '#', parts.fragment);
    DivideOfAppend(parts.path, '?', parts.query);
    SplitOfDivided(rest, parts.netloc, body);
  }

  lemma SplitOfDivided(rest: string, netloc: string, body: string)
    requires rest == netloc + body && CleanText(rest)
    requires forall c | c in netloc :: !IsDelimiter(c)
    requires body == "" || IsDelimiter(body[0])
    ensures SplitParts(rest) == var located := UpTo(body, '#');
                                Parts(netloc, UpTo(located, '?'), After(located, '?'), After(body, '#'))
  {
    NetlocEndOfConcat(netloc, body);
    assert rest[..|netloc|] == netloc && rest[|netloc|..] == body;
  }

  // ---------------------------------------------------------------- the laws

  /** The parts whose URL keeps the two slashes after the scheme. */
  predicate KeepsSlashes(parts: Parts) {
    parts.netloc != "" || "//" <= parts.path
  }

  lemma RewrittenSplittable(parts: Parts)
    requires Splittable(parts)
    ensures Splittable(Rewritten(parts))
  {
    var pairs := NormalizedPairs(ParseQuery(parts.query));
    EncodedChars(pairs);
    assert !IsQueryChar('#') && !IsQueryChar('\t') && !IsQueryChar('\r') && !IsQueryChar('\n');
  }

  /** The pairs of the rewritten query are the normal pairs, and rewriting again changes nothing. */
  lemma RewrittenTwice(parts: Parts)
    ensures ParseQuery(Rewritten(parts).query) == NormalizedPairs(ParseQuery(parts.query))
    ensures Rewritten(Rewritten(parts)) == Rewritten(parts)
  {
    ParseUndoesEncode(NormalizedPairs(ParseQuery(parts.query)));
    PairsMeaning(ParseQuery(parts.query));
  }

  lemma OneSlashAtMost(parts: Parts)
    requires !("//" <= parts.path)
    ensures !("//" <= parts.path + Tail(parts))
  {
    var tail := parts.path + Tail(parts);
    assert Tail(parts) == "" || Tail(parts)[0] == '?' || Tail(parts)[0] == '#';
    if parts.path == "" {
      assert tail == Tail(parts);
    } else if |parts.path| == 1 {
      assert tail[1..] == Tail(parts);
    } else {
      assert tail[..2] == parts.path[..2];
    }
  }

  lemma UnsplitForm(parts: Parts)
    requires Splittable(parts)
    ensures KeepsSlashes(parts) ==> Unsplit(parts) == ASYNCPG + Body(parts)
    ensures !KeepsSlashes(parts) ==> AfterScheme(Unsplit(parts)) == None
  {
    if KeepsSlashes(parts) {
      assert Unsplit(parts) == ASYNCPG + Body(parts);
    } else {
      OneSlashAtMost(parts);
      NoSchemeRecognised(parts.path + Tail(parts));
      assert Unsplit(parts) == SCHEME + ":" + (parts.path + Tail(parts));
    }
  }

  lemma NoSchemeRecognised(tail: string)
    requires !("//" <= tail)
    ensures AfterScheme(SCHEME + ":" + tail) == None
  {
    var text := SCHEME + ":" + tail;
    assert text[19..] == tail;
    assert text[10] == '+' && text[8] == 'q';
  }

  /** The text after the scheme names an authority, or has two slashes of its own. */
  predicate HasSlashesToKeep(rest: string) {
    var clean := Cleaned(rest);
    clean != "" && (!IsDelimiter(clean[0]) || "//" <= clean)
  }

  lemma KeepsSlashesExactly(rest: string)
    ensures KeepsSlashes(SplitParts(rest)) <==> HasSlashesToKeep(rest)
  {
    var clean := Cleaned(rest);
    if clean != "" && IsDelimiter(clean[0]) {
      var body := UpTo(clean, '#');
      assert clean[NetlocEnd(clean)..] == clean;
      assert "//" <= clean <==> "//" <= body by {
        SlashesUpTo(clean, '#');
      }
      assert "//" <= body <==> "//" <= UpTo(body, '?') by {
        SlashesUpTo(body, '?');
      }
    }
  }

  lemma SlashesUpTo(s: string, c: char)
    requires c != '/'
    ensures "//" <= s <==> "//" <= UpTo(s, c)
  {
    if "//" <= s {
      assert s[0] == '/' && s[1] == '/';
      assert FirstIndex(s, c) >= 2;
    }
  }

  /** The URL has the asyncpg scheme, the same authority, path and fragment, and a query that holds the
      normal pairs. */
  ghost predicate Kept(url: string, parts: Parts) {
    ASYNCPG <= url && AfterScheme(url).Some? &&
    var built := SplitParts(url[|ASYNCPG|..]);
    built == parts.(query := built.query) && ParseQuery(built.query) == NormalizedPairs(ParseQuery(parts.query))
  }

  /** The same without the slashes after the scheme, so that nothing recognises the URL any more. */
  ghost predicate Lost(url: string, parts: Parts) {
    AfterScheme(url) == None &&
    var query := EncodeQuery(NormalizedPairs(ParseQuery(parts.query)));
    url == SCHEME + ":" + (parts.path + Tail(parts.(query := query)))
  }

  lemma SlashesKept(parts: Parts)
    requires Splittable(parts) && KeepsSlashes(parts)
    ensures Kept(Unsplit(Rewritten(parts)), parts)
  {
    var rewritten := Rewritten(parts);
    RewrittenSplittable(parts);
    RewrittenTwice(parts);
    UnsplitForm(rewritten);
    SplitOfJoinedParts(rewritten);
    assert (ASYNCPG + Body(rewritten))[|ASYNCPG|..] == Body(rewritten);
  }

  lemma SlashesDropped(parts: Parts)
    requires Splittable(parts) && !KeepsSlashes(parts)
    ensures Lost(Unsplit(Rewritten(parts)), parts)
  {
    RewrittenSplittable(parts);
    UnsplitForm(Rewritten(parts));
    Associative(SCHEME + ":", parts.path, Tail(Rewritten(parts)));
  }

  lemma Associative(a: string, b: string, c: string)
    ensures a + (b + c) == a + b + c
  {
  }

  /** A PostgreSQL URL is refused exactly when its authority is. Otherwise it is rewritten; the slashes
      after the scheme are lost exactly when the text after them has neither an authority nor two slashes
      of its own. */
  lemma BuiltUrl(raw: string, valid: string -> bool)
    requires AfterScheme(raw).Some?
    ensures var rest := AfterScheme(raw).value;
            var parts, result := SplitParts(rest), BuildAsyncDatabaseUrl(raw, valid);
            (result.Ok? <==> NetlocAccepted(parts.netloc, valid)) &&
            (result.Ok? ==> if HasSlashesToKeep(rest) then Kept(result.value, parts) else Lost(result.value, parts))
  {
    var rest := AfterScheme(raw).value;
    SplitPartsSplittable(rest);
    KeepsSlashesExactly(rest);
    if KeepsSlashes(SplitParts(rest)) {
      SlashesKept(SplitParts(rest));
    } else {
      SlashesDropped(SplitParts(rest));
    }
  }

  // ---------------------------------------------------------------- the laws on the text of the URL

  /** Three schemes are treated alike. */
  lemma SchemesRead(rest: string)
    ensures AfterScheme("postgresql+asyncpg" + "://" + rest) == Some(rest)
    ensures AfterScheme("postgresql://" + rest) == Some(rest)
    ensures AfterScheme("postgres://" + rest) == Some(rest)
  {
    var first, second, third := ASYNCPG + rest, "postgresql://" + rest, "postgres://" + rest;
    assert first[21..] == second[13..] == third[11..] == rest;
    assert second[10] == ':' && ASYNCPG[10] == '+';
    assert third[8] == ':' && ASYNCPG[8] == 'q' && "postgresql://"[8] == 'q';
  }

  lemma SchemesAlike(rest: string, valid: string -> bool)
    ensures BuildAsyncDatabaseUrl("postgresql://" + rest, valid) ==
            BuildAsyncDatabaseUrl("postgres://" + rest, valid) ==
            BuildAsyncDatabaseUrl("postgresql+asyncpg" + "://" + rest, valid)
  {
    SchemesRead(rest);
  }

  /** And texts with another beginning are left as they are. */
  lemma OtherSchemes(raw: string, valid: string -> bool)
    requires !("postgresql+asyncpg" + "://" <= raw) && !("postgresql://" <= raw) && !("postgres://" <= raw)
    ensures BuildAsyncDatabaseUrl(raw, valid) == Ok(raw)
  {
  }

  /** A part that may be missing, with the character in front of it. */
  function Marked(mark: char, part: Option<string>): string {
    if part.None? then "" else [mark] + part.value
  }

  function OrEmpty(part: Option<string>): string {
    if part.None? then "" else part.value
  }

  lemma DivideAt(a: string, c: char, b: Option<string>)
    requires c !in a
    ensures UpTo(a + Marked(c, b), c) == a && After(a + Marked(c, b), c) == OrEmpty(b)
  {
    match b
    case None =>
      FirstIndexOfConcat(a, c, "");
      assert a + "" == a && a[..|a|] == a;
    case Some(text) =>
      FirstIndexOfConcat(a, c, text);
      assert a + ([c] + text) == a + [c] + text;
      assert (a + [c] + text)[..|a|] == a && (a + [c] + text)[|a| + 1..] == text;
  }

  lemma CleanConcat(a: string, b: string)
    requires CleanText(a) && CleanText(b)
    ensures CleanText(a + b)
  {
  }

  lemma CleanMarked(mark: char, part: Option<string>)
    requires !IsRemoved(mark) && CleanText(OrEmpty(part))
    ensures CleanText(Marked(mark, part))
  {
  }

  lemma SplitOfText(netloc: string, path: string, query: Option<string>, fragment: Option<string>)
    requires Splittable(Parts(netloc, path, OrEmpty(query), OrEmpty(fragment)))
    ensures SplitParts(netloc + (path + Marked('?', query) + Marked('#', fragment))) ==
            Parts(netloc, path, OrEmpty(query), OrEmpty(fragment))
  {
    var located := path + Marked('?', query);
    var body := located + Marked('#', fragment);
    CleanMarked('?', query);
    CleanMarked('#', fragment);
    CleanConcat(path, Marked('?', query));
    CleanConcat(located, Marked('#', fragment));
    CleanConcat(netloc, body);
    assert '#' !in located;
    DivideAt(located, '#', fragment);
    DivideAt(path, '?', query);
    SplitOfDivided(netloc + body, netloc, body);
  }

  lemma UnsplitText(parts: Parts)
    requires parts.path == "" || parts.path[0] == '/'
    ensures Unsplit(parts) ==
            "postgresql+asyncpg:" +
            ((if parts.netloc != "" || "//" <= parts.path then "//" else "") + parts.netloc + parts.path) +
            ((if parts.query == "" then "" else "?" + parts.query) +
             if parts.fragment == "" then "" else "#" + parts.fragment)
  {
    assert SCHEME + ":" == "postgresql+asyncpg:";
    if parts.netloc != "" {
      assert "//" + parts.netloc + "" == "//" + parts.netloc;
    } else {
      assert "//" + "" == "//" && "" + "" + parts.path == parts.path;
    }
  }

  /** A URL with an authority, a path, and perhaps a query and a fragment, in which none of the characters is left
      that `urlsplit` removes, is refused when brackets are unbalanced or its other checks fail. Otherwise the
      scheme is the one of asyncpg, the query is printed from the normal pairs, and the other parts stay; but
      the slashes are lost when there is neither an authority nor a path with two slashes of its own. */
  lemma BuiltText(netloc: string, path: string, query: Option<string>, fragment: Option<string>,
                  valid: string -> bool)
    requires forall c | c in netloc :: c !in {'/', '?', '#', '\t', '\r', '\n'}
    requires forall c | c in path :: c !in {'?', '#', '\t', '\r', '\n'}
    requires path == "" || path[0] == '/'
    requires query.Some? ==> forall c | c in query.value :: c !in {'#', '\t', '\r', '\n'}
    requires fragment.Some? ==> forall c | c in fragment.value :: c !in {'\t', '\r', '\n'}
    ensures var raw := "postgresql://" + (netloc + (path + (if query.None? then "" else ['?'] + query.value) +
                                                    if fragment.None? then "" else ['#'] + fragment.value));
            var query' := EncodeQuery(NormalizedPairs(ParseQuery(if query.None? then "" else query.value)));
            var result := BuildAsyncDatabaseUrl(raw, valid);
            (result.Ok? <==> ('[' in netloc <==> ']' in netloc) && valid(netloc)) &&
            (result.Ok? ==>
               result.value ==
               "postgresql+asyncpg:" +
               ((if netloc != "" || "//" <= path then "//" else "") + netloc + path) +
               ((if query' == "" then "" else "?" + query') +
                if fragment.None? || fragment.value == "" then "" else "#" + fragment.value))
  {
    var parts := Parts(netloc, path, OrEmpty(query), OrEmpty(fragment));
    SchemesRead(netloc + (path + Marked('?', query) + Marked('#', fragment)));
    assert Splittable(parts);
    SplitOfText(netloc, path, query, fragment);
    RewrittenSplittable(parts);
    UnsplitText(Rewritten(parts));
  }

  lemma {:induction false} CleanedSkips(a: string, c: char, b: string)
    requires c == '\t' || c == '\r' || c == '\n'
    ensures Cleaned(a + [c] + b) == Cleaned(a + b)
  {
    if a == "" {
      assert a + b == b && (a + [c] + b)[1..] == b;
    } else {
      assert (a + [c] + b)[1..] == a[1..] + [c] + b && (a + b)[1..] == a[1..] + b;
      CleanedSkips(a[1..], c, b);
    }
  }

  /** Tabs and line ends are as if they were not there. */
  lemma RemovedCharacters(a: string, c: char, b: string, valid: string -> bool)
    requires c == '\t' || c == '\r' || c == '\n'
    ensures BuildAsyncDatabaseUrl("postgresql://" + (a + [c] + b), valid) ==
            BuildAsyncDatabaseUrl("postgresql://" + (a + b), valid)
  {
    CleanedSkips(a, c, b);
    SchemesRead(a + [c] + b);
    SchemesRead(a + b);
  }

  lemma EmptyQuery()
    ensures EncodeQuery(NormalizedPairs(ParseQuery(""))) == ""
  {
    assert Split("", '&') == [""];
    assert ParseQuery("") == Others([]) == [] && !SslRequired([]);
  }

  /** So they are for a path alone. */
  lemma PathAlone(path: string, valid: string -> bool)
    requires valid("") && forall c | c in path :: c !in {'?', '#', '\t', '\r', '\n'}
    requires (path == "" || path[0] == '/') && !("//" <= path)
    ensures BuildAsyncDatabaseUrl("postgresql://" + path, valid) == Ok("postgresql+asyncpg:" + path)
  {
    BuiltText("", path, None, None, valid);
    EmptyQuery();
    assert "" + (path + "" + "") == path && "" + "" + path == path && "" + "" == "";
    assert "postgresql+asyncpg:" + path + "" == "postgresql+asyncpg:" + path;
  }

  lemma DbPathFits(path: string)
    requires path == "/db"
    ensures path[0] == '/' && !("//" <= path) && forall c | c in path :: c !in {'?', '#', '\t', '\r', '\n'}
  {
    assert path[1] == 'd';
  }

  /** For example. */
  lemma SlashesLost(valid: string -> bool)
    requires valid("")
    ensures BuildAsyncDatabaseUrl("postgresql://" + "/db", valid) == Ok("postgresql+asyncpg:" + "/db")
  {
    DbPathFits("/db");
    PathAlone("/db", valid);
  }

  /** Building the URL again changes nothing, whatever the text. */
  lemma BuildTwice(raw: string, valid: string -> bool)
    requires BuildAsyncDatabaseUrl(raw, valid).Ok?
    ensures BuildAsyncDatabaseUrl(BuildAsyncDatabaseUrl(raw, valid).value, valid) == BuildAsyncDatabaseUrl(raw, valid)
  {
    if AfterScheme(raw).Some? {
      var parts := SplitParts(AfterScheme(raw).value);
      var rewritten := Rewritten(parts);
      SplitPartsSplittable(AfterScheme(raw).value);
      RewrittenSplittable(parts);
      RewrittenTwice(parts);
      UnsplitForm(rewritten);
      SplitOfJoinedParts(rewritten);
      if KeepsSlashes(parts) {
        assert AfterScheme(ASYNCPG + Body(rewritten)) == Some(Body(rewritten)) by {
          assert (ASYNCPG + Body(rewritten))[|ASYNCPG|..] == Body(rewritten);
        }
      }
    }
  }

  /** On a URL whose query was printed from pairs: the same URL with the asyncpg scheme and the query
      printed from the normal pairs. */
  lemma PrintedUrl(raw: string, parts: Parts, pairs: seq<Pair>, valid: string -> bool)
    requires Splittable(parts) && KeepsSlashes(parts) && NetlocAccepted(parts.netloc, valid)
    requires parts.query == EncodeQuery(pairs) && AfterScheme(raw) == Some(Body(parts))
    ensures BuildAsyncDatabaseUrl(raw, valid)
         == Ok(ASYNCPG + Body(parts.(query := EncodeQuery(NormalizedPairs(pairs)))))
  {
    SplitOfJoinedParts(parts);
    ParseUndoesEncode(pairs);
    RewrittenSplittable(parts);
    UnsplitForm(Rewritten(parts));
  }

  /** The pairs that a managed pooler adds become the one that asyncpg understands. */
  lemma PoolerPairs()
    ensures NormalizedPairs([Pair("sslmode", "require"), Pair("channel_binding", "require")])
         == [Pair("ssl", "require")]
  {
    var pairs := [Pair("sslmode", "require"), Pair("channel_binding", "require")];
    LoopStep(pairs, 0);
    LoopStep(pairs, 1);
    assert pairs[..2] == pairs;
  }
}
