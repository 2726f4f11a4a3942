/** `rate_limit_key`: which requests share one budget. */
module RateLimitKey {
  import opened Wrappers
  import opened Text

  const PREFIX := "rate-limit:"

  function NormalHost(host: Option<string>): string {
    if host.None? || host.value == "" then "unknown" else host.value
  }

  /** What comes after the prefix. */
  function Rest(name: string, verb: string, path: string): string {
    name + ":" + verb + ":" + path
  }

  function Key(host: Option<string>, verb: string, path: string): string {
    PREFIX + Rest(NormalHost(host), verb, path)
  }

  /** The text of the key. */
  lemma KeyText(host: string, verb: string, path: string)
    requires host != ""
    ensures Key(Some(host), verb, path) == "rate-limit:" + host + ":" + verb + ":" + path
    ensures Key(None, verb, path) == "rate-limit:" + "unknown" + ":" + verb + ":" + path
    ensures Key(Some(""), verb, path) == Key(None, verb, path) == Key(Some("unknown"), verb, path)
  {
    assert "rate-limit:" + (host + ":" + verb + ":" + path) == "rate-limit:" + host + ":" + verb + ":" + path;
  }

  /** The same client, as far as the key goes. */
  predicate SameClient(host: Option<string>, host': Option<string>) {
    host == host' || (host in {None, Some(""), Some("unknown")} && host' in {None, Some(""), Some("unknown")})
  }

  /** A token (section 5.6.2 of RFC 9110) holds neither a colon nor a slash; nothing else is needed of a
      method here. */
  predicate IsVerb(verb: string) {
    ':' !in verb && '/' !in verb
  }

  predicate IsPath(path: string) {
    path != "" && path[0] == '/'
  }

  /** Reads the host, the method and the path back: the path starts at the first slash, the method
      after the last colon before it. */
  function ParseRest(rest: string): Option<(string, string, string)> {
    var slash := FirstIndex(rest, '/');
    if slash == 0 || rest[slash - 1] != ':' then None
    else
      var head := rest[..slash - 1];
      var colon := LastIndex(head, ':');
      if colon < 0 then None else Some((head[..colon], head[colon + 1..], rest[slash..]))
  }

  function Parse(key: string): Option<(string, string, string)> {
    if PREFIX <= key then ParseRest(key[|PREFIX|..]) else None
  }

  lemma SlashOfRest(name: string, verb: string, path: string)
    requires '/' !in name && IsVerb(verb) && IsPath(path)
    ensures var head := name + [':'] + verb;
            Rest(name, verb, path) == head + [':'] + path && FirstIndex(Rest(name, verb, path), '/') == |head| + 1
  {
    var head := name + [':'] + verb;
    assert Rest(name, verb, path) == (head + [':']) + ['/'] + path[1..];
    FirstIndexOfConcat(head + [':'], '/', path[1..]);
  }

  lemma ParseOfRest(name: string, verb: string, path: string)
    requires '/' !in name && IsVerb(verb) && IsPath(path)
    ensures ParseRest(Rest(name, verb, path)) == Some((name, verb, path))
  {
    var head := name + [':'] + verb;
    SlashOfRest(name, verb, path);
    assert (head + [':'] + path)[..|head|] == head && (head + [':'] + path)[|head| + 1..] == path;
    LastIndexOfConcat(name, ':', verb);
    assert head[..|name|] == name && head[|name| + 1..] == verb;
  }

  lemma RestOfKey(rest: string)
    ensures PREFIX <= PREFIX + rest && (PREFIX + rest)[|PREFIX|..] == rest
  {
  }

  lemma SlashFree(host: Option<string>)
    requires host.None? || '/' !in host.value
    ensures '/' !in NormalHost(host)
  {
  }

  /** The key determines host, method and path, also for hosts that contain colons. */
  lemma ParseOfKey(host: string, verb: string, path: string)
    requires host != "" && '/' !in host && ':' !in verb && '/' !in verb && path != "" && path[0] == '/'
    ensures Parse(Key(Some(host), verb, path)) == Some((host, verb, path))
  {
    ParseOfRest(host, verb, path);
    RestOfKey(Rest(host, verb, path));
  }

  lemma ParseOfNormalKey(host: Option<string>, verb: string, path: string)
    requires (host.None? || '/' !in host.value) && IsVerb(verb) && IsPath(path)
    ensures Parse(Key(host, verb, path)) == Some((NormalHost(host), verb, path))
  {
    SlashFree(host);
    ParseOfRest(NormalHost(host), verb, path);
    RestOfKey(Rest(NormalHost(host), verb, path));
  }

  /** Two requests from hosts without a slash share a key exactly when client, method and path agree;
      clients without a host, with an empty one and with the host "unknown" are the same. */
  lemma KeysAgreeExactly(host: Option<string>, verb: string, path: string,
                         host': Option<string>, verb': string, path': string)
    requires (host.None? || '/' !in host.value) && (host'.None? || '/' !in host'.value)
    requires ':' !in verb && '/' !in verb && ':' !in verb' && '/' !in verb'
    requires path != "" && path[0] == '/' && path' != "" && path'[0] == '/'
    ensures Key(host, verb, path) == Key(host', verb', path')
            <==> SameClient(host, host') && verb == verb' && path == path'
  {
    ParseOfNormalKey(host, verb, path);
    ParseOfNormalKey(host', verb', path');
    SameClientExactly(host, host');
  }

  lemma SameClientExactly(host: Option<string>, host': Option<string>)
    ensures SameClient(host, host') <==> NormalHost(host) == NormalHost(host')
  {
  }

  /** So two different hosts without slashes never share a key. */
  lemma HostsKeptApart(host: string, host': string, verb: string, path: string)
    requires host != "" && host' != "" && host != host' && '/' !in host && '/' !in host'
    requires ':' !in verb && '/' !in verb && path != "" && path[0] == '/'
    ensures Key(Some(host), verb, path) != Key(Some(host'), verb, path)
  {
    ParseOfKey(host, verb, path);
    ParseOfKey(host', verb, path);
  }

  // ---------------------------------------------------------------- hosts of any kind

  /** The second host goes on where the first one ends, with the first method and a beginning of the
      first path; the rest of that path gives the second method and path. */
  predicate Extends(name: string, verb: string, path: string, name': string, verb': string, path': string) {
    exists n | 0 < n <= |path| ::
      name' == Rest(name, verb, path[..n]) && path[n..] == ":" + verb' + ":" + path'
  }

  lemma RestAt(name: string, verb: string, path: string, i: nat)
    requires |name| <= i < |Rest(name, verb, path)|
    ensures Rest(name, verb, path)[i] ==
            var k := i - |name|;
            if k == 0 || k == |verb| + 1 then ':' else if k <= |verb| then verb[k - 1] else path[k - |verb| - 2]
  {
  }

  /** Where the shorter host ends decides: the longer one cannot end within the method. */
  lemma LongerHost(name: string, verb: string, path: string, name': string, verb': string, path': string)
    requires IsVerb(verb) && IsPath(path) && IsVerb(verb')
    requires Rest(name, verb, path) == Rest(name', verb', path') && |name| < |name'|
    ensures |name'| > |name| + |verb| + 2
  {
    var i := |name'|;
    RestAt(name', verb', path', i);
    RestAt(name', verb', path', i + 1);
    RestAt(name, verb, path, i);
    forall k | 0 <= k < |verb| ensures verb[k] != ':' {
      assert verb[k] in verb;
    }
    if verb' != "" {
      assert verb'[0] in verb';
    }
  }

  lemma LongerHostExtends(name: string, verb: string, path: string, name': string, verb': string, path': string)
    requires IsVerb(verb) && IsPath(path) && IsVerb(verb')
    requires Rest(name, verb, path) == Rest(name', verb', path') && |name| < |name'|
    ensures Extends(name, verb, path, name', verb', path')
  {
    LongerHost(name, verb, path, name', verb', path');
    var rest, i := Rest(name, verb, path), |name'|;
    var n := i - |name| - |verb| - 2;
    assert rest[..i] == Rest(name, verb, path[..n]) && rest[i..] == path[n..];
    assert Rest(name', verb', path')[..i] == name';
    assert Rest(name', verb', path')[i..] == ":" + verb' + ":" + path';
  }

  lemma ExtendedRest(name: string, verb: string, path: string, name': string, verb': string, path': string)
    requires Extends(name, verb, path, name', verb', path')
    ensures Rest(name, verb, path) == Rest(name', verb', path')
  {
    var n :| 0 < n <= |path| && name' == Rest(name, verb, path[..n]) && path[n..] == ":" + verb' + ":" + path';
    assert path == path[..n] + path[n..];
  }

  lemma SameLength(name: string, verb: string, path: string, name': string, verb': string, path': string)
    requires IsVerb(verb) && IsVerb(verb') && |name| == |name'|
    requires Rest(name, verb, path) == Rest(name', verb', path')
    ensures name == name' && verb == verb' && path == path'
  {
    var rest, i := Rest(name, verb, path), |name|;
    assert rest[..i] == name && rest[i + 1..] == verb + ":" + path;
    assert Rest(name', verb', path')[..i] == name' && Rest(name', verb', path')[i + 1..] == verb' + ":" + path';
    assert ':' !in verb && ':' !in verb';
    FirstIndexOfConcat(verb, ':', path);
    FirstIndexOfConcat(verb', ':', path');
    assert verb + [':'] + path == verb' + [':'] + path';
    assert (verb + [':'] + path)[|verb| + 1..] == path && (verb + [':'] + path)[..|verb|] == verb;
  }

  lemma RestsAgreeExactly(name: string, verb: string, path: string, name': string, verb': string, path': string)
    requires IsVerb(verb) && IsPath(path) && IsVerb(verb') && IsPath(path')
    ensures Rest(name, verb, path) == Rest(name', verb', path') <==>
            (name == name' && verb == verb' && path == path') ||
            Extends(name, verb, path, name', verb', path') || Extends(name', verb', path', name, verb, path)
  {
    if Rest(name, verb, path) == Rest(name', verb', path') {
      if |name| < |name'| {
        LongerHostExtends(name, verb, path, name', verb', path');
      } else if |name'| < |name| {
        LongerHostExtends(name', verb', path', name, verb, path);
      } else {
        SameLength(name, verb, path, name', verb', path');
      }
    }
    if Extends(name, verb, path, name', verb', path') {
      ExtendedRest(name, verb, path, name', verb', path');
    }
    if Extends(name', verb', path', name, verb, path) {
      ExtendedRest(name', verb', path', name, verb, path);
    }
  }

  lemma SamePrefix(rest: string, rest': string)
    ensures PREFIX + rest == PREFIX + rest' <==> rest == rest'
  {
    RestOfKey(rest);
    RestOfKey(rest');
  }

  /** Whatever the hosts, two requests share a key exactly when they are the same, or the host of one
      goes on with the method and a beginning of the path of the other. */
  lemma KeysCollideExactly(host: string, verb: string, path: string, host': string, verb': string, path': string)
    requires host != "" && host' != ""
    requires ':' !in verb && '/' !in verb && ':' !in verb' && '/' !in verb'
    requires path != "" && path[0] == '/' && path' != "" && path'[0] == '/'
    ensures Key(Some(host), verb, path) == Key(Some(host'), verb', path') <==>
            (host == host' && verb == verb' && path == path') ||
            Extends(host, verb, path, host', verb', path') || Extends(host', verb', path', host, verb, path)
  {
    RestsAgreeExactly(host, verb, path, host', verb', path');
    SamePrefix(Rest(host, verb, path), Rest(host', verb', path'));
  }

  /** So different requests that share a key need a slash in one host and a colon in the other's path. */
  lemma CollisionNeedsSlash(name: string, verb: string, path: string, name': string, verb': string, path': string)
    requires IsPath(path) && Extends(name, verb, path, name', verb', path')
    ensures '/' in name' && ':' in path
  {
    var n :| 0 < n <= |path| && name' == Rest(name, verb, path[..n]) && path[n..] == ":" + verb' + ":" + path';
    assert name'[|name| + |verb| + 2] == path[0];
    assert path[n] == path[n..][0];
  }

  /** Two requests that do. */
  lemma SlashInHostCollides()
    ensures Key(Some("h:POST:/p"), "PUT", "/q") == Key(Some("h"), "POST", "/p:PUT:/q")
  {
    assert Key(Some("h:POST:/p"), "PUT", "/q") == "rate-limit:h:POST:/p:PUT:/q";
  }
}
