/** One request through `OperationsMiddleware`. */
module Middleware {
  import opened Wrappers
  import opened Text
  import opened RateLimit
  import RateLimitKey
  import Integers

  datatype Settings = Settings(
    apiPrefix: string,
    authEnabled: bool,
    authMode: string,
    adminApiKey: Option<string>,
    rateLimitEnabled: bool,
    requestsPerMinute: int,
    maxRequestBodyBytes: int,
    maxUploadFileBytes: int)

  /** The headers are the decoded texts, None when they are missing. The two key headers are the
      configured one and `x-admin-api-key`. */
  datatype Request = Request(
    verb: string,
    path: string,
    clientHost: Option<string>,
    requestIdHeader: Option<string>,
    contentLength: Option<string>,
    contentType: string,
    configuredKeyHeader: Option<string>,
    adminKeyHeader: Option<string>)

  // ---------------------------------------------------------------- request id

  const UUID_LENGTH: nat := 36
  const MAX_REQUEST_ID: nat := 128

  function Truncate(s: string): string {
    if |s| <= MAX_REQUEST_ID then s else s[..MAX_REQUEST_ID]
  }

  /** `freshId` is what uuid4 would return. */
  function ResolveRequestId(header: Option<string>, freshId: string): (id: string)
    ensures |freshId| == UUID_LENGTH ==> 1 <= |id| <= MAX_REQUEST_ID
  {
    if header.None? || Strip(header.value) == "" then freshId else Truncate(Strip(header.value))
  }

  /** Without a header, or with white space only, the id is the fresh one; else it is the header without the
      white space around it, cut to 128 characters. */
  lemma RequestIdMeans(left: string, text: string, right: string, freshId: string)
    requires forall c | c in left + right :: IsSpace(c)
    requires text == "" || (!IsSpace(text[0]) && !IsSpace(text[|text| - 1]))
    ensures ResolveRequestId(None, freshId) == freshId
    ensures ResolveRequestId(Some(left + text + right), freshId) ==
            if text == "" then freshId else if |text| <= 128 then text else text[..128]
  {
    StripOfPadded(left, text, right);
  }

  lemma {:induction false} StripKeepsFirst(s: string)
    requires s != "" && !IsSpace(s[0])
    ensures StripRight(s) != "" && Strip(s) == StripRight(s)
  {
    if IsSpace(s[|s| - 1]) {
      StripKeepsFirst(s[..|s| - 1]);
    }
  }

  /** A kept header value starts with a visible character, and its strip is short enough to be kept. */
  lemma KeptHeader(header: string, freshId: string) returns (id: string)
    requires Strip(header) != ""
    ensures id == ResolveRequestId(Some(header), freshId)
    ensures id != "" && !IsSpace(id[0]) && |id| <= MAX_REQUEST_ID
    ensures ResolveRequestId(Some(id), freshId) == Strip(id) == StripRight(id)
  {
    var stripped := Strip(header);
    assert !IsSpace(stripped[0]);
    id := Truncate(stripped);
    assert id[0] == stripped[0];
    ShortHeader(id, freshId);
  }

  lemma ShortHeader(header: string, freshId: string)
    requires header != "" && !IsSpace(header[0]) && |header| <= MAX_REQUEST_ID
    ensures ResolveRequestId(Some(header), freshId) == Strip(header) == StripRight(header)
  {
    StripKeepsFirst(header);
  }

  /** A resolved id sent back as a header resolves to itself exactly when the trimmed header was not cut
      right after white space. */
  lemma ResolvedIdFixed(header: string, freshId: string)
    requires Strip(header) != ""
    ensures var id, trimmed := ResolveRequestId(Some(header), freshId), Strip(header);
            ResolveRequestId(Some(id), freshId) == id <==>
            |trimmed| <= MAX_REQUEST_ID || !IsSpace(trimmed[MAX_REQUEST_ID - 1])
  {
    var id := KeptHeader(header, freshId);
  }

  /** Headers on which it does not: 127 characters, a space and one more. */
  lemma CutIdNotFixed(text: string, freshId: string)
    requires |text| == MAX_REQUEST_ID - 1 && Trimmed(text)
    ensures ResolveRequestId(Some(text + " b"), freshId) == text + " "
    ensures ResolveRequestId(Some(text + " "), freshId) == text
  {
    var long, cut := text + " b", text + " ";
    assert long[0] == text[0] && long[|long| - 1] == 'b';
    assert Strip(long) == long;
    assert long[..MAX_REQUEST_ID] == cut;
    assert cut[0] == text[0] && cut[|cut| - 1] == ' ';
    StripKeepsFirst(cut);
    assert cut[..|text|] == text;
  }

  /** From the second application on, resolving is a fixed point. */
  lemma ResolvedTwiceIsFixed(header: string, freshId: string)
    requires Strip(header) != ""
    ensures var once := ResolveRequestId(Some(header), freshId);
            var twice := ResolveRequestId(Some(once), freshId);
            ResolveRequestId(Some(twice), freshId) == twice
  {
    var once := KeptHeader(header, freshId);
    StripKeepsFirst(once);
    ResolvedIdFixed(once, freshId);
  }

  // ---------------------------------------------------------------- guards

  predicate StartsWith(s: string, prefix: string) {
    prefix <= s
  }

  predicate IsHealthPath(path: string) {
    path == "/health" || StartsWith(path, "/health/")
  }

  predicate IsPublicPath(prefix: string, path: string) {
    if prefix != "" && StartsWith(path, prefix) then
      var rest := path[|prefix|..];
      IsHealthPath(if rest == "" then "/" else rest)
    else
      IsHealthPath(path)
  }

  predicate Exempt(settings: Settings, request: Request) {
    IsPublicPath(settings.apiPrefix, request.path) || request.verb in {"GET", "HEAD", "OPTIONS"}
  }

  /** Whether the rate limit applies to the request at all. */
  predicate Limited(settings: Settings, request: Request) {
    settings.rateLimitEnabled && !Exempt(settings, request)
  }

  function RequestKey(request: Request): string {
    RateLimitKey.Key(request.clientHost, request.verb, request.path)
  }

  datatype Verdict = Proceed | Respond(status: int, code: string) | Raise

  /** The header as an integer; one that is missing and one that is no integer are the same. */
  function DeclaredLength(request: Request): Option<int> {
    if request.contentLength.None? then None else Integers.ReadInt(request.contentLength.value)
  }

  function EnforceRequestSize(settings: Settings, request: Request): Verdict {
    if DeclaredLength(request).None? then Proceed
    else
      var isUpload := StartsWith(request.contentType, "multipart/form-data");
      var limit := if isUpload then settings.maxUploadFileBytes else settings.maxRequestBodyBytes;
      if DeclaredLength(request).value <= limit then Proceed
      else Respond(413, if isUpload then "upload_file_too_large" else "request_body_too_large")
  }

  predicate IsAscii(s: string) {
    forall c | c in s :: c < '\U{0080}'
  }

  function SuppliedKey(request: Request): string {
    match request.configuredKeyHeader
    case Some(supplied) => if supplied != "" then supplied else AdminKey(request)
    case None => AdminKey(request)
  }

  function AdminKey(request: Request): string {
    if request.adminKeyHeader.Some? then request.adminKeyHeader.value else ""
  }

  /** compare_digest raises on text that is not ASCII. */
  function EnforceApiKey(settings: Settings, request: Request): Verdict {
    if !settings.authEnabled || settings.authMode != "dev" then Proceed
    else if Exempt(settings, request) then Proceed
    else if settings.adminApiKey.None? then Respond(500, "api_key_not_configured")
    else if !IsAscii(SuppliedKey(request)) || !IsAscii(settings.adminApiKey.value) then Raise
    else if SuppliedKey(request) == settings.adminApiKey.value then Proceed
    else Respond(401, "invalid_api_key")
  }

  // ---------------------------------------------------------------- what the checks do

  /** The two requests that the key check and the rate check let through: those with a method that only reads
      and those for the health routes, also below the prefix. */
  lemma OpenRequests(settings: Settings, request: Request)
    ensures var route := if settings.apiPrefix <= request.path then request.path[|settings.apiPrefix|..]
                         else request.path;
            Exempt(settings, request) <==>
            request.verb == "GET" || request.verb == "HEAD" || request.verb == "OPTIONS" ||
            route == "/health" || "/health/" <= route
    ensures Limited(settings, request) <==> settings.rateLimitEnabled && !Exempt(settings, request)
  {
    if settings.apiPrefix == "" {
      assert request.path[0..] == request.path;
    }
  }

  /** What the size check does: it refuses a declared length over the limit of its kind of body, and lets pass
      what is no integer. */
  lemma SizeCheckMeans(settings: Settings, request: Request, upload: bool, limit: int)
    requires upload <==> "multipart/form-data" <= request.contentType
    requires limit == if upload then settings.maxUploadFileBytes else settings.maxRequestBodyBytes
    ensures request.contentLength == None ==> EnforceRequestSize(settings, request) == Proceed
    ensures request.contentLength.Some? ==>
              var size := Integers.ReadInt(request.contentLength.value);
              EnforceRequestSize(settings, request) ==
              if size == None || size.value <= limit then Proceed
              else if upload then Respond(413, "upload_file_too_large")
              else Respond(413, "request_body_too_large")
  {
  }

  /** A length that is declared in decimal is refused exactly when it is over the limit; but one of more
      than 4300 digits is no integer to the code, and passes. */
  lemma DecimalLength(settings: Settings, request: Request, size: nat)
    requires request.contentLength == Some(Integers.Decimal(size))
    ensures EnforceRequestSize(settings, request) == Proceed <==>
            |Integers.Decimal(size)| > 4300 ||
            size <= if "multipart/form-data" <= request.contentType then settings.maxUploadFileBytes
                    else settings.maxRequestBodyBytes
  {
    Integers.ReadDecimal(size);
  }

  /** Every request supplies exactly one key: the one under the configured name, or, when that is missing or
      empty, the one under the standard name, whose absence counts as an empty key. */
  lemma OneKeySupplied(request: Request, key: string)
    ensures key == SuppliedKey(request) <==>
            (key != "" && request.configuredKeyHeader == Some(key)) ||
            ((request.configuredKeyHeader == None || request.configuredKeyHeader == Some("")) &&
             (request.adminKeyHeader == Some(key) || (request.adminKeyHeader == None && key == "")))
  {
  }

  /** The key check lets every request pass when it is off, or when the request is open. */
  lemma NoKeyAsked(settings: Settings, request: Request)
    requires var route := if settings.apiPrefix <= request.path then request.path[|settings.apiPrefix|..]
                          else request.path;
             !settings.authEnabled || settings.authMode != "dev" || request.verb in {"GET", "HEAD", "OPTIONS"} ||
             route == "/health" || "/health/" <= route
    ensures EnforceApiKey(settings, request) == Proceed
  {
    OpenRequests(settings, request);
  }

  /** And it asks every other request for the configured key: without a configured key the server is at fault;
      a key that is not ASCII, on either side, raises; a wrong one is refused. */
  lemma KeyAsked(settings: Settings, request: Request, key: string)
    requires settings.authEnabled && settings.authMode == "dev" && request.verb !in {"GET", "HEAD", "OPTIONS"}
    requires var route := if settings.apiPrefix <= request.path then request.path[|settings.apiPrefix|..]
                          else request.path;
             route != "/health" && !("/health/" <= route)
    requires key == SuppliedKey(request)
    ensures settings.adminApiKey == None ==>
              EnforceApiKey(settings, request) == Respond(500, "api_key_not_configured")
    ensures settings.adminApiKey.Some? ==>
              EnforceApiKey(settings, request) ==
              if exists c | c in settings.adminApiKey.value + key :: c as int > 127 then Raise
              else if settings.adminApiKey.value == key then Proceed else Respond(401, "invalid_api_key")
  {
    OpenRequests(settings, request);
    if settings.adminApiKey.Some? {
      var both := settings.adminApiKey.value + key;
      assert forall c :: c in both <==> c in settings.adminApiKey.value || c in key;
      assert (exists c | c in both :: c as int > 127) <==> !IsAscii(settings.adminApiKey.value) || !IsAscii(key);
    }
  }

  function RateVerdict(decision: Decision): Verdict {
    match decision
    case Allowed => Proceed
    case Refused => Respond(429, "rate_limit_exceeded")
    case Unavailable => Respond(503, "rate_limit_backend_unavailable")
  }

  // ---------------------------------------------------------------- the limiter behind the protocol

  datatype Limiter = Memory(buckets: Buckets) | Redis(counters: Counters)

  /** One `allow` call, and whether the store carried it out. */
  function LimiterStep(limiter: Limiter, key: string, limit: int, now: real, fault: Fault): (Limiter, Decision) {
    match limiter
    case Memory(buckets) =>
      var (buckets', allowed) := MemoryStep(buckets, key, limit, now);
      (Memory(buckets'), if allowed then Allowed else Refused)
    case Redis(counters) =>
      if fault == Unreachable then (limiter, Unavailable)
      else
        var (counters', allowed) := RedisStep(counters, key, limit, now);
        (Redis(counters'), if fault == ReplyLost then Unavailable else if allowed then Allowed else Refused)
  }

  // ---------------------------------------------------------------- one dispatch

  /** What call_next does: return a response, raise an Exception, or be cancelled (which is not an
      Exception, so that dispatch neither catches nor logs it). */
  datatype HandlerOutcome = Returned(status: int) | Raised | Cancelled

  datatype Reply = Response(status: int, requestId: string) | Exception | Cancellation

  datatype LogRecord = LogRecord(requestId: string, status: int, failed: bool)

  function GuardRequest(settings: Settings, limiter: Limiter, request: Request, now: real, fault: Fault)
    : (Limiter, Verdict)
  {
    var size := EnforceRequestSize(settings, request);
    if size != Proceed then (limiter, size)
    else
      var apiKey := EnforceApiKey(settings, request);
      if apiKey != Proceed then (limiter, apiKey)
      else if !Limited(settings, request) then (limiter, Proceed)
      else
        var (limiter', decision) :=
          LimiterStep(limiter, RequestKey(request), settings.requestsPerMinute, now, fault);
        (limiter', RateVerdict(decision))
  }

  /** The first check that does not pass a request decides it, and later ones do not see it. */
  lemma FirstCheckDecides(settings: Settings, limiter: Limiter, request: Request, now: real, fault: Fault)
    ensures EnforceRequestSize(settings, request) != Proceed ==>
              GuardRequest(settings, limiter, request, now, fault) == (limiter, EnforceRequestSize(settings, request))
    ensures EnforceRequestSize(settings, request) == Proceed && EnforceApiKey(settings, request) != Proceed ==>
              GuardRequest(settings, limiter, request, now, fault) == (limiter, EnforceApiKey(settings, request))
  {
  }

  /** A request that passed both is let through without a limiter call when the limiter is off, or when the
      request is open. */
  lemma NoLimitAsked(settings: Settings, limiter: Limiter, request: Request, now: real, fault: Fault)
    requires EnforceRequestSize(settings, request) == EnforceApiKey(settings, request) == Proceed
    requires var route := if settings.apiPrefix <= request.path then request.path[|settings.apiPrefix|..]
                          else request.path;
             !settings.rateLimitEnabled || request.verb in {"GET", "HEAD", "OPTIONS"} ||
             route == "/health" || "/health/" <= route
    ensures GuardRequest(settings, limiter, request, now, fault) == (limiter, Proceed)
  {
    OpenRequests(settings, request);
  }

  /** Every other request makes one limiter call under its own key, and the call decides it. A store that cannot
      be reached is left as it was; one whose reply is lost has counted the call. */
  lemma LimitAsked(settings: Settings, limiter: Limiter, request: Request, now: real, fault: Fault)
    requires EnforceRequestSize(settings, request) == EnforceApiKey(settings, request) == Proceed
    requires settings.rateLimitEnabled && request.verb !in {"GET", "HEAD", "OPTIONS"}
    requires var route := if settings.apiPrefix <= request.path then request.path[|settings.apiPrefix|..]
                          else request.path;
             route != "/health" && !("/health/" <= route)
    ensures var key := RateLimitKey.Key(request.clientHost, request.verb, request.path);
            GuardRequest(settings, limiter, request, now, fault) ==
            match limiter
            case Memory(buckets) =>
              var (buckets', allowed) := MemoryStep(buckets, key, settings.requestsPerMinute, now);
              (Memory(buckets'), if allowed then Proceed else Respond(429, "rate_limit_exceeded"))
            case Redis(counters) =>
              var (counters', allowed) := RedisStep(counters, key, settings.requestsPerMinute, now);
              if fault == Unreachable then (Redis(counters), Respond(503, "rate_limit_backend_unavailable"))
              else if fault == ReplyLost then (Redis(counters'), Respond(503, "rate_limit_backend_unavailable"))
              else (Redis(counters'), if allowed then Proceed else Respond(429, "rate_limit_exceeded"))
  {
    OpenRequests(settings, request);
  }

  function ReplyTo(verdict: Verdict, requestId: string, outcome: HandlerOutcome): Reply {
    match verdict
    case Respond(status, _) => Response(status, requestId)
    case Raise => Exception
    case Proceed =>
      match outcome
      case Returned(status) => Response(status, requestId)
      case Raised => Exception
      case Cancelled => Cancellation
  }

  function LogsFor(reply: Reply, requestId: string): seq<LogRecord> {
    match reply
    case Response(status, _) => [LogRecord(requestId, status, status >= 400)]
    case Exception => [LogRecord(requestId, 500, true)]
    case Cancellation => []
  }

  /** The middleware holds one of the two limiters. */
  class OperationsMiddleware {
    const settings: Settings
    const memory: InMemoryRateLimiter?
    const redis: RedisRateLimiter?
    var log: seq<LogRecord>

    ghost predicate Valid()
      reads this, memory
    {
      (memory == null <==> redis != null) && (memory != null ==> memory.Valid())
    }

    ghost function Footprint(): set<object>
      reads memory
    {
      if memory != null then {memory as object} + memory.buckets.Values
      else if redis != null then {redis.store} else {}
    }

    ghost function State(): Limiter
      reads this, memory, Footprint()
      requires Valid()
    {
      if memory != null then Memory(memory.Contents()) else Redis(redis.store.counters)
    }

    /** create_rate_limiter: Redis exactly when a Redis URL is configured. */
    constructor (settings: Settings, redisStore: RedisStore?)
      ensures Valid() && this.settings == settings && log == []
      ensures State() == if redisStore == null then Memory(map[]) else Redis(redisStore.counters)
      ensures redisStore != null ==> redis != null && redis.store == redisStore
    {
      this.settings := settings;
      log := [];
      if redisStore == null {
        var limiter := new InMemoryRateLimiter();
        memory, redis := limiter, null;
      } else {
        var limiter := new RedisRateLimiter(redisStore);
        memory, redis := null, limiter;
      }
    }

    method EnforceRateLimit(request: Request, now: real, fault: Fault) returns (verdict: Verdict)
      requires Valid()
      modifies Footprint()
      ensures Valid()
      ensures (State(), verdict) ==
              if !Limited(settings, request) then (old(State()), Proceed)
              else
                var (limiter, decision) :=
                  LimiterStep(old(State()), RequestKey(request), settings.requestsPerMinute, now, fault);
                (limiter, RateVerdict(decision))
    {
      if !settings.rateLimitEnabled {
        return Proceed;
      }
      if IsPublicPath(settings.apiPrefix, request.path) || request.verb in {"GET", "HEAD", "OPTIONS"} {
        return Proceed;
      }
      var key := RateLimitKey.Key(request.clientHost, request.verb, request.path);
      if memory != null {
        var allowed := memory.Allow(key, settings.requestsPerMinute, now);
        return if allowed then Proceed else Respond(429, "rate_limit_exceeded");
      } else {
        var decision := redis.Allow(key, settings.requestsPerMinute, now, fault);
        return RateVerdict(decision);
      }
    }

    method Guard(request: Request, now: real, fault: Fault) returns (verdict: Verdict)
      requires Valid()
      modifies Footprint()
      ensures Valid()
      ensures (State(), verdict) == GuardRequest(settings, old(State()), request, now, fault)
    {
      verdict := EnforceRequestSize(settings, request);
      if verdict != Proceed {
        return;
      }
      verdict := EnforceApiKey(settings, request);
      if verdict != Proceed {
        return;
      }
      verdict := EnforceRateLimit(request, now, fault);
    }

    /** `outcome` is what the handler would do; it runs only when `handled`. */
    method Dispatch(request: Request, freshId: string, now: real, fault: Fault, outcome: HandlerOutcome)
      returns (reply: Reply, handled: bool)
      requires Valid() && this !in Footprint()
      modifies this, Footprint()
      ensures Valid()
      ensures var id := ResolveRequestId(request.requestIdHeader, freshId);
              var (limiter, verdict) := GuardRequest(settings, old(State()), request, now, fault);
              State() == limiter && handled == (verdict == Proceed) &&
              reply == ReplyTo(verdict, id, outcome) && log == old(log) + LogsFor(reply, id) &&
              (verdict.Respond? ==> reply == Response(verdict.status, id)) &&
              (verdict == Raise || (handled && outcome == Raised) ==> reply == Exception) &&
              (handled && outcome.Returned? ==> reply == Response(outcome.status, id)) &&
              (handled && outcome == Cancelled ==> reply == Cancellation) &&
              (reply.Response? ==> log == old(log) + [LogRecord(id, reply.status, reply.status >= 400)]) &&
              (reply == Exception ==> log == old(log) + [LogRecord(id, 500, true)]) &&
              (reply == Cancellation ==> log == old(log))
    {
      var requestId := ResolveRequestId(request.requestIdHeader, freshId);
      var response: Option<int> := None;
      handled := false;
      var verdict := Guard(request, now, fault);
      var raised := verdict == Raise;
      if verdict.Respond? {
        response := Some(verdict.status);
      } else if verdict == Proceed {
        handled := true;
        match outcome {
          case Returned(status) => response := Some(status);
          case Raised => raised := true;
          case Cancelled =>
        }
      }
      if raised {
        log := log + [LogRecord(requestId, 500, true)];
      }
      if response.Some? {
        log := log + [LogRecord(requestId, response.value, response.value >= 400)];
      }
      reply := if response.Some? then Response(response.value, requestId)
               else if raised then Exception else Cancellation;
    }
  }
}
