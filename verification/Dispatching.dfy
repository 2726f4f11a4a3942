/** What holds of concurrent dispatches in every reachable state. */
module Dispatching {
  import opened Wrappers
  import opened RateLimit
  import opened Windows
  import opened LimiterLaws
  import opened Middleware
  import opened Interleaving
  import RateLimitKey

  /** s is reached from an empty store by some interleaving of steps. */
  ghost predicate Reached(settings: Settings, s: System) {
    settings.requestsPerMinute >= 1 &&
    exists backend: Limiter, clock: real, steps: seq<Step> ::
      (backend == Memory(map[]) || backend == Redis(map[])) &&
      Exec(settings, Initial(backend, clock), steps) == Some(s)
  }

  lemma ReachedInv(settings: Settings, s: System) returns (backend: Limiter)
    requires Reached(settings, s)
    ensures Empty(backend) && Inv(settings, backend, s)
  {
    var start: Limiter, clock: real, steps: seq<Step> :|
      Empty(start) && Exec(settings, Initial(start, clock), steps) == Some(s);
    Reachable(settings, start, clock, steps);
    backend := start;
  }

  // ---------------------------------------------------------------- guards come before the handler

  /** A handler runs only after the size and the key check have let its request pass; and when the limiter is on
      and the request is not open, it holds a call of its own that is among the first of its window. */
  lemma HandlerRunsOnlyWhenAdmitted(settings: Settings, s: System, id: nat)
    requires Reached(settings, s) && id in s.flights && s.flights[id].ran
    ensures EnforceRequestSize(settings, s.flights[id].request) == Proceed
    ensures EnforceApiKey(settings, s.flights[id].request) == Proceed
    ensures var flight, path := s.flights[id], s.flights[id].request.path;
            var route := if settings.apiPrefix <= path then path[|settings.apiPrefix|..] else path;
            settings.rateLimitEnabled && flight.request.verb !in {"GET", "HEAD", "OPTIONS"} &&
            route != "/health" && !("/health/" <= route) ==>
              flight.rate == Some(Allowed) && flight.ticket.Some? &&
              flight.ticket.value < |s.calls| == |s.owners| && s.owners[flight.ticket.value] == id &&
              Rank(s.calls, flight.ticket.value) <= settings.requestsPerMinute
  {
    var backend := ReachedInv(settings, s);
    OpenRequests(settings, s.flights[id].request);
    assert FlightOk(settings, s.flights[id]) && TicketOk(settings, s, id);
  }

  /** A refused request and one for which the backend was unavailable never reach the handler. */
  lemma UnavailableNeverRuns(settings: Settings, s: System, id: nat)
    requires Reached(settings, s) && id in s.flights
    requires s.flights[id].rate == Some(Unavailable) || s.flights[id].rate == Some(Refused)
    ensures !s.flights[id].ran
  {
    var backend := ReachedInv(settings, s);
    assert FlightOk(settings, s.flights[id]);
  }

  /** The limiter is what its recorded calls made of it, and each of them came from one limited
      request that had passed the size and the key check: a request refused by either, or exempt,
      leaves no trace in the limiter. */
  lemma LimiterSeesOnlyCheckedRequests(settings: Settings, s: System)
    requires Reached(settings, s)
    ensures s.limiter == Memory(MemoryAfter(s.calls, settings.requestsPerMinute, |s.calls|)) ||
            s.limiter == Redis(RedisAfter(s.calls, settings.requestsPerMinute, |s.calls|))
    ensures |s.owners| == |s.calls|
    ensures forall t :: 0 <= t < |s.owners| ==>
              s.owners[t] in s.flights &&
              var request := s.flights[s.owners[t]].request;
              var path := request.path;
              var route := if settings.apiPrefix <= path then path[|settings.apiPrefix|..] else path;
              EnforceRequestSize(settings, request) == EnforceApiKey(settings, request) == Proceed &&
              settings.rateLimitEnabled && request.verb !in {"GET", "HEAD", "OPTIONS"} &&
              route != "/health" && !("/health/" <= route) &&
              s.calls[t].key == RateLimitKey.Key(request.clientHost, request.verb, path) &&
              s.flights[s.owners[t]].ticket == Some(t)
  {
    var backend := ReachedInv(settings, s);
    forall t | 0 <= t < |s.owners|
      ensures s.owners[t] in s.flights
      ensures FlightOk(settings, s.flights[s.owners[t]]) && TicketOk(settings, s, s.owners[t])
    {
    }
  }

  // ---------------------------------------------------------------- the bound on handler runs

  lemma {:induction false} OwnersBound(ids: set<nat>, tickets: set<nat>, owners: seq<nat>)
    requires forall t :: t in tickets ==> t < |owners|
    requires forall id :: id in ids ==> exists t :: t in tickets && owners[t] == id
    ensures |ids| <= |tickets|
  {
    if ids == {} {
    } else {
      var id :| id in ids;
      var t :| t in tickets && owners[t] == id;
      forall other | other in ids - {id} ensures exists u :: u in tickets - {t} && owners[u] == other {
        var u :| u in tickets && owners[u] == other;
        assert u in tickets - {t};
      }
      OwnersBound(ids - {id}, tickets - {t}, owners);
    }
  }

  /** The admitted calls that the runs of these handlers hold. */
  lemma RunsHoldCalls(settings: Settings, s: System, id: nat, key: string, lo: real, hi: real)
    requires Reached(settings, s) && id in s.flights && s.flights[id].ran
    requires Limited(settings, s.flights[id].request) && RequestKey(s.flights[id].request) == key
    requires forall t: nat | s.flights[id].ticket == Some(t) && t < |s.calls| :: lo <= s.calls[t].at < hi
    ensures |s.owners| == |s.calls|
    ensures exists t :: t in AllowedIn(s.calls, settings.requestsPerMinute, key, lo, hi, |s.calls|) && s.owners[t] == id
  {
    var backend := ReachedInv(settings, s);
    assert FlightOk(settings, s.flights[id]) && TicketOk(settings, s, id);
    var t := s.flights[id].ticket.value;
    assert t in AllowedIn(s.calls, settings.requestsPerMinute, key, lo, hi, |s.calls|);
  }

  /** For every interleaving, every client, method and path to which the limit applies, and every interval
      of k minutes: of the requests that the limiter admitted in it, at most (k + 1) * limit - 1 run their
      handler. Faults of the backend and cancellations only lower the count. */
  lemma HandlerRunsBounded(settings: Settings, s: System, ids: set<nat>, clientHost: Option<string>, verb: string,
                           path: string, lo: real, hi: real, k: nat)
    requires Reached(settings, s) && hi - lo <= 60.0 * k as real
    requires settings.rateLimitEnabled && verb !in {"GET", "HEAD", "OPTIONS"}
    requires var route := if settings.apiPrefix <= path then path[|settings.apiPrefix|..] else path;
             route != "/health" && !("/health/" <= route)
    requires forall id | id in ids ::
               id in s.flights && s.flights[id].ran &&
               RateLimitKey.SameClient(s.flights[id].request.clientHost, clientHost) &&
               s.flights[id].request.verb == verb && s.flights[id].request.path == path &&
               forall t: nat | s.flights[id].ticket == Some(t) && t < |s.calls| :: lo <= s.calls[t].at < hi
    ensures |ids| <= (k + 1) * settings.requestsPerMinute - 1
  {
    var limit := settings.requestsPerMinute;
    var key := RateLimitKey.Key(clientHost, verb, path);
    var allowed := AllowedIn(s.calls, limit, key, lo, hi, |s.calls|);
    var backend := ReachedInv(settings, s);
    forall id | id in ids ensures exists t :: t in allowed && s.owners[t] == id {
      var request := s.flights[id].request;
      OpenRequests(settings, request);
      RateLimitKey.SameClientExactly(request.clientHost, clientHost);
      RunsHoldCalls(settings, s, id, key, lo, hi);
    }
    OwnersBound(ids, allowed, s.owners);
    AllowedInBound(s.calls, limit, key, lo, hi, k, |s.calls|);
  }

  // ---------------------------------------------------------------- clients do not interfere

  /** A call is within the limit exactly when the in-memory limiter, given only the calls of its own
      key up to it, allows it. */
  lemma OwnCallsDecide(calls: Run, limit: int, t: nat)
    requires limit >= 1 && t < |calls|
    ensures var own := OnlyKey(calls, calls[t].key, t + 1);
            own != [] && (Rank(calls, t) <= limit <==> MemoryAllows(own, limit, |own| - 1))
  {
    KeysDoNotInterfere(calls, limit, t);
    MemoryExact(calls, limit, t);
  }

  /** What the ticket of a decided request says. */
  lemma TicketMeans(settings: Settings, s: System, id: nat)
    requires id in s.flights && TicketOk(settings, s, id)
    requires s.flights[id].rate.Some? && s.flights[id].rate.value != Unavailable
    ensures var flight := s.flights[id];
            flight.ticket.Some? && flight.ticket.value < |s.calls| &&
            s.calls[flight.ticket.value].key == RequestKey(flight.request) &&
            (flight.rate.value == Allowed <==> Rank(s.calls, flight.ticket.value) <= settings.requestsPerMinute)
  {
  }

  lemma DecidedTicket(settings: Settings, s: System, id: nat) returns (t: nat)
    requires Reached(settings, s) && id in s.flights && s.flights[id].rate.Some?
    requires s.flights[id].rate.value != Unavailable
    ensures settings.requestsPerMinute >= 1 && s.flights[id].ticket == Some(t) && t < |s.calls|
    ensures s.calls[t].key == RequestKey(s.flights[id].request)
    ensures s.flights[id].rate.value == Allowed <==> Rank(s.calls, t) <= settings.requestsPerMinute
  {
    var backend := ReachedInv(settings, s);
    assert TicketOk(settings, s, id);
    TicketMeans(settings, s, id);
    t := s.flights[id].ticket.value;
  }

  /** What a limited request is told depends only on the earlier limiter calls of its own host,
      method and path: the in-memory limiter, given just those calls, decides it the same way. */
  lemma DecidedByOwnScope(settings: Settings, s: System, id: nat)
    requires Reached(settings, s) && id in s.flights && s.flights[id].rate.Some?
    requires s.flights[id].rate.value != Unavailable
    ensures var flight := s.flights[id];
            flight.ticket.Some? && flight.ticket.value < |s.calls| &&
            var own := OnlyKey(s.calls, RequestKey(flight.request), flight.ticket.value + 1);
            own != [] &&
            (flight.rate.value == Allowed <==> MemoryAllows(own, settings.requestsPerMinute, |own| - 1))
  {
    var t := DecidedTicket(settings, s, id);
    OwnCallsDecide(s.calls, settings.requestsPerMinute, t);
  }

  /** And the calls counted against a request are those of the same client, method and path. */
  lemma OwnCallsAreOwnScope(settings: Settings, s: System, id: nat, t: nat)
    requires Reached(settings, s) && id in s.flights && t < |s.calls|
    ensures |s.owners| == |s.calls| && s.owners[t] in s.flights
    ensures var mine, other := s.flights[id].request, s.flights[s.owners[t]].request;
            (mine.clientHost.None? || '/' !in mine.clientHost.value) &&
            (other.clientHost.None? || '/' !in other.clientHost.value) &&
            ':' !in mine.verb && '/' !in mine.verb && ':' !in other.verb && '/' !in other.verb &&
            mine.path != "" && mine.path[0] == '/' && other.path != "" && other.path[0] == '/' ==>
            (s.calls[t].key == RateLimitKey.Key(mine.clientHost, mine.verb, mine.path) <==>
             RateLimitKey.SameClient(mine.clientHost, other.clientHost) &&
             mine.verb == other.verb && mine.path == other.path)
  {
    LimiterSeesOnlyCheckedRequests(settings, s);
    var mine, other := s.flights[id].request, s.flights[s.owners[t]].request;
    if (mine.clientHost.None? || '/' !in mine.clientHost.value) &&
       (other.clientHost.None? || '/' !in other.clientHost.value) &&
       ':' !in mine.verb && '/' !in mine.verb && ':' !in other.verb && '/' !in other.verb &&
       mine.path != "" && mine.path[0] == '/' && other.path != "" && other.path[0] == '/' {
      RateLimitKey.KeysAgreeExactly(mine.clientHost, mine.verb, mine.path, other.clientHost, other.verb, other.path);
    }
  }

  // ---------------------------------------------------------------- request accounting

  /** The request is over and was answered, with a response or an exception. */
  ghost predicate IsFinished(flight: Flight) {
    flight.stage.Closed? && flight.answer.Some?
  }

  ghost function Finished(s: System): set<nat> {
    set id | id in s.flights && IsFinished(s.flights[id])
  }

  ghost function FailedRequests(s: System): set<nat> {
    set id | id in s.flights && IsFinished(s.flights[id]) &&
             (s.flights[id].answer.value.Unhandled? || s.flights[id].answer.value.status >= 400)
  }

  ghost function FailedEntries(log: seq<Entry>): set<nat> {
    set j: nat | j < |log| && log[j].record.failed
  }

  /** Distinct log entries match distinct requests one to one. */
  lemma {:induction false} EntriesCount(log: seq<Entry>, ids: set<nat>, places: set<nat>)
    requires forall j :: j in places ==> j < |log|
    requires forall i, j :: i in places && j in places && i != j ==> log[i].flight != log[j].flight
    requires forall id :: id in ids <==> exists j :: j in places && log[j].flight == id
    ensures |ids| == |places|
  {
    if places == {} {
      assert ids == {};
    } else {
      var j :| j in places;
      var id := log[j].flight;
      forall other ensures other in ids - {id} <==> exists i :: i in places - {j} && log[i].flight == other {
        if other in ids - {id} {
          var i :| i in places && log[i].flight == other;
          assert i in places - {j};
        }
      }
      EntriesCount(log, ids - {id}, places - {j});
      assert |ids| == |ids - {id}| + 1;
    }
  }

  /** The finished requests are those with a log record, and it is a record of their answer. */
  ghost predicate LogAccounts(s: System) {
    LogOk(s) && forall id | id in s.flights :: IsFinished(s.flights[id]) <==> s.flights[id].logged
  }

  lemma FinishedCount(s: System)
    requires LogAccounts(s)
    ensures |s.log| == |Finished(s)|
  {
    var all := Upto(|s.log|);
    forall id ensures id in Finished(s) <==> exists j :: j in all && s.log[j].flight == id {
      if id in Finished(s) {
        var j :| 0 <= j < |s.log| && s.log[j].flight == id;
        assert j in all;
      }
    }
    EntriesCount(s.log, Finished(s), all);
  }

  lemma FailedCount(s: System)
    requires LogAccounts(s)
    ensures |FailedEntries(s.log)| == |FailedRequests(s)|
  {
    forall id ensures id in FailedRequests(s) <==> exists j :: j in FailedEntries(s.log) && s.log[j].flight == id {
      if id in FailedRequests(s) {
        var j :| 0 <= j < |s.log| && s.log[j].flight == id;
        assert j in FailedEntries(s.log);
      }
    }
    EntriesCount(s.log, FailedRequests(s), FailedEntries(s.log));
  }

  lemma InvAccounts(settings: Settings, backend: Limiter, s: System)
    requires Inv(settings, backend, s)
    ensures LogAccounts(s)
  {
    forall id | id in s.flights ensures IsFinished(s.flights[id]) <==> s.flights[id].logged {
      assert FlightOk(settings, s.flights[id]);
    }
  }

  /** Every request that is over and was answered has exactly one log record, with its own id (1 to 128
      characters) and its answer; there are no other records; and the failed records are as many as the
      requests with a status of at least 400 or an exception. A request that is over without an answer
      was cancelled. */
  lemma RequestsAreAccountedFor(settings: Settings, s: System)
    requires Reached(settings, s)
    ensures |s.log| == |Finished(s)|
    ensures |FailedEntries(s.log)| == |FailedRequests(s)|
    ensures forall id | id in s.flights && s.flights[id].stage.Closed? && s.flights[id].answer.Some? ::
              exists j | 0 <= j < |s.log| :: s.log[j].flight == id
    ensures forall j | 0 <= j < |s.log| ::
              s.log[j].flight in s.flights &&
              var flight, record := s.flights[s.log[j].flight], s.log[j].record;
              flight.stage.Closed? && 1 <= |flight.requestId| <= 128 && record.requestId == flight.requestId &&
              match flight.answer
              case None => false
              case Some(Status(status)) => record.status == status && record.failed == (status >= 400)
              case Some(Unhandled) => record.status == 500 && record.failed
    ensures forall id | id in s.flights && s.flights[id].answer.Some? :: s.flights[id].stage in {Answered, Closed}
  {
    var backend := ReachedInv(settings, s);
    InvAccounts(settings, backend, s);
    FinishedCount(s);
    FailedCount(s);
    forall j | 0 <= j < |s.log| ensures FlightOk(settings, s.flights[s.log[j].flight]) {
    }
    forall id | id in s.flights ensures FlightOk(settings, s.flights[id]) {
    }
    forall id | id in s.flights && s.flights[id].stage.Closed? && s.flights[id].answer.Some?
      ensures exists j | 0 <= j < |s.log| :: s.log[j].flight == id
    {
      assert IsFinished(s.flights[id]);
    }
  }

  function Upto(n: nat): (places: set<nat>)
    ensures |places| == n
    ensures forall j: nat :: j in places <==> j < n
  {
    if n == 0 then {} else Upto(n - 1) + {n - 1}
  }

  // ---------------------------------------------------------------- one dispatch is a run

  function Repeat(step: Step, n: nat): (steps: seq<Step>)
    ensures |steps| == n
  {
    if n == 0 then [] else [step] + Repeat(step, n - 1)
  }

  function Entries(id: nat, records: seq<LogRecord>): seq<Entry> {
    if records == [] then [] else [Entry(id, records[0])] + Entries(id, records[1..])
  }

  function AnswerReply(flight: Flight): Reply {
    match flight.answer
    case Some(Status(status)) => Response(status, flight.requestId)
    case Some(Unhandled) => Exception
    case None => Cancellation
  }

  /** The moves close the request with this reply, and leave the limiter and the log like this. */
  ghost predicate EndsAt(settings: Settings, s: System, id: nat, steps: seq<Step>,
                         limiter: Limiter, reply: Reply, ran: bool, log: seq<Entry>)
  {
    var end := Exec(settings, s, steps);
    end.Some? && id in end.value.flights && end.value.flights[id].stage.Closed? &&
    AnswerReply(end.value.flights[id]) == reply && end.value.flights[id].ran == ran &&
    end.value.limiter == limiter && end.value.log == log
  }

  /** And the log has grown by what this reply is logged as. */
  ghost predicate EndsWith(settings: Settings, s: System, id: nat, steps: seq<Step>,
                           limiter: Limiter, reply: Reply, ran: bool)
    requires id in s.flights
  {
    EndsAt(settings, s, id, steps, limiter, reply, ran,
      s.log + Entries(id, LogsFor(reply, s.flights[id].requestId)))
  }

  /** A first move that writes no log record leaves the end as it was. */
  lemma MoveFirst(settings: Settings, s: System, id: nat, now: real, fault: Fault, outcome: HandlerOutcome, n: nat,
                  limiter: Limiter, reply: Reply, ran: bool)
    requires id in s.flights && s.clock <= now && n >= 1
    requires var s' := MoveOn(settings, s.(clock := now), id, now, fault, outcome);
             s'.log == s.log && s'.flights[id].requestId == s.flights[id].requestId &&
             EndsWith(settings, s', id, Repeat(Move(id, now, fault, outcome), n - 1), limiter, reply, ran)
    ensures EndsWith(settings, s, id, Repeat(Move(id, now, fault, outcome), n), limiter, reply, ran)
  {
    var steps := Repeat(Move(id, now, fault, outcome), n);
    assert steps[1..] == Repeat(Move(id, now, fault, outcome), n - 1);
  }

  lemma {:induction false} ClosedStays(settings: Settings, s: System, id: nat, now: real, fault: Fault,
                                       outcome: HandlerOutcome, n: nat)
    requires id in s.flights && s.clock <= now && s.flights[id].stage.Closed?
    ensures EndsAt(settings, s, id, Repeat(Move(id, now, fault, outcome), n), s.limiter,
                   AnswerReply(s.flights[id]), s.flights[id].ran, s.log)
    decreases n
  {
    if n == 0 {
    } else {
      assert s.flights[id := s.flights[id]] == s.flights;
      ClosedStays(settings, s.(clock := now), id, now, fault, outcome, n - 1);
    }
  }

  lemma AnsweredCloses(settings: Settings, s: System, id: nat, now: real, fault: Fault, outcome: HandlerOutcome, n: nat)
    requires id in s.flights && s.clock <= now && n >= 1
    requires s.flights[id].stage.Answered? && s.flights[id].answer.Some?
    ensures EndsWith(settings, s, id, Repeat(Move(id, now, fault, outcome), n), s.limiter,
                     AnswerReply(s.flights[id]), s.flights[id].ran)
  {
    var s' := MoveOn(settings, s.(clock := now), id, now, fault, outcome);
    ClosedStays(settings, s', id, now, fault, outcome, n - 1);
    assert AnswerReply(s'.flights[id]) == AnswerReply(s.flights[id]);
    assert LogsFor(AnswerReply(s.flights[id]), s.flights[id].requestId) == [AnswerRecord(s.flights[id])];
  }

  /** From the stage in which the limiter has let the request pass. */
  lemma AdmittedEnds(settings: Settings, s: System, id: nat, now: real, fault: Fault, outcome: HandlerOutcome, n: nat)
    requires id in s.flights && s.clock <= now && n >= 3
    requires s.flights[id].stage.RatePassed? && s.flights[id].answer.None?
    ensures EndsWith(settings, s, id, Repeat(Move(id, now, fault, outcome), n), s.limiter,
                     ReplyTo(Proceed, s.flights[id].requestId, outcome), true)
  {
    var running := MoveOn(settings, s.(clock := now), id, now, fault, outcome);
    var ended := MoveOn(settings, running, id, now, fault, outcome);
    if outcome.Cancelled? {
      ClosedStays(settings, ended, id, now, fault, outcome, n - 2);
      assert s.log + [] == s.log;
    } else {
      AnsweredCloses(settings, ended, id, now, fault, outcome, n - 2);
    }
  }

  /** From the stage before the limiter call. */
  lemma RateCheckedEnds(settings: Settings, s: System, id: nat, now: real, fault: Fault,
                        outcome: HandlerOutcome, n: nat)
    requires id in s.flights && s.clock <= now && n >= 4
    requires s.flights[id].stage.KeyPassed? && s.flights[id].answer.None? && !s.flights[id].ran
    ensures var flight := s.flights[id];
            var (limiter, verdict) :=
              if !Limited(settings, flight.request) then (s.limiter, Proceed)
              else
                var (l, decision) :=
                  LimiterStep(s.limiter, RequestKey(flight.request), settings.requestsPerMinute, now, fault);
                (l, RateVerdict(decision));
            EndsWith(settings, s, id, Repeat(Move(id, now, fault, outcome), n), limiter,
                     ReplyTo(verdict, flight.requestId, outcome), verdict == Proceed)
  {
    var s' := MoveOn(settings, s.(clock := now), id, now, fault, outcome);
    if s'.flights[id].stage.RatePassed? {
      AdmittedEnds(settings, s', id, now, fault, outcome, n - 1);
      MoveFirst(settings, s, id, now, fault, outcome, n, s'.limiter,
        ReplyTo(Proceed, s.flights[id].requestId, outcome), true);
    } else {
      AnsweredCloses(settings, s', id, now, fault, outcome, n - 1);
      MoveFirst(settings, s, id, now, fault, outcome, n, s'.limiter, AnswerReply(s'.flights[id]), false);
    }
  }

  lemma KeyCheckedEnds(settings: Settings, s: System, id: nat, now: real, fault: Fault, outcome: HandlerOutcome, n: nat)
    requires id in s.flights && s.clock <= now && n >= 5
    requires s.flights[id].stage.SizePassed? && s.flights[id].answer.None? && !s.flights[id].ran
    requires EnforceRequestSize(settings, s.flights[id].request) == Proceed
    ensures var flight := s.flights[id];
            var (limiter, verdict) := GuardRequest(settings, s.limiter, flight.request, now, fault);
            EndsWith(settings, s, id, Repeat(Move(id, now, fault, outcome), n), limiter,
                     ReplyTo(verdict, flight.requestId, outcome), verdict == Proceed)
  {
    var flight := s.flights[id];
    var s' := MoveOn(settings, s.(clock := now), id, now, fault, outcome);
    var (limiter, verdict) := GuardRequest(settings, s.limiter, flight.request, now, fault);
    if s'.flights[id].stage.Answered? {
      AnsweredCloses(settings, s', id, now, fault, outcome, n - 1);
    } else {
      RateCheckedEnds(settings, s', id, now, fault, outcome, n - 1);
    }
    MoveFirst(settings, s, id, now, fault, outcome, n, limiter,
      ReplyTo(verdict, flight.requestId, outcome), verdict == Proceed);
  }

  /** One dispatch of the middleware is the run in which a request arrives and moves on six times:
      same limiter, same log, same reply, and the handler runs in the same cases. */
  lemma DispatchIsARun(settings: Settings, s: System, id: nat, request: Request, freshId: string,
                       now: real, fault: Fault, outcome: HandlerOutcome)
    requires id !in s.flights && |freshId| == UUID_LENGTH && s.clock <= now
    ensures var arrived := Next(settings, s, Arrive(id, request, freshId)).value;
            var (limiter, verdict) := GuardRequest(settings, s.limiter, request, now, fault);
            EndsWith(settings, arrived, id, Repeat(Move(id, now, fault, outcome), 6), limiter,
                     ReplyTo(verdict, ResolveRequestId(request.requestIdHeader, freshId), outcome), verdict == Proceed)
  {
    var arrived := Next(settings, s, Arrive(id, request, freshId)).value;
    var s' := MoveOn(settings, arrived.(clock := now), id, now, fault, outcome);
    var (limiter, verdict) := GuardRequest(settings, s.limiter, request, now, fault);
    if s'.flights[id].stage.Answered? {
      AnsweredCloses(settings, s', id, now, fault, outcome, 5);
    } else {
      KeyCheckedEnds(settings, s', id, now, fault, outcome, 5);
    }
    MoveFirst(settings, arrived, id, now, fault, outcome, 6, limiter,
      ReplyTo(verdict, arrived.flights[id].requestId, outcome), verdict == Proceed);
  }
}
