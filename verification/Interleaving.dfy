/** Any number of requests in flight at once: every interleaving of their steps over one limiter.
    With Redis the requests may belong to any number of worker processes sharing the store. */
module Interleaving {
  import opened Wrappers
  import opened RateLimit
  import opened Windows
  import opened LimiterLaws
  import opened Middleware

  datatype Stage = Received | SizePassed | KeyPassed | RatePassed | Running | Answered | Closed

  datatype Answer = Status(status: int) | Unhandled

  /** One request in flight. `rate` is what the limiter decided and `ticket` the place of its call
      among the calls the store carried out; `logged` says whether closing it wrote a log record. */
  datatype Flight = Flight(
    request: Request,
    requestId: string,
    stage: Stage,
    rate: Option<Decision>,
    ticket: Option<nat>,
    ran: bool,
    answer: Option<Answer>,
    logged: bool)

  datatype Entry = Entry(flight: nat, record: LogRecord)

  /** `calls` and `owners` are the history of the limiter: its calls and the flights that made them. */
  datatype System = System(
    limiter: Limiter,
    clock: real,
    flights: map<nat, Flight>,
    calls: Run,
    owners: seq<nat>,
    log: seq<Entry>)

  /** A request arrives, moves one step on, or is cancelled. Once it has an answer nothing is awaited any
      more, so that it can no longer be cancelled before it is logged. While it awaits the reply of the
      store, the store may or may not have carried its call out: then it is abandoned with its call. */
  datatype Step =
    | Arrive(id: nat, request: Request, freshId: string)
    | Move(id: nat, now: real, fault: Fault, outcome: HandlerOutcome)
    | Abandon(id: nat)
    | AbandonCall(id: nat, now: real)

  function Initial(backend: Limiter, clock: real): System {
    System(backend, clock, map[], [], [], [])
  }

  function Judge(flight: Flight, verdict: Verdict, next: Stage): Flight {
    match verdict
    case Proceed => flight.(stage := next)
    case Respond(status, _) => flight.(stage := Answered, answer := Some(Status(status)))
    case Raise => flight.(stage := Answered, answer := Some(Unhandled))
  }

  /** Whether the store carries the call out. */
  predicate Executed(limiter: Limiter, fault: Fault) {
    limiter.Memory? || fault != Unreachable
  }

  /** The atomic limiter call of one request. */
  function CheckRate(settings: Settings, s: System, id: nat, now: real, fault: Fault): System
    requires id in s.flights
  {
    var flight := s.flights[id];
    var key := RequestKey(flight.request);
    var (limiter, decision) := LimiterStep(s.limiter, key, settings.requestsPerMinute, now, fault);
    var executed := Executed(s.limiter, fault);
    var flight' := flight.(rate := Some(decision), ticket := if executed then Some(|s.calls|) else None);
    s.(limiter := limiter,
       flights := s.flights[id := Judge(flight', RateVerdict(decision), RatePassed)],
       calls := if executed then s.calls + [Call(key, now)] else s.calls,
       owners := if executed then s.owners + [id] else s.owners)
  }

  /** The limiter call of a request that is cancelled before it learns what was decided. */
  function CutCall(settings: Settings, s: System, id: nat, now: real): System
    requires id in s.flights
  {
    var flight := s.flights[id];
    var key := RequestKey(flight.request);
    s.(clock := now,
       limiter := LimiterStep(s.limiter, key, settings.requestsPerMinute, now, ReplyLost).0,
       flights := s.flights[id := flight.(stage := Closed, ticket := Some(|s.calls|))],
       calls := s.calls + [Call(key, now)],
       owners := s.owners + [id])
  }

  function AnswerRecord(flight: Flight): LogRecord
    requires flight.answer.Some?
  {
    match flight.answer.value
    case Status(status) => LogRecord(flight.requestId, status, status >= 400)
    case Unhandled => LogRecord(flight.requestId, 500, true)
  }

  function EndHandler(flight: Flight, outcome: HandlerOutcome): Flight {
    match outcome
    case Returned(status) => flight.(stage := Answered, answer := Some(Status(status)))
    case Raised => flight.(stage := Answered, answer := Some(Unhandled))
    case Cancelled => flight.(stage := Closed)
  }

  /** The moves that touch neither the limiter nor the log. */
  function QuietMove(settings: Settings, flight: Flight, outcome: HandlerOutcome): Flight {
    match flight.stage
    case Received => Judge(flight, EnforceRequestSize(settings, flight.request), SizePassed)
    case SizePassed => Judge(flight, EnforceApiKey(settings, flight.request), KeyPassed)
    case KeyPassed => flight.(stage := RatePassed)
    case RatePassed => flight.(stage := Running, ran := true)
    case Running => EndHandler(flight, outcome)
    case _ => flight
  }

  function MoveOn(settings: Settings, s: System, id: nat, now: real, fault: Fault, outcome: HandlerOutcome): System
    requires id in s.flights
  {
    var flight := s.flights[id];
    if flight.stage.KeyPassed? && Limited(settings, flight.request) then
      CheckRate(settings, s, id, now, fault)
    else if flight.stage.Answered? && flight.answer.Some? then
      s.(flights := s.flights[id := flight.(stage := Closed, logged := true)],
         log := s.log + [Entry(id, AnswerRecord(flight))])
    else
      s.(flights := s.flights[id := QuietMove(settings, flight, outcome)])
  }

  /** The request is at its limiter call, and that call is one over the network. */
  predicate AwaitsStore(settings: Settings, s: System, id: nat)
    requires id in s.flights
  {
    s.limiter.Redis? && s.flights[id].stage.KeyPassed? && Limited(settings, s.flights[id].request)
  }

  /** None when the step is not enabled. The clock never runs backwards. */
  function Next(settings: Settings, s: System, step: Step): Option<System> {
    match step
    case Arrive(id, request, freshId) =>
      if id in s.flights || |freshId| != UUID_LENGTH then None
      else
        var requestId := ResolveRequestId(request.requestIdHeader, freshId);
        Some(s.(flights := s.flights[id := Flight(request, requestId, Received, None, None, false, None, false)]))
    case Move(id, now, fault, outcome) =>
      if id !in s.flights || now < s.clock then None
      else Some(MoveOn(settings, s.(clock := now), id, now, fault, outcome))
    case Abandon(id) =>
      if id !in s.flights || s.flights[id].stage in {Answered, Closed} then None
      else Some(s.(flights := s.flights[id := s.flights[id].(stage := Closed)]))
    case AbandonCall(id, now) =>
      if id !in s.flights || now < s.clock || !AwaitsStore(settings, s, id) then None
      else Some(CutCall(settings, s, id, now))
  }

  /** The state after all the steps, None when one of them was not enabled. */
  function Exec(settings: Settings, s: System, steps: seq<Step>): Option<System>
    decreases |steps|
  {
    if steps == [] then Some(s)
    else
      match Next(settings, s, steps[0])
      case None => None
      case Some(s') => Exec(settings, s', steps[1..])
  }

  // ---------------------------------------------------------------- the invariant

  ghost predicate PassedSize(settings: Settings, flight: Flight) {
    EnforceRequestSize(settings, flight.request) == Proceed
  }

  ghost predicate PassedKey(settings: Settings, flight: Flight) {
    EnforceApiKey(settings, flight.request) == Proceed
  }

  /** What the stage of a request says about the checks it has passed. */
  ghost predicate FlightOk(settings: Settings, flight: Flight) {
    var limited := Limited(settings, flight.request);
    1 <= |flight.requestId| <= MAX_REQUEST_ID &&
    (flight.stage.SizePassed? ==> PassedSize(settings, flight)) &&
    (flight.stage.KeyPassed? ==> PassedSize(settings, flight) && PassedKey(settings, flight)) &&
    (flight.stage in {Received, SizePassed, KeyPassed} ==> flight.rate.None? && flight.ticket.None?) &&
    (flight.rate.Some? || flight.ticket.Some? ==>
       limited && PassedSize(settings, flight) && PassedKey(settings, flight)) &&
    (flight.rate.None? && flight.ticket.Some? ==> flight.stage.Closed? && flight.answer.None?) &&
    (flight.stage in {RatePassed, Running} || flight.ran ==>
       PassedSize(settings, flight) && PassedKey(settings, flight) &&
       (limited ==> flight.rate == Some(Allowed))) &&
    (flight.stage.Answered? ==> flight.answer.Some?) &&
    (flight.answer.Some? ==> flight.stage in {Answered, Closed}) &&
    (flight.stage.Closed? && flight.answer.Some? ==> flight.logged) &&
    (flight.logged ==> flight.stage.Closed? && flight.answer.Some?)
  }

  /** A request holds the ticket of the limiter call that decided it. */
  ghost predicate TicketOk(settings: Settings, s: System, id: nat)
    requires id in s.flights
  {
    var flight := s.flights[id];
    (flight.rate.Some? && flight.rate.value != Unavailable ==> flight.ticket.Some?) &&
    match flight.ticket
    case None => true
    case Some(t) =>
      t < |s.calls| && t < |s.owners| && s.owners[t] == id && s.calls[t].key == RequestKey(flight.request) &&
      (flight.rate == Some(Allowed) ==> Rank(s.calls, t) <= settings.requestsPerMinute) &&
      (flight.rate == Some(Refused) ==> Rank(s.calls, t) > settings.requestsPerMinute)
  }

  ghost predicate OwnersOk(s: System) {
    |s.owners| == |s.calls| &&
    forall t :: 0 <= t < |s.owners| ==> s.owners[t] in s.flights && s.flights[s.owners[t]].ticket == Some(t)
  }

  /** The limiter holds exactly what the recorded calls made of it. */
  ghost predicate LimiterOk(settings: Settings, backend: Limiter, s: System) {
    Ordered(s.calls) && (s.calls != [] ==> s.calls[|s.calls| - 1].at <= s.clock) &&
    s.limiter ==
    if backend.Memory? then Memory(MemoryAfter(s.calls, settings.requestsPerMinute, |s.calls|))
    else Redis(RedisAfter(s.calls, settings.requestsPerMinute, |s.calls|))
  }

  /** Every log record closes one request, with the answer that request got. */
  ghost predicate LogOk(s: System) {
    (forall j :: 0 <= j < |s.log| ==>
       var id := s.log[j].flight;
       id in s.flights && s.flights[id].logged && s.flights[id].answer.Some? &&
       s.log[j].record == AnswerRecord(s.flights[id])) &&
    (forall i, j :: 0 <= i < j < |s.log| ==> s.log[i].flight != s.log[j].flight) &&
    (forall id :: id in s.flights && s.flights[id].logged ==> exists j :: 0 <= j < |s.log| && s.log[j].flight == id)
  }

  ghost predicate FlightsOk(settings: Settings, s: System) {
    forall id {:trigger FlightOk(settings, s.flights[id])} | id in s.flights :: FlightOk(settings, s.flights[id])
  }

  ghost predicate TicketsOk(settings: Settings, s: System) {
    forall id {:trigger TicketOk(settings, s, id)} | id in s.flights :: TicketOk(settings, s, id)
  }

  ghost predicate Inv(settings: Settings, backend: Limiter, s: System) {
    FlightsOk(settings, s) && TicketsOk(settings, s) && OwnersOk(s) && LimiterOk(settings, backend, s) && LogOk(s)
  }

  /** The two empty stores the application may start from. */
  ghost predicate Empty(backend: Limiter) {
    backend == Memory(map[]) || backend == Redis(map[])
  }

  // ---------------------------------------------------------------- every step keeps the invariant

  lemma RankOfPrefix(run: Run, call: Call, i: nat)
    requires i < |run|
    ensures Rank(run + [call], i) == Rank(run, i)
  {
    CurrentOfPrefix(run, [call], run[i].key, i);
    WindowStep(run, i);
    WindowStep(run + [call], i);
  }

  lemma {:induction false} LimitersOfPrefix(run: Run, call: Call, limit: int, n: nat)
    requires n <= |run|
    ensures MemoryAfter(run + [call], limit, n) == MemoryAfter(run, limit, n)
    ensures RedisAfter(run + [call], limit, n) == RedisAfter(run, limit, n)
  {
    if n == 0 {
    } else {
      LimitersOfPrefix(run, call, limit, n - 1);
    }
  }

  /** Another flight in the place of one leaves what the others say. */
  lemma KeepsFlights(settings: Settings, s: System, id: nat, flight: Flight)
    requires FlightsOk(settings, s) && FlightOk(settings, flight)
    ensures FlightsOk(settings, s.(flights := s.flights[id := flight]))
  {
    var s' := s.(flights := s.flights[id := flight]);
    forall other | other in s'.flights ensures FlightOk(settings, s'.flights[other]) {
      if other != id {
        assert FlightOk(settings, s.flights[other]);
      }
    }
  }

  /** And so it does with the tickets, as long as the request and its decision stay. */
  lemma KeepsTickets(settings: Settings, s: System, id: nat, flight: Flight)
    requires TicketsOk(settings, s) && OwnersOk(s) && id in s.flights && flight.request == s.flights[id].request
    requires flight.rate == s.flights[id].rate && flight.ticket == s.flights[id].ticket
    ensures var s' := s.(flights := s.flights[id := flight]); TicketsOk(settings, s') && OwnersOk(s')
  {
    var s' := s.(flights := s.flights[id := flight]);
    forall other | other in s'.flights ensures TicketOk(settings, s', other) {
      assert TicketOk(settings, s, other);
    }
  }

  lemma KeepsUnlogged(s: System, id: nat, flight: Flight)
    requires LogOk(s) && id in s.flights && !s.flights[id].logged && !flight.logged
    ensures LogOk(s.(flights := s.flights[id := flight]))
  {
  }

  /** A step that changes only the stage, the answer or the running of one request. */
  lemma KeepsOneFlight(settings: Settings, backend: Limiter, s: System, id: nat, flight: Flight, clock: real)
    requires Inv(settings, backend, s) && id in s.flights && clock >= s.clock
    requires !s.flights[id].logged && !flight.logged && FlightOk(settings, flight)
    requires flight.request == s.flights[id].request
    requires flight.rate == s.flights[id].rate && flight.ticket == s.flights[id].ticket
    ensures Inv(settings, backend, s.(clock := clock, flights := s.flights[id := flight]))
  {
    KeepsFlights(settings, s, id, flight);
    KeepsTickets(settings, s, id, flight);
    KeepsUnlogged(s, id, flight);
    KeepsClock(settings, backend, s.(flights := s.flights[id := flight]), clock);
  }

  /** Nothing but the limiter's history looks at the clock. */
  lemma KeepsClock(settings: Settings, backend: Limiter, s: System, clock: real)
    requires Inv(settings, backend, s) && clock >= s.clock
    ensures Inv(settings, backend, s.(clock := clock))
  {
    var s' := s.(clock := clock);
    forall id | id in s'.flights ensures FlightOk(settings, s'.flights[id]) && TicketOk(settings, s', id) {
      assert FlightOk(settings, s.flights[id]) && TicketOk(settings, s, id);
    }
  }

  lemma KeepsLog(s: System, s': System, id: nat)
    requires LogOk(s) && id in s.flights && s.flights[id].stage.Answered? && s.flights[id].answer.Some?
    requires !s.flights[id].logged
    requires s'.flights == s.flights[id := s.flights[id].(stage := Closed, logged := true)]
    requires s'.log == s.log + [Entry(id, AnswerRecord(s.flights[id]))]
    ensures LogOk(s')
  {
    assert s'.log[|s.log|].flight == id;
    forall other | other in s'.flights && s'.flights[other].logged
      ensures exists j :: 0 <= j < |s'.log| && s'.log[j].flight == other
    {
      if other != id {
        var j :| 0 <= j < |s.log| && s.log[j].flight == other;
        assert s'.log[j].flight == other;
      }
    }
  }

  /** The answered request is closed and logged. */
  function Logged(s: System, id: nat, clock: real): System
    requires id in s.flights && s.flights[id].answer.Some?
  {
    s.(clock := clock,
       flights := s.flights[id := s.flights[id].(stage := Closed, logged := true)],
       log := s.log + [Entry(id, AnswerRecord(s.flights[id]))])
  }

  lemma KeepsLogged(settings: Settings, backend: Limiter, s: System, id: nat, clock: real)
    requires Inv(settings, backend, s) && id in s.flights && clock >= s.clock
    requires s.flights[id].stage.Answered? && s.flights[id].answer.Some? && !s.flights[id].logged
    ensures Inv(settings, backend, Logged(s, id, clock))
  {
    var s', flight := Logged(s, id, clock), s.flights[id].(stage := Closed, logged := true);
    assert FlightOk(settings, s.flights[id]);
    KeepsFlights(settings, s, id, flight);
    KeepsTickets(settings, s, id, flight);
    KeepsLog(s, s', id);
    forall other | other in s'.flights ensures FlightOk(settings, s'.flights[other]) && TicketOk(settings, s', other) {
      var s1 := s.(flights := s.flights[id := flight]);
      assert FlightOk(settings, s1.flights[other]) && TicketOk(settings, s1, other);
    }
  }

  lemma KeepsClosing(settings: Settings, backend: Limiter, s: System, id: nat, clock: real, outcome: HandlerOutcome)
    requires Inv(settings, backend, s) && id in s.flights && clock >= s.clock
    requires s.flights[id].stage.Answered?
    ensures Inv(settings, backend, MoveOn(settings, s.(clock := clock), id, clock, NoFault, outcome))
  {
    assert FlightOk(settings, s.flights[id]);
    KeepsLogged(settings, backend, s, id, clock);
  }

  lemma KeepsNewFlight(settings: Settings, backend: Limiter, s: System, id: nat, flight: Flight)
    requires Inv(settings, backend, s) && id !in s.flights && FlightOk(settings, flight)
    requires flight.rate.None? && flight.ticket.None? && !flight.logged
    ensures Inv(settings, backend, s.(flights := s.flights[id := flight]))
  {
    var s' := s.(flights := s.flights[id := flight]);
    KeepsFlights(settings, s, id, flight);
    forall other | other in s'.flights ensures TicketOk(settings, s', other) {
      if other != id {
        assert TicketOk(settings, s, other);
      }
    }
  }

  lemma KeepsArrival(settings: Settings, backend: Limiter, s: System, id: nat, request: Request, freshId: string)
    requires Inv(settings, backend, s) && id !in s.flights && |freshId| == UUID_LENGTH
    ensures Inv(settings, backend, Next(settings, s, Arrive(id, request, freshId)).value)
  {
    var requestId := ResolveRequestId(request.requestIdHeader, freshId);
    KeepsNewFlight(settings, backend, s, id, Flight(request, requestId, Received, None, None, false, None, false));
  }

  /** What a limiter that holds the history of its calls makes of one more. */
  lemma StepContinues(limiter: Limiter, run: Run, limit: int, key: string, now: real, fault: Fault)
    requires limit >= 1 && Executed(limiter, fault)
    requires limiter == Memory(MemoryAfter(run, limit, |run|)) || limiter == Redis(RedisAfter(run, limit, |run|))
    ensures var (limiter', decision) := LimiterStep(limiter, key, limit, now, fault);
            var run' := run + [Call(key, now)];
            limiter' == (if limiter.Memory? then Memory(MemoryAfter(run', limit, |run'|))
                         else Redis(RedisAfter(run', limit, |run'|))) &&
            (decision == Allowed ==> Rank(run', |run|) <= limit) &&
            (decision == Refused ==> Rank(run', |run|) > limit)
  {
    var run' := run + [Call(key, now)];
    LimitersOfPrefix(run, Call(key, now), limit, |run|);
    MemoryExact(run', limit, |run|);
    RedisExact(run', limit, |run|);
  }

  /** A limiter call continues the recorded history and decides by rank. */
  lemma LimiterCallDecides(settings: Settings, backend: Limiter, s: System, key: string, now: real, fault: Fault)
    requires LimiterOk(settings, backend, s) && settings.requestsPerMinute >= 1 && now >= s.clock
    ensures var (limiter, decision) := LimiterStep(s.limiter, key, settings.requestsPerMinute, now, fault);
            var calls := if Executed(s.limiter, fault) then s.calls + [Call(key, now)] else s.calls;
            LimiterOk(settings, backend, s.(limiter := limiter, calls := calls, clock := now)) &&
            (!Executed(s.limiter, fault) ==> decision == Unavailable) &&
            (decision == Allowed ==> Rank(calls, |s.calls|) <= settings.requestsPerMinute) &&
            (decision == Refused ==> Rank(calls, |s.calls|) > settings.requestsPerMinute)
  {
    if Executed(s.limiter, fault) {
      StepContinues(s.limiter, s.calls, settings.requestsPerMinute, key, now, fault);
    }
  }

  /** Another request's call leaves the tickets already handed out as they were. */
  lemma TicketsKept(settings: Settings, s: System, s': System, id: nat, call: Call, owner: nat)
    requires id in s.flights && TicketOk(settings, s, id)
    requires id in s'.flights && s'.flights[id] == s.flights[id]
    requires s'.calls == s.calls + [call] && s'.owners == s.owners + [owner]
    ensures TicketOk(settings, s', id)
  {
    var ticket := s.flights[id].ticket;
    if ticket.Some? {
      RankOfPrefix(s.calls, call, ticket.value);
    }
  }

  lemma JudgedFlightOk(settings: Settings, flight: Flight, decision: Decision, ticket: Option<nat>)
    requires FlightOk(settings, flight) && flight.stage.KeyPassed? && Limited(settings, flight.request)
    ensures var flight' := Judge(flight.(rate := Some(decision), ticket := ticket), RateVerdict(decision), RatePassed);
            FlightOk(settings, flight') && flight'.request == flight.request && flight'.rate == Some(decision) &&
            flight'.ticket == ticket && !flight'.logged
  {
  }

  /** The request that made the call holds its ticket. */
  lemma OwnTicket(settings: Settings, backend: Limiter, s: System, id: nat, now: real, fault: Fault)
    requires LimiterOk(settings, backend, s) && OwnersOk(s) && settings.requestsPerMinute >= 1 && now >= s.clock
    requires id in s.flights && s.flights[id].stage.KeyPassed? && Limited(settings, s.flights[id].request)
    requires FlightOk(settings, s.flights[id])
    ensures var s' := CheckRate(settings, s.(clock := now), id, now, fault);
            LimiterOk(settings, backend, s') && FlightOk(settings, s'.flights[id]) && TicketOk(settings, s', id)
  {
    var key := RequestKey(s.flights[id].request);
    var decision := LimiterStep(s.limiter, key, settings.requestsPerMinute, now, fault).1;
    LimiterCallDecides(settings, backend, s, key, now, fault);
    JudgedFlightOk(settings, s.flights[id], decision, if Executed(s.limiter, fault) then Some(|s.calls|) else None);
  }

  /** No other request loses its call, and this one had none. */
  lemma CallOwners(settings: Settings, s: System, id: nat, now: real, fault: Fault)
    requires OwnersOk(s) && id in s.flights && s.flights[id].ticket.None?
    ensures OwnersOk(CheckRate(settings, s.(clock := now), id, now, fault))
  {
  }

  lemma OthersTickets(settings: Settings, s: System, id: nat, now: real, fault: Fault, other: nat)
    requires id in s.flights && other in s.flights && other != id && TicketOk(settings, s, other)
    ensures TicketOk(settings, CheckRate(settings, s.(clock := now), id, now, fault), other)
  {
    if Executed(s.limiter, fault) {
      TicketsKept(settings, s, CheckRate(settings, s.(clock := now), id, now, fault), other,
        Call(RequestKey(s.flights[id].request), now), id);
    }
  }

  lemma CallLog(settings: Settings, s: System, id: nat, now: real, fault: Fault)
    requires LogOk(s) && id in s.flights && !s.flights[id].logged
    ensures LogOk(CheckRate(settings, s.(clock := now), id, now, fault))
  {
    var s' := CheckRate(settings, s.(clock := now), id, now, fault);
    assert s'.flights == s.flights[id := s'.flights[id]] && !s'.flights[id].logged;
    KeepsUnlogged(s, id, s'.flights[id]);
  }

  /** The limiter call of one request: the only step that touches the limiter. */
  lemma KeepsLimiterCall(settings: Settings, backend: Limiter, s: System, id: nat, now: real, fault: Fault)
    requires Inv(settings, backend, s) && settings.requestsPerMinute >= 1
    requires id in s.flights && s.flights[id].stage.KeyPassed? && Limited(settings, s.flights[id].request)
    requires now >= s.clock
    ensures Inv(settings, backend, CheckRate(settings, s.(clock := now), id, now, fault))
  {
    var s' := CheckRate(settings, s.(clock := now), id, now, fault);
    assert FlightOk(settings, s.flights[id]);
    OwnTicket(settings, backend, s, id, now, fault);
    CallOwners(settings, s, id, now, fault);
    CallLog(settings, s, id, now, fault);
    forall other | other in s'.flights ensures FlightOk(settings, s'.flights[other]) && TicketOk(settings, s', other) {
      if other != id {
        assert FlightOk(settings, s.flights[other]) && TicketOk(settings, s, other);
        OthersTickets(settings, s, id, now, fault, other);
      }
    }
  }

  /** An abandoned call is recorded like any other, but decides nothing. */
  lemma CutLimiterOk(settings: Settings, backend: Limiter, s: System, id: nat, now: real)
    requires LimiterOk(settings, backend, s) && OwnersOk(s) && settings.requestsPerMinute >= 1 && now >= s.clock
    requires id in s.flights && FlightOk(settings, s.flights[id]) && AwaitsStore(settings, s, id)
    ensures var s' := CutCall(settings, s, id, now);
            LimiterOk(settings, backend, s') && OwnersOk(s') &&
            FlightOk(settings, s'.flights[id]) && TicketOk(settings, s', id)
  {
    LimiterCallDecides(settings, backend, s, RequestKey(s.flights[id].request), now, ReplyLost);
  }

  lemma KeepsCutCall(settings: Settings, backend: Limiter, s: System, id: nat, now: real)
    requires Inv(settings, backend, s) && settings.requestsPerMinute >= 1 && now >= s.clock
    requires id in s.flights && AwaitsStore(settings, s, id)
    ensures Inv(settings, backend, CutCall(settings, s, id, now))
  {
    var s' := CutCall(settings, s, id, now);
    assert FlightOk(settings, s.flights[id]);
    CutLimiterOk(settings, backend, s, id, now);
    KeepsUnlogged(s, id, s'.flights[id]);
    forall other | other in s'.flights ensures FlightOk(settings, s'.flights[other]) && TicketOk(settings, s', other) {
      if other != id {
        assert FlightOk(settings, s.flights[other]) && TicketOk(settings, s, other);
        TicketsKept(settings, s, s', other, Call(RequestKey(s.flights[id].request), now), id);
      }
    }
  }

  lemma QuietMoveOk(settings: Settings, flight: Flight, outcome: HandlerOutcome)
    requires FlightOk(settings, flight) && !flight.stage.Answered?
    requires flight.stage.KeyPassed? ==> !Limited(settings, flight.request)
    ensures var flight' := QuietMove(settings, flight, outcome);
            FlightOk(settings, flight') && flight'.request == flight.request && flight'.logged == flight.logged &&
            flight'.rate == flight.rate && flight'.ticket == flight.ticket
  {
  }

  lemma KeepsMove(settings: Settings, backend: Limiter, s: System, id: nat, now: real, fault: Fault,
                  outcome: HandlerOutcome)
    requires Inv(settings, backend, s) && settings.requestsPerMinute >= 1
    requires id in s.flights && now >= s.clock
    ensures Inv(settings, backend, MoveOn(settings, s.(clock := now), id, now, fault, outcome))
  {
    var flight := s.flights[id];
    assert FlightOk(settings, flight);
    if flight.stage.Answered? {
      KeepsClosing(settings, backend, s, id, now, outcome);
    } else if flight.stage.KeyPassed? && Limited(settings, flight.request) {
      KeepsLimiterCall(settings, backend, s, id, now, fault);
    } else if flight.stage.Closed? {
      assert s.flights[id := flight] == s.flights;
      KeepsClock(settings, backend, s, now);
    } else {
      QuietMoveOk(settings, flight, outcome);
      KeepsOneFlight(settings, backend, s, id, QuietMove(settings, flight, outcome), now);
    }
  }

  lemma KeepsStep(settings: Settings, backend: Limiter, s: System, step: Step)
    requires Inv(settings, backend, s) && settings.requestsPerMinute >= 1
    requires Next(settings, s, step).Some?
    ensures Inv(settings, backend, Next(settings, s, step).value)
  {
    match step
    case Arrive(id, request, freshId) => KeepsArrival(settings, backend, s, id, request, freshId);
    case Move(id, now, fault, outcome) => KeepsMove(settings, backend, s, id, now, fault, outcome);
    case Abandon(id) =>
      assert FlightOk(settings, s.flights[id]);
      KeepsOneFlight(settings, backend, s, id, s.flights[id].(stage := Closed), s.clock);
    case AbandonCall(id, now) => KeepsCutCall(settings, backend, s, id, now);
  }

  /** Every run keeps the invariant, and so every state reached from an empty store has it. */
  lemma {:induction false} KeepsRun(settings: Settings, backend: Limiter, s: System, steps: seq<Step>)
    requires Inv(settings, backend, s) && settings.requestsPerMinute >= 1
    requires Exec(settings, s, steps).Some?
    ensures Inv(settings, backend, Exec(settings, s, steps).value)
    decreases |steps|
  {
    if steps == [] {
    } else {
      KeepsStep(settings, backend, s, steps[0]);
      KeepsRun(settings, backend, Next(settings, s, steps[0]).value, steps[1..]);
    }
  }

  lemma Reachable(settings: Settings, backend: Limiter, clock: real, steps: seq<Step>)
    requires Empty(backend) && settings.requestsPerMinute >= 1
    requires Exec(settings, Initial(backend, clock), steps).Some?
    ensures Inv(settings, backend, Exec(settings, Initial(backend, clock), steps).value)
  {
    KeepsRun(settings, backend, Initial(backend, clock), steps);
  }
}
