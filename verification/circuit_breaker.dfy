/** The circuit breaker in front of the protocol gateway: a three-state machine that turns out to be a
    function of the history of requests. Times are milliseconds. */
module CircuitBreaking {
  import opened Wrappers

  datatype CircuitState = CLOSED | OPEN | HALF_OPEN

  const FAILURE_THRESHOLD := 5
  const COOLDOWN_MS := 30_000

  /** The module-level variables. */
  datatype Breaker = Breaker(state: CircuitState, failures: nat, lastFailureTime: int)

  const INITIAL := Breaker(CLOSED, 0, 0)

  /** What happens to a breaker: gated requests are checked, and outcomes are recorded, those of ungated
      and of late requests too. */
  datatype Event = Check(now: int) | Success(now: int) | Failure(now: int)

  function Rejects(b: Breaker, now: int): bool { b.state == OPEN && now - b.lastFailureTime < COOLDOWN_MS }

  function Next(b: Breaker, e: Event): Breaker {
    match e
    case Check(now) =>
      if b.state == OPEN && !Rejects(b, now) then Breaker(HALF_OPEN, b.failures, b.lastFailureTime) else b
    case Success(_) => Breaker(CLOSED, 0, b.lastFailureTime)
    case Failure(now) =>
      Breaker(if b.state == HALF_OPEN || b.failures + 1 >= FAILURE_THRESHOLD then OPEN else b.state,
              b.failures + 1, now)
  }

  function After(events: seq<Event>): Breaker {
    if events == [] then INITIAL else Next(After(events[..|events| - 1]), events[|events| - 1])
  }

  // ----- What the history says

  /** The length of the trailing run of failures. */
  function Trailing(events: seq<Event>): nat {
    if events == [] then 0
    else
      var (rest, e) := (events[..|events| - 1], events[|events| - 1]);
      if e.Failure? then Trailing(rest) + 1 else if e.Success? then 0 else Trailing(rest)
  }

  function LastFailure(events: seq<Event>): int {
    if events == [] then 0
    else
      var (rest, e) := (events[..|events| - 1], events[|events| - 1]);
      if e.Failure? then e.now else LastFailure(rest)
  }

  /** A request has been let through as a probe since the latest failure. */
  function Probed(events: seq<Event>): bool {
    if events == [] then false
    else
      var (rest, e) := (events[..|events| - 1], events[|events| - 1]);
      if e.Failure? then false
      else Probed(rest) || (e.Check? && e.now - LastFailure(rest) >= COOLDOWN_MS)
  }

  /** The machine is a function of the history, whatever the clock does. */
  lemma {:induction false} MachineIsHistory(events: seq<Event>)
    ensures After(events).failures == Trailing(events)
    ensures After(events).lastFailureTime == LastFailure(events)
    ensures After(events).state == CLOSED <==> Trailing(events) < 5
    ensures Trailing(events) >= 5 ==> (After(events).state == HALF_OPEN <==> Probed(events))
  {
    if events != [] {
      MachineIsHistory(events[..|events| - 1]);
      if Trailing(events) == FAILURE_THRESHOLD && events[|events| - 1].Check? {
        assert Trailing(events[..|events| - 1]) == FAILURE_THRESHOLD;
      }
    }
  }

  /** So a gated request is rejected exactly when there have been five failures in a row, the latest less
      than thirty seconds ago, and no probe since. */
  lemma RejectedIff(events: seq<Event>, now: int)
    ensures Rejects(After(events), now) <==>
            Trailing(events) >= 5 && now - LastFailure(events) < 30_000 && !Probed(events)
  {
    MachineIsHistory(events);
  }

  // ----- A clock that does not run backwards

  predicate Monotone(events: seq<Event>, now: int) {
    (forall i, j :: 0 <= i < j < |events| ==> events[i].now <= events[j].now) &&
    (forall i :: 0 <= i < |events| ==> events[i].now <= now)
  }

  lemma {:induction false} ProbedMeansCooledDown(events: seq<Event>, now: int)
    requires Monotone(events, now) && Probed(events)
    ensures now - LastFailure(events) >= COOLDOWN_MS
  {
    var n := |events| - 1;
    assert Monotone(events[..n], now);
    if Probed(events[..n]) { ProbedMeansCooledDown(events[..n], now); }
  }

  /** Then the probe does not matter: the breaker is stateless. */
  lemma RejectedIffRecentFailures(events: seq<Event>, now: int)
    requires Monotone(events, now)
    ensures Rejects(After(events), now) <==>
            Trailing(events) >= 5 && now - LastFailure(events) < 30_000
  {
    RejectedIff(events, now);
    if Probed(events) { ProbedMeansCooledDown(events, now); }
  }

  /** The state that getCircuitBreakerState reports. */
  function Reported(b: Breaker, now: int): CircuitState {
    if b.state == OPEN && now - b.lastFailureTime >= COOLDOWN_MS then HALF_OPEN else b.state
  }

  /** The read-only view agrees with what the next gated request will find. */
  lemma ReportAgrees(events: seq<Event>, now: int)
    ensures Reported(After(events), now) == Next(After(events), Check(now)).state
    ensures Reported(After(events), now) == OPEN <==> Rejects(After(events), now)
    ensures Monotone(events, now) ==>
              Reported(After(events), now) == if Trailing(events) < FAILURE_THRESHOLD then CLOSED
                                              else if now - LastFailure(events) < COOLDOWN_MS then OPEN
                                              else HALF_OPEN
  {
    MachineIsHistory(events);
    if Monotone(events, now) { RejectedIffRecentFailures(events, now); }
  }

  lemma FiveFailures()
    ensures var f := [Failure(0), Failure(0), Failure(0), Failure(0), Failure(0)];
            Trailing(f) == 5 && LastFailure(f) == 0
  {
    var f := [Failure(0), Failure(0), Failure(0), Failure(0), Failure(0)];
    assert Trailing(f[..0]) == 0;
    for n := 1 to 6
      invariant Trailing(f[..n - 1]) == n - 1
    {
      assert f[..n][..n - 1] == f[..n - 1];
    }
    assert f[..5] == f;
  }

  /** When the clock is set back after a probe, the machine lets requests through that the stateless rule
      would reject. */
  lemma ClockSetBack()
    ensures var events := [Failure(0), Failure(0), Failure(0), Failure(0), Failure(0), Check(COOLDOWN_MS)];
            Trailing(events) >= FAILURE_THRESHOLD && 1 - LastFailure(events) < COOLDOWN_MS && !Rejects(After(events), 1)
  {
    FiveFailures();
    var f := [Failure(0), Failure(0), Failure(0), Failure(0), Failure(0)];
    var events := f + [Check(COOLDOWN_MS)];
    assert events == [Failure(0), Failure(0), Failure(0), Failure(0), Failure(0), Check(COOLDOWN_MS)];
    assert events[..5] == f;
    assert Probed(events);
    MachineIsHistory(events);
  }

  // ----- The breaker object

  datatype Response = Response(status: int, bodyReadable: bool)

  predicate IsOk(status: int) { 200 <= status < 300 }

  predicate IsSuccess(r: Response) { IsOk(r.status) || (r.bodyReadable && r.status < 500) }

  /** A request as it ended, if it got a response, and when. */
  datatype Ended = Ended(response: Option<Response>, now: int)

  /** The gateway is to blame: no response, a status of 500 or more, or a status outside of 200 to 299 with a
      body that cannot be read. */
  predicate Blamed(e: Ended) {
    match e.response
    case None => true
    case Some(r) => r.status >= 500 || (!r.bodyReadable && !(200 <= r.status <= 299))
  }

  function Settled(e: Ended): Event {
    if e.response.Some? && IsSuccess(e.response.value) then Success(e.now) else Failure(e.now)
  }

  function AllSettled(ended: seq<Ended>): (events: seq<Event>)
    ensures |events| == |ended|
  {
    seq(|ended|, i requires 0 <= i < |ended| => Settled(ended[i]))
  }

  /** How many requests at the end of the sequence the gateway is to blame for, without one in between for
      which it is not. */
  function BlamedLast(ended: seq<Ended>): nat {
    if ended == [] || !Blamed(ended[|ended| - 1]) then 0 else 1 + BlamedLast(ended[..|ended| - 1])
  }

  /** Whatever the clock does, the breaker is closed after settled requests exactly when fewer than the last
      five were the gateway's fault. */
  lemma {:induction false} ClosedUnlessBlamed(ended: seq<Ended>)
    ensures Trailing(AllSettled(ended)) == BlamedLast(ended)
    ensures After(AllSettled(ended)).state == CLOSED <==> BlamedLast(ended) < 5
  {
    if ended != [] {
      var front := ended[..|ended| - 1];
      ClosedUnlessBlamed(front);
      assert AllSettled(ended)[..|ended| - 1] == AllSettled(front);
    }
    MachineIsHistory(AllSettled(ended));
  }

  class CircuitBreaker {
    var circuitState: CircuitState
    var consecutiveFailures: nat
    var lastFailureTime: int
    ghost var history: seq<Event>

    ghost predicate Valid()
      reads this
    {
      Breaker(circuitState, consecutiveFailures, lastFailureTime) == After(history)
    }

    constructor ()
      ensures Valid() && history == []
    {
      circuitState, consecutiveFailures, lastFailureTime, history := CLOSED, 0, 0, [];
    }

    ghost function Extended(e: Event): seq<Event>
      reads this
      ensures After(Extended(e)) == Next(After(history), e)
    {
      assert (history + [e])[..|history|] == history;
      history + [e]
    }

    method CheckCircuitBreaker(now: int) returns (rejected: bool)
      requires Valid()
      modifies this
      ensures Valid() && history == old(history) + [Check(now)]
      ensures rejected <==> Trailing(old(history)) >= FAILURE_THRESHOLD && !Probed(old(history)) &&
                            now - LastFailure(old(history)) < COOLDOWN_MS
    {
      RejectedIff(history, now);
      rejected := false;
      if circuitState == OPEN {
        if now - lastFailureTime >= COOLDOWN_MS {
          circuitState := HALF_OPEN;
        } else {
          rejected := true;
        }
      }
      history := Extended(Check(now));
    }

    method RecordSuccess(now: int)
      requires Valid()
      modifies this
      ensures Valid() && history == old(history) + [Success(now)] && circuitState == CLOSED
    {
      circuitState, consecutiveFailures := CLOSED, 0;
      history := Extended(Success(now));
    }

    method RecordFailure(now: int)
      requires Valid()
      modifies this
      ensures Valid() && history == old(history) + [Failure(now)]
      ensures circuitState == OPEN <==> Trailing(history) >= FAILURE_THRESHOLD
    {
      history := Extended(Failure(now));
      MachineIsHistory(history);
      consecutiveFailures, lastFailureTime := consecutiveFailures + 1, now;
      if circuitState == HALF_OPEN {
        circuitState := OPEN;
        return;
      }
      if consecutiveFailures >= FAILURE_THRESHOLD {
        circuitState := OPEN;
      }
    }

    method GetCircuitBreakerState(now: int) returns (state: CircuitState, failures: nat)
      requires Valid()
      ensures state == Reported(After(history), now) && failures == Trailing(history)
    {
      MachineIsHistory(history);
      failures := consecutiveFailures;
      state := circuitState;
      if circuitState == OPEN && now - lastFailureTime >= COOLDOWN_MS {
        state := HALF_OPEN;
      }
    }

    /** What a proxied request records when it ends. Without a response the network failed; the body of a
        response that is not ok is read before its status is looked at, and may fail as well; and a status
        below 500 is no failure of the gateway. */
    method Settle(response: Option<Response>, now: int)
      requires Valid()
      modifies this
      ensures Valid()
      ensures history == old(history) +
                    [if response.Some? && IsSuccess(response.value) then Success(now) else Failure(now)]
    {
      if response.None? {
        RecordFailure(now);
        return;
      }
      var r := response.value;
      if !IsOk(r.status) {
        if !r.bodyReadable || r.status >= 500 {
          RecordFailure(now);
          return;
        }
      }
      RecordSuccess(now);
    }
  }
}
