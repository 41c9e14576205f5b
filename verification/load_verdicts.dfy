/** What load shaping decides about each operation, over every run: who is turned away and why, who runs,
    in which order waiting requests are served, and when brownout begins and ends. */
module LoadVerdicts {
  import opened Wrappers
  import opened LoadShaping
  import opened LoadAccounting

  // ----- Reasons

  datatype Reason =
    | ContextOver | BreakerOpened | InBrownout | EndpointFull | LoadTooHigh | QueueFull
    | ExpiredInQueue | BreakerOpenedInQueue

  function Because(condition: bool, r: Reason): Option<Reason> { if condition then Some(r) else None }

  /** Why the step turns operation i away, if it does. Only telemetry is turned away for the load: in
      brownout, at its endpoint's limit, or at the threshold. */
  function Refusal(c: Config, s: State, step: Step, i: nat): Option<Reason>
    requires i < |s.ops|
  {
    var (op, l) := (s.ops[i], s.load);
    if step.Caller? && step.i == i then
      match op.pc
      case AtContext => Because(op.expired, ContextOver)
      case AtBreaker => Because(op.session.Some? && step.breakerOpen, BreakerOpened)
      case AtBrownout => Because(op.priority == Telemetry && l.brownout, InBrownout)
      case AtEndpoint =>
        Because(op.priority == Telemetry && c.perEndpoint > 0 && op.session.Some? &&
                op.session.value < |l.sessions| && c.perEndpoint <= l.sessions[op.session.value], EndpointFull)
      case AtLoad => Because(op.priority == Telemetry && Threshold(c) <= l.global, LoadTooHigh)
      case Enqueuing => Because(c.queueSize <= |QueueOf(s.queues, op.priority)|, QueueFull)
      case _ => None
    else if step.Work? && step.w < |s.workers| && s.workers[step.w] == Busy(i) then
      match op.pc
      case AtWorkerContext => Because(op.expired, ExpiredInQueue)
      case AtWorkerBreaker => Because(op.session.Some? && step.breakerOpen, BreakerOpenedInQueue)
      case _ => None
    else None
  }

  /** The first reason for which a run turns operation i away. */
  ghost function ReasonFor(c: Config, s: State, steps: seq<Step>, i: nat): Option<Reason>
    requires i < |s.ops|
    decreases |steps|
  {
    if steps == [] || !Enabled(c, s, steps[0]) then None
    else if Refusal(c, s, steps[0], i).Some? then Refusal(c, s, steps[0], i)
    else OpsRemain(c, s, steps[0]); ReasonFor(c, Apply(c, s, steps[0]), steps[1..], i)
  }

  lemma OpsRemain(c: Config, s: State, step: Step)
    requires Enabled(c, s, step)
    ensures |s.ops| <= |Apply(c, s, step).ops|
  {
  }

  /** Where an operation can be that has not been turned away, or has been for this reason. */
  predicate Fits(op: Op, reason: Option<Reason>) {
    match reason
    case None =>
      && !op.pc.Entering? && !op.pc.Setting? && !op.pc.Rolling? && !op.pc.RollingSession?
      && (op.pc.Resolving? ==> op.pc.outcome == Completed)
      && (op.pc.Dropping? || op.pc.DroppingSession? ==> op.results == [Completed])
      && (op.pc.Finished? ==> op.ran == 1 && (op.results == [] || op.results == [Completed]))
    case Some(LoadTooHigh) => op.ran == 0 && op.results == [] && (op.pc.Entering? || op.pc.Setting? || op.pc.Finished?)
    case Some(QueueFull) =>
      op.ran == 0 && op.results == [] && (op.pc.Rolling? || op.pc.RollingSession? || op.pc.Finished?)
    case Some(ExpiredInQueue) => FailedInQueue(op, Expired)
    case Some(BreakerOpenedInQueue) => FailedInQueue(op, BreakerOpen)
    case Some(_) => op.ran == 0 && op.results == [] && op.pc.Finished?
  }

  predicate FailedInQueue(op: Op, o: Outcome) {
    && op.ran == 0
    && ((op.pc == Resolving(o) && op.results == []) ||
        ((op.pc.Dropping? || op.pc.DroppingSession? || op.pc.Finished?) && op.results == [o]))
  }

  lemma CallerFits(c: Config, s: State, i: nat, open: bool, reason: Option<Reason>)
    requires CanCaller(s, i) && Answered(s.ops[i]) && Fits(s.ops[i], reason)
    ensures Fits(DoCaller(c, s, i, open).ops[i],
                 if reason.Some? then reason else Refusal(c, s, Caller(i, open), i))
  {
  }

  lemma WorkerFits(c: Config, s: State, w: nat, open: bool, reason: Option<Reason>)
    requires CanWork(s, w) && Answered(s.ops[s.workers[w].op]) && Fits(s.ops[s.workers[w].op], reason)
    ensures var i := s.workers[w].op;
            Fits(DoWork(s, w, open).ops[i], if reason.Some? then reason else Refusal(c, s, Work(w, open), i))
  {
  }

  lemma StepFits(c: Config, s: State, step: Step, i: nat, reason: Option<Reason>)
    requires Inv(c, s) && Enabled(c, s, step) && i < |s.ops| && Fits(s.ops[i], reason)
    ensures i < |Apply(c, s, step).ops|
    ensures Fits(Apply(c, s, step).ops[i], if reason.Some? then reason else Refusal(c, s, step, i))
  {
    assert OpOk(c, s.log.loads, s.ops[i]);
    if !Own(s, step, i) {
      OthersLeaveIt(c, s, step, i);
    } else if step.Caller? {
      CallerFits(c, s, i, step.breakerOpen, reason);
    } else {
      WorkerFits(c, s, step.w, step.breakerOpen, reason);
    }
  }

  lemma {:induction false} RunFits(c: Config, s: State, steps: seq<Step>, s': State, i: nat, reason: Option<Reason>)
    requires Inv(c, s) && Run(c, s, steps, s') && i < |s.ops| && Fits(s.ops[i], reason)
    ensures i < |s'.ops| && Fits(s'.ops[i], if reason.Some? then reason else ReasonFor(c, s, steps, i))
    decreases |steps|
  {
    if steps != [] {
      var next := Apply(c, s, steps[0]);
      InvIsKept(c, s, steps[0]);
      StepFits(c, s, steps[0], i, reason);
      RunFits(c, next, steps[1..], s', i, if reason.Some? then reason else Refusal(c, s, steps[0], i));
    }
  }

  /** An operation that has just arrived. */
  predicate New(op: Op) { op.pc.AtContext? && op.ran == 0 && op.results == [] }

  /** What the two have to do with each other in the end. */
  predicate Verdict(op: Op, reason: Option<Reason>) {
    && op.ran == (if reason.None? then 1 else 0)
    && (op.results != [] && reason.None? ==> op.results == [Completed])
    && (reason == Some(ExpiredInQueue) ==> op.results == [Expired])
    && (reason == Some(BreakerOpenedInQueue) ==> op.results == [BreakerOpen])
    && (reason.Some? && reason.value != ExpiredInQueue && reason.value != BreakerOpenedInQueue ==> op.results == [])
  }

  lemma FinishedFits(op: Op, reason: Option<Reason>)
    requires Fits(op, reason) && op.pc.Finished?
    ensures Verdict(op, reason)
  {
  }

  /** Every operation that finishes has run exactly once, unless it was turned away; then it has not run.
      A queued request is answered with its result, or with the reason. */
  lemma VerdictIsExact(c: Config, s: State, steps: seq<Step>, s': State, i: nat)
    requires Inv(c, s) && Run(c, s, steps, s') && i < |s.ops| && New(s.ops[i])
    ensures i < |s'.ops|
    ensures s'.ops[i].pc.Finished? ==> Verdict(s'.ops[i], ReasonFor(c, s, steps, i))
  {
    RunFits(c, s, steps, s', i, None);
    if s'.ops[i].pc.Finished? { FinishedFits(s'.ops[i], ReasonFor(c, s, steps, i)); }
  }

  // ----- Control and safety operations

  /** Operation i never expires in the run, meets no open breaker, and finds room in its queue. */
  ghost predicate Spared(c: Config, s: State, steps: seq<Step>, i: nat)
    requires i < |s.ops|
    decreases |steps|
  {
    && !s.ops[i].expired
    && (steps != [] && Enabled(c, s, steps[0]) ==>
          && (steps[0].Caller? && steps[0].i == i ==> !steps[0].breakerOpen)
          && (steps[0].Caller? && steps[0].i == i && s.ops[i].pc.Enqueuing? ==>
                |QueueOf(s.queues, s.ops[i].priority)| < c.queueSize)
          && (steps[0].Work? && s.workers[steps[0].w] == Busy(i) ==> !steps[0].breakerOpen)
          && (OpsRemain(c, s, steps[0]); Spared(c, Apply(c, s, steps[0]), steps[1..], i)))
  }

  lemma SameOperation(c: Config, s: State, step: Step, i: nat)
    requires Enabled(c, s, step) && i < |s.ops|
    ensures i < |Apply(c, s, step).ops| && Apply(c, s, step).ops[i].priority == s.ops[i].priority
    ensures Apply(c, s, step).ops[i].session == s.ops[i].session
  {
  }

  lemma {:induction false} SparedHasNoReason(c: Config, s: State, steps: seq<Step>, i: nat)
    requires i < |s.ops| && Spared(c, s, steps, i) && s.ops[i].priority != Telemetry
    ensures ReasonFor(c, s, steps, i).None?
    decreases |steps|
  {
    if steps != [] && Enabled(c, s, steps[0]) {
      SameOperation(c, s, steps[0], i);
      SparedHasNoReason(c, Apply(c, s, steps[0]), steps[1..], i);
    }
  }

  /** No load whatever keeps a control or safety operation from running: it has run once when it finishes,
      unless it expired, met an open breaker, or found its queue full. */
  lemma UrgentOperationsRun(c: Config, s: State, steps: seq<Step>, s': State, i: nat)
    requires Inv(c, s) && Run(c, s, steps, s') && i < |s.ops| && New(s.ops[i])
    requires s.ops[i].priority != Telemetry && Spared(c, s, steps, i)
    ensures i < |s'.ops| && (s'.ops[i].pc.Finished? ==> s'.ops[i].ran == 1)
  {
    VerdictIsExact(c, s, steps, s', i);
    SparedHasNoReason(c, s, steps, i);
  }

  // ----- Telemetry in brownout

  ghost predicate AlwaysInBrownout(c: Config, s: State, steps: seq<Step>)
    decreases |steps|
  {
    s.load.brownout && (steps != [] && Enabled(c, s, steps[0]) ==>
                          AlwaysInBrownout(c, Apply(c, s, steps[0]), steps[1..]))
  }

  predicate BeforeBrownoutCheck(op: Op) {
    op.ran == 0 && op.results == [] && (op.pc.AtContext? || op.pc.AtBreaker? || op.pc.AtBrownout? || op.pc.Finished?)
  }

  lemma BrownoutStep(c: Config, s: State, step: Step, i: nat)
    requires Inv(c, s) && Enabled(c, s, step) && i < |s.ops| && s.load.brownout
    requires s.ops[i].priority == Telemetry && BeforeBrownoutCheck(s.ops[i])
    ensures i < |Apply(c, s, step).ops| && BeforeBrownoutCheck(Apply(c, s, step).ops[i])
  {
    if step.Receive? { HeadIsQueued(c, s, step.from_); }
  }

  /** Telemetry that arrives in brownout, while brownout lasts, never runs and is never counted. */
  lemma {:induction false} NoTelemetryInBrownout(c: Config, s: State, steps: seq<Step>, s': State, i: nat)
    requires Inv(c, s) && Run(c, s, steps, s') && AlwaysInBrownout(c, s, steps)
    requires i < |s.ops| && s.ops[i].priority == Telemetry && BeforeBrownoutCheck(s.ops[i])
    ensures i < |s'.ops| && s'.ops[i].ran == 0
    ensures InFlight(s'.ops[i], 0) == 0 && forall k :: InFlightOn(s'.ops[i], k) == 0
    ensures BeforeBrownoutCheck(s'.ops[i])
    decreases |steps|
  {
    if steps != [] {
      InvIsKept(c, s, steps[0]);
      BrownoutStep(c, s, steps[0], i);
      SameOperation(c, s, steps[0], i);
      NoTelemetryInBrownout(c, Apply(c, s, steps[0]), steps[1..], s', i);
    }
  }

  // ----- When brownout begins and ends

  /** The threshold is the whole part of the fraction of the limit. */
  lemma ThresholdIs(c: Config)
    requires c.brownoutAt >= 0.0
    ensures Threshold(c) >= 0
    ensures Threshold(c) as real <= c.max as real * c.brownoutAt < (Threshold(c) + 1) as real
    ensures Half(Threshold(c)) == Threshold(c) / 2
  {
    assert c.max as real * c.brownoutAt >= 0.0;
  }

  ghost predicate BrownoutSometime(c: Config, s: State, steps: seq<Step>)
    decreases |steps|
  {
    s.load.brownout || (steps != [] && Enabled(c, s, steps[0]) &&
                        BrownoutSometime(c, Apply(c, s, steps[0]), steps[1..]))
  }

  ghost predicate ClearSometime(c: Config, s: State, steps: seq<Step>)
    decreases |steps|
  {
    !s.load.brownout || (steps != [] && Enabled(c, s, steps[0]) &&
                         ClearSometime(c, Apply(c, s, steps[0]), steps[1..]))
  }

  lemma EnteringStep(c: Config, s: State, step: Step, i: nat)
    requires Inv(c, s) && Enabled(c, s, step) && i < |s.ops| && (s.ops[i].pc.Entering? || s.ops[i].pc.Setting?)
    ensures i < |Apply(c, s, step).ops|
    ensures var next := Apply(c, s, step);
            next.ops[i].pc.Entering? || next.ops[i].pc.Setting? || s.load.brownout || next.load.brownout
  {
    if !Own(s, step, i) { OthersLeaveIt(c, s, step, i); }
  }

  lemma AdmittedStep(c: Config, s: State, step: Step, i: nat, seen: int)
    requires Inv(c, s) && Enabled(c, s, step) && i < |s.ops| && AboutToRun(s.ops[i].pc, seen)
    requires seen < Half(Threshold(c))
    ensures i < |Apply(c, s, step).ops|
    ensures var next := Apply(c, s, step);
            AboutToRun(next.ops[i].pc, seen) || !s.load.brownout || !next.load.brownout
  {
    if !Own(s, step, i) { OthersLeaveIt(c, s, step, i); }
  }

  /** Telemetry that is turned away for the load does not finish before brownout is on. */
  lemma {:induction false} HighLoadBringsBrownout(c: Config, s: State, steps: seq<Step>, s': State, i: nat)
    requires Inv(c, s) && Run(c, s, steps, s') && i < |s.ops| && (s.ops[i].pc.Entering? || s.ops[i].pc.Setting?)
    requires i < |s'.ops| && s'.ops[i].pc.Finished?
    ensures BrownoutSometime(c, s, steps)
    decreases |steps|
  {
    var next := Apply(c, s, steps[0]);
    InvIsKept(c, s, steps[0]);
    EnteringStep(c, s, steps[0], i);
    if next.ops[i].pc.Entering? || next.ops[i].pc.Setting? {
      HighLoadBringsBrownout(c, next, steps[1..], s', i);
    }
  }

  predicate AboutToRun(pc: Pc, seen: int) {
    pc == Taking(seen) || pc == TakingSession(seen) || pc == Leaving(seen) || pc == Clearing(seen)
  }

  /** An operation that is admitted below half of the threshold does not run before brownout is off. */
  lemma {:induction false} LowLoadEndsBrownout(c: Config, s: State, steps: seq<Step>, s': State, i: nat, seen: int)
    requires Inv(c, s) && Run(c, s, steps, s') && i < |s.ops| && AboutToRun(s.ops[i].pc, seen)
    requires c.brownoutAt >= 0.0 && seen < Threshold(c) / 2 && i < |s'.ops| && !AboutToRun(s'.ops[i].pc, seen)
    ensures ClearSometime(c, s, steps)
    decreases |steps|
  {
    var next := Apply(c, s, steps[0]);
    ThresholdIs(c);
    InvIsKept(c, s, steps[0]);
    AdmittedStep(c, s, steps[0], i, seen);
    if AboutToRun(next.ops[i].pc, seen) {
      LowLoadEndsBrownout(c, next, steps[1..], s', i, seen);
    }
  }

  function Checked(c: Config, s: State): State { DoHealth(c, DoHealth(c, DoHealth(c, s))) }

  /** A health check that nothing comes between makes the flag what the load demands: on at the threshold and
      above, off below half of it, and as it was in between. */
  lemma HealthCheckDecides(c: Config, s: State)
    requires s.health.Resting? && c.brownoutAt >= 0.0
    ensures Checked(c, s).load.brownout ==
            if s.load.global >= Threshold(c) then true
            else if s.load.global < Threshold(c) / 2 then false
            else s.load.brownout
    ensures Checked(c, s).load.global == s.load.global && Checked(c, s).ops == s.ops
  {
    ThresholdIs(c);
  }

  // ----- In which order waiting requests are served

  /** Worker w receives nothing in the run, and in some state of it the queues are empty: that of safety, and
      if `both` that of control too. */
  ghost predicate EmptySometime(c: Config, s: State, steps: seq<Step>, both: bool)
    decreases |steps|
  {
    || (s.queues.safety == [] && (both ==> s.queues.control == []))
    || (steps != [] && Enabled(c, s, steps[0]) && EmptySometime(c, Apply(c, s, steps[0]), steps[1..], both))
  }

  predicate Receives(steps: seq<Step>, w: nat) {
    exists k :: 0 <= k < |steps| && steps[k].Receive? && steps[k].w == w
  }

  /** How far a worker has come that looks for work; one that is at work will start from the top. */
  function Level(w: Worker): nat { if w.Busy? then 1 else w.level }

  lemma WorkerWaits(c: Config, s: State, step: Step, w: nat)
    requires Enabled(c, s, step) && w < |s.workers| && !(step.Receive? && step.w == w)
    ensures var s' := Apply(c, s, step);
            w < |s'.workers| &&
            (Level(s'.workers[w]) == Level(s.workers[w]) ||
             (step == Descend(w) && Level(s'.workers[w]) == Level(s.workers[w]) + 1))
  {
  }

  /** A worker takes a control request only after it has found no safety request waiting since it was done with
      its last request, and telemetry only after it has found neither. */
  lemma {:induction false} UrgentFirst(c: Config, s: State, steps: seq<Step>, s': State, w: nat, p: Priority)
    requires Run(c, s, steps, s') && !Receives(steps, w)
    requires w < |s.workers| && Enabled(c, s', Receive(w, p))
    ensures Level(s.workers[w]) <= 1 && p == Control ==> EmptySometime(c, s, steps, false)
    ensures Level(s.workers[w]) <= 2 && p == Telemetry ==> EmptySometime(c, s, steps, true)
    decreases |steps|
  {
    if steps != [] {
      assert !(steps[0].Receive? && steps[0].w == w);
      WorkerWaits(c, s, steps[0], w);
      forall k | 0 <= k < |steps[1..]| ensures !(steps[1..][k].Receive? && steps[1..][k].w == w) {
        assert steps[1..][k] == steps[k + 1];
      }
      UrgentFirst(c, Apply(c, s, steps[0]), steps[1..], s', w, p);
      if steps[0] == Descend(w) {
        assert Polls(s.workers[w].level, Safety);
        assert s.workers[w].level >= 2 ==> Polls(s.workers[w].level, Control);
      }
    }
  }

  /** While a safety request waits, a worker that looks for work can take it, and one that has just started to
      look can do nothing else. */
  lemma SafetyIsServed(c: Config, s: State, w: nat)
    requires Inv(c, s) && w < |s.workers| && s.workers[w].Polling? && s.queues.safety != []
    ensures Enabled(c, s, Receive(w, Safety))
    ensures s.workers[w].level == 1 ==>
              !Enabled(c, s, Descend(w)) && forall p :: Enabled(c, s, Receive(w, p)) ==> p == Safety
  {
    HeadIsQueued(c, s, Safety);
    assert Polls(s.workers[w].level, Safety);
  }

  /** A worker that looks for work while any request waits can go on. */
  lemma WaitingRequestIsReached(c: Config, s: State, w: nat, p: Priority)
    requires Inv(c, s) && w < |s.workers| && s.workers[w].Polling? && QueueOf(s.queues, p) != []
    ensures Enabled(c, s, Descend(w)) || exists q :: Enabled(c, s, Receive(w, q))
  {
    HeadIsQueued(c, s, p);
    if s.workers[w].level >= 3 {
      assert Enabled(c, s, Receive(w, p));
    } else if !NothingOnLevel(s.queues, s.workers[w].level) {
      var q :| Polls(s.workers[w].level, q) && QueueOf(s.queues, q) != [];
      HeadIsQueued(c, s, q);
      assert Enabled(c, s, Receive(w, q));
    }
  }

  /** The request of priority p that a step leaves in the queue, and the one that it hands to a worker. */
  function Put(c: Config, s: State, step: Step, p: Priority): seq<nat>
    requires Enabled(c, s, step)
  {
    if step.Caller? && s.ops[step.i].pc.Enqueuing? && s.ops[step.i].priority == p &&
       |QueueOf(s.queues, p)| < c.queueSize
    then [step.i] else []
  }

  function Took(c: Config, s: State, step: Step, p: Priority): seq<nat>
    requires Enabled(c, s, step)
  {
    if step.Receive? && step.from_ == p && Apply(c, s, step).workers[step.w].Busy?
    then [Apply(c, s, step).workers[step.w].op] else []
  }

  ghost function AllPut(c: Config, s: State, steps: seq<Step>, p: Priority): seq<nat>
    decreases |steps|
  {
    if steps == [] || !Enabled(c, s, steps[0]) then []
    else Put(c, s, steps[0], p) + AllPut(c, Apply(c, s, steps[0]), steps[1..], p)
  }

  ghost function AllTaken(c: Config, s: State, steps: seq<Step>, p: Priority): seq<nat>
    decreases |steps|
  {
    if steps == [] || !Enabled(c, s, steps[0]) then []
    else Took(c, s, steps[0], p) + AllTaken(c, Apply(c, s, steps[0]), steps[1..], p)
  }

  lemma QueueStep(c: Config, s: State, step: Step, p: Priority)
    requires Enabled(c, s, step)
    ensures Took(c, s, step, p) + QueueOf(Apply(c, s, step).queues, p) == QueueOf(s.queues, p) + Put(c, s, step, p)
  {
    var q := QueueOf(s.queues, p);
    if step.Receive? && step.from_ == p {
      assert [q[0]] + q[1..] == q;
    } else if step.Caller? {
      CallerQueue(c, s, step.i, step.breakerOpen, p);
    }
  }

  lemma CallerQueue(c: Config, s: State, i: nat, open: bool, p: Priority)
    requires CanCaller(s, i)
    ensures QueueOf(DoCaller(c, s, i, open).queues, p) == QueueOf(s.queues, p) + Put(c, s, Caller(i, open), p)
  {
    CallerPc(c, s, i, open);
  }

  lemma Regroup(taken: seq<nat>, moreTaken: seq<nat>, before: seq<nat>, between: seq<nat>, after: seq<nat>,
                put: seq<nat>, morePut: seq<nat>)
    requires taken + between == before + put && moreTaken + after == between + morePut
    ensures (taken + moreTaken) + after == before + (put + morePut)
  {
    assert (taken + moreTaken) + after == taken + (moreTaken + after);
    assert taken + (between + morePut) == (taken + between) + morePut;
  }

  /** First come, first served within each priority: the requests taken in a run, followed by those that wait
      at its end, are those that waited at its beginning, followed by those that came. */
  lemma {:induction false} FirstComeFirstServed(c: Config, s: State, steps: seq<Step>, s': State, p: Priority)
    requires Run(c, s, steps, s')
    ensures AllTaken(c, s, steps, p) + QueueOf(s'.queues, p) == QueueOf(s.queues, p) + AllPut(c, s, steps, p)
    decreases |steps|
  {
    if steps != [] {
      var (step, next) := (steps[0], Apply(c, s, steps[0]));
      QueueStep(c, s, step, p);
      FirstComeFirstServed(c, next, steps[1..], s', p);
      Regroup(Took(c, s, step, p), AllTaken(c, next, steps[1..], p), QueueOf(s.queues, p), QueueOf(next.queues, p),
              QueueOf(s'.queues, p), Put(c, s, step, p), AllPut(c, next, steps[1..], p));
    }
  }
}
