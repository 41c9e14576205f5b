/** The promises of load shaping, over every run: exact counters, one answer a request, no work for an
    expired request, no queued telemetry, and how far the global limit can be exceeded. */
module LoadTheorems {
  import opened Wrappers
  import opened Counting
  import opened LoadShaping
  import opened LoadAccounting

  ghost predicate Reachable(c: Config, s: State) { exists steps :: Run(c, Init(c), steps, s) }

  lemma ReachableInv(c: Config, s: State)
    requires Reachable(c, s)
    ensures Inv(c, s)
  {
    var steps :| Run(c, Init(c), steps, s);
    InvHoldsInitially(c);
    RunKeepsInv(c, Init(c), steps, s);
  }

  // ----- Counters

  lemma {:induction false} InFlightSplits(ops: seq<Op>)
    ensures Total(ops, InFlight, 0) ==
            Total(ops, IsImmediate, 0) + Total(ops, IsReserved, 0) + Total(ops, IsQueued, 0) + Total(ops, IsHeld, 0)
  {
    if ops != [] { InFlightSplits(ops[1..]); }
  }

  /** globalInFlight is the number of operations that run immediately, have reserved their place, are
      queued, or are with a worker; a session's inFlight is that number for the session. */
  lemma CountersAreExact(c: Config, s: State, k: nat)
    requires Reachable(c, s)
    ensures s.load.global == Total(s.ops, IsImmediate, 0) + Total(s.ops, IsReserved, 0) +
                             Total(s.ops, IsQueued, 0) + Total(s.ops, IsHeld, 0)
    ensures k < c.sessions ==> k < |s.load.sessions| && s.load.sessions[k] == Total(s.ops, InFlightOn, k)
  {
    ReachableInv(c, s);
    InFlightSplits(s.ops);
  }

  lemma {:induction false} QuietCounts(ops: seq<Op>, k: nat)
    requires forall i :: 0 <= i < |ops| ==> ops[i].pc.Finished?
    ensures Total(ops, InFlight, 0) == 0 && Total(ops, InFlightOn, k) == 0
  {
    if ops != [] { QuietCounts(ops[1..], k); }
  }

  /** No counter leaks: when all operations have finished, every counter is back at zero. */
  lemma NothingLeaks(c: Config, s: State, k: nat)
    requires Reachable(c, s) && k < c.sessions
    requires forall i :: 0 <= i < |s.ops| ==> s.ops[i].pc.Finished?
    ensures s.load.global == 0 && k < |s.load.sessions| && s.load.sessions[k] == 0
  {
    ReachableInv(c, s);
    QuietCounts(s.ops, k);
  }

  // ----- Requests

  /** A request is answered at most once and its function runs at most once; it has run if and only if
      the answer is its result; and it is in one queue, or with one worker, while it waits. */
  lemma AnsweredOnce(c: Config, s: State, i: nat)
    requires Reachable(c, s) && i < |s.ops|
    ensures |s.ops[i].results| <= 1 && s.ops[i].ran <= 1
    ensures s.ops[i].results != [] ==> (s.ops[i].ran == 1 <==> s.ops[i].results[0] == Completed)
    ensures InQueues(s.queues, i) + Total(s.workers, Holds, i) <= 1
    ensures s.ops[i].pc.Queued? ==> InQueues(s.queues, i) == 1
  {
    ReachableInv(c, s);
    assert OpOk(c, s.log.loads, s.ops[i]);
    assert PlacedAt(s, i);
  }

  /** The worker has found, or is about to find, that the request has expired. */
  predicate Doomed(op: Op) {
    && op.ran == 0 && op.expired
    && (op.pc.AtWorkerContext? || op.pc == Resolving(Expired) || op.pc.Dropping? ||
        op.pc.DroppingSession? || op.pc.Finished?)
  }

  lemma DoomedStays(c: Config, s: State, step: Step, i: nat)
    requires Inv(c, s) && Enabled(c, s, step) && i < |s.ops| && Doomed(s.ops[i])
    ensures i < |Apply(c, s, step).ops| && Doomed(Apply(c, s, step).ops[i])
  {
    if !Own(s, step, i) {
      OthersLeaveIt(c, s, step, i);
    } else if step.Work? {
      DoomedWork(s.ops[i], step.breakerOpen);
    }
  }

  lemma DoomedWork(op: Op, open: bool)
    requires Doomed(op) && ByWorker(op.pc)
    ensures Doomed(Moved(op, WorkerMove(op, open).pc))
  {
    match op.pc
    case AtWorkerContext => assert WorkerMove(op, open) == Goto(Resolving(Expired));
    case Resolving(o) => assert WorkerMove(op, open) == Goto(Dropping);
    case Dropping => assert WorkerMove(op, open).pc == if op.session.Some? then DroppingSession else Finished;
    case DroppingSession => assert WorkerMove(op, open).pc == Finished;
  }

  /** What has expired when the worker looks is never run, in no continuation. */
  lemma {:induction false} ExpiredNeverRuns(c: Config, s: State, steps: seq<Step>, s': State, i: nat)
    requires Inv(c, s) && i < |s.ops| && Doomed(s.ops[i]) && Run(c, s, steps, s')
    ensures i < |s'.ops| && Doomed(s'.ops[i]) && s'.ops[i].ran == 0
    decreases |steps|
  {
    if steps != [] {
      DoomedStays(c, s, steps[0], i);
      InvIsKept(c, s, steps[0]);
      ExpiredNeverRuns(c, Apply(c, s, steps[0]), steps[1..], s', i);
    }
  }

  // ----- Telemetry

  lemma ThresholdBelowMax(c: Config)
    requires 0.0 <= c.brownoutAt <= 1.0
    ensures 0 <= Threshold(c) <= c.max
  {
    FractionIsSmaller(c.max as real, c.brownoutAt);
    FloorBelow(c.max as real * c.brownoutAt, c.max);
  }

  lemma FractionIsSmaller(m: real, f: real)
    requires m >= 0.0 && 0.0 <= f <= 1.0
    ensures 0.0 <= m * f <= m
  {
    assert m * (1.0 - f) >= 0.0;
    assert m * f + m * (1.0 - f) == m;
  }

  lemma FloorBelow(x: real, n: nat)
    requires 0.0 <= x <= n as real
    ensures 0 <= x.Floor <= n
  {
  }

  /** A telemetry operation heads for the queue exactly when the load is between limit and threshold. */
  lemma HeadsForQueueIff(c: Config, load: int)
    ensures Decide(c, load, Telemetry).Reserving? <==> c.max <= load < Threshold(c)
    ensures Decide(c, load, Telemetry).Taking? <==> load < c.max && load < Threshold(c)
    ensures (exists l :: Decide(c, l, Telemetry).Reserving?) <==> Threshold(c) > c.max
  {
    assert Decide(c, c.max, Telemetry).Reserving? <==> c.max < Threshold(c);
  }

  lemma TelemetryNeverQueues(c: Config, s: State)
    requires Reachable(c, s) && 0.0 <= c.brownoutAt <= 1.0
    ensures s.queues.telemetry == []
  {
    ReachableInv(c, s);
    ThresholdBelowMax(c);
    if s.queues.telemetry != [] { OnlyUrgentQueues(c, s, Telemetry); }
  }

  lemma OnlyUrgentQueues(c: Config, s: State, p: Priority)
    requires Inv(c, s) && Threshold(c) <= c.max && QueueOf(s.queues, p) != []
    ensures p != Telemetry
  {
    HeadIsQueued(c, s, p);
    assert OpOk(c, s.log.loads, s.ops[QueueOf(s.queues, p)[0]]);
  }

  /** Every entry into brownout has a loaded value at or above the threshold behind it, every exit one
      below half of the threshold; and the flag is what the last of them made it. */
  lemma BrownoutIsWitnessed(c: Config, s: State, j: nat)
    requires Reachable(c, s)
    ensures j < |s.log.flips| ==>
              var f := s.log.flips[j];
              f.seen in s.log.loads && if f.on then f.seen >= Threshold(c) else f.seen < Half(Threshold(c))
    ensures s.load.brownout <==> s.log.flips != [] && s.log.flips[|s.log.flips| - 1].on
  {
    ReachableInv(c, s);
  }

  // ----- The global limit

  function Held(op: Op, k: nat): nat { if ByWorker(op.pc) then 1 else 0 }
  function IsBusy(w: Worker, k: nat): nat { if w.Busy? then 1 else 0 }

  /** The bookkeeping of queues and workers in numbers. */
  ghost predicate Sized(s: State) {
    && Total(s.ops, IsQueued, 0) == |s.queues.safety| + |s.queues.control| + |s.queues.telemetry|
    && Total(s.ops, Held, 0) == Total(s.workers, IsBusy, 0)
  }

  lemma OpChange(ops: seq<Op>, i: nat, op: Op)
    requires i < |ops|
    ensures Total(ops[i := op], IsQueued, 0) == Total(ops, IsQueued, 0) - IsQueued(ops[i], 0) + IsQueued(op, 0)
    ensures Total(ops[i := op], Held, 0) == Total(ops, Held, 0) - Held(ops[i], 0) + Held(op, 0)
    ensures Total(ops[i := op], IsImmediate, 0) ==
            Total(ops, IsImmediate, 0) - IsImmediate(ops[i], 0) + IsImmediate(op, 0)
  {
    TotalUpdate(ops, i, op, IsQueued, 0);
    TotalUpdate(ops, i, op, Held, 0);
    TotalUpdate(ops, i, op, IsImmediate, 0);
  }

  lemma NewOp(ops: seq<Op>, op: Op)
    requires op.pc == AtContext
    ensures Total(ops + [op], IsQueued, 0) == Total(ops, IsQueued, 0)
    ensures Total(ops + [op], Held, 0) == Total(ops, Held, 0)
    ensures Total(ops + [op], IsImmediate, 0) == Total(ops, IsImmediate, 0)
  {
    TotalAppend(ops, op, IsQueued, 0);
    TotalAppend(ops, op, Held, 0);
    TotalAppend(ops, op, IsImmediate, 0);
  }

  lemma CallerMoveSizes(c: Config, l: Load, room: bool, op: Op, open: bool)
    requires ByCaller(op.pc)
    ensures var op' := Moved(op, CallerMove(c, l, room, op, open).pc);
            && IsQueued(op, 0) == 0 && Held(op, 0) == 0 && Held(op', 0) == 0
            && IsQueued(op', 0) == (if CallerMove(c, l, room, op, open).pc.Queued? then 1 else 0)
            && IsImmediate(op', 0) <= IsImmediate(op, 0) + if op.pc.Taking? then 1 else 0
  {
  }

  lemma CallerSizes(c: Config, s: State, i: nat, open: bool)
    requires Sized(s) && CanCaller(s, i)
    ensures Sized(DoCaller(c, s, i, open))
  {
    var op := s.ops[i];
    CallerMoveSizes(c, s.load, Room(c, s, op), op, open);
    OpChange(s.ops, i, DoCaller(c, s, i, open).ops[i]);
  }

  lemma ReceiveSizes(c: Config, s: State, w: nat, p: Priority)
    requires Placed(s) && QueuesOk(c, s) && Sized(s) && CanReceive(s, w, p)
    ensures Sized(DoReceive(s, w, p))
  {
    var i := QueueOf(s.queues, p)[0];
    TotalUpdate(s.workers, w, Busy(i), IsBusy, 0);
    HeadIsQueued(c, s, p);
    OpChange(s.ops, i, Moved(s.ops[i], AtWorkerContext));
  }

  lemma WorkSizes(s: State, w: nat, open: bool)
    requires Sized(s) && CanWork(s, w)
    ensures Sized(DoWork(s, w, open))
  {
    var i := s.workers[w].op;
    TotalUpdate(s.workers, w, Polling(1), IsBusy, 0);
    OpChange(s.ops, i, Moved(s.ops[i], WorkerMove(s.ops[i], open).pc));
  }

  lemma DescendSizes(s: State, w: nat)
    requires Sized(s) && CanDescend(s, w)
    ensures Total(s.workers[w := Polling(s.workers[w].level + 1)], IsBusy, 0) == Total(s.workers, IsBusy, 0)
  {
    TotalUpdate(s.workers, w, Polling(s.workers[w].level + 1), IsBusy, 0);
  }

  lemma ExpireChangesNothing(s: State, i: nat)
    requires i < |s.ops|
    ensures var op := s.ops[i]; var ops := s.ops[i := Op(op.priority, op.session, true, op.pc, op.ran, op.results)];
            && Total(ops, IsQueued, 0) == Total(s.ops, IsQueued, 0) && Total(ops, Held, 0) == Total(s.ops, Held, 0)
            && Total(ops, IsImmediate, 0) == Total(s.ops, IsImmediate, 0)
  {
    var op := s.ops[i];
    OpChange(s.ops, i, Op(op.priority, op.session, true, op.pc, op.ran, op.results));
  }

  lemma SizedIsKept(c: Config, s: State, step: Step)
    requires Inv(c, s) && Sized(s) && Enabled(c, s, step)
    ensures Sized(Apply(c, s, step))
  {
    match step
    case Arrive(p, session) => NewOp(s.ops, Op(p, session, false, AtContext, 0, []));
    case Expire(i) => ExpireChangesNothing(s, i);
    case Caller(i, open) => CallerSizes(c, s, i, open);
    case Receive(w, p) => ReceiveSizes(c, s, w, p);
    case Descend(w) => DescendSizes(s, w);
    case Work(w, open) => WorkSizes(s, w, open);
    case CheckHealth =>
  }

  /** Check and increment as one step: at each increment the value that was checked is still current. */
  ghost predicate Unsplit(c: Config, s: State, steps: seq<Step>)
    decreases |steps|
  {
    steps != [] && Enabled(c, s, steps[0]) ==>
      && (steps[0].Caller? && s.ops[steps[0].i].pc.Taking? ==> s.ops[steps[0].i].pc.seen == s.load.global)
      && Unsplit(c, Apply(c, s, steps[0]), steps[1..])
  }

  lemma {:induction false} ImmediateAtMostInFlight(ops: seq<Op>)
    ensures Total(ops, IsImmediate, 0) <= Total(ops, InFlight, 0)
  {
    if ops != [] { ImmediateAtMostInFlight(ops[1..]); }
  }

  lemma CallerImmediate(c: Config, s: State, i: nat, open: bool)
    requires Inv(c, s) && CanCaller(s, i) && Total(s.ops, IsImmediate, 0) <= c.max
    requires s.ops[i].pc.Taking? ==> s.ops[i].pc.seen == s.load.global
    ensures Total(DoCaller(c, s, i, open).ops, IsImmediate, 0) <= c.max
  {
    CallerMoveSizes(c, s.load, Room(c, s, s.ops[i]), s.ops[i], open);
    OpChange(s.ops, i, DoCaller(c, s, i, open).ops[i]);
    ImmediateAtMostInFlight(s.ops);
    assert OpOk(c, s.log.loads, s.ops[i]);
  }

  lemma WorkerImmediate(c: Config, s: State, step: Step)
    requires Placed(s) && QueuesOk(c, s) && Enabled(c, s, step) && (step.Receive? || step.Work?)
    ensures Total(Apply(c, s, step).ops, IsImmediate, 0) == Total(s.ops, IsImmediate, 0)
  {
    if step.Receive? {
      HeadIsQueued(c, s, step.from_);
      var i := QueueOf(s.queues, step.from_)[0];
      OpChange(s.ops, i, Moved(s.ops[i], AtWorkerContext));
    } else {
      var op := s.ops[s.workers[step.w].op];
      OpChange(s.ops, s.workers[step.w].op, Moved(op, WorkerMove(op, step.breakerOpen).pc));
    }
  }

  lemma ImmediateIsBounded(c: Config, s: State, step: Step)
    requires Inv(c, s) && Enabled(c, s, step) && Total(s.ops, IsImmediate, 0) <= c.max
    requires step.Caller? && s.ops[step.i].pc.Taking? ==> s.ops[step.i].pc.seen == s.load.global
    ensures Total(Apply(c, s, step).ops, IsImmediate, 0) <= c.max
  {
    match step
    case Arrive(p, session) => NewOp(s.ops, Op(p, session, false, AtContext, 0, []));
    case Expire(i) => ExpireChangesNothing(s, i);
    case Caller(i, open) => CallerImmediate(c, s, i, open);
    case Receive(_, _) => WorkerImmediate(c, s, step);
    case Descend(_) =>
    case Work(_, _) => WorkerImmediate(c, s, step);
    case CheckHealth =>
  }

  lemma {:induction false} UnsplitRun(c: Config, s: State, steps: seq<Step>, s': State)
    requires Run(c, s, steps, s') && Unsplit(c, s, steps)
    requires Inv(c, s) && Sized(s) && Total(s.ops, IsImmediate, 0) <= c.max
    ensures Inv(c, s') && Sized(s') && Total(s'.ops, IsImmediate, 0) <= c.max
    decreases |steps|
  {
    if steps != [] {
      InvIsKept(c, s, steps[0]);
      SizedIsKept(c, s, steps[0]);
      ImmediateIsBounded(c, s, steps[0]);
      UnsplitRun(c, Apply(c, s, steps[0]), steps[1..], s');
    }
  }

  lemma {:induction false} HeldAtMost(ops: seq<Op>)
    ensures Total(ops, IsHeld, 0) <= Total(ops, Held, 0)
  {
    if ops != [] { HeldAtMost(ops[1..]); }
  }

  lemma {:induction false} BusyAtMost(ws: seq<Worker>)
    ensures Total(ws, IsBusy, 0) <= |ws|
  {
    if ws != [] { BusyAtMost(ws[1..]); }
  }

  /** Where check and increment are not split, operations that run immediately never exceed the limit, so
      whenever none is between its increment and its queue, the load is within the limit, two full queues
      and one request a worker. */
  lemma UnsplitLoadIsBounded(c: Config, steps: seq<Step>, s: State)
    requires Run(c, Init(c), steps, s) && Unsplit(c, Init(c), steps) && 0.0 <= c.brownoutAt <= 1.0
    ensures Total(s.ops, IsImmediate, 0) <= c.max
    ensures s.load.global <= c.max + 2 * c.queueSize + c.workers + Total(s.ops, IsReserved, 0)
  {
    InvHoldsInitially(c);
    TotalZero(Init(c).workers, IsBusy, 0);
    UnsplitRun(c, Init(c), steps, s);
    TelemetryNeverQueues(c, s);
    InFlightSplits(s.ops);
    HeldAtMost(s.ops);
    BusyAtMost(s.workers);
    assert QueueOk(c, s.ops, Safety, QueueOf(s.queues, Safety));
    assert QueueOk(c, s.ops, Control, QueueOf(s.queues, Control));
  }

  // ----- The code does split them

  lemma {:induction false} RunOneMore(c: Config, s: State, steps: seq<Step>, t: State, step: Step)
    requires Run(c, s, steps, t) && Enabled(c, t, step)
    ensures Run(c, s, steps + [step], Apply(c, t, step))
    decreases |steps|
  {
    if steps == [] {
      assert [] + [step] == [step];
      assert Run(c, Apply(c, t, step), [], Apply(c, t, step));
    } else {
      assert (steps + [step])[0] == steps[0] && (steps + [step])[1..] == steps[1..] + [step];
      RunOneMore(c, Apply(c, s, steps[0]), steps[1..], t, step);
    }
  }

  lemma ReachMore(c: Config, s: State, step: Step)
    requires Reachable(c, s) && Enabled(c, s, step)
    ensures Reachable(c, Apply(c, s, step))
  {
    var steps :| Run(c, Init(c), steps, s);
    RunOneMore(c, Init(c), steps, s, step);
  }

  /** n callers have all loaded the counter at zero, and the first k have gone on to raise it. */
  ghost predicate Rushing(s: State, n: nat, k: nat) {
    && |s.ops| == n && k <= n && s.load.global == k && !s.load.brownout
    && (forall i :: k <= i < n ==> s.ops[i] == Op(Control, None, false, Taking(0), 0, []))
  }

  lemma OneMoreLoads(c: Config, s: State, n: nat) returns (s': State)
    requires Reachable(c, s) && Rushing(s, n, 0) && c.max > 0
    ensures Reachable(c, s') && Rushing(s', n + 1, 0)
  {
    s' := Apply(c, s, Arrive(Control, None));
    ReachMore(c, s, Arrive(Control, None));
    var pcs := [AtContext, AtBreaker, AtBrownout, AtEndpoint, AtLoad, Taking(0)];
    for j := 0 to 5
      invariant Reachable(c, s') && |s'.ops| == n + 1 && s'.load == s.load
      invariant s'.ops[n] == Op(Control, None, false, pcs[j], 0, [])
      invariant forall i :: 0 <= i < n ==> s'.ops[i] == s.ops[i]
    {
      ReachMore(c, s', Caller(n, false));
      s' := Apply(c, s', Caller(n, false));
    }
  }

  /** So the limit itself bounds nothing: any number of operations can be in flight at once. */
  lemma SplitCheckIsUnbounded(c: Config, n: nat) returns (s: State)
    requires c.max > 0
    ensures Reachable(c, s) && s.load.global == n
  {
    s := Init(c);
    assert Run(c, Init(c), [], s);
    for m := 0 to n
      invariant Reachable(c, s) && Rushing(s, m, 0)
    {
      s := OneMoreLoads(c, s, m);
    }
    for k := 0 to n
      invariant Reachable(c, s) && Rushing(s, n, k)
    {
      ReachMore(c, s, Caller(k, false));
      s := Apply(c, s, Caller(k, false));
    }
  }
}
