/** What holds in every interleaving of callers, workers and the health check: the in-flight counters are
    exact, every request is in one place and is answered once, and the brownout flag has its reasons. */
module LoadAccounting {
  import opened Wrappers
  import opened Counting
  import opened LoadShaping

  // ----- Which operations a counter counts

  /** An operation that runs without having been queued. */
  predicate Immediate(pc: Pc) {
    pc.TakingSession? || pc.Leaving? || pc.Clearing? || pc.Running? || pc.Releasing?
  }

  /** The counter has been raised, and the queue not yet tried or found full. */
  predicate Reserved(pc: Pc) { pc.ReservingSession? || pc.Enqueuing? || pc.Rolling? }

  predicate WorkerHeld(pc: Pc) { ByWorker(pc) && !pc.DroppingSession? }

  function IsImmediate(op: Op, k: nat): nat { if Immediate(op.pc) then 1 else 0 }
  function IsReserved(op: Op, k: nat): nat { if Reserved(op.pc) then 1 else 0 }
  function IsQueued(op: Op, k: nat): nat { if op.pc.Queued? then 1 else 0 }
  function IsHeld(op: Op, k: nat): nat { if WorkerHeld(op.pc) then 1 else 0 }

  function InFlight(op: Op, k: nat): nat { IsImmediate(op, k) + IsReserved(op, k) + IsQueued(op, k) + IsHeld(op, k) }

  /** The session's counter is raised after the global one and lowered after it. */
  predicate CountedOnSession(pc: Pc) {
    || (Immediate(pc) && !pc.TakingSession?) || pc.ReleasingSession?
    || (Reserved(pc) && !pc.ReservingSession?) || pc.RollingSession?
    || pc.Queued? || ByWorker(pc)
  }

  function InFlightOn(op: Op, k: nat): nat { if op.session == Some(k) && CountedOnSession(op.pc) then 1 else 0 }

  ghost predicate Exact(c: Config, s: State) {
    && s.load.global == Total(s.ops, InFlight, 0)
    && |s.load.sessions| == c.sessions
    && forall k :: 0 <= k < c.sessions ==> s.load.sessions[k] == Total(s.ops, InFlightOn, k)
  }

  // ----- Each operation by itself

  predicate OnQueuePath(pc: Pc) { pc.Reserving? || pc.RollingSession? || Reserved(pc) || pc.Queued? || ByWorker(pc) }

  predicate Answered(op: Op) {
    match op.pc
    case Releasing => op.ran == 1 && op.results == []
    case ReleasingSession => op.ran == 1 && op.results == []
    case Resolving(o) => op.results == [] && op.ran == if o.Completed? then 1 else 0
    case Dropping => |op.results| == 1 && op.ran == if op.results[0].Completed? then 1 else 0
    case DroppingSession => |op.results| == 1 && op.ran == if op.results[0].Completed? then 1 else 0
    case Finished => |op.results| <= 1 && op.ran <= 1 &&
      (op.results != [] ==> (op.ran == 1 <==> op.results[0].Completed?))
    case _ => op.ran == 0 && op.results == []
  }

  ghost predicate Reasons(c: Config, loads: seq<int>, op: Op) {
    match op.pc
    case Entering(seen) => op.priority.Telemetry? && seen >= Threshold(c) && seen in loads
    case Setting(seen) => op.priority.Telemetry? && seen >= Threshold(c) && seen in loads
    case Taking(seen) => seen < c.max && seen in loads
    case TakingSession(seen) => seen in loads
    case Leaving(seen) => seen in loads
    case Clearing(seen) => seen < Half(Threshold(c)) && seen in loads
    case _ => true
  }

  predicate TouchesSession(pc: Pc) {
    pc.ReservingSession? || pc.RollingSession? || pc.TakingSession? || pc.ReleasingSession? || pc.DroppingSession?
  }

  ghost predicate OpOk(c: Config, loads: seq<int>, op: Op) {
    && Answered(op) && Reasons(c, loads, op)
    && (Threshold(c) <= c.max && OnQueuePath(op.pc) ==> !op.priority.Telemetry?)
    && (op.session.Some? ==> op.session.value < c.sessions)
    && (TouchesSession(op.pc) ==> op.session.Some?)
  }

  ghost predicate OpsOk(c: Config, s: State) { forall i :: 0 <= i < |s.ops| ==> OpOk(c, s.log.loads, s.ops[i]) }

  // ----- Moves

  /** What a move does to the counters is exactly what it does to the operation's place. */
  lemma CallerMoveCounts(c: Config, l: Load, room: bool, op: Op, open: bool, k: nat)
    requires ByCaller(op.pc) && (TouchesSession(op.pc) ==> op.session.Some?)
    ensures var m := CallerMove(c, l, room, op, open);
            && InFlight(Moved(op, m.pc), 0) == InFlight(op, 0) + m.global
            && InFlightOn(Moved(op, m.pc), k) == InFlightOn(op, k) + if op.session == Some(k) then m.session else 0
  {
  }

  lemma WorkerMoveCounts(op: Op, open: bool, k: nat)
    requires ByWorker(op.pc) && (TouchesSession(op.pc) ==> op.session.Some?)
    ensures var m := WorkerMove(op, open);
            && InFlight(Moved(op, m.pc), 0) == InFlight(op, 0) + m.global
            && InFlightOn(Moved(op, m.pc), k) == InFlightOn(op, k) + if op.session == Some(k) then m.session else 0
  {
  }

  lemma CallerMoveAnswers(c: Config, l: Load, room: bool, op: Op, open: bool)
    requires ByCaller(op.pc) && Answered(op)
    ensures Answered(Moved(op, CallerMove(c, l, room, op, open).pc))
  {
  }

  lemma CallerMoveReasons(c: Config, l: Load, room: bool, op: Op, open: bool, loads: seq<int>)
    requires ByCaller(op.pc) && Reasons(c, loads, op)
    ensures var m := CallerMove(c, l, room, op, open);
            Reasons(c, if m.load.Some? then loads + [m.load.value] else loads, Moved(op, m.pc))
  {
  }

  lemma CallerMovePath(c: Config, l: Load, room: bool, op: Op, open: bool)
    requires ByCaller(op.pc) && Threshold(c) <= c.max && (OnQueuePath(op.pc) ==> !op.priority.Telemetry?)
    ensures OnQueuePath(CallerMove(c, l, room, op, open).pc) ==> !op.priority.Telemetry?
  {
  }

  lemma CallerMoveOk(c: Config, l: Load, room: bool, op: Op, open: bool, loads: seq<int>)
    requires ByCaller(op.pc) && OpOk(c, loads, op)
    ensures var m := CallerMove(c, l, room, op, open);
            OpOk(c, if m.load.Some? then loads + [m.load.value] else loads, Moved(op, m.pc))
  {
    CallerMoveAnswers(c, l, room, op, open);
    CallerMoveReasons(c, l, room, op, open, loads);
    if Threshold(c) <= c.max { CallerMovePath(c, l, room, op, open); }
    assert TouchesSession(CallerMove(c, l, room, op, open).pc) ==> op.session.Some?;
  }

  lemma WorkerMoveOk(c: Config, op: Op, open: bool, loads: seq<int>)
    requires ByWorker(op.pc) && OpOk(c, loads, op)
    ensures OpOk(c, loads, Moved(op, WorkerMove(op, open).pc))
  {
  }

  lemma MoreLoads(c: Config, loads: seq<int>, seen: int, op: Op)
    requires OpOk(c, loads, op)
    ensures OpOk(c, loads + [seen], op)
  {
  }

  // ----- Where each request is

  function Is(x: nat, i: nat): nat { if x == i then 1 else 0 }
  function Holds(w: Worker, i: nat): nat { if w == Busy(i) then 1 else 0 }

  function InQueues(q: Queues, i: nat): nat {
    Total(q.safety, Is, i) + Total(q.control, Is, i) + Total(q.telemetry, Is, i)
  }

  /** A queued operation is in exactly one queue once, one that a worker works on is with one worker. */
  ghost predicate Placed(s: State) { forall i: nat :: PlacedAt(s, i) }

  predicate PlacedAt(s: State, i: nat) {
    && InQueues(s.queues, i) == (if i < |s.ops| && s.ops[i].pc.Queued? then 1 else 0)
    && Total(s.workers, Holds, i) == (if i < |s.ops| && ByWorker(s.ops[i].pc) then 1 else 0)
  }

  predicate QueueOk(c: Config, ops: seq<Op>, p: Priority, q: seq<nat>) {
    |q| <= c.queueSize && forall j :: 0 <= j < |q| ==> q[j] < |ops| && ops[q[j]].priority == p
  }

  ghost predicate QueuesOk(c: Config, s: State) {
    forall p: Priority :: QueueOk(c, s.ops, p, QueueOf(s.queues, p))
  }

  // ----- Brownout

  predicate FlipOk(c: Config, f: Flip) { if f.on then f.seen >= Threshold(c) else f.seen < Half(Threshold(c)) }

  /** Every change of the flag is witnessed by a load of the counter: at or above the threshold to enter,
      below half of it to leave. */
  ghost predicate Witnessed(c: Config, s: State) {
    && (forall j :: 0 <= j < |s.log.flips| ==> FlipOk(c, s.log.flips[j]) && s.log.flips[j].seen in s.log.loads)
    && (s.health.Checking? ==> s.health.seen in s.log.loads)
    && (s.health.Storing? ==> s.health.seen in s.log.loads && FlipOk(c, Flip(s.health.on, s.health.seen)))
    && s.load.brownout == (s.log.flips != [] && s.log.flips[|s.log.flips| - 1].on)
  }

  ghost predicate Inv(c: Config, s: State) {
    Exact(c, s) && OpsOk(c, s) && Placed(s) && QueuesOk(c, s) && Witnessed(c, s) && |s.workers| == c.workers
  }

  // ----- Every step keeps the counters exact

  lemma MovedCounts(s: State, s': State, c: Config, i: nat, op': Op, m: Move)
    requires Exact(c, s) && i < |s.ops| && s'.ops == s.ops[i := op'] && s'.load == Loaded(s.load, s.ops[i], m)
    requires op'.session == s.ops[i].session
    requires InFlight(op', 0) == InFlight(s.ops[i], 0) + m.global
    requires forall k: nat ::
      InFlightOn(op', k) == InFlightOn(s.ops[i], k) + if op'.session == Some(k) then m.session else 0
    ensures Exact(c, s')
  {
    TotalUpdate(s.ops, i, op', InFlight, 0);
    forall k: nat | k < c.sessions
      ensures s'.load.sessions[k] == Total(s'.ops, InFlightOn, k)
    {
      TotalUpdate(s.ops, i, op', InFlightOn, k);
    }
  }

  lemma CallerIsExact(c: Config, s: State, i: nat, open: bool)
    requires Exact(c, s) && OpsOk(c, s) && CanCaller(s, i)
    ensures Exact(c, DoCaller(c, s, i, open))
  {
    var op := s.ops[i];
    var m := CallerMove(c, s.load, Room(c, s, op), op, open);
    forall k: nat { CallerMoveCounts(c, s.load, Room(c, s, op), op, open, k); }
    MovedCounts(s, DoCaller(c, s, i, open), c, i, Moved(op, m.pc), m);
  }

  lemma WorkIsExact(c: Config, s: State, w: nat, open: bool)
    requires Exact(c, s) && OpsOk(c, s) && CanWork(s, w)
    ensures Exact(c, DoWork(s, w, open))
  {
    var op := s.ops[s.workers[w].op];
    var m := WorkerMove(op, open);
    forall k: nat { WorkerMoveCounts(op, open, k); }
    MovedCounts(s, DoWork(s, w, open), c, s.workers[w].op, Moved(op, m.pc), m);
  }

  lemma SamePlaceIsExact(c: Config, s: State, s': State, i: nat, op': Op)
    requires Exact(c, s) && i < |s.ops| && s'.ops == s.ops[i := op'] && s'.load == s.load
    requires op'.session == s.ops[i].session && InFlight(op', 0) == InFlight(s.ops[i], 0)
    requires CountedOnSession(op'.pc) == CountedOnSession(s.ops[i].pc)
    ensures Exact(c, s')
  {
    TotalUpdate(s.ops, i, op', InFlight, 0);
    forall k: nat | k < c.sessions
      ensures s'.load.sessions[k] == Total(s'.ops, InFlightOn, k)
    {
      TotalUpdate(s.ops, i, op', InFlightOn, k);
    }
  }

  lemma ReceiveIsExact(c: Config, s: State, w: nat, p: Priority)
    requires Exact(c, s) && Placed(s) && QueuesOk(c, s) && CanReceive(s, w, p)
    ensures Exact(c, DoReceive(s, w, p))
  {
    HeadIsQueued(c, s, p);
    var i := QueueOf(s.queues, p)[0];
    SamePlaceIsExact(c, s, DoReceive(s, w, p), i, Moved(s.ops[i], AtWorkerContext));
  }

  lemma ExactIsKept(c: Config, s: State, step: Step)
    requires Exact(c, s) && OpsOk(c, s) && Placed(s) && QueuesOk(c, s) && Enabled(c, s, step)
    ensures Exact(c, Apply(c, s, step))
  {
    match step
    case Arrive(p, session) => ArriveIsExact(c, s, p, session);
    case Expire(i) =>
      var op := s.ops[i];
      SamePlaceIsExact(c, s, Apply(c, s, step), i, Op(op.priority, op.session, true, op.pc, op.ran, op.results));
    case Caller(i, open) => CallerIsExact(c, s, i, open);
    case Receive(w, p) => ReceiveIsExact(c, s, w, p);
    case Descend(w) =>
    case Work(w, open) => WorkIsExact(c, s, w, open);
    case CheckHealth =>
  }

  lemma ArriveIsExact(c: Config, s: State, p: Priority, session: Option<nat>)
    requires Exact(c, s) && Enabled(c, s, Arrive(p, session))
    ensures Exact(c, Apply(c, s, Arrive(p, session)))
  {
    var op := Op(p, session, false, AtContext, 0, []);
    NewOpIsNotCounted(s.ops, op, 0);
    forall k: nat | k < c.sessions
      ensures s.load.sessions[k] == Total(s.ops + [op], InFlightOn, k)
    {
      NewOpIsNotCounted(s.ops, op, k);
    }
    assert Exact(c, WithOps(s, s.ops + [op]));
  }

  lemma NewOpIsNotCounted(ops: seq<Op>, op: Op, k: nat)
    requires op.pc.AtContext?
    ensures Total(ops + [op], InFlight, 0) == Total(ops, InFlight, 0)
    ensures Total(ops + [op], InFlightOn, k) == Total(ops, InFlightOn, k)
  {
    TotalAppend(ops, op, InFlight, 0);
    TotalAppend(ops, op, InFlightOn, k);
    assert InFlight(op, 0) == 0 && InFlightOn(op, k) == 0;
  }

  lemma HeadIsQueued(c: Config, s: State, p: Priority)
    requires Placed(s) && QueuesOk(c, s) && QueueOf(s.queues, p) != []
    ensures var i := QueueOf(s.queues, p)[0]; i < |s.ops| && s.ops[i].pc.Queued? && s.ops[i].priority == p
  {
    var i := QueueOf(s.queues, p)[0];
    assert QueueOk(c, s.ops, p, QueueOf(s.queues, p));
    TotalUpdate(QueueOf(s.queues, p), 0, i, Is, i);
    assert PlacedAt(s, i) && InQueues(s.queues, i) > 0;
  }

  // ----- Every step keeps each operation in order

  lemma CallerKeepsOps(c: Config, s: State, j: nat, open: bool, i: nat)
    requires OpsOk(c, s) && CanCaller(s, j) && i < |s.ops|
    ensures OpOk(c, DoCaller(c, s, j, open).log.loads, DoCaller(c, s, j, open).ops[i])
  {
    MoreLoads(c, s.log.loads, s.load.global, s.ops[i]);
    CallerMoveOk(c, s.load, Room(c, s, s.ops[j]), s.ops[j], open, s.log.loads);
    var m := CallerMove(c, s.load, Room(c, s, s.ops[j]), s.ops[j], open);
    assert m.load.Some? ==> m.load.value == s.load.global;
  }

  lemma WorkKeepsOps(c: Config, s: State, w: nat, open: bool, i: nat)
    requires OpsOk(c, s) && CanWork(s, w) && i < |s.ops|
    ensures OpOk(c, DoWork(s, w, open).log.loads, DoWork(s, w, open).ops[i])
  {
    WorkerMoveOk(c, s.ops[s.workers[w].op], open, s.log.loads);
  }

  lemma ReceiveKeepsOps(c: Config, s: State, w: nat, p: Priority, i: nat)
    requires OpsOk(c, s) && Placed(s) && QueuesOk(c, s) && CanReceive(s, w, p) && i < |s.ops|
    ensures OpOk(c, DoReceive(s, w, p).log.loads, DoReceive(s, w, p).ops[i])
  {
    HeadIsQueued(c, s, p);
  }

  lemma OpsOkIsKept(c: Config, s: State, step: Step)
    requires OpsOk(c, s) && Placed(s) && QueuesOk(c, s) && Enabled(c, s, step)
    ensures OpsOk(c, Apply(c, s, step))
  {
    match step
    case Arrive(_, _) =>
    case Expire(_) =>
    case Caller(j, open) => forall i: nat | i < |s.ops| { CallerKeepsOps(c, s, j, open, i); }
    case Receive(w, p) => forall i: nat | i < |s.ops| { ReceiveKeepsOps(c, s, w, p, i); }
    case Descend(_) =>
    case Work(w, open) => forall i: nat | i < |s.ops| { WorkKeepsOps(c, s, w, open, i); }
    case CheckHealth => forall i: nat | i < |s.ops| { MoreLoads(c, s.log.loads, s.load.global, s.ops[i]); }
  }

  // ----- Every step keeps each request in one place

  lemma QueueChange(q: Queues, p: Priority, xs: seq<nat>, i: nat)
    ensures InQueues(WithQueue(q, p, xs), i) == InQueues(q, i) - Total(QueueOf(q, p), Is, i) + Total(xs, Is, i)
    ensures Total(QueueOf(q, p), Is, i) <= InQueues(q, i)
  {
  }

  /** An operation leaves its caller for a queue, or for good. */
  lemma CallerPc(c: Config, s: State, i: nat, open: bool)
    requires CanCaller(s, i)
    ensures !ByWorker(DoCaller(c, s, i, open).ops[i].pc)
    ensures DoCaller(c, s, i, open).ops[i].pc.Queued? <==> s.ops[i].pc.Enqueuing? && Room(c, s, s.ops[i])
  {
  }

  lemma CallerPlacesAt(c: Config, s: State, i: nat, open: bool, k: nat)
    requires PlacedAt(s, k) && CanCaller(s, i)
    ensures PlacedAt(DoCaller(c, s, i, open), k)
  {
    var (p, q) := (s.ops[i].priority, QueueOf(s.queues, s.ops[i].priority));
    CallerPc(c, s, i, open);
    TotalAppend(q, i, Is, k);
    QueueChange(s.queues, p, q + [i], k);
  }

  lemma ReceivePlacesAt(c: Config, s: State, w: nat, p: Priority, k: nat)
    requires Placed(s) && QueuesOk(c, s) && CanReceive(s, w, p)
    ensures PlacedAt(DoReceive(s, w, p), k)
  {
    var q := QueueOf(s.queues, p);
    HeadIsQueued(c, s, p);
    QueueChange(s.queues, p, q[1..], k);
    TotalUpdate(s.workers, w, Busy(q[0]), Holds, k);
    assert PlacedAt(s, k);
  }

  lemma WorkPlacesAt(s: State, w: nat, open: bool, k: nat)
    requires Placed(s) && CanWork(s, w)
    ensures PlacedAt(DoWork(s, w, open), k)
  {
    TotalUpdate(s.workers, w, Polling(1), Holds, k);
    assert PlacedAt(s, k);
  }

  lemma DescendPlacesAt(s: State, w: nat, k: nat)
    requires PlacedAt(s, k) && CanDescend(s, w)
    ensures var workers := s.workers[w := Polling(s.workers[w].level + 1)];
            PlacedAt(State(s.ops, s.load, s.queues, workers, s.health, s.log), k)
  {
    TotalUpdate(s.workers, w, Polling(s.workers[w].level + 1), Holds, k);
  }

  lemma PlacedIsKept(c: Config, s: State, step: Step)
    requires Placed(s) && QueuesOk(c, s) && Enabled(c, s, step)
    ensures Placed(Apply(c, s, step))
  {
    forall k: nat
      ensures PlacedAt(Apply(c, s, step), k)
    {
      assert PlacedAt(s, k);
      match step
      case Arrive(_, _) =>
      case Expire(_) =>
      case Caller(i, open) => CallerPlacesAt(c, s, i, open, k);
      case Receive(w, p) => ReceivePlacesAt(c, s, w, p, k);
      case Descend(w) => DescendPlacesAt(s, w, k);
      case Work(w, open) => WorkPlacesAt(s, w, open, k);
      case CheckHealth =>
    }
  }

  lemma CallerQueues(c: Config, s: State, i: nat, open: bool)
    requires QueuesOk(c, s) && CanCaller(s, i)
    ensures QueuesOk(c, DoCaller(c, s, i, open))
  {
    var s' := DoCaller(c, s, i, open);
    CallerPc(c, s, i, open);
    forall p: Priority
      ensures QueueOk(c, s'.ops, p, QueueOf(s'.queues, p))
    {
      assert QueueOk(c, s.ops, p, QueueOf(s.queues, p));
      assert QueueOf(s'.queues, p) == QueueOf(s.queues, p) + if s'.ops[i].pc.Queued? && p == s.ops[i].priority
                                                              then [i] else [];
    }
  }

  lemma ReceiveQueues(c: Config, s: State, w: nat, p: Priority)
    requires QueuesOk(c, s) && CanReceive(s, w, p)
    ensures QueuesOk(c, DoReceive(s, w, p))
  {
    forall p': Priority
      ensures QueueOk(c, DoReceive(s, w, p).ops, p', QueueOf(DoReceive(s, w, p).queues, p'))
    {
      assert QueueOk(c, s.ops, p', QueueOf(s.queues, p'));
    }
  }

  lemma QueuesOkIsKept(c: Config, s: State, step: Step)
    requires QueuesOk(c, s) && Enabled(c, s, step)
    ensures QueuesOk(c, Apply(c, s, step))
  {
    if step.Caller? {
      CallerQueues(c, s, step.i, step.breakerOpen);
    } else if step.Receive? {
      ReceiveQueues(c, s, step.w, step.from_);
    } else {
      forall p: Priority
        ensures QueueOk(c, Apply(c, s, step).ops, p, QueueOf(Apply(c, s, step).queues, p))
      {
        assert QueueOk(c, s.ops, p, QueueOf(s.queues, p));
      }
    }
  }

  lemma WitnessedIsKept(c: Config, s: State, step: Step)
    requires Witnessed(c, s) && OpsOk(c, s) && Enabled(c, s, step)
    ensures Witnessed(c, Apply(c, s, step))
  {
    match step
    case Arrive(_, _) =>
    case Expire(_) =>
    case Caller(i, open) => CallerWitness(c, s, i, open);
    case Receive(_, _) =>
    case Descend(_) =>
    case Work(w, open) => assert WorkerMove(s.ops[s.workers[w].op], open).flip.None?;
    case CheckHealth => HealthWitness(c, s);
  }

  lemma CallerWitness(c: Config, s: State, i: nat, open: bool)
    requires Witnessed(c, s) && OpsOk(c, s) && CanCaller(s, i)
    ensures Witnessed(c, DoCaller(c, s, i, open))
  {
    assert OpOk(c, s.log.loads, s.ops[i]);
    var m := CallerMove(c, s.load, Room(c, s, s.ops[i]), s.ops[i], open);
    assert m.flip.Some? ==> FlipOk(c, m.flip.value) && m.flip.value.seen in s.log.loads;
  }

  lemma HealthWitness(c: Config, s: State)
    requires Witnessed(c, s)
    ensures Witnessed(c, DoHealth(c, s))
  {
  }

  lemma InvIsKept(c: Config, s: State, step: Step)
    requires Inv(c, s) && Enabled(c, s, step)
    ensures Inv(c, Apply(c, s, step))
  {
    ExactIsKept(c, s, step);
    OpsOkIsKept(c, s, step);
    PlacedIsKept(c, s, step);
    QueuesOkIsKept(c, s, step);
    WitnessedIsKept(c, s, step);
  }

  /** A step that is not the operation's own leaves it where it is, unless a worker takes its request. */
  predicate Own(s: State, step: Step, i: nat) {
    || (step.Caller? && step.i == i)
    || (step.Work? && step.w < |s.workers| && s.workers[step.w] == Busy(i))
  }

  lemma OthersLeaveIt(c: Config, s: State, step: Step, i: nat)
    requires Placed(s) && QueuesOk(c, s) && Enabled(c, s, step) && i < |s.ops| && !Own(s, step, i)
    ensures i < |Apply(c, s, step).ops|
    ensures var (op, op') := (s.ops[i], Apply(c, s, step).ops[i]);
            && op'.ran == op.ran && op'.results == op.results && (op.expired ==> op'.expired)
            && (op'.pc == op.pc || (op.pc.Queued? && op'.pc.AtWorkerContext?))
  {
    if step.Receive? { HeadIsQueued(c, s, step.from_); }
  }

  lemma InvHoldsInitially(c: Config)
    ensures Inv(c, Init(c))
  {
    forall i: nat
      ensures PlacedAt(Init(c), i)
    {
      TotalZero(Init(c).workers, Holds, i);
    }
  }

  lemma {:induction false} RunKeepsInv(c: Config, s: State, steps: seq<Step>, s': State)
    requires Run(c, s, steps, s') && Inv(c, s)
    ensures Inv(c, s')
    decreases |steps|
  {
    if steps != [] {
      InvIsKept(c, s, steps[0]);
      RunKeepsInv(c, Apply(c, s, steps[0]), steps[1..], s');
    }
  }
}
