/** Load shaping of the OPC UA pool: callers, workers and the health check as processes that interleave
    at every atomic load, store and add, and at every channel operation. */
module LoadShaping {
  import opened Arithmetic
  import opened Wrappers
  import opened Counting

  datatype Priority = Telemetry | Control | Safety

  /** `brownoutAt` is the fraction of the global limit at which telemetry is turned away. */
  datatype Config = Config(max: nat, brownoutAt: real, queueSize: nat, workers: nat, perEndpoint: int, sessions: nat)

  datatype Outcome = Expired | BreakerOpen | Completed

  /** Where an operation is. The first two groups are its caller's program counter, the last is that of
      the worker that holds its request. */
  datatype Pc =
    | AtContext | AtBreaker | AtBrownout | AtEndpoint | AtLoad | Entering(seen: int) | Setting(seen: int)
    | Reserving | ReservingSession | Enqueuing | Rolling | RollingSession
    | Taking(seen: int) | TakingSession(seen: int) | Leaving(seen: int) | Clearing(seen: int)
    | Running | Releasing | ReleasingSession
    | Queued
    | AtWorkerContext | AtWorkerBreaker | Executing | Resolving(outcome: Outcome) | Dropping | DroppingSession
    | Finished

  datatype Op = Op(priority: Priority, session: Option<nat>, expired: bool, pc: Pc, ran: nat, results: seq<Outcome>)

  /** The atomics. */
  datatype Load = Load(global: int, sessions: seq<int>, brownout: bool)

  datatype Queues = Queues(safety: seq<nat>, control: seq<nat>, telemetry: seq<nat>)

  /** A worker polls at one of three levels, or holds a request. */
  datatype Worker = Polling(level: nat) | Busy(op: nat)

  datatype Health = Resting | Checking(seen: int) | Storing(seen: int, on: bool)

  /** A store to the brownout flag and the load of the global counter that led to it. */
  datatype Flip = Flip(on: bool, seen: int)

  datatype Log = Log(loads: seq<int>, flips: seq<Flip>)

  datatype State = State(ops: seq<Op>, load: Load, queues: Queues, workers: seq<Worker>, health: Health, log: Log)

  datatype Step =
    | Arrive(priority: Priority, session: Option<nat>)
    | Expire(i: nat)
    | Caller(i: nat, breakerOpen: bool)
    | Receive(w: nat, from_: Priority)
    | Descend(w: nat)
    | Work(w: nat, breakerOpen: bool)
    | CheckHealth

  function Half(x: int): int { if x >= 0 then x / 2 else -((-x) / 2) }

  function Threshold(c: Config): int { Truncated(c.max as real * c.brownoutAt) }

  function Init(c: Config): State {
    State([], Load(0, seq(c.sessions, _ => 0), false), Queues([], [], []), seq(c.workers, _ => Polling(1)),
          Resting, Log([], []))
  }

  predicate ByWorker(pc: Pc) {
    pc.AtWorkerContext? || pc.AtWorkerBreaker? || pc.Executing? || pc.Resolving? || pc.Dropping? || pc.DroppingSession?
  }

  predicate ByCaller(pc: Pc) { !pc.Queued? && !pc.Finished? && !ByWorker(pc) }

  // ----- One atomic action of an operation

  datatype Move = Move(pc: Pc, global: int, session: int, flip: Option<Flip>, load: Option<int>)

  function Goto(pc: Pc): Move { Move(pc, 0, 0, None, None) }

  function Decide(c: Config, global: int, priority: Priority): Pc {
    if global >= Threshold(c) && priority.Telemetry? then Entering(global)
    else if global >= c.max then Reserving
    else Taking(global)
  }

  predicate AtEndpointLimit(c: Config, l: Load, op: Op) {
    && op.session.Some? && c.perEndpoint > 0
    && op.session.value < |l.sessions| && l.sessions[op.session.value] >= c.perEndpoint
  }

  function CallerMove(c: Config, l: Load, room: bool, op: Op, breakerOpen: bool): Move
    requires ByCaller(op.pc)
  {
    var some := op.session.Some?;
    match op.pc
    case AtContext => Goto(if op.expired then Finished else AtBreaker)
    case AtBreaker => Goto(if some && breakerOpen then Finished else AtBrownout)
    case AtBrownout => Goto(if l.brownout && op.priority.Telemetry? then Finished else AtEndpoint)
    case AtEndpoint => Goto(if AtEndpointLimit(c, l, op) && op.priority.Telemetry? then Finished else AtLoad)
    case AtLoad => Move(Decide(c, l.global, op.priority), 0, 0, None, Some(l.global))
    case Entering(seen) => Goto(if l.brownout then Finished else Setting(seen))
    case Setting(seen) => Move(Finished, 0, 0, Some(Flip(true, seen)), None)
    case Reserving => Move(if some then ReservingSession else Enqueuing, 1, 0, None, None)
    case ReservingSession => Move(Enqueuing, 0, 1, None, None)
    case Enqueuing => Goto(if room then Queued else Rolling)
    case Rolling => Move(if some then RollingSession else Finished, -1, 0, None, None)
    case RollingSession => Move(Finished, 0, -1, None, None)
    case Taking(seen) => Move(if some then TakingSession(seen) else Leaving(seen), 1, 0, None, None)
    case TakingSession(seen) => Move(Leaving(seen), 0, 1, None, None)
    case Leaving(seen) => Goto(if l.brownout && seen < Half(Threshold(c)) then Clearing(seen) else Running)
    case Clearing(seen) => Move(Running, 0, 0, Some(Flip(false, seen)), None)
    case Running => Goto(Releasing)
    case Releasing => Move(if some then ReleasingSession else Finished, -1, 0, None, None)
    case ReleasingSession => Move(Finished, 0, -1, None, None)
  }

  function WorkerMove(op: Op, breakerOpen: bool): Move
    requires ByWorker(op.pc)
  {
    var some := op.session.Some?;
    match op.pc
    case AtWorkerContext => Goto(if op.expired then Resolving(Expired) else AtWorkerBreaker)
    case AtWorkerBreaker => Goto(if some && breakerOpen then Resolving(BreakerOpen) else Executing)
    case Executing => Goto(Resolving(Completed))
    case Resolving(_) => Goto(Dropping)
    case Dropping => Move(if some then DroppingSession else Finished, -1, 0, None, None)
    case DroppingSession => Move(Finished, 0, -1, None, None)
  }

  /** The function of an operation runs, and its result is sent, in the actions that say so. */
  function Moved(op: Op, pc: Pc): Op {
    Op(op.priority, op.session, op.expired, pc,
       if op.pc.Running? || op.pc.Executing? then op.ran + 1 else op.ran,
       if op.pc.Resolving? then op.results + [op.pc.outcome] else op.results)
  }

  function Loaded(l: Load, op: Op, m: Move): Load {
    Load(l.global + m.global,
         if op.session.Some? && op.session.value < |l.sessions|
         then l.sessions[op.session.value := l.sessions[op.session.value] + m.session] else l.sessions,
         if m.flip.Some? then m.flip.value.on else l.brownout)
  }

  function Logged(log: Log, m: Move): Log {
    Log(if m.load.Some? then log.loads + [m.load.value] else log.loads,
        if m.flip.Some? then log.flips + [m.flip.value] else log.flips)
  }

  // ----- Queues

  function QueueOf(q: Queues, p: Priority): seq<nat> {
    match p
    case Safety => q.safety
    case Control => q.control
    case Telemetry => q.telemetry
  }

  function WithQueue(q: Queues, p: Priority, xs: seq<nat>): Queues {
    match p
    case Safety => Queues(xs, q.control, q.telemetry)
    case Control => Queues(q.safety, xs, q.telemetry)
    case Telemetry => Queues(q.safety, q.control, xs)
  }

  /** The queues that a worker looks at on each level of its select. */
  predicate Polls(level: nat, p: Priority) {
    match p
    case Safety => true
    case Control => level >= 2
    case Telemetry => level >= 3
  }

  predicate NothingOnLevel(q: Queues, level: nat) {
    forall p :: Polls(level, p) ==> QueueOf(q, p) == []
  }

  // ----- Steps

  predicate CanCaller(s: State, i: nat) { i < |s.ops| && ByCaller(s.ops[i].pc) }

  predicate CanReceive(s: State, w: nat, p: Priority) {
    && w < |s.workers| && s.workers[w].Polling? && Polls(s.workers[w].level, p) && QueueOf(s.queues, p) != []
    && QueueOf(s.queues, p)[0] < |s.ops|
  }

  predicate CanDescend(s: State, w: nat) {
    w < |s.workers| && s.workers[w].Polling? && s.workers[w].level < 3 && NothingOnLevel(s.queues, s.workers[w].level)
  }

  predicate CanWork(s: State, w: nat) {
    w < |s.workers| && s.workers[w].Busy? && s.workers[w].op < |s.ops| && ByWorker(s.ops[s.workers[w].op].pc)
  }

  predicate Enabled(c: Config, s: State, step: Step) {
    match step
    case Arrive(_, session) => session.Some? ==> session.value < c.sessions
    case Expire(i) => i < |s.ops|
    case Caller(i, _) => CanCaller(s, i)
    case Receive(w, p) => CanReceive(s, w, p)
    case Descend(w) => CanDescend(s, w)
    case Work(w, _) => CanWork(s, w)
    case CheckHealth => true
  }

  function WithOps(s: State, ops: seq<Op>): State { State(ops, s.load, s.queues, s.workers, s.health, s.log) }

  predicate Room(c: Config, s: State, op: Op) { |QueueOf(s.queues, op.priority)| < c.queueSize }

  function DoCaller(c: Config, s: State, i: nat, breakerOpen: bool): State
    requires CanCaller(s, i)
  {
    var op := s.ops[i];
    var m := CallerMove(c, s.load, Room(c, s, op), op, breakerOpen);
    State(s.ops[i := Moved(op, m.pc)], Loaded(s.load, op, m),
          if m.pc.Queued? then WithQueue(s.queues, op.priority, QueueOf(s.queues, op.priority) + [i]) else s.queues,
          s.workers, s.health, Logged(s.log, m))
  }

  function DoReceive(s: State, w: nat, p: Priority): State
    requires CanReceive(s, w, p)
  {
    var q := QueueOf(s.queues, p);
    State(s.ops[q[0] := Moved(s.ops[q[0]], AtWorkerContext)], s.load, WithQueue(s.queues, p, q[1..]),
          s.workers[w := Busy(q[0])], s.health, s.log)
  }

  function DoWork(s: State, w: nat, breakerOpen: bool): State
    requires CanWork(s, w)
  {
    var i := s.workers[w].op;
    var op := s.ops[i];
    var m := WorkerMove(op, breakerOpen);
    State(s.ops[i := Moved(op, m.pc)], Loaded(s.load, op, m), s.queues,
          if m.pc.Finished? then s.workers[w := Polling(1)] else s.workers, s.health, s.log)
  }

  /** checkGlobalHealth: load, look at the flag, store. */
  function DoHealth(c: Config, s: State): State {
    var thr := Threshold(c);
    match s.health
    case Resting =>
      State(s.ops, s.load, s.queues, s.workers, Checking(s.load.global),
            Log(s.log.loads + [s.load.global], s.log.flips))
    case Checking(seen) =>
      var next := if seen >= thr && !s.load.brownout then Storing(seen, true)
                  else if seen < Half(thr) && s.load.brownout then Storing(seen, false)
                  else Resting;
      State(s.ops, s.load, s.queues, s.workers, next, s.log)
    case Storing(seen, on) =>
      State(s.ops, Load(s.load.global, s.load.sessions, on), s.queues, s.workers, Resting,
            Log(s.log.loads, s.log.flips + [Flip(on, seen)]))
  }

  function Apply(c: Config, s: State, step: Step): State
    requires Enabled(c, s, step)
  {
    match step
    case Arrive(p, session) => WithOps(s, s.ops + [Op(p, session, false, AtContext, 0, [])])
    case Expire(i) =>
      var op := s.ops[i];
      WithOps(s, s.ops[i := Op(op.priority, op.session, true, op.pc, op.ran, op.results)])
    case Caller(i, open) => DoCaller(c, s, i, open)
    case Receive(w, p) => DoReceive(s, w, p)
    case Descend(w) => State(s.ops, s.load, s.queues, s.workers[w := Polling(s.workers[w].level + 1)], s.health, s.log)
    case Work(w, open) => DoWork(s, w, open)
    case CheckHealth => DoHealth(c, s)
  }

  ghost predicate Run(c: Config, s: State, steps: seq<Step>, s': State)
    decreases |steps|
  {
    if steps == [] then s' == s else Enabled(c, s, steps[0]) && Run(c, Apply(c, s, steps[0]), steps[1..], s')
  }
}
