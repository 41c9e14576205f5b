/** The ingestion pipeline: message callbacks, a bounded channel of points, one accumulator, a bounded
    channel of batches, N writers, and the shutdown of all of them. Objects live in a heap and are
    recycled through a pool. Every step is one indivisible action of one goroutine, so that a run is
    any interleaving of them. */
module Ingestion {
  import opened Counting
  import opened DataPoints

  type Ref = nat

  datatype Config = Config(bufferSize: nat, batchSize: int, writers: nat)

  /** A callback that has passed the shutdown check, has parsed its message into an object, has returned. */
  datatype Handler = Checked(m: Message) | Holding(m: Message, obj: Ref) | Returned

  /** `index` numbers the batches in the order in which they were flushed. */
  datatype Batch = Batch(index: nat, refs: seq<Ref>)

  /** `last` is set on the flush of flushAndClose. Releasing: the direct write has returned. */
  datatype Phase = Looping | Flushing(batch: Batch, last: bool) | Releasing(batch: Batch, last: bool) | Closing | Done

  datatype Writer = Idle | Writing(batch: Batch) | Written(batch: Batch) | Exited

  /** What a call of WriteBatch was given. */
  datatype Write = Write(index: nat, points: seq<Point>)

  datatype Memory = Memory(heap: map<Ref, Point>, pool: multiset<Ref>)

  datatype Intake = Intake(handlers: seq<Handler>, chan: seq<Ref>, shutdown: bool, closed: bool, counts: Counts)

  datatype Counts = Counts(received: nat, dropped: nat, discarded: nat)

  datatype Accumulator = Accumulator(phase: Phase, current: seq<Ref>, cancelled: bool)

  datatype Output = Output(queue: seq<Batch>, closes: nat, panicked: bool, writers: seq<Writer>)

  /** The history of the run: messages accepted into the channel, batches flushed, writes made. */
  datatype Log = Log(accepted: seq<Message>, flushed: seq<seq<Point>>, handed: seq<Write>)

  datatype State = State(mem: Memory, intake: Intake, acc: Accumulator, out: Output, log: Log)

  /** The pool, the service's Stop and the context act from outside the goroutines of the pipeline. */
  datatype OutsideStep = Allocate(obj: Ref) | Collect(obj: Ref) | SetShutdown | CloseChan | Cancel

  datatype CallbackStep = Start(m: Message) | Reject(h: nat) | Parse(h: nat, obj: Ref) | Send(h: nat)

  datatype AccumulatorStep = Receive | Tick | DetectClose | PutBatch | DirectWrite | DirectRelease | CloseQueue

  datatype WriterStep = Take | WriteOut | ReleaseOut | Exit

  datatype Step =
    | Outside(o: OutsideStep)
    | Callback(k: CallbackStep)
    | Accumulate(a: AccumulatorStep)
    | AtWriter(w: nat, wr: WriterStep)

  function Init(c: Config): State {
    State(Memory(map[], multiset{}), Intake([], [], false, false, Counts(0, 0, 0)), Accumulator(Looping, [], false),
          Output([], 0, false, seq(c.writers, _ => Idle)), Log([], [], []))
  }

  function Look(heap: map<Ref, Point>, r: Ref): Point { if r in heap then heap[r] else ZERO }

  function Values(heap: map<Ref, Point>, refs: seq<Ref>): (r: seq<Point>)
    ensures |r| == |refs|
  {
    seq(|refs|, i requires 0 <= i < |refs| => Look(heap, refs[i]))
  }

  function Zeroed(heap: map<Ref, Point>, refs: seq<Ref>): map<Ref, Point> {
    map r | r in heap :: if r in refs then ZERO else heap[r]
  }

  function PointOf(m: Message): Point { if Parsed(m).Ok? then Parsed(m).value else ZERO }

  function Meaning(ms: seq<Message>): (r: seq<Point>)
    ensures |r| == |ms|
  {
    seq(|ms|, i requires 0 <= i < |ms| => PointOf(ms[i]))
  }

  function Concat<T>(ss: seq<seq<T>>): seq<T> {
    if ss == [] then [] else Concat(ss[..|ss| - 1]) + ss[|ss| - 1]
  }

  // ----- The pool, Stop and the context

  predicate CanOutside(s: State, o: OutsideStep) {
    match o
    case Allocate(obj) => obj !in s.mem.heap
    case Collect(obj) => obj in s.mem.pool
    case SetShutdown => !s.intake.shutdown
    case CloseChan => s.intake.shutdown && !s.intake.closed
    case Cancel => !s.acc.cancelled
  }

  function DoOutside(s: State, o: OutsideStep): State {
    var i := s.intake;
    match o
    case Allocate(obj) =>
      State(Memory(s.mem.heap[obj := ZERO], s.mem.pool + multiset{obj}), i, s.acc, s.out, s.log)
    case Collect(obj) => State(Memory(s.mem.heap, s.mem.pool - multiset{obj}), i, s.acc, s.out, s.log)
    case SetShutdown => State(s.mem, Intake(i.handlers, i.chan, true, i.closed, i.counts), s.acc, s.out, s.log)
    case CloseChan => State(s.mem, Intake(i.handlers, i.chan, i.shutdown, true, i.counts), s.acc, s.out, s.log)
    case Cancel => State(s.mem, i, Accumulator(s.acc.phase, s.acc.current, true), s.out, s.log)
  }

  // ----- handleMessage

  predicate CanCallback(s: State, k: CallbackStep) {
    match k
    case Start(_) => !s.intake.shutdown
    case Reject(h) =>
      h < |s.intake.handlers| && s.intake.handlers[h].Checked? && Parsed(s.intake.handlers[h].m).Err?
    case Parse(h, obj) =>
      && h < |s.intake.handlers| && s.intake.handlers[h].Checked? && Parsed(s.intake.handlers[h].m).Ok?
      && obj in s.mem.pool
    case Send(h) => h < |s.intake.handlers| && s.intake.handlers[h].Holding?
  }

  function ParseInto(mem: Memory, obj: Ref, m: Message): Memory {
    Memory(mem.heap[obj := Overwritten(Look(mem.heap, obj), PointOf(m))], mem.pool - multiset{obj})
  }

  /** The non-blocking send. On a closed channel it panics, which the deferred recover turns into a
      discarded point. */
  function TrySend(c: Config, i: Intake, h: nat): Intake
    requires h < |i.handlers| && i.handlers[h].Holding?
  {
    var n := i.counts;
    var handlers := i.handlers[h := Returned];
    if i.closed then
      Intake(handlers, i.chan, i.shutdown, i.closed, Counts(n.received, n.dropped, n.discarded + 1))
    else if |i.chan| < c.bufferSize then
      Intake(handlers, i.chan + [i.handlers[h].obj], i.shutdown, i.closed, n)
    else
      Intake(handlers, i.chan, i.shutdown, i.closed, Counts(n.received, n.dropped + 1, n.discarded))
  }

  predicate Accepts(c: Config, i: Intake) { !i.closed && |i.chan| < c.bufferSize }

  function WithHandler(i: Intake, h: nat, x: Handler, n: Counts): Intake
    requires h < |i.handlers|
  {
    Intake(i.handlers[h := x], i.chan, i.shutdown, i.closed, n)
  }

  function DoCallback(c: Config, s: State, k: CallbackStep): State
    requires CanCallback(s, k)
  {
    var i := s.intake;
    match k
    case Start(m) =>
      State(s.mem, Intake(i.handlers + [Checked(m)], i.chan, i.shutdown, i.closed, i.counts), s.acc, s.out, s.log)
    case Reject(h) => State(s.mem, WithHandler(i, h, Returned, i.counts), s.acc, s.out, s.log)
    case Parse(h, obj) =>
      var m := i.handlers[h].m;
      State(ParseInto(s.mem, obj, m),
            WithHandler(i, h, Holding(m, obj), Counts(i.counts.received + 1, i.counts.dropped, i.counts.discarded)),
            s.acc, s.out, s.log)
    case Send(h) =>
      State(s.mem, TrySend(c, i, h), s.acc, s.out,
            if Accepts(c, i) then Log(s.log.accepted + [i.handlers[h].m], s.log.flushed, s.log.handed) else s.log)
  }

  // ----- accumulatorLoop

  predicate CanAccumulate(c: Config, s: State, a: AccumulatorStep) {
    match a
    case Receive => s.acc.phase.Looping? && s.intake.chan != []
    case Tick => s.acc.phase.Looping?
    case DetectClose => s.acc.phase.Looping? && s.intake.closed && s.intake.chan == []
    case PutBatch => s.acc.phase.Flushing? && |s.out.queue| < 2 * c.writers
    case DirectWrite => s.acc.phase.Flushing? && s.acc.cancelled
    case DirectRelease => s.acc.phase.Releasing?
    case CloseQueue => s.acc.phase.Closing?
  }

  /** flush: a new current batch, and the old one on its way to the writers. */
  function Flush(s: State, current: seq<Ref>, last: bool): State {
    State(s.mem, s.intake, Accumulator(Flushing(Batch(|s.log.flushed|, current), last), [], s.acc.cancelled), s.out,
          Log(s.log.accepted, s.log.flushed + [Values(s.mem.heap, current)], s.log.handed))
  }

  function Enter(s: State, p: Phase): State {
    State(s.mem, s.intake, Accumulator(p, s.acc.current, s.acc.cancelled), s.out, s.log)
  }

  /** addToBatch, after the receive. */
  function AddToBatch(c: Config, s: State): State
    requires s.intake.chan != []
  {
    var i := s.intake;
    var current := s.acc.current + [i.chan[0]];
    var s' := State(s.mem, Intake(i.handlers, i.chan[1..], i.shutdown, i.closed, i.counts),
                    Accumulator(s.acc.phase, current, s.acc.cancelled), s.out, s.log);
    if |current| >= c.batchSize then Flush(s', current, false) else s'
  }

  function AfterFlush(last: bool): Phase { if last then Closing else Looping }

  /** ReleaseBatch: every object of the batch is zeroed and goes back to the pool. */
  function Release(mem: Memory, refs: seq<Ref>): Memory {
    Memory(Zeroed(mem.heap, refs), mem.pool + multiset(refs))
  }

  function Hand(s: State, b: Batch): Log {
    Log(s.log.accepted, s.log.flushed, s.log.handed + [Write(b.index, Values(s.mem.heap, b.refs))])
  }

  function DoAccumulate(c: Config, s: State, a: AccumulatorStep): State
    requires CanAccumulate(c, s, a)
  {
    var q := s.out;
    match a
    case Receive => AddToBatch(c, s)
    case Tick => if s.acc.current == [] then s else Flush(s, s.acc.current, false)
    case DetectClose => if s.acc.current == [] then Enter(s, Closing) else Flush(s, s.acc.current, true)
    case PutBatch =>
      State(s.mem, s.intake, Accumulator(AfterFlush(s.acc.phase.last), s.acc.current, s.acc.cancelled),
            Output(q.queue + [s.acc.phase.batch], q.closes, q.panicked || q.closes > 0, q.writers), s.log)
    case DirectWrite =>
      State(s.mem, s.intake,
            Accumulator(Releasing(s.acc.phase.batch, s.acc.phase.last), s.acc.current, s.acc.cancelled),
            s.out, Hand(s, s.acc.phase.batch))
    case DirectRelease =>
      State(Release(s.mem, s.acc.phase.batch.refs), s.intake,
            Accumulator(AfterFlush(s.acc.phase.last), s.acc.current, s.acc.cancelled), s.out, s.log)
    case CloseQueue =>
      State(s.mem, s.intake, Accumulator(Done, s.acc.current, s.acc.cancelled),
            Output(q.queue, q.closes + 1, q.panicked || q.closes > 0, q.writers), s.log)
  }

  // ----- writerLoop

  predicate CanWrite(s: State, w: nat, wr: WriterStep) {
    && w < |s.out.writers|
    && match wr
       case Take => s.out.writers[w].Idle? && s.out.queue != []
       case WriteOut => s.out.writers[w].Writing?
       case ReleaseOut => s.out.writers[w].Written?
       case Exit => s.out.writers[w].Idle? && s.out.queue == [] && s.out.closes > 0
  }

  function WithWriter(q: Output, w: nat, x: Writer): Output
    requires w < |q.writers|
  {
    Output(q.queue, q.closes, q.panicked, q.writers[w := x])
  }

  function DoWrite(s: State, w: nat, wr: WriterStep): State
    requires CanWrite(s, w, wr)
  {
    var q := s.out;
    match wr
    case Take =>
      State(s.mem, s.intake, s.acc,
            Output(q.queue[1..], q.closes, q.panicked, q.writers[w := Writing(q.queue[0])]), s.log)
    case WriteOut =>
      State(s.mem, s.intake, s.acc, WithWriter(q, w, Written(q.writers[w].batch)), Hand(s, q.writers[w].batch))
    case ReleaseOut =>
      State(Release(s.mem, q.writers[w].batch.refs), s.intake, s.acc, WithWriter(q, w, Idle), s.log)
    case Exit => State(s.mem, s.intake, s.acc, WithWriter(q, w, Exited), s.log)
  }

  // ----- Runs

  predicate Enabled(c: Config, s: State, step: Step) {
    match step
    case Outside(o) => CanOutside(s, o)
    case Callback(k) => CanCallback(s, k)
    case Accumulate(a) => CanAccumulate(c, s, a)
    case AtWriter(w, wr) => CanWrite(s, w, wr)
  }

  function Apply(c: Config, s: State, step: Step): State
    requires Enabled(c, s, step)
  {
    match step
    case Outside(o) => DoOutside(s, o)
    case Callback(k) => DoCallback(c, s, k)
    case Accumulate(a) => DoAccumulate(c, s, a)
    case AtWriter(w, wr) => DoWrite(s, w, wr)
  }

  /** A run: every step is enabled where it is taken. */
  ghost predicate Run(c: Config, s: State, steps: seq<Step>, s': State)
    decreases |steps|
  {
    if steps == [] then s' == s else Enabled(c, s, steps[0]) && Run(c, Apply(c, s, steps[0]), steps[1..], s')
  }

  lemma {:induction false} RunsCompose(c: Config, s: State, a: seq<Step>, t: State, b: seq<Step>, u: State)
    requires Run(c, s, a, t) && Run(c, t, b, u)
    ensures Run(c, s, a + b, u)
    decreases |a|
  {
    if a == [] {
      assert a + b == b;
    } else {
      assert (a + b)[0] == a[0] && (a + b)[1..] == a[1..] + b;
      RunsCompose(c, Apply(c, s, a[0]), a[1..], t, b, u);
    }
  }

  lemma OneStep(c: Config, s: State, step: Step)
    requires Enabled(c, s, step)
    ensures Run(c, s, [step], Apply(c, s, step))
  {
    assert Run(c, Apply(c, s, step), [], Apply(c, s, step));
  }

  // ----- Who holds what

  function InBatch(b: Batch, r: nat): nat { multiset(b.refs)[r] }
  function InHandler(h: Handler, r: nat): nat { if h.Holding? && h.obj == r then 1 else 0 }
  function InPhase(p: Phase, r: nat): nat { if p.Flushing? || p.Releasing? then InBatch(p.batch, r) else 0 }
  function InWriter(w: Writer, r: nat): nat { if w.Writing? || w.Written? then InBatch(w.batch, r) else 0 }

  function InIntake(i: Intake, r: Ref): nat { Total(i.handlers, InHandler, r) + multiset(i.chan)[r] }
  function InAccumulator(a: Accumulator, r: Ref): nat { InPhase(a.phase, r) + multiset(a.current)[r] }
  function InOutput(q: Output, r: Ref): nat { Total(q.queue, InBatch, r) + Total(q.writers, InWriter, r) }

  /** In how many places outside the pool an object is. */
  function Uses(s: State, r: Ref): nat { InIntake(s.intake, r) + InAccumulator(s.acc, r) + InOutput(s.out, r) }

  function Owners(s: State, r: Ref): nat { s.mem.pool[r] + Uses(s, r) }

  /** No object is in two places, nor twice in one. */
  ghost predicate AliasFree(s: State) {
    && (forall r: Ref :: Owners(s, r) <= 1)
    && (forall r: Ref :: Owners(s, r) > 0 ==> r in s.mem.heap)
  }

  function IsBatch(b: Batch, i: nat): nat { if b.index == i then 1 else 0 }
  function FlushedBy(p: Phase, i: nat): nat { if p.Flushing? && p.batch.index == i then 1 else 0 }
  function HeldBy(w: Writer, i: nat): nat { if w.Writing? && w.batch.index == i then 1 else 0 }
  function IsWrite(w: Write, i: nat): nat { if w.index == i then 1 else 0 }

  /** How often a batch still waits for its write or has had it. */
  function Deliveries(s: State, i: nat): nat {
    FlushedBy(s.acc.phase, i) + Total(s.out.queue, IsBatch, i) + Total(s.out.writers, HeldBy, i) +
    Total(s.log.handed, IsWrite, i)
  }

  ghost predicate EachOnce(s: State) {
    forall i: nat :: Deliveries(s, i) == if i < |s.log.flushed| then 1 else 0
  }
}
