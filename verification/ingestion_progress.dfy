/** Shutdown terminates: once the points channel is closed the pipeline is never stuck before it is
    complete, and only finitely many steps remain, whoever is scheduled. */
module IngestionProgress {
  import opened Counting
  import opened DataPoints
  import opened Ingestion
  import opened IngestionOwnership
  import opened IngestionContents
  import opened IngestionSafety

  function OfHandler(h: Handler, k: nat): nat {
    match h
    case Checked(_) => 2
    case Holding(_, _) => 1
    case Returned => 0
  }

  function OfWriter(w: Writer, k: nat): nat {
    match w
    case Idle => 1
    case Writing(_) => 3
    case Written(_) => 2
    case Exited => 0
  }

  function OfPhase(p: Phase): nat {
    match p
    case Looping => 2
    case Flushing(_, last) => if last then 5 else 6
    case Releasing(_, last) => if last then 2 else 3
    case Closing => 1
    case Done => 0
  }

  /** The work that is left. A point is worth more the further it is from its write. */
  function Work(s: State): nat {
    6 * |s.intake.chan| + 5 * |s.acc.current| + OfPhase(s.acc.phase) + 3 * |s.out.queue| +
    Total(s.out.writers, OfWriter, 0) + Total(s.intake.handlers, OfHandler, 0) + (if s.acc.cancelled then 0 else 1)
  }

  /** The pool's own business, and a tick that finds nothing to flush. */
  predicate Stutters(s: State, step: Step) {
    || (step.Outside? && (step.o.Allocate? || step.o.Collect?))
    || (step == Accumulate(Tick) && s.acc.current == [])
  }

  lemma CallbackWork(c: Config, s: State, k: CallbackStep)
    requires s.intake.closed && s.intake.shutdown && CanCallback(s, k)
    ensures Work(DoCallback(c, s, k)) < Work(s)
  {
    TotalUpdate(s.intake.handlers, k.h, DoCallback(c, s, k).intake.handlers[k.h], OfHandler, 0);
  }

  lemma AccumulatorWork(c: Config, s: State, a: AccumulatorStep)
    requires CanAccumulate(c, s, a) && Protocol(s) && !Stutters(s, Accumulate(a))
    ensures Work(DoAccumulate(c, s, a)) < Work(s)
  {
  }

  lemma WriterWork(s: State, w: nat, wr: WriterStep)
    requires CanWrite(s, w, wr)
    ensures Work(DoWrite(s, w, wr)) < Work(s)
  {
    TotalUpdate(s.out.writers, w, DoWrite(s, w, wr).out.writers[w], OfWriter, 0);
  }

  lemma EveryStepIsProgress(c: Config, s: State, step: Step)
    requires Protocol(s) && s.intake.closed && Enabled(c, s, step)
    ensures Apply(c, s, step).intake.closed
    ensures if Stutters(s, step) then Work(Apply(c, s, step)) == Work(s) else Work(Apply(c, s, step)) < Work(s)
  {
    match step
    case Outside(_) =>
    case Callback(k) => CallbackWork(c, s, k);
    case Accumulate(a) => if !Stutters(s, step) { AccumulatorWork(c, s, a); }
    case AtWriter(w, wr) => WriterWork(s, w, wr);
  }

  ghost function WorkDone(c: Config, s: State, steps: seq<Step>, s': State): nat
    requires Run(c, s, steps, s')
    decreases |steps|
  {
    if steps == [] then 0
    else (if Stutters(s, steps[0]) then 0 else 1) + WorkDone(c, Apply(c, s, steps[0]), steps[1..], s')
  }

  /** So no run can make more steps than the work that was left when the channel was closed. */
  lemma {:induction false} WorkIsFinite(c: Config, s: State, steps: seq<Step>, s': State)
    requires Run(c, s, steps, s') && Protocol(s) && s.intake.closed
    ensures WorkDone(c, s, steps, s') + Work(s') <= Work(s)
    decreases |steps|
  {
    if steps != [] {
      EveryStepIsProgress(c, s, steps[0]);
      ProtocolIsKept(c, s, steps[0]);
      WorkIsFinite(c, Apply(c, s, steps[0]), steps[1..], s');
    }
  }

  /** A step that the accumulator or a writer can take by itself and that brings the end nearer. */
  ghost predicate Advances(c: Config, s: State, step: Step) {
    (step.Accumulate? || step.AtWriter?) && Enabled(c, s, step) && !Stutters(s, step)
  }

  predicate Blocked(c: Config, s: State) { s.acc.phase.Flushing? && c.writers == 0 && !s.acc.cancelled }

  lemma WriterAdvances(c: Config, s: State, w: nat)
    requires Protocol(s) && w < |s.out.writers| && !s.out.writers[w].Exited?
    requires s.out.writers[w].Idle? ==> s.out.queue != [] || s.acc.phase.Done?
    ensures exists step :: Advances(c, s, step)
  {
    var wr := match s.out.writers[w]
      case Idle => if s.out.queue != [] then Take else Exit
      case Writing(_) => WriteOut
      case Written(_) => ReleaseOut
      case Exited => Exit;
    assert Advances(c, s, AtWriter(w, wr));
  }

  lemma AccumulatorAdvances(c: Config, s: State, a: AccumulatorStep)
    requires CanAccumulate(c, s, a) && a != Tick
    ensures exists step :: Advances(c, s, step)
  {
    assert Advances(c, s, Accumulate(a));
  }

  /** Before completion somebody can always go on, except that a flush waits for ever when there is no
      writer and the context is not cancelled, which Batcher.Stop does. */
  lemma NeverStuckIff(c: Config, s: State)
    requires Inv(c, s) && s.intake.closed && !Complete(s)
    ensures (exists step :: Advances(c, s, step)) <==> !Blocked(c, s)
  {
    if Blocked(c, s) {
      assert forall step :: !Advances(c, s, step);
    } else if s.acc.phase.Looping? {
      AccumulatorAdvances(c, s, if s.intake.chan != [] then Receive else DetectClose);
    } else if s.acc.phase.Releasing? {
      AccumulatorAdvances(c, s, DirectRelease);
    } else if s.acc.phase.Closing? {
      AccumulatorAdvances(c, s, CloseQueue);
    } else if s.acc.phase.Flushing? && s.acc.cancelled {
      AccumulatorAdvances(c, s, DirectWrite);
    } else if s.acc.phase.Flushing? && |s.out.queue| < 2 * c.writers {
      AccumulatorAdvances(c, s, PutBatch);
    } else if s.acc.phase.Flushing? {
      assert !s.out.writers[0].Exited?;
      WriterAdvances(c, s, 0);
    } else {
      SomeWriterIsLeft(c, s);
    }
  }

  lemma SomeWriterIsLeft(c: Config, s: State)
    requires Inv(c, s) && s.acc.phase.Done? && !Complete(s)
    ensures exists step :: Advances(c, s, step)
  {
    if s.out.queue != [] {
      WriterAdvances(c, s, 0);
    } else {
      var w: nat :| w < |s.out.writers| && !s.out.writers[w].Exited?;
      WriterAdvances(c, s, w);
    }
  }
}
