/** The accumulator as the service writes it: a Batcher object whose methods update its fields. Each
    method is a run of the accumulator's steps in the pipeline, so all that is proved about runs is
    proved about it. The outcome of the select in flush is nondeterministic where both branches are ready. */
module Batching {
  import opened DataPoints
  import opened Ingestion

  class Batcher {
    const c: Config
    var mem: Memory
    var intake: Intake
    var currentBatch: seq<Ref>
    var phase: Phase
    var cancelled: bool
    var batchChan: seq<Batch>
    var closes: nat
    var panicked: bool
    var writers: seq<Writer>
    var batchesFlushed: nat
    var pointsBatched: nat
    ghost var log: Log

    ghost function View(): State
      reads this
    {
      State(mem, intake, Accumulator(phase, currentBatch, cancelled), Output(batchChan, closes, panicked, writers), log)
    }

    /** The counter of flushed batches numbers them. */
    ghost predicate Valid()
      reads this
    {
      batchesFlushed == |log.flushed|
    }

    constructor (c: Config)
      ensures Valid() && this.c == c && View() == Init(c)
    {
      this.c := c;
      mem, intake := Memory(map[], multiset{}), Intake([], [], false, false, Counts(0, 0, 0));
      currentBatch, phase, cancelled := [], Looping, false;
      batchChan, closes, panicked, writers := [], 0, false, seq(c.writers, _ => Idle);
      batchesFlushed, pointsBatched := 0, 0;
      log := Log([], [], []);
    }

    /** The first half of flush: the current batch is taken and a new one started. */
    method BeginFlush(last: bool)
      requires Valid()
      modifies this`currentBatch, this`phase, this`batchesFlushed, this`log
      ensures Valid() && View() == Flush(old(View()), old(currentBatch), last)
    {
      phase := Flushing(Batch(batchesFlushed, currentBatch), last);
      log := Log(log.accepted, log.flushed + [Values(mem.heap, currentBatch)], log.handed);
      currentBatch := [];
      batchesFlushed := batchesFlushed + 1;
    }

    /** The select of flush, and after a direct write the release. */
    method FinishFlush() returns (ghost steps: seq<Step>)
      requires Valid() && phase.Flushing? && (|batchChan| < 2 * c.writers || cancelled)
      modifies this`batchChan, this`panicked, this`phase, this`mem, this`log
      ensures Valid() && Run(c, old(View()), steps, View())
      ensures phase == AfterFlush(old(phase.last))
      ensures steps == [Accumulate(PutBatch)] || steps == [Accumulate(DirectWrite), Accumulate(DirectRelease)]
    {
      var batch, last := phase.batch, phase.last;
      var direct: bool := *;
      if |batchChan| < 2 * c.writers && !(direct && cancelled) {
        batchChan, panicked := batchChan + [batch], panicked || closes > 0;
        steps := [Accumulate(PutBatch)];
      } else {
        ghost var written := DoAccumulate(c, View(), DirectWrite);
        log := Log(log.accepted, log.flushed, log.handed + [Write(batch.index, Values(mem.heap, batch.refs))]);
        mem := Release(mem, batch.refs);
        steps := [Accumulate(DirectWrite), Accumulate(DirectRelease)];
        assert CanAccumulate(c, written, DirectRelease);
        assert steps[1..] == [Accumulate(DirectRelease)];
      }
      phase := AfterFlush(last);
      assert Run(c, View(), [], View());
    }

    /** One turn of accumulatorLoop that receives a point: addToBatch. */
    method AddToBatch() returns (ghost steps: seq<Step>)
      requires Valid() && phase.Looping? && intake.chan != [] && (|batchChan| < 2 * c.writers || cancelled)
      modifies this
      ensures Valid() && cancelled == old(cancelled) && phase.Looping?
      ensures Run(c, old(View()), steps, View())
      ensures steps != [] && steps[0] == Accumulate(Receive)
      ensures intake.chan == old(intake.chan)[1..] && intake.closed == old(intake.closed)
      ensures pointsBatched == old(pointsBatched) + 1 && closes == old(closes)
    {
      ghost var received := DoAccumulate(c, View(), Receive);
      OneStep(c, View(), Accumulate(Receive));
      currentBatch := currentBatch + [intake.chan[0]];
      intake := Intake(intake.handlers, intake.chan[1..], intake.shutdown, intake.closed, intake.counts);
      pointsBatched := pointsBatched + 1;
      steps := [Accumulate(Receive)];
      if |currentBatch| >= c.batchSize {
        BeginFlush(false);
        assert View() == received;
        ghost var rest := FinishFlush();
        RunsCompose(c, old(View()), steps, received, rest, View());
        steps := steps + rest;
      }
    }

    /** A tick of the flush timer. */
    method FlushIfNotEmpty() returns (ghost steps: seq<Step>)
      requires Valid() && phase.Looping? && (|batchChan| < 2 * c.writers || cancelled)
      modifies this
      ensures Valid() && phase.Looping? && currentBatch == []
      ensures Run(c, old(View()), steps, View()) && steps != [] && steps[0] == Accumulate(Tick)
    {
      ghost var ticked := DoAccumulate(c, View(), Tick);
      OneStep(c, View(), Accumulate(Tick));
      steps := [Accumulate(Tick)];
      if currentBatch != [] {
        BeginFlush(false);
        ghost var rest := FinishFlush();
        RunsCompose(c, old(View()), steps, ticked, rest, View());
        steps := steps + rest;
      }
    }

    /** flushAndClose up to the close: the last flush, if there is anything to flush. */
    method LastFlush() returns (ghost steps: seq<Step>)
      requires Valid() && phase.Looping? && intake.closed && intake.chan == []
      requires |batchChan| < 2 * c.writers || cancelled
      modifies this
      ensures Valid() && phase.Closing? && currentBatch == []
      ensures closes == old(closes) && intake == old(intake) && pointsBatched == old(pointsBatched)
      ensures Run(c, old(View()), steps, View())
    {
      ghost var detected := DoAccumulate(c, View(), DetectClose);
      OneStep(c, View(), Accumulate(DetectClose));
      steps := [Accumulate(DetectClose)];
      if currentBatch != [] {
        BeginFlush(true);
        ghost var rest := FinishFlush();
        RunsCompose(c, old(View()), steps, detected, rest, View());
        steps := steps + rest;
      } else {
        phase := Closing;
      }
    }

    /** The deferred end of accumulatorLoop: flushAndClose. */
    method FlushAndClose() returns (ghost steps: seq<Step>)
      requires Valid() && phase.Looping? && intake.closed && intake.chan == []
      requires |batchChan| < 2 * c.writers || cancelled
      modifies this
      ensures Valid() && phase.Done? && currentBatch == [] && closes == old(closes) + 1
      ensures intake == old(intake) && pointsBatched == old(pointsBatched)
      ensures Run(c, old(View()), steps, View())
    {
      steps := LastFlush();
      ghost var flushed := View();
      OneStep(c, flushed, Accumulate(CloseQueue));
      panicked, closes, phase := panicked || closes > 0, closes + 1, Done;
      RunsCompose(c, old(View()), steps, flushed, [Accumulate(CloseQueue)], View());
      steps := steps + [Accumulate(CloseQueue)];
    }

    /** accumulatorLoop during a shutdown, with no writer running: the channel is emptied, the rest is
        flushed, and the batch channel closed. */
    method Drain() returns (ghost steps: seq<Step>)
      requires Valid() && phase.Looping? && intake.closed && cancelled
      modifies this
      ensures Valid() && phase.Done? && currentBatch == [] && closes == old(closes) + 1 && intake.chan == []
      ensures Run(c, old(View()), steps, View())
      ensures pointsBatched == old(pointsBatched) + |old(intake.chan)|
    {
      steps := [];
      while intake.chan != []
        invariant Valid() && phase.Looping? && intake.closed && cancelled
        invariant Run(c, old(View()), steps, View())
        invariant closes == old(closes)
        invariant pointsBatched + |intake.chan| == old(pointsBatched) + |old(intake.chan)|
        decreases |intake.chan|
      {
        ghost var before := View();
        ghost var turn := AddToBatch();
        RunsCompose(c, old(View()), steps, before, turn, View());
        steps := steps + turn;
      }
      ghost var before := View();
      ghost var last := FlushAndClose();
      RunsCompose(c, old(View()), steps, before, last, View());
      steps := steps + last;
    }
  }
}
