/** How the pipeline batches: batches are full unless time or shutdown cuts them short, so there are few of
    them; they are taken by the writers in order; and points are lost only where they must be. */
module IngestionBatches {
  import opened Counting
  import opened DataPoints
  import opened Ingestion
  import opened IngestionContents
  import opened IngestionSafety

  /** A tick of the flush timer, or the end of the stream. */
  predicate Timed(step: Step) { step == Accumulate(Tick) || step == Accumulate(DetectClose) }

  function TimedSteps(steps: seq<Step>): nat {
    if steps == [] then 0 else (if Timed(steps[0]) then 1 else 0) + TimedSteps(steps[1..])
  }

  /** The size of a full batch. */
  function Full(c: Config): nat { if c.batchSize > 1 then c.batchSize else 1 }

  function IsShort(b: seq<Point>, full: nat): nat { if |b| == full then 0 else 1 }

  lemma StepFlushes(c: Config, s: State, step: Step)
    requires Bounded(c, s) && Enabled(c, s, step)
    ensures var (before, after) := (s.log.flushed, Apply(c, s, step).log.flushed);
            after == before || (after == before + [after[|after| - 1]] &&
                                (Timed(step) || |after[|after| - 1]| == Full(c)))
  {
  }

  lemma {:induction false} ShortBatches(c: Config, s: State, steps: seq<Step>, s': State)
    requires Run(c, s, steps, s') && Bounded(c, s)
    ensures Total(s'.log.flushed, IsShort, Full(c)) <= Total(s.log.flushed, IsShort, Full(c)) + TimedSteps(steps)
    decreases |steps|
  {
    if steps != [] {
      var next := Apply(c, s, steps[0]);
      StepFlushes(c, s, steps[0]);
      BoundsAreKept(c, s, steps[0]);
      if next.log.flushed != s.log.flushed {
        TotalAppend(s.log.flushed, next.log.flushed[|next.log.flushed| - 1], IsShort, Full(c));
      }
      ShortBatches(c, next, steps[1..], s');
    }
  }

  lemma {:induction false} NotTimed(steps: seq<Step>)
    ensures TimedSteps(steps) == 0 <==> forall k :: 0 <= k < |steps| ==> !Timed(steps[k])
  {
    if steps != [] {
      NotTimed(steps[1..]);
      assert forall k :: 0 < k < |steps| ==> steps[k] == steps[1..][k - 1];
      assert forall k :: 0 <= k < |steps[1..]| ==> steps[1..][k] == steps[k + 1];
    }
  }

  /** In every run each tick, and the end of the stream, cuts short at most one batch, and all others have
      exactly the configured size; without either, all have. */
  lemma BatchesAreFull(c: Config, steps: seq<Step>, s: State)
    requires Run(c, Init(c), steps, s)
    ensures Total(s.log.flushed, IsShort, Full(c)) <= TimedSteps(steps)
    ensures (forall k :: 0 <= k < |steps| ==> !Timed(steps[k])) ==>
              forall k :: 0 <= k < |s.log.flushed| ==>
                |s.log.flushed[k]| == if c.batchSize > 1 then c.batchSize else 1
  {
    FewAreShort(c, steps, s);
    NotTimed(steps);
    NoneIsShort(s.log.flushed, Full(c));
  }

  lemma FewAreShort(c: Config, steps: seq<Step>, s: State)
    requires Run(c, Init(c), steps, s)
    ensures Total(s.log.flushed, IsShort, Full(c)) <= TimedSteps(steps)
  {
    InvHoldsInitially(c);
    ShortBatches(c, Init(c), steps, s);
  }

  lemma NoneIsShort(flushed: seq<seq<Point>>, full: nat)
    ensures Total(flushed, IsShort, full) == 0 ==> forall k :: 0 <= k < |flushed| ==> |flushed[k]| == full
  {
    TotalZero(flushed, IsShort, full);
    if Total(flushed, IsShort, full) == 0 {
      forall k | 0 <= k < |flushed| ensures |flushed[k]| == full { assert IsShort(flushed[k], full) == 0; }
    }
  }

  lemma {:induction false} ConcatIsLong(flushed: seq<seq<Point>>, full: nat)
    ensures |Concat(flushed)| >= full * (|flushed| - Total(flushed, IsShort, full))
  {
    if flushed != [] {
      var (front, last) := (flushed[..|flushed| - 1], flushed[|flushed| - 1]);
      ConcatIsLong(front, full);
      assert flushed == front + [last];
      TotalAppend(front, last, IsShort, full);
      Distributes(full, |front| - Total(front, IsShort, full), |last|);
    }
  }

  lemma Distributes(full: nat, n: int, last: nat)
    ensures full * (n + 1) == full * n + full
  {
  }

  lemma Monotone(full: nat, m: int, n: int)
    requires m <= n
    ensures full * m <= full * n
  {
  }

  /** So n accepted points make at most n / size batches, besides one for each tick and one for the end. */
  lemma BatchesAreFew(c: Config, steps: seq<Step>, s: State)
    requires Run(c, Init(c), steps, s)
    ensures Full(c) * (|s.log.flushed| - TimedSteps(steps)) <= |s.log.accepted|
  {
    Safety(c, steps, s);
    BatchesAreFull(c, steps, s);
    ConcatIsLong(s.log.flushed, Full(c));
    Monotone(Full(c), |s.log.flushed| - TimedSteps(steps),
             |s.log.flushed| - Total(s.log.flushed, IsShort, Full(c)));
    assert |Meaning(s.log.accepted)| == |s.log.accepted|;
  }

  /** A tick leaves nothing unflushed. */
  lemma TickFlushes(c: Config, s: State)
    requires Enabled(c, s, Accumulate(Tick))
    ensures var s' := Apply(c, s, Accumulate(Tick));
            && s'.acc.current == []
            && s'.log.flushed == s.log.flushed + if s.acc.current == [] then []
                                                 else [Values(s.mem.heap, s.acc.current)]
  {
  }

  // ----- In which order batches are written

  ghost predicate InOrder(s: State) {
    && (forall i, j :: 0 <= i < j < |s.out.queue| ==> s.out.queue[i].index < s.out.queue[j].index)
    && (forall i :: 0 <= i < |s.out.queue| ==> s.out.queue[i].index < |s.log.flushed|)
    && (s.acc.phase.Flushing? ==>
          && s.acc.phase.batch.index == |s.log.flushed| - 1
          && forall i :: 0 <= i < |s.out.queue| ==> s.out.queue[i].index < s.acc.phase.batch.index)
  }

  lemma AccumulatorKeepsOrder(c: Config, s: State, a: AccumulatorStep)
    requires CanAccumulate(c, s, a) && InOrder(s)
    ensures InOrder(DoAccumulate(c, s, a))
  {
  }

  lemma WriterKeepsOrder(s: State, w: nat, wr: WriterStep)
    requires CanWrite(s, w, wr) && InOrder(s)
    ensures InOrder(DoWrite(s, w, wr))
  {
  }

  lemma OthersKeepOrder(s: State, s': State)
    requires InOrder(s) && s'.out == s.out && s'.acc.phase == s.acc.phase && s'.log.flushed == s.log.flushed
    ensures InOrder(s')
  {
  }

  lemma OrderIsKept(c: Config, s: State, step: Step)
    requires Enabled(c, s, step) && InOrder(s)
    ensures InOrder(Apply(c, s, step))
  {
    match step
    case Outside(_) => OthersKeepOrder(s, Apply(c, s, step));
    case Callback(_) => OthersKeepOrder(s, Apply(c, s, step));
    case Accumulate(a) => AccumulatorKeepsOrder(c, s, a);
    case AtWriter(w, wr) => WriterKeepsOrder(s, w, wr);
  }

  lemma {:induction false} RunKeepsOrder(c: Config, s: State, steps: seq<Step>, s': State)
    requires Run(c, s, steps, s') && InOrder(s)
    ensures InOrder(s')
    decreases |steps|
  {
    if steps != [] {
      OrderIsKept(c, s, steps[0]);
      RunKeepsOrder(c, Apply(c, s, steps[0]), steps[1..], s');
    }
  }

  /** A writer takes the batch that was flushed before all others in the batch channel. */
  lemma OldestBatchFirst(c: Config, steps: seq<Step>, s: State, w: nat)
    requires Run(c, Init(c), steps, s) && Enabled(c, s, AtWriter(w, Take))
    ensures var s' := Apply(c, s, AtWriter(w, Take));
            && w < |s'.out.writers| && s'.out.writers[w].Writing? && s'.out.writers[w].batch in s.out.queue
            && |s'.out.queue| == |s.out.queue| - 1
            && forall b :: b in s'.out.queue ==> s'.out.writers[w].batch.index < b.index
  {
    RunKeepsOrder(c, Init(c), steps, s);
  }

  // ----- What is lost, and who waits

  /** A point is dropped exactly when its callback finds the channel open and full, and discarded exactly when
      it finds it closed; otherwise its message is accepted. */
  lemma PointIsLostIff(c: Config, s: State, step: Step)
    requires Bounded(c, s) && Enabled(c, s, step)
    ensures var (n, n') := (s.intake.counts, Apply(c, s, step).intake.counts);
            var sends := step.Callback? && step.k.Send?;
            && n'.dropped == n.dropped + (if sends && !s.intake.closed && |s.intake.chan| == c.bufferSize then 1 else 0)
            && n'.discarded == n.discarded + (if sends && s.intake.closed then 1 else 0)
            && n'.received == n.received + (if step.Callback? && step.k.Parse? then 1 else 0)
            && |Apply(c, s, step).log.accepted| ==
               |s.log.accepted| + if sends && !s.intake.closed && |s.intake.chan| < c.bufferSize then 1 else 0
  {
  }

  /** Nothing in the pipeline holds up the service: it may shut down, close the channel and cancel at any time,
      and until it shuts down any message may come. */
  lemma ServiceActsFreely(c: Config, s: State, m: Message)
    ensures Enabled(c, s, Outside(SetShutdown)) <==> !s.intake.shutdown
    ensures Enabled(c, s, Outside(CloseChan)) <==> s.intake.shutdown && !s.intake.closed
    ensures Enabled(c, s, Outside(Cancel)) <==> !s.acc.cancelled
    ensures Enabled(c, s, Callback(Start(m))) <==> !s.intake.shutdown
  {
  }

  /** A flush waits exactly while the batch channel holds two batches a writer and nothing is cancelled. */
  lemma FlushWaitsIff(c: Config, steps: seq<Step>, s: State)
    requires Run(c, Init(c), steps, s) && s.acc.phase.Flushing?
    ensures (forall a :: !Enabled(c, s, Accumulate(a))) <==> |s.out.queue| == 2 * c.writers && !s.acc.cancelled
  {
    Safety(c, steps, s);
    assert Enabled(c, s, Accumulate(PutBatch)) <==> |s.out.queue| < 2 * c.writers;
    assert Enabled(c, s, Accumulate(DirectWrite)) <==> s.acc.cancelled;
  }
}
