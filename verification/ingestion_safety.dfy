/** What holds in every reachable state of the ingestion pipeline, and what a completed shutdown has done. */
module IngestionSafety {
  import opened Counting
  import opened DataPoints
  import opened Ingestion
  import opened IngestionOwnership
  import opened IngestionContents

  function MaxBatch(c: Config): int { if c.batchSize > 1 then c.batchSize else 1 }

  ghost predicate Bounded(c: Config, s: State) {
    && (forall k :: 0 <= k < |s.log.flushed| ==> 1 <= |s.log.flushed[k]| <= MaxBatch(c))
    && |s.acc.current| < MaxBatch(c)
    && |s.intake.chan| <= c.bufferSize
    && |s.out.queue| <= 2 * c.writers
    && |s.out.writers| == c.writers
  }

  predicate IsLast(p: Phase) { p.Closing? || p.Done? || ((p.Flushing? || p.Releasing?) && p.last) }

  /** The shutdown protocol: the batch channel is closed exactly once, by the accumulator's last act,
      when there is nothing left to batch; nobody sends to it or closes it after that. */
  ghost predicate Protocol(s: State) {
    && (s.intake.closed ==> s.intake.shutdown)
    && (!s.acc.phase.Looping? ==> s.acc.current == [])
    && (IsLast(s.acc.phase) ==> s.intake.closed && s.intake.chan == [])
    && s.out.closes == (if s.acc.phase.Done? then 1 else 0)
    && !s.out.panicked
    && (forall w :: 0 <= w < |s.out.writers| && s.out.writers[w].Exited? ==> s.out.closes > 0 && s.out.queue == [])
  }

  function HoldsPoint(h: Handler, k: nat): nat { if h.Holding? then 1 else 0 }

  /** Every received point is accepted, dropped, discarded, or still with its callback. */
  ghost predicate Accounted(s: State) {
    s.intake.counts.received == |s.log.accepted| + s.intake.counts.dropped + s.intake.counts.discarded +
                                Total(s.intake.handlers, HoldsPoint, 0)
  }

  ghost predicate Inv(c: Config, s: State) {
    && AliasFree(s) && PoolIsZero(s.mem) && Content(s.mem.heap, s)
    && EachOnce(s) && Delivered(s.log)
    && Bounded(c, s) && Protocol(s) && Accounted(s)
  }

  // ----- Steps

  lemma OutsideContent(c: Config, s: State, o: OutsideStep)
    requires CanOutside(s, o) && PoolIsZero(s.mem) && Content(s.mem.heap, s)
    ensures PoolIsZero(DoOutside(s, o).mem) && Content(DoOutside(s, o).mem.heap, DoOutside(s, o))
  {
    var s' := DoOutside(s, o);
    assert Content(s.mem.heap, s');
    ContentIsFramed(s.mem.heap, s'.mem.heap, s');
  }

  lemma CallbackContent(c: Config, s: State, k: CallbackStep)
    requires CanCallback(s, k) && AliasFree(s) && PoolIsZero(s.mem) && Content(s.mem.heap, s)
    ensures PoolIsZero(DoCallback(c, s, k).mem) && Content(DoCallback(c, s, k).mem.heap, DoCallback(c, s, k))
  {
    if k.Parse? {
      assert Owners(s, k.obj) <= 1;
      ParseContent(c, s, k.h, k.obj);
    } else if k.Send? {
      SendContent(c, s, k.h);
    }
  }

  lemma ReleaseContent(s: State, mem: Memory, refs: seq<Ref>)
    requires AliasFree(s) && PoolIsZero(mem) && s.mem == Release(mem, refs) && Content(mem.heap, s)
    ensures PoolIsZero(s.mem) && Content(s.mem.heap, s)
  {
    ReleaseIsInvisible(mem.heap, s, refs);
    ContentIsFramed(mem.heap, s.mem.heap, s);
  }

  lemma ContentIsKept(c: Config, s: State, step: Step)
    requires Enabled(c, s, step) && AliasFree(s) && PoolIsZero(s.mem) && Content(s.mem.heap, s)
    ensures PoolIsZero(Apply(c, s, step).mem) && Content(Apply(c, s, step).mem.heap, Apply(c, s, step))
  {
    AliasFreedomIsKept(c, s, step);
    match step
    case Outside(o) => OutsideContent(c, s, o);
    case Callback(k) => CallbackContent(c, s, k);
    case Accumulate(a) =>
      AccumulatorContent(c, s, a);
      if a.DirectRelease? { ReleaseContent(DoAccumulate(c, s, a), s.mem, s.acc.phase.batch.refs); }
    case AtWriter(w, wr) =>
      WriterContent(s, w, wr);
      if wr.ReleaseOut? { ReleaseContent(DoWrite(s, w, wr), s.mem, s.out.writers[w].batch.refs); }
  }

  lemma DeliveredIsKept(c: Config, s: State, step: Step)
    requires Enabled(c, s, step) && Delivered(s.log) && BatchesIntact(s.mem.heap, s)
    ensures Delivered(Apply(c, s, step).log)
  {
  }

  lemma BoundsAreKept(c: Config, s: State, step: Step)
    requires Enabled(c, s, step) && Bounded(c, s)
    ensures Bounded(c, Apply(c, s, step))
  {
  }

  lemma ProtocolIsKept(c: Config, s: State, step: Step)
    requires Enabled(c, s, step) && Protocol(s)
    ensures Protocol(Apply(c, s, step))
  {
  }

  lemma AccountsAreKept(c: Config, s: State, step: Step)
    requires Enabled(c, s, step) && Accounted(s)
    ensures Accounted(Apply(c, s, step))
  {
    if step.Callback? {
      var hs := s.intake.handlers;
      match step.k
      case Start(m) => TotalAppend(hs, Checked(m), HoldsPoint, 0);
      case Reject(h) => TotalUpdate(hs, h, Returned, HoldsPoint, 0);
      case Parse(h, obj) => TotalUpdate(hs, h, Holding(hs[h].m, obj), HoldsPoint, 0);
      case Send(h) => TotalUpdate(hs, h, Returned, HoldsPoint, 0);
    }
  }

  lemma InvIsKept(c: Config, s: State, step: Step)
    requires Enabled(c, s, step) && Inv(c, s)
    ensures Inv(c, Apply(c, s, step))
  {
    AliasFreedomIsKept(c, s, step);
    ContentIsKept(c, s, step);
    EachOnceIsKept(c, s, step);
    DeliveredIsKept(c, s, step);
    BoundsAreKept(c, s, step);
    ProtocolIsKept(c, s, step);
    AccountsAreKept(c, s, step);
  }

  lemma IdleWritersHoldNothing(c: Config, r: nat)
    ensures Total(Init(c).out.writers, InWriter, r) == 0 && Total(Init(c).out.writers, HeldBy, r) == 0
  {
    TotalZero(Init(c).out.writers, InWriter, r);
    TotalZero(Init(c).out.writers, HeldBy, r);
  }

  lemma InvHoldsInitially(c: Config)
    ensures Inv(c, Init(c))
  {
    forall r: nat
      ensures Owners(Init(c), r) == 0 && Deliveries(Init(c), r) == 0
    {
      IdleWritersHoldNothing(c, r);
    }
  }

  // ----- Runs

  lemma {:induction false} RunKeepsInv(c: Config, s: State, steps: seq<Step>, s': State)
    requires Run(c, s, steps, s') && Inv(c, s)
    ensures Inv(c, s')
    decreases |steps|
  {
    if steps != [] {
      InvIsKept(c, s, steps[0]);
      RunKeepsInv(c, Apply(c, s, steps[0]), steps[1..], s');
    }
  }

  /** Every reachable state, whatever the interleaving. */
  lemma Safety(c: Config, steps: seq<Step>, s: State)
    requires Run(c, Init(c), steps, s)
    ensures AliasFree(s) && PoolIsZero(s.mem)
    ensures Meaning(s.log.accepted) ==
            Concat(s.log.flushed) + Values(s.mem.heap, s.acc.current) + Values(s.mem.heap, s.intake.chan)
    ensures EachOnce(s) && Delivered(s.log)
    ensures Bounded(c, s) && Protocol(s) && Accounted(s)
  {
    InvHoldsInitially(c);
    RunKeepsInv(c, Init(c), steps, s);
  }

  // ----- Completion

  /** The accumulator and all writers have returned, so that Batcher.Stop's wait is over. */
  predicate Complete(s: State) {
    s.acc.phase.Done? && s.out.queue == [] && forall w :: 0 <= w < |s.out.writers| ==> s.out.writers[w].Exited?
  }

  lemma {:induction false} WritesOf(handed: seq<Write>, flushed: seq<seq<Point>>, w: Write)
    requires forall k :: 0 <= k < |handed| ==>
      handed[k].index < |flushed| && handed[k].points == flushed[handed[k].index]
    ensures multiset(handed)[w] ==
            if w.index < |flushed| && w.points == flushed[w.index] then Total(handed, IsWrite, w.index) else 0
  {
    if handed != [] {
      HeadAndRest(handed, w);
      WritesOf(handed[1..], flushed, w);
    }
  }

  /** After a completed shutdown the accepted messages are exactly the flushed batches, in order, and
      every flushed batch was given to WriteBatch exactly once, with the points its messages parse to,
      whether by a writer or by the direct write of a flush during shutdown. */
  lemma ShutdownDeliversEverything(c: Config, steps: seq<Step>, s: State)
    requires Run(c, Init(c), steps, s) && Complete(s)
    ensures Concat(s.log.flushed) == Meaning(s.log.accepted)
    ensures forall w: Write :: multiset(s.log.handed)[w] ==
              if w.index < |s.log.flushed| && w.points == s.log.flushed[w.index] then 1 else 0
    ensures s.intake.counts.received ==
            |Concat(s.log.flushed)| + s.intake.counts.dropped + s.intake.counts.discarded +
            Total(s.intake.handlers, HoldsPoint, 0)
  {
    Safety(c, steps, s);
    assert Values(s.mem.heap, []) == [];
    forall w: Write
      ensures multiset(s.log.handed)[w] ==
              if w.index < |s.log.flushed| && w.points == s.log.flushed[w.index] then 1 else 0
    {
      WritesOf(s.log.handed, s.log.flushed, w);
      TotalZero(s.out.writers, HeldBy, w.index);
      assert Deliveries(s, w.index) == if w.index < |s.log.flushed| then 1 else 0;
    }
  }
}
