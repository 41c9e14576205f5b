/** Objects and batches of the ingestion pipeline are handed on, never copied: the owners of an object,
    and the deliveries of a batch, are conserved by every step. */
module IngestionOwnership {
  import opened Counting
  import opened DataPoints
  import opened Ingestion

  lemma HeadAndRest<T>(a: seq<T>, x: T)
    requires a != []
    ensures multiset(a)[x] == (if a[0] == x then 1 else 0) + multiset(a[1..])[x]
  {
    assert a == [a[0]] + a[1..];
  }

  lemma WithLast<T>(a: seq<T>, y: T, x: T)
    ensures multiset(a + [y])[x] == multiset(a)[x] + if x == y then 1 else 0
  {
  }

  lemma OutsideOwners(s: State, o: OutsideStep, r: Ref)
    requires CanOutside(s, o)
    ensures Owners(DoOutside(s, o), r) <= Owners(s, r) + if o == Allocate(r) then 1 else 0
  {
  }

  lemma SendOwners(c: Config, i: Intake, h: nat, r: Ref)
    requires h < |i.handlers| && i.handlers[h].Holding?
    ensures InIntake(TrySend(c, i, h), r) <= InIntake(i, r)
  {
    TotalUpdate(i.handlers, h, Returned, InHandler, r);
    WithLast(i.chan, i.handlers[h].obj, r);
  }

  lemma CallbackOwners(c: Config, s: State, k: CallbackStep, r: Ref)
    requires CanCallback(s, k)
    ensures Owners(DoCallback(c, s, k), r) <= Owners(s, r)
  {
    match k
    case Start(m) => TotalAppend(s.intake.handlers, Checked(m), InHandler, r);
    case Reject(h) => TotalUpdate(s.intake.handlers, h, Returned, InHandler, r);
    case Parse(h, obj) => TotalUpdate(s.intake.handlers, h, Holding(s.intake.handlers[h].m, obj), InHandler, r);
    case Send(h) => SendOwners(c, s.intake, h, r);
  }

  lemma ReceiveOwners(c: Config, s: State, r: Ref)
    requires CanAccumulate(c, s, Receive)
    ensures Owners(AddToBatch(c, s), r) == Owners(s, r)
  {
    HeadAndRest(s.intake.chan, r);
    WithLast(s.acc.current, s.intake.chan[0], r);
  }

  lemma AccumulatorOwners(c: Config, s: State, a: AccumulatorStep, r: Ref)
    requires CanAccumulate(c, s, a)
    ensures Owners(DoAccumulate(c, s, a), r) == Owners(s, r)
  {
    if a.Receive? {
      ReceiveOwners(c, s, r);
    } else if a.PutBatch? {
      TotalAppend(s.out.queue, s.acc.phase.batch, InBatch, r);
    }
  }

  lemma WriterOwners(s: State, w: nat, wr: WriterStep, r: Ref)
    requires CanWrite(s, w, wr)
    ensures Owners(DoWrite(s, w, wr), r) == Owners(s, r)
  {
    TotalUpdate(s.out.writers, w, DoWrite(s, w, wr).out.writers[w], InWriter, r);
  }

  /** The accumulator and the writers pass on every object that they take. A handler may lose one: a
      dropped point is left to the garbage collector. */
  lemma OwnersAreConserved(c: Config, s: State, step: Step, r: Ref)
    requires Enabled(c, s, step)
    ensures Owners(Apply(c, s, step), r) <= Owners(s, r) + if step == Outside(Allocate(r)) then 1 else 0
    ensures step.Accumulate? || step.AtWriter? ==> Owners(Apply(c, s, step), r) == Owners(s, r)
  {
    match step
    case Outside(o) => OutsideOwners(s, o, r);
    case Callback(k) => CallbackOwners(c, s, k, r);
    case Accumulate(a) => AccumulatorOwners(c, s, a, r);
    case AtWriter(w, wr) => WriterOwners(s, w, wr, r);
  }

  lemma HeapOnlyGrows(c: Config, s: State, step: Step, r: Ref)
    requires Enabled(c, s, step)
    ensures r in s.mem.heap || step == Outside(Allocate(r)) ==> r in Apply(c, s, step).mem.heap
  {
  }

  lemma AliasFreedomIsKept(c: Config, s: State, step: Step)
    requires AliasFree(s) && Enabled(c, s, step)
    ensures AliasFree(Apply(c, s, step))
  {
    var s' := Apply(c, s, step);
    forall r: Ref
      ensures Owners(s', r) <= 1 && (Owners(s', r) > 0 ==> r in s'.mem.heap)
    {
      OwnersAreConserved(c, s, step, r);
      HeapOnlyGrows(c, s, step, r);
      assert Owners(s, r) > 0 ==> r in s.mem.heap;
    }
  }

  // ----- Deliveries

  lemma AccumulatorDeliveries(c: Config, s: State, a: AccumulatorStep, i: nat)
    requires CanAccumulate(c, s, a)
    ensures Deliveries(DoAccumulate(c, s, a), i) ==
            Deliveries(s, i) + if |s.log.flushed| == i < |DoAccumulate(c, s, a).log.flushed| then 1 else 0
  {
    if a.PutBatch? {
      TotalAppend(s.out.queue, s.acc.phase.batch, IsBatch, i);
    } else if a.DirectWrite? {
      TotalAppend(s.log.handed, Write(s.acc.phase.batch.index, Values(s.mem.heap, s.acc.phase.batch.refs)), IsWrite, i);
    }
  }

  lemma WriterDeliveries(s: State, w: nat, wr: WriterStep, i: nat)
    requires CanWrite(s, w, wr)
    ensures Deliveries(DoWrite(s, w, wr), i) == Deliveries(s, i)
  {
    TotalUpdate(s.out.writers, w, DoWrite(s, w, wr).out.writers[w], HeldBy, i);
    if wr.WriteOut? {
      var b := s.out.writers[w].batch;
      TotalAppend(s.log.handed, Write(b.index, Values(s.mem.heap, b.refs)), IsWrite, i);
    }
  }

  lemma DeliveriesAreConserved(c: Config, s: State, step: Step, i: nat)
    requires Enabled(c, s, step)
    ensures Deliveries(Apply(c, s, step), i) ==
            Deliveries(s, i) + if |s.log.flushed| == i < |Apply(c, s, step).log.flushed| then 1 else 0
  {
    match step
    case Outside(_) =>
    case Callback(_) =>
    case Accumulate(a) => AccumulatorDeliveries(c, s, a, i);
    case AtWriter(w, wr) => WriterDeliveries(s, w, wr, i);
  }

  lemma FlushesOne(c: Config, s: State, step: Step)
    requires Enabled(c, s, step)
    ensures |s.log.flushed| <= |Apply(c, s, step).log.flushed| <= |s.log.flushed| + 1
  {
  }

  /** Every flushed batch waits in exactly one place, or has been handed over exactly once. */
  lemma EachOnceIsKept(c: Config, s: State, step: Step)
    requires Enabled(c, s, step) && EachOnce(s)
    ensures EachOnce(Apply(c, s, step))
  {
    var s' := Apply(c, s, step);
    FlushesOne(c, s, step);
    forall i: nat
      ensures Deliveries(s', i) == if i < |s'.log.flushed| then 1 else 0
    {
      DeliveriesAreConserved(c, s, step, i);
      assert Deliveries(s, i) == if i < |s.log.flushed| then 1 else 0;
    }
  }
}
