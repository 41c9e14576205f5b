/** What the objects of the ingestion pipeline contain: recycling never shows, and no accepted point is
    lost, duplicated or reordered on its way into the batches. */
module IngestionContents {
  import opened Counting
  import opened DataPoints
  import opened Ingestion
  import opened IngestionOwnership

  ghost predicate PoolIsZero(mem: Memory) {
    forall r :: r in mem.pool ==> Look(mem.heap, r) == ZERO
  }

  ghost predicate HoldersAreRight(heap: map<Ref, Point>, handlers: seq<Handler>) {
    forall k :: 0 <= k < |handlers| && handlers[k].Holding? ==>
      Parsed(handlers[k].m).Ok? && Look(heap, handlers[k].obj) == PointOf(handlers[k].m)
  }

  /** The points of all accepted messages, in order: those in flushed batches, those in the current
      batch, those in the channel. */
  ghost predicate Conserved(heap: map<Ref, Point>, s: State) {
    Meaning(s.log.accepted) == Concat(s.log.flushed) + Values(heap, s.acc.current) + Values(heap, s.intake.chan)
  }

  ghost predicate Intact(heap: map<Ref, Point>, log: Log, b: Batch) {
    b.index < |log.flushed| && Values(heap, b.refs) == log.flushed[b.index]
  }

  /** Every batch that waits for its write still has the points it was flushed with. */
  ghost predicate BatchesIntact(heap: map<Ref, Point>, s: State) {
    && (s.acc.phase.Flushing? ==> Intact(heap, s.log, s.acc.phase.batch))
    && (forall j :: 0 <= j < |s.out.queue| ==> Intact(heap, s.log, s.out.queue[j]))
    && (forall w :: 0 <= w < |s.out.writers| && s.out.writers[w].Writing? ==>
          Intact(heap, s.log, s.out.writers[w].batch))
  }

  ghost predicate Content(heap: map<Ref, Point>, s: State) {
    HoldersAreRight(heap, s.intake.handlers) && Conserved(heap, s) && BatchesIntact(heap, s)
  }

  ghost predicate Delivered(log: Log) {
    forall k :: 0 <= k < |log.handed| ==>
      log.handed[k].index < |log.flushed| && log.handed[k].points == log.flushed[log.handed[k].index]
  }

  // ----- Frames

  ghost predicate SameInUse(heap: map<Ref, Point>, heap': map<Ref, Point>, s: State) {
    forall r: Ref :: Uses(s, r) > 0 ==> Look(heap', r) == Look(heap, r)
  }

  lemma SameValues(heap: map<Ref, Point>, heap': map<Ref, Point>, s: State, refs: seq<Ref>)
    requires SameInUse(heap, heap', s)
    requires forall r :: r in refs ==> Uses(s, r) > 0
    ensures Values(heap', refs) == Values(heap, refs)
  {
    forall i | 0 <= i < |refs|
      ensures Look(heap', refs[i]) == Look(heap, refs[i])
    {
      assert refs[i] in refs;
    }
  }

  lemma UsedInBatches(s: State, r: Ref)
    ensures forall j :: 0 <= j < |s.out.queue| && r in s.out.queue[j].refs ==> Uses(s, r) > 0
    ensures forall w :: 0 <= w < |s.out.writers| && s.out.writers[w].Writing? && r in s.out.writers[w].batch.refs ==>
      Uses(s, r) > 0
  {
    forall j | 0 <= j < |s.out.queue| && r in s.out.queue[j].refs
      ensures Uses(s, r) > 0
    {
      TotalUpdate(s.out.queue, j, s.out.queue[j], InBatch, r);
    }
    forall w | 0 <= w < |s.out.writers| && s.out.writers[w].Writing? && r in s.out.writers[w].batch.refs
      ensures Uses(s, r) > 0
    {
      TotalUpdate(s.out.writers, w, s.out.writers[w], InWriter, r);
    }
  }

  lemma BatchesAreFramed(heap: map<Ref, Point>, heap': map<Ref, Point>, s: State)
    requires BatchesIntact(heap, s) && SameInUse(heap, heap', s)
    ensures BatchesIntact(heap', s)
  {
    if s.acc.phase.Flushing? {
      SameValues(heap, heap', s, s.acc.phase.batch.refs);
    }
    forall j | 0 <= j < |s.out.queue|
      ensures Intact(heap', s.log, s.out.queue[j])
    {
      forall r | r in s.out.queue[j].refs ensures Uses(s, r) > 0 { UsedInBatches(s, r); }
      SameValues(heap, heap', s, s.out.queue[j].refs);
    }
    forall w | 0 <= w < |s.out.writers| && s.out.writers[w].Writing?
      ensures Intact(heap', s.log, s.out.writers[w].batch)
    {
      forall r | r in s.out.writers[w].batch.refs ensures Uses(s, r) > 0 { UsedInBatches(s, r); }
      SameValues(heap, heap', s, s.out.writers[w].batch.refs);
    }
  }

  /** Only the objects in use matter. */
  lemma ContentIsFramed(heap: map<Ref, Point>, heap': map<Ref, Point>, s: State)
    requires Content(heap, s) && SameInUse(heap, heap', s)
    ensures Content(heap', s)
  {
    forall k | 0 <= k < |s.intake.handlers| && s.intake.handlers[k].Holding?
      ensures Look(heap', s.intake.handlers[k].obj) == Look(heap, s.intake.handlers[k].obj)
    {
      TotalUpdate(s.intake.handlers, k, s.intake.handlers[k], InHandler, s.intake.handlers[k].obj);
    }
    SameValues(heap, heap', s, s.acc.current);
    SameValues(heap, heap', s, s.intake.chan);
    BatchesAreFramed(heap, heap', s);
  }

  /** Zeroing what has just gone back to the pool touches nothing in use: no object is released before
      the last use of it is over. */
  lemma ReleaseIsInvisible(heap: map<Ref, Point>, s: State, refs: seq<Ref>)
    requires AliasFree(s) && multiset(refs) <= s.mem.pool
    ensures SameInUse(heap, Zeroed(heap, refs), s)
  {
    forall r: Ref | Uses(s, r) > 0
      ensures Look(Zeroed(heap, refs), r) == Look(heap, r)
    {
      assert Owners(s, r) <= 1 && multiset(refs)[r] <= s.mem.pool[r];
    }
  }

  // ----- Moves

  lemma ValuesAppend(heap: map<Ref, Point>, a: seq<Ref>, r: Ref)
    ensures Values(heap, a + [r]) == Values(heap, a) + [Look(heap, r)]
  {
  }

  lemma ValuesHead(heap: map<Ref, Point>, a: seq<Ref>)
    requires a != []
    ensures Values(heap, a) == [Look(heap, a[0])] + Values(heap, a[1..])
  {
  }

  lemma ConcatAppend<T>(ss: seq<seq<T>>, x: seq<T>)
    ensures Concat(ss + [x]) == Concat(ss) + x
  {
    assert (ss + [x])[..|ss|] == ss;
  }

  lemma SendContent(c: Config, s: State, h: nat)
    requires CanCallback(s, Send(h)) && Content(s.mem.heap, s)
    ensures Content(s.mem.heap, DoCallback(c, s, Send(h)))
  {
    var s' := DoCallback(c, s, Send(h));
    assert BatchesIntact(s.mem.heap, s');
    if Accepts(c, s.intake) {
      var x := s.intake.handlers[h];
      ValuesAppend(s.mem.heap, s.intake.chan, x.obj);
      assert Meaning(s.log.accepted + [x.m]) == Meaning(s.log.accepted) + [PointOf(x.m)];
    }
  }

  lemma ParseContent(c: Config, s: State, h: nat, obj: Ref)
    requires CanCallback(s, Parse(h, obj)) && AliasFree(s) && PoolIsZero(s.mem) && Content(s.mem.heap, s)
    ensures Content(DoCallback(c, s, Parse(h, obj)).mem.heap, DoCallback(c, s, Parse(h, obj)))
  {
    var m := s.intake.handlers[h].m;
    var heap' := ParseInto(s.mem, obj, m).heap;
    assert SameInUse(s.mem.heap, heap', s) by {
      assert Owners(s, obj) <= 1;
    }
    ContentIsFramed(s.mem.heap, heap', s);
    OverwritingIsTransparentIff(ZERO);
    assert Look(heap', obj) == PointOf(m);
  }

  lemma FlushContent(heap: map<Ref, Point>, s: State, current: seq<Ref>, last: bool)
    requires s.mem.heap == heap && s.acc.current == current && Content(heap, s)
    ensures Content(heap, Flush(s, current, last))
  {
    var s' := Flush(s, current, last);
    ConcatAppend(s.log.flushed, Values(heap, current));
    assert Values(heap, []) == [];
    assert Concat(s'.log.flushed) + Values(heap, []) == Concat(s.log.flushed) + Values(heap, current);
    assert forall b :: Intact(heap, s.log, b) ==> Intact(heap, s'.log, b);
  }

  lemma ReceiveContent(c: Config, s: State)
    requires CanAccumulate(c, s, Receive) && Content(s.mem.heap, s)
    ensures Content(s.mem.heap, AddToBatch(c, s))
  {
    var i := s.intake;
    var heap := s.mem.heap;
    var current := s.acc.current + [i.chan[0]];
    var s' := State(s.mem, Intake(i.handlers, i.chan[1..], i.shutdown, i.closed, i.counts),
                    Accumulator(s.acc.phase, current, s.acc.cancelled), s.out, s.log);
    ValuesAppend(heap, s.acc.current, i.chan[0]);
    ValuesHead(heap, i.chan);
    assert Values(heap, current) + Values(heap, i.chan[1..]) == Values(heap, s.acc.current) + Values(heap, i.chan);
    assert Conserved(heap, s');
    assert BatchesIntact(heap, s');
    FlushContent(heap, s', current, false);
  }

  /** Every step of the accumulator, before a release zeroes anything. */
  lemma AccumulatorContent(c: Config, s: State, a: AccumulatorStep)
    requires CanAccumulate(c, s, a) && Content(s.mem.heap, s)
    ensures Content(s.mem.heap, DoAccumulate(c, s, a))
  {
    match a
    case Receive => ReceiveContent(c, s);
    case Tick => FlushContent(s.mem.heap, s, s.acc.current, false);
    case DetectClose => FlushContent(s.mem.heap, s, s.acc.current, true);
    case PutBatch =>
    case DirectWrite =>
    case DirectRelease =>
    case CloseQueue =>
  }

  lemma WriterContent(s: State, w: nat, wr: WriterStep)
    requires CanWrite(s, w, wr) && Content(s.mem.heap, s)
    ensures Content(s.mem.heap, DoWrite(s, w, wr))
  {
  }
}
