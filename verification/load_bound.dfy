/** How far the in-flight load can exceed its limit, and when telemetry is queued after all: upper bounds
    over all runs, and the runs that reach them. */
module LoadBound {
  import opened Wrappers
  import opened Counting
  import opened LoadShaping
  import opened LoadAccounting
  import opened LoadTheorems

  /** A caller at work in the function: it neither waits for a worker nor has returned. */
  function IsCaller(op: Op, k: nat): nat { if ByCaller(op.pc) then 1 else 0 }

  lemma {:induction false} AdmittedAreCallers(ops: seq<Op>)
    ensures Total(ops, IsImmediate, 0) + Total(ops, IsReserved, 0) <= Total(ops, IsCaller, 0)
  {
    if ops != [] { AdmittedAreCallers(ops[1..]); }
  }

  lemma {:induction false} RunKeepsSized(c: Config, s: State, steps: seq<Step>, s': State)
    requires Run(c, s, steps, s') && Inv(c, s) && Sized(s)
    ensures Sized(s')
    decreases |steps|
  {
    if steps != [] {
      InvIsKept(c, s, steps[0]);
      SizedIsKept(c, s, steps[0]);
      RunKeepsSized(c, Apply(c, s, steps[0]), steps[1..], s');
    }
  }

  lemma ReachableSized(c: Config, s: State)
    requires Reachable(c, s)
    ensures Sized(s)
  {
    var steps :| Run(c, Init(c), steps, s);
    InvHoldsInitially(c);
    TotalZero(Init(c).workers, IsBusy, 0);
    RunKeepsSized(c, Init(c), steps, s);
  }

  /** In every reachable state the load is at most the callers at work, two full queues, and one request a
      worker. */
  lemma LoadIsBounded(c: Config, s: State)
    requires Reachable(c, s) && 0.0 <= c.brownoutAt <= 1.0
    ensures s.load.global <= Total(s.ops, IsCaller, 0) + 2 * c.queueSize + c.workers
  {
    ReachableInv(c, s);
    ReachableSized(c, s);
    TelemetryNeverQueues(c, s);
    InFlightSplits(s.ops);
    AdmittedAreCallers(s.ops);
    HeldAtMost(s.ops);
    BusyAtMost(s.workers);
    assert QueueOk(c, s.ops, Safety, QueueOf(s.queues, Safety));
    assert QueueOk(c, s.ops, Control, QueueOf(s.queues, Control));
  }

  // ----- Runs with a limited number of callers

  /** A run in which at most n callers are at work at any time. */
  ghost predicate RunWithin(c: Config, n: nat, s: State, steps: seq<Step>, s': State)
    decreases |steps|
  {
    && Total(s.ops, IsCaller, 0) <= n
    && if steps == [] then s' == s
       else Enabled(c, s, steps[0]) && RunWithin(c, n, Apply(c, s, steps[0]), steps[1..], s')
  }

  ghost predicate ReachableWithin(c: Config, n: nat, s: State) { exists steps :: RunWithin(c, n, Init(c), steps, s) }

  lemma {:induction false} WithinIsRun(c: Config, n: nat, s: State, steps: seq<Step>, s': State)
    requires RunWithin(c, n, s, steps, s')
    ensures Run(c, s, steps, s') && Total(s'.ops, IsCaller, 0) <= n
    decreases |steps|
  {
    if steps != [] { WithinIsRun(c, n, Apply(c, s, steps[0]), steps[1..], s'); }
  }

  lemma WithinIsReachable(c: Config, n: nat, s: State)
    requires ReachableWithin(c, n, s)
    ensures Reachable(c, s) && Total(s.ops, IsCaller, 0) <= n
  {
    var steps :| RunWithin(c, n, Init(c), steps, s);
    WithinIsRun(c, n, Init(c), steps, s);
  }

  lemma {:induction false} WithinOneMore(c: Config, n: nat, s: State, steps: seq<Step>, t: State, step: Step)
    requires RunWithin(c, n, s, steps, t) && Enabled(c, t, step) && Total(Apply(c, t, step).ops, IsCaller, 0) <= n
    ensures RunWithin(c, n, s, steps + [step], Apply(c, t, step))
    decreases |steps|
  {
    if steps == [] {
      assert [] + [step] == [step];
      assert RunWithin(c, n, Apply(c, t, step), [], Apply(c, t, step));
    } else {
      assert (steps + [step])[0] == steps[0] && (steps + [step])[1..] == steps[1..] + [step];
      WithinOneMore(c, n, Apply(c, s, steps[0]), steps[1..], t, step);
    }
  }

  lemma WithinMore(c: Config, n: nat, s: State, step: Step)
    requires ReachableWithin(c, n, s) && Enabled(c, s, step) && Total(Apply(c, s, step).ops, IsCaller, 0) <= n
    ensures ReachableWithin(c, n, Apply(c, s, step))
  {
    var steps :| RunWithin(c, n, Init(c), steps, s);
    WithinOneMore(c, n, Init(c), steps, s, step);
  }

  /** A caller that goes on does not become two. */
  lemma CallerGoesOn(c: Config, n: nat, s: State, i: nat) returns (s': State)
    requires ReachableWithin(c, n, s) && CanCaller(s, i)
    ensures s' == DoCaller(c, s, i, false) && ReachableWithin(c, n, s')
    ensures Total(s'.ops, IsCaller, 0) == Total(s.ops, IsCaller, 0) - 1 + IsCaller(s'.ops[i], 0)
  {
    s' := DoCaller(c, s, i, false);
    TotalUpdate(s.ops, i, s'.ops[i], IsCaller, 0);
    WithinIsReachable(c, n, s);
    WithinMore(c, n, s, Caller(i, false));
  }

  /** An operation without a session on its way, whose function has not run. */
  function Bare(p: Priority, pc: Pc): Op { Op(p, None, false, pc, 0, []) }

  /** It goes on to another action of its caller, and no flag is touched. */
  lemma GoesTo(c: Config, n: nat, s: State, i: nat, p: Priority, m: Move) returns (s': State)
    requires ReachableWithin(c, n, s) && CanCaller(s, i) && s.ops[i] == Bare(p, s.ops[i].pc) && !s.ops[i].pc.Running?
    requires m == CallerMove(c, s.load, Room(c, s, s.ops[i]), s.ops[i], false) && m.flip.None? && ByCaller(m.pc)
    ensures ReachableWithin(c, n, s') && Total(s'.ops, IsCaller, 0) == Total(s.ops, IsCaller, 0)
    ensures s'.ops == s.ops[i := Bare(p, m.pc)]
    ensures s'.load == Load(s.load.global + m.global, s.load.sessions, s.load.brownout)
    ensures s'.queues == s.queues && s'.workers == s.workers
  {
    s' := CallerGoesOn(c, n, s, i);
  }

  /** A new caller has passed all early checks. */
  lemma Arrives(c: Config, n: nat, s: State, p: Priority) returns (s': State)
    requires ReachableWithin(c, n, s) && Total(s.ops, IsCaller, 0) < n && !s.load.brownout
    ensures ReachableWithin(c, n, s') && Total(s'.ops, IsCaller, 0) == Total(s.ops, IsCaller, 0) + 1
    ensures s'.ops == s.ops + [Bare(p, AtLoad)]
    ensures s'.load == s.load && s'.queues == s.queues && s'.workers == s.workers
  {
    var i := |s.ops|;
    s' := Apply(c, s, Arrive(p, None));
    TotalAppend(s.ops, Bare(p, AtContext), IsCaller, 0);
    WithinMore(c, n, s, Arrive(p, None));
    var pcs := [AtContext, AtBreaker, AtBrownout, AtEndpoint, AtLoad];
    for j := 0 to 4
      invariant ReachableWithin(c, n, s') && Total(s'.ops, IsCaller, 0) == Total(s.ops, IsCaller, 0) + 1
      invariant s'.ops == s.ops + [Bare(p, pcs[j])]
      invariant s'.load == s.load && s'.queues == s.queues && s'.workers == s.workers
    {
      s' := GoesTo(c, n, s', i, p, Goto(pcs[j + 1]));
    }
  }

  /** It loads the counter and decides. */
  lemma Decides(c: Config, n: nat, s: State, p: Priority) returns (s': State)
    requires ReachableWithin(c, n, s) && Total(s.ops, IsCaller, 0) < n && !s.load.brownout
    ensures ReachableWithin(c, n, s') && Total(s'.ops, IsCaller, 0) == Total(s.ops, IsCaller, 0) + 1
    ensures s'.ops == s.ops + [Bare(p, Decide(c, s.load.global, p))]
    ensures s'.load == s.load && s'.queues == s.queues && s'.workers == s.workers
  {
    s' := Arrives(c, n, s, p);
    var l := s.load.global;
    s' := GoesTo(c, n, s', |s.ops|, p, Move(Decide(c, l, p), 0, 0, None, Some(l)));
  }

  /** One more caller is admitted below the limit and stays at work. */
  lemma TakesOne(c: Config, n: nat, s: State) returns (s': State)
    requires ReachableWithin(c, n, s) && Total(s.ops, IsCaller, 0) < n && !s.load.brownout && s.load.global < c.max
    ensures ReachableWithin(c, n, s') && Total(s'.ops, IsCaller, 0) == Total(s.ops, IsCaller, 0) + 1
    ensures s'.load.global == s.load.global + 1 && !s'.load.brownout
    ensures s'.queues == s.queues && s'.workers == s.workers
  {
    s' := Decides(c, n, s, Control);
    s' := GoesTo(c, n, s', |s.ops|, Control, Move(Leaving(s.load.global), 1, 0, None, None));
  }

  /** At the limit one more caller raises the counter all the same. */
  lemma ReservesOne(c: Config, n: nat, s: State, p: Priority) returns (s': State)
    requires ReachableWithin(c, n, s) && Total(s.ops, IsCaller, 0) < n && !s.load.brownout
    requires Decide(c, s.load.global, p).Reserving?
    ensures ReachableWithin(c, n, s') && Total(s'.ops, IsCaller, 0) == Total(s.ops, IsCaller, 0) + 1
    ensures s'.ops == s.ops + [Bare(p, Enqueuing)]
    ensures s'.load.global == s.load.global + 1 && !s'.load.brownout
    ensures s'.queues == s.queues && s'.workers == s.workers
  {
    s' := Decides(c, n, s, p);
    s' := GoesTo(c, n, s', |s.ops|, p, Move(Enqueuing, 1, 0, None, None));
  }

  /** And, if there is room, leaves its request in the queue. */
  lemma QueuesOne(c: Config, n: nat, s: State, p: Priority) returns (s': State)
    requires ReachableWithin(c, n, s) && Total(s.ops, IsCaller, 0) < n && !s.load.brownout
    requires Decide(c, s.load.global, p).Reserving? && |QueueOf(s.queues, p)| < c.queueSize
    ensures ReachableWithin(c, n, s') && Total(s'.ops, IsCaller, 0) == Total(s.ops, IsCaller, 0)
    ensures s'.load.global == s.load.global + 1 && !s'.load.brownout && s'.workers == s.workers
    ensures s'.queues == WithQueue(s.queues, p, QueueOf(s.queues, p) + [|s.ops|])
  {
    s' := ReservesOne(c, n, s, p);
    s' := CallerGoesOn(c, n, s', |s.ops|);
  }

  lemma ServesOne(c: Config, n: nat, s: State, w: nat) returns (s': State)
    requires ReachableWithin(c, n, s) && w < |s.workers| && s.workers[w] == Polling(1) && s.queues.safety != []
    ensures ReachableWithin(c, n, s') && Total(s'.ops, IsCaller, 0) == Total(s.ops, IsCaller, 0)
    ensures s'.load == s.load && s'.workers == s.workers[w := Busy(s.queues.safety[0])]
    ensures s'.queues == WithQueue(s.queues, Safety, s.queues.safety[1..])
  {
    WithinIsReachable(c, n, s);
    ReachableInv(c, s);
    HeadIsQueued(c, s, Safety);
    var i := s.queues.safety[0];
    s' := Apply(c, s, Receive(w, Safety));
    TotalUpdate(s.ops, i, Moved(s.ops[i], AtWorkerContext), IsCaller, 0);
    WithinMore(c, n, s, Receive(w, Safety));
  }

  lemma Starts(c: Config, n: nat)
    ensures ReachableWithin(c, n, Init(c))
  {
    assert RunWithin(c, n, Init(c), [], Init(c));
  }

  /** As many callers as the limit allows are at work. */
  lemma AtTheLimit(c: Config, n: nat) returns (s: State)
    requires c.max <= n
    ensures ReachableWithin(c, n, s) && Total(s.ops, IsCaller, 0) == s.load.global == c.max && !s.load.brownout
    ensures s.queues == Queues([], [], []) && s.workers == seq(c.workers, _ => Polling(1))
  {
    s := Init(c);
    Starts(c, n);
    for k := 0 to c.max
      invariant ReachableWithin(c, n, s) && Total(s.ops, IsCaller, 0) == s.load.global == k && !s.load.brownout
      invariant s.queues == Queues([], [], []) && s.workers == seq(c.workers, _ => Polling(1))
    {
      s := TakesOne(c, n, s);
    }
  }

  lemma WorkersFilled(c: Config, n: nat) returns (s: State)
    requires c.max < n && c.queueSize > 0
    ensures ReachableWithin(c, n, s) && Total(s.ops, IsCaller, 0) == c.max && !s.load.brownout
    ensures s.load.global == c.max + c.workers && s.queues == Queues([], [], [])
  {
    s := AtTheLimit(c, n);
    for j := 0 to c.workers
      invariant ReachableWithin(c, n, s) && Total(s.ops, IsCaller, 0) == c.max && !s.load.brownout
      invariant s.load.global == c.max + j && s.queues == Queues([], [], [])
      invariant |s.workers| == c.workers && forall w :: j <= w < c.workers ==> s.workers[w] == Polling(1)
    {
      s := QueuesOne(c, n, s, Safety);
      s := ServesOne(c, n, s, j);
    }
  }

  lemma QueuesFilled(c: Config, n: nat) returns (s: State)
    requires c.max < n && c.queueSize > 0
    ensures ReachableWithin(c, n, s) && Total(s.ops, IsCaller, 0) == c.max && !s.load.brownout
    ensures s.load.global == c.max + c.workers + 2 * c.queueSize
  {
    s := WorkersFilled(c, n);
    for p := 0 to c.queueSize
      invariant ReachableWithin(c, n, s) && Total(s.ops, IsCaller, 0) == c.max && !s.load.brownout
      invariant s.load.global == c.max + c.workers + p && |s.queues.safety| == p && s.queues.control == []
    {
      s := QueuesOne(c, n, s, Safety);
    }
    for q := 0 to c.queueSize
      invariant ReachableWithin(c, n, s) && Total(s.ops, IsCaller, 0) == c.max && !s.load.brownout
      invariant s.load.global == c.max + c.workers + c.queueSize + q && |s.queues.control| == q
    {
      s := QueuesOne(c, n, s, Control);
    }
  }

  /** The limit, two queues and the workers bound the load of all runs with at most n callers at work if and
      only if n is at most the limit. (A pool always has a queue size, since 0 stands for 1000.) */
  lemma LoadBoundIff(c: Config, n: nat)
    requires 0.0 <= c.brownoutAt <= 1.0 && c.queueSize > 0
    ensures (forall s :: ReachableWithin(c, n, s) ==> s.load.global <= c.max + 2 * c.queueSize + c.workers) <==>
            n <= c.max
  {
    if n <= c.max {
      forall s | ReachableWithin(c, n, s)
        ensures s.load.global <= c.max + 2 * c.queueSize + c.workers
      {
        WithinIsReachable(c, n, s);
        LoadIsBounded(c, s);
      }
    } else {
      var s := QueuesFilled(c, n);
      s := ReservesOne(c, n, s, Safety);
    }
  }

  // ----- Telemetry

  /** Telemetry is queued in some reachable state if and only if the threshold lies above the limit, and
      there is a queue at all. */
  lemma TelemetryQueuesIff(c: Config)
    ensures (exists s :: Reachable(c, s) && s.queues.telemetry != []) <==> Threshold(c) > c.max && c.queueSize > 0
  {
    if Threshold(c) > c.max && c.queueSize > 0 {
      var s := AtTheLimit(c, c.max + 1);
      s := QueuesOne(c, c.max + 1, s, Telemetry);
      WithinIsReachable(c, c.max + 1, s);
      assert s.queues.telemetry != [];
    } else {
      forall s | Reachable(c, s)
        ensures s.queues.telemetry == []
      {
        ReachableInv(c, s);
        assert QueueOk(c, s.ops, Telemetry, QueueOf(s.queues, Telemetry));
        if Threshold(c) <= c.max && s.queues.telemetry != [] { OnlyUrgentQueues(c, s, Telemetry); }
      }
    }
  }
}
