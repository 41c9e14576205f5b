/** What a caller of GetClient gets, over whole sequences of calls on one session: when the connection is
    tried, when the backoff answers instead, and how far apart failing attempts are. */
module SessionAttempts {
  import opened Wrappers
  import opened ReconnectBackoff
  import opened SessionPool

  /** A call at some time; whether the connection has been lost since the call before; and what a connect
      would come to. */
  datatype Call = Call(now: int, lost: bool, connect: Option<ConnectError>)

  /** What the session is in after a call, with the call's result. */
  function Answer(before: Contact, call: Call, retryDelay: int): Contact {
    Attempted(before.connected && !call.lost, before.backoff, call.now, call.connect, retryDelay)
  }

  function After(start: Contact, calls: seq<Call>, retryDelay: int): Contact {
    if calls == [] then start
    else Answer(After(start, calls[..|calls| - 1], retryDelay), calls[|calls| - 1], retryDelay)
  }

  /** A session that has not been connected yet. */
  const NEW := Contact(NoClient, false, FRESH)

  // ----- The answer to every call

  /** The history of a session in its own words: whether it is connected, and the attempts that have failed
      since it last connected. */
  datatype History = History(connected: bool, failed: seq<Attempt>)

  /** The last failed attempt still keeps the next one waiting. */
  predicate Waiting(failed: seq<Attempt>, now: int, retryDelay: int) {
    failed != [] &&
    var last := failed[|failed| - 1];
    now < last.now + Delay(Base(last.error, retryDelay), |failed|)
  }

  function Next(h: History, call: Call, retryDelay: int): History {
    if h.connected && !call.lost then h
    else if Waiting(h.failed, call.now, retryDelay) then History(false, h.failed)
    else if call.connect.None? then History(true, [])
    else History(false, h.failed + [Attempt(call.now, call.connect.value)])
  }

  function HistoryOf(calls: seq<Call>, retryDelay: int): History {
    if calls == [] then History(false, [])
    else Next(HistoryOf(calls[..|calls| - 1], retryDelay), calls[|calls| - 1], retryDelay)
  }

  ghost predicate Agrees(h: History, c: Contact, retryDelay: int) {
    && h.connected == c.connected && (h.connected ==> h.failed == [])
    && if h.failed == [] then c.backoff == FRESH
       else
         var last := h.failed[|h.failed| - 1];
         c.backoff == Backoff(Some(last.error), |h.failed|,
                              Some(last.now + Delay(Base(last.error, retryDelay), |h.failed|)))
  }

  lemma AnswerAgrees(h: History, c: Contact, call: Call, retryDelay: int)
    requires Agrees(h, c, retryDelay)
    ensures Agrees(Next(h, call, retryDelay), Answer(c, call, retryDelay), retryDelay)
  {
  }

  lemma {:induction false} AfterAgrees(calls: seq<Call>, retryDelay: int)
    ensures Agrees(HistoryOf(calls, retryDelay), After(NEW, calls, retryDelay), retryDelay)
  {
    if calls != [] {
      var front := calls[..|calls| - 1];
      AfterAgrees(front, retryDelay);
      AnswerAgrees(HistoryOf(front, retryDelay), After(NEW, front, retryDelay), calls[|calls| - 1], retryDelay);
    }
  }

  /** Every answer of every sequence of calls: a connected session is used as it is; one that is not is put
      off exactly as long as its last failed attempt demands, by the number of attempts that have failed since
      it last connected; and otherwise the connection is tried. */
  lemma AnswerIsExact(calls: seq<Call>, call: Call, retryDelay: int)
    ensures var h := HistoryOf(calls, retryDelay);
            Answer(After(NEW, calls, retryDelay), call, retryDelay).result ==
              if h.connected && !call.lost then Client
              else if Waiting(h.failed, call.now, retryDelay) then BackoffActive
              else if call.connect.Some? then ConnectFailed(call.connect.value)
              else Client
  {
    AfterAgrees(calls, retryDelay);
  }

  // ----- Failing attempts are spaced

  /** The attempts that a sequence of calls makes on a session and that fail. */
  function FailedAttempts(b: Backoff, calls: seq<Call>, retryDelay: int): seq<Attempt>
    decreases |calls|
  {
    if calls == [] then []
    else
      var c := Attempted(false, b, calls[0].now, calls[0].connect, retryDelay);
      (if c.result.ConnectFailed? then [Attempt(calls[0].now, c.result.error)] else [])
      + FailedAttempts(c.backoff, calls[1..], retryDelay)
  }

  predicate AllFail(calls: seq<Call>) { forall k :: 0 <= k < |calls| ==> calls[k].connect.Some? }

  /** For calls at any times whose connects fail, those that are let through are a run of failing attempts
      from the session's backoff. */
  lemma {:induction false} AttemptsAreFailing(b: Backoff, calls: seq<Call>, retryDelay: int)
    requires AllFail(calls)
    ensures Failing(b, FailedAttempts(b, calls, retryDelay), retryDelay)
    decreases |calls|
  {
    if calls != [] {
      var c := Attempted(false, b, calls[0].now, calls[0].connect, retryDelay);
      var rest := FailedAttempts(c.backoff, calls[1..], retryDelay);
      AttemptsAreFailing(c.backoff, calls[1..], retryDelay);
      if c.result.ConnectFailed? {
        var attempts := FailedAttempts(b, calls, retryDelay);
        assert attempts[0] == Attempt(calls[0].now, calls[0].connect.value) && attempts[1..] == rest;
      } else {
        assert FailedAttempts(b, calls, retryDelay) == rest;
      }
    }
  }

  /** So they take at least the sum of their delays, and at least five seconds each. */
  lemma CallsAreSpaced(b: Backoff, calls: seq<Call>, retryDelay: int)
    requires AllFail(calls) && FailedAttempts(b, calls, retryDelay) != [] && retryDelay < TWO_57
    ensures var attempts := FailedAttempts(b, calls, retryDelay);
            var span := attempts[|attempts| - 1].now - attempts[0].now;
            span >= Waits(b.failures, attempts, retryDelay) && span >= 5_000_000_000 * (|attempts| - 1)
  {
    AttemptsAreFailing(b, calls, retryDelay);
    AttemptsAreSpaced(b, FailedAttempts(b, calls, retryDelay), retryDelay);
  }

  /** The attempts are all that the delays allow: a call that comes after the last delay is let through. */
  lemma {:induction false} LaterCallIsLetThrough(b: Backoff, calls: seq<Call>, retryDelay: int)
    requires AllFail(calls) && calls != []
    requires b.nextAt.Some? ==> calls[|calls| - 1].now >= b.nextAt.value
    ensures FailedAttempts(b, calls, retryDelay) != []
    decreases |calls|
  {
    if |calls| > 1 && !CanAttempt(b, calls[0].now) { LaterCallIsLetThrough(b, calls[1..], retryDelay); }
  }

  predicate IsResult(start: Contact, calls: seq<Call>, retryDelay: int, k: nat, r: GetResult) {
    k < |calls| && r == After(start, calls[..k + 1], retryDelay).result
  }

  lemma AfterOneMore(start: Contact, calls: seq<Call>, i: nat, retryDelay: int)
    requires i < |calls|
    ensures After(start, calls[..i + 1], retryDelay) ==
            Answer(After(start, calls[..i], retryDelay), calls[i], retryDelay)
  {
    assert calls[..i + 1][..i] == calls[..i];
  }

  ghost predicate Stands(pool: ConnectionPool, ep: string, c: Contact)
    reads pool, pool.sessions.Values
  {
    && pool.Valid() && !pool.closed && ep in pool.sessions
    && pool.sessions[ep].connected == c.connected && pool.sessions[ep].backoff == c.backoff
  }

  method CallOnce(pool: ConnectionPool, id: string, ep: string, call: Call, ghost before: Contact)
    returns (r: GetResult)
    requires Stands(pool, ep, before) && !call.lost
    modifies pool`sessions, pool`devices, pool`members, pool.sessions.Values
    ensures pool.sessions == old(pool.sessions)
    ensures Stands(pool, ep, Answer(before, call, pool.config.retryDelay))
    ensures r == Answer(before, call, pool.config.retryDelay).result
  {
    r := pool.GetClient(id, ep, call.now, false, call.connect);
  }

  /** GetClient, called again and again by devices of one endpoint whose session is alive. */
  method CallAgainAndAgain(pool: ConnectionPool, ids: seq<string>, ep: string, calls: seq<Call>)
    returns (results: seq<GetResult>)
    requires pool.Valid() && !pool.closed && ep in pool.sessions && |ids| == |calls|
    requires forall k :: 0 <= k < |calls| ==> !calls[k].lost
    modifies pool`sessions, pool`devices, pool`members, pool.sessions.Values
    ensures |results| == |calls|
    ensures var start := Contact(NoClient, old(pool.sessions[ep].connected), old(pool.sessions[ep].backoff));
            forall k :: 0 <= k < |calls| ==> IsResult(start, calls, pool.config.retryDelay, k, results[k])
  {
    ghost var start := Contact(NoClient, pool.sessions[ep].connected, pool.sessions[ep].backoff);
    ghost var c := start;
    results := [];
    for i := 0 to |calls|
      invariant Stands(pool, ep, c) && c == After(start, calls[..i], pool.config.retryDelay)
      invariant pool.sessions == old(pool.sessions) && |results| == i
      invariant forall k :: 0 <= k < i ==> IsResult(start, calls, pool.config.retryDelay, k, results[k])
    {
      AfterOneMore(start, calls, i, pool.config.retryDelay);
      var r := CallOnce(pool, ids[i], ep, calls[i], c);
      c := Answer(c, calls[i], pool.config.retryDelay);
      results := results + [r];
    }
  }
}
