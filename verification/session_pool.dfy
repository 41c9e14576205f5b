/** The OPC UA connection pool: sessions by endpoint key and device bindings by device id, which must
    stay inverse to each other while devices come, move and go and sessions fail, idle and are reaped. */
module SessionPool {
  import opened Wrappers
  import opened ReconnectBackoff

  class DeviceBinding {
    const deviceId: string
    const endpointKey: string

    constructor (deviceId: string, endpointKey: string)
      ensures this.deviceId == deviceId && this.endpointKey == endpointKey
    {
      this.deviceId, this.endpointKey := deviceId, endpointKey;
    }
  }

  /** What the reaper looks at. */
  datatype Activity = Activity(createdAt: int, lastUsed: int, subscribed: bool, lastPublish: int)

  datatype PoolConfig = PoolConfig(maxConnections: int, idleTimeout: int, maxTTL: int, retryDelay: int)

  /** The limit; a pool without a positive one has no sessions at all. */
  function Capacity(c: PoolConfig): (n: nat)
    ensures n == 0 || n == c.maxConnections
  {
    if c.maxConnections > 0 then c.maxConnections else 0
  }

  predicate Recent(a: Activity, now: int, idleTimeout: int) {
    now - a.lastUsed < idleTimeout || (a.subscribed && now - a.lastPublish < idleTimeout)
  }

  /** Idle for too long, or too old. */
  predicate Reapable(c: PoolConfig, a: Activity, now: int) {
    !Recent(a, now, c.idleTimeout) || (c.maxTTL > 0 && now - a.createdAt > c.maxTTL)
  }

  class PooledSession {
    const endpointKey: string
    var devices: map<string, DeviceBinding>
    var connected: bool
    var backoff: Backoff
    var activity: Activity

    constructor (endpointKey: string, now: int)
      ensures this.endpointKey == endpointKey && devices == map[] && !connected && backoff == FRESH
    {
      this.endpointKey, devices, connected, backoff := endpointKey, map[], false, FRESH;
      activity := Activity(now, now, false, 0);
    }

    /** One connect, and recordConnectResult. */
    method Connect(now: int, outcome: Option<ConnectError>, retryDelay: int)
      modifies this`connected, this`backoff
      ensures connected == outcome.None? && backoff == Recorded(old(backoff), now, outcome, retryDelay)
    {
      connected := outcome.None?;
      if outcome.None? {
        backoff := FRESH;
      } else {
        var failures := backoff.failures + 1;
        var delay := Delay(Base(outcome.value, retryDelay), failures);
        backoff := Backoff(outcome, failures, Some(now + delay));
      }
    }
  }

  // ----- What the registries mean

  /** Which endpoint each device is bound to, and which endpoints have a session. */
  datatype Table = Table(bindings: map<string, string>, sessions: set<string>)

  function Unbound(t: Table, id: string): Table { Table(t.bindings - {id}, t.sessions) }

  /** A device that is bound to another endpoint leaves it. */
  function Moved(t: Table, id: string, ep: string): Table {
    if id in t.bindings && t.bindings[id] != ep then Unbound(t, id) else t
  }

  datatype GetResult =
    | Client | ServiceStopped | PoolExhausted | NoClient | BackoffActive | ConnectFailed(error: ConnectError)

  datatype Contact = Contact(result: GetResult, connected: bool, backoff: Backoff)

  /** A client that is connected is used as it is; one that is not is connected when its backoff allows. */
  function Attempted(connected: bool, b: Backoff, now: int, connect: Option<ConnectError>, retryDelay: int): Contact {
    if connected then Contact(Client, true, b)
    else if !CanAttempt(b, now) then Contact(BackoffActive, false, b)
    else Contact(if connect.None? then Client else ConnectFailed(connect.value), connect.None?,
                 Recorded(b, now, connect, retryDelay))
  }

  function Got(c: PoolConfig, closed: bool, t: Table, id: string, ep: string, clientFails: bool): Table {
    if closed then t
    else if ep in t.sessions then Table(t.bindings[id := ep], t.sessions)
    else if |t.sessions| >= c.maxConnections || clientFails then Moved(t, id, ep)
    else Table(t.bindings[id := ep], t.sessions + {ep})
  }

  function Removed(t: Table, id: string): Table {
    if id !in t.bindings then t
    else
      var ep := t.bindings[id];
      var rest := t.bindings - {id};
      Table(rest, if ep in rest.Values then t.sessions else t.sessions - {ep})
  }

  function Dropped(t: Table, ep: string): Table {
    Table(Except(t.bindings, ep), t.sessions - {ep})
  }

  /** What is left when some sessions go. */
  function Kept(t: Table, gone: set<string>): Table {
    Table(map id | id in t.bindings && t.bindings[id] !in gone :: t.bindings[id], t.sessions - gone)
  }

  /** A session that the reaper looks at, and when. */
  datatype Look = Look(endpoint: string, now: int)

  /** The session that goes because of a look, if one does. */
  function Due(c: PoolConfig, all: map<string, Activity>, l: Look): set<string> {
    if l.endpoint in all && Reapable(c, all[l.endpoint], l.now) then {l.endpoint} else {}
  }

  function AllDue(c: PoolConfig, all: map<string, Activity>, looks: seq<Look>): set<string> {
    if looks == [] then {}
    else AllDue(c, all, looks[..|looks| - 1]) + Due(c, all, looks[|looks| - 1])
  }

  /** A session outlives a series of looks if and only if at each of them it has been used, or in a session
      with subscriptions has published, less than the idle timeout before, and is not beyond its greatest age,
      if there is one. */
  lemma {:induction false} SurvivesIff(c: PoolConfig, all: map<string, Activity>, looks: seq<Look>, ep: string)
    requires ep in all
    ensures ep !in AllDue(c, all, looks) <==>
            forall i :: 0 <= i < |looks| && looks[i].endpoint == ep ==>
              var (a, now) := (all[ep], looks[i].now);
              && (now < a.lastUsed + c.idleTimeout || (a.subscribed && now < a.lastPublish + c.idleTimeout))
              && (c.maxTTL > 0 ==> now <= a.createdAt + c.maxTTL)
  {
    if looks != [] {
      var front := looks[..|looks| - 1];
      SurvivesIff(c, all, front, ep);
      assert looks == front + [looks[|looks| - 1]];
    }
  }

  /** What is idle or too old stays so until it is used again. */
  lemma ReapableStays(c: PoolConfig, a: Activity, now: int, later: int)
    requires Reapable(c, a, now) && now <= later
    ensures Reapable(c, a, later)
  {
  }

  lemma KeptNone(t: Table)
    ensures Kept(t, {}) == t
  {
  }

  lemma DroppedIsKept(t: Table, ep: string)
    ensures Kept(t, {ep}) == Dropped(t, ep)
  {
  }

  /** What has gone already makes no difference to the next look. */
  lemma LookOnceMore(c: PoolConfig, t: Table, all: map<string, Activity>, looks: seq<Look>, i: nat)
    requires i < |looks|
    ensures var gone := AllDue(c, all, looks[..i]); var next := AllDue(c, all, looks[..i + 1]);
            && Kept(Kept(t, gone), Due(c, all - gone, looks[i])) == Kept(t, next)
            && (all - gone) - Due(c, all - gone, looks[i]) == all - next
  {
    var gone := AllDue(c, all, looks[..i]);
    assert looks[..i + 1][..i] == looks[..i];
    assert AllDue(c, all, looks[..i + 1]) == gone + Due(c, all, looks[i]);
    assert gone + Due(c, all - gone, looks[i]) == gone + Due(c, all, looks[i]);
  }

  lemma RemovedIs(t: Table, id: string)
    requires id in t.bindings
    ensures var left := Unbound(t, id);
            Removed(t, id) == if t.bindings[id] in left.bindings.Values then left else Dropped(left, t.bindings[id])
  {
    var left := Unbound(t, id).bindings;
    if t.bindings[id] !in left.Values {
      forall other | other in left
        ensures left[other] != t.bindings[id]
      {
        assert left[other] in left.Values;
      }
      assert Except(left, t.bindings[id]) == left;
    }
  }

  /** Every device is bound to a live session, and there are no more sessions than allowed. */
  ghost predicate Sound(c: PoolConfig, t: Table) {
    && (forall id :: id in t.bindings ==> t.bindings[id] in t.sessions)
    && |t.sessions| <= Capacity(c)
  }

  lemma MovedThenGot(c: PoolConfig, t: Table, id: string, ep: string, clientFails: bool)
    ensures Got(c, false, Moved(t, id, ep), id, ep, clientFails) == Got(c, false, t, id, ep, clientFails)
  {
    assert Moved(t, id, ep).bindings[id := ep] == t.bindings[id := ep];
    assert Moved(Moved(t, id, ep), id, ep) == Moved(t, id, ep);
  }

  /** A call that fails unbinds the device exactly when it had moved away from a live binding and got no
      session at its new endpoint: the old binding is gone before the new one is tried. */
  lemma GetLosesBindingIff(c: PoolConfig, t: Table, id: string, ep: string, clientFails: bool)
    requires Sound(c, t)
    ensures Sound(c, Got(c, false, t, id, ep, clientFails))
    ensures |t.sessions| <= c.maxConnections ==> |Got(c, false, t, id, ep, clientFails).sessions| <= c.maxConnections
    ensures id in t.bindings && id !in Got(c, false, t, id, ep, clientFails).bindings <==>
            id in t.bindings && ep !in t.sessions && (|t.sessions| >= c.maxConnections || clientFails)
    ensures forall other :: other != id && other in t.bindings ==>
              other in Got(c, false, t, id, ep, clientFails).bindings &&
              Got(c, false, t, id, ep, clientFails).bindings[other] == t.bindings[other]
  {
  }

  /** What a call comes to: the device is served where there is a session for its endpoint or room for one, and
      is then bound to that endpoint and no other; the sessions grow by that endpoint at most. */
  lemma GotMeans(c: PoolConfig, t: Table, id: string, ep: string, clientFails: bool)
    requires Sound(c, t)
    ensures var (t', served) := (Got(c, false, t, id, ep, clientFails),
                                 ep in t.sessions || (|t.sessions| < c.maxConnections && !clientFails));
            && (id in t'.bindings <==> served)
            && (served ==> t'.bindings[id] == ep && t'.sessions == t.sessions + {ep})
            && (!served ==> t'.sessions == t.sessions)
    ensures Got(c, true, t, id, ep, clientFails) == t
  {
  }

  /** What removing a device comes to: it is bound nowhere, all others stay where they are, and its session goes
      exactly if no other device is bound to it. */
  lemma RemovedMeans(t: Table, id: string)
    ensures var t' := Removed(t, id);
            && id !in t'.bindings
            && (forall other :: other != id ==>
                  (other in t'.bindings <==> other in t.bindings) &&
                  (other in t.bindings ==> t'.bindings[other] == t.bindings[other]))
            && (forall s :: s in t'.sessions <==>
                  s in t.sessions &&
                  (id in t.bindings && t.bindings[id] == s ==>
                     exists other :: other != id && other in t.bindings && t.bindings[other] == s))
  {
    if id in t.bindings {
      var (ep, rest) := (t.bindings[id], t.bindings - {id});
      if ep in rest.Values {
        var other :| other in rest && rest[other] == ep;
        assert other != id && t.bindings[other] == ep;
      } else {
        forall other | other in rest ensures rest[other] != ep { assert rest[other] in rest.Values; }
        assert forall other :: other != id && other in t.bindings ==> other in rest && t.bindings[other] != ep;
      }
    }
  }

  /** What reaping some sessions comes to. */
  lemma KeptMeans(t: Table, gone: set<string>)
    ensures forall id :: id in Kept(t, gone).bindings <==> id in t.bindings && t.bindings[id] !in gone
    ensures forall id :: id in Kept(t, gone).bindings ==> Kept(t, gone).bindings[id] == t.bindings[id]
    ensures forall s :: s in Kept(t, gone).sessions <==> s in t.sessions && s !in gone
  {
  }

  /** Removing undoes getting, for a device that was not bound: with its session, if it was the first. */
  lemma RemoveUndoesGet(c: PoolConfig, t: Table, id: string, ep: string, clientFails: bool)
    requires Sound(c, t) && id !in t.bindings
    requires ep in t.sessions ==> ep in t.bindings.Values
    ensures Removed(Got(c, false, t, id, ep, clientFails), id) == t
  {
    var t' := Got(c, false, t, id, ep, clientFails);
    assert t.bindings - {id} == t.bindings;
    if id in t'.bindings {
      assert t'.bindings - {id} == t.bindings;
      if ep !in t.sessions { assert t.sessions + {ep} - {ep} == t.sessions; }
    }
  }

  // ----- The two maps as values

  type Devices = map<string, DeviceBinding>

  /** The maps are inverse: each device's binding is, as an object, the one in the session of its endpoint
      key, and each session holds only such bindings. */
  ghost predicate Inverse(devices: Devices, members: map<string, Devices>) {
    forall id, k :: InverseAt(devices, members, id, k)
  }

  predicate InverseAt(devices: Devices, members: map<string, Devices>, id: string, k: string) {
    && (id in devices ==> Filed(devices[id], id, members))
    && (Holds(members, k, id) ==> Listed(members[k][id], k, id, devices))
  }

  predicate Holds(members: map<string, Devices>, k: string, id: string) { k in members && id in members[k] }

  predicate Filed(b: DeviceBinding, id: string, members: map<string, Devices>) {
    b.deviceId == id && Holds(members, b.endpointKey, id) && members[b.endpointKey][id] == b
  }

  predicate Listed(b: DeviceBinding, k: string, id: string, devices: Devices) {
    id in devices && devices[id] == b && b.endpointKey == k
  }

  function Bindings(devices: Devices): map<string, string> { map id | id in devices :: devices[id].endpointKey }

  lemma NoDeviceInTwoSessions(devices: Devices, members: map<string, Devices>, id: string, k: string, k': string)
    requires Inverse(devices, members) && Holds(members, k, id) && Holds(members, k', id)
    ensures k == k'
  {
    assert InverseAt(devices, members, id, k) && InverseAt(devices, members, id, k');
  }

  function Without(members: map<string, Devices>, k: string, id: string): map<string, Devices>
    requires k in members
  {
    members[k := members[k] - {id}]
  }

  function With(members: map<string, Devices>, b: DeviceBinding): map<string, Devices>
    requires b.endpointKey in members
  {
    members[b.endpointKey := members[b.endpointKey][b.deviceId := b]]
  }

  lemma UnbindKeepsInverse(devices: Devices, members: map<string, Devices>, id: string)
    requires Inverse(devices, members) && id in devices
    ensures devices[id].endpointKey in members
    ensures Inverse(devices - {id}, Without(members, devices[id].endpointKey, id))
    ensures Bindings(devices - {id}) == Bindings(devices) - {id}
  {
    var k := devices[id].endpointKey;
    assert InverseAt(devices, members, id, k);
    var (devices', members') := (devices - {id}, Without(members, k, id));
    forall other, k'
      ensures InverseAt(devices', members', other, k')
    {
      assert InverseAt(devices, members, other, k');
    }
  }

  lemma BindKeepsInverse(devices: Devices, members: map<string, Devices>, b: DeviceBinding)
    requires Inverse(devices, members) && b.endpointKey in members && b.deviceId !in devices
    ensures Inverse(devices[b.deviceId := b], With(members, b))
    ensures Bindings(devices[b.deviceId := b]) == Bindings(devices)[b.deviceId := b.endpointKey]
  {
    var (devices', members') := (devices[b.deviceId := b], With(members, b));
    forall other, k'
      ensures InverseAt(devices', members', other, k')
    {
      assert InverseAt(devices, members, other, k');
    }
  }

  lemma OpenKeepsInverse(devices: Devices, members: map<string, Devices>, k: string)
    requires Inverse(devices, members) && k !in members
    ensures Inverse(devices, members[k := map[]])
  {
    var members' := members[k := map[]];
    forall other, k'
      ensures InverseAt(devices, members', other, k')
    {
      assert InverseAt(devices, members, other, k');
    }
  }

  /** What is left when a session goes, and with it the bindings that it holds. */
  function Except(bindings: map<string, string>, k: string): map<string, string> {
    map id | id in bindings && bindings[id] != k :: bindings[id]
  }

  lemma DropKeepsInverse(devices: Devices, members: map<string, Devices>, k: string)
    requires Inverse(devices, members) && k in members
    ensures Inverse(devices - members[k].Keys, members - {k})
    ensures Bindings(devices - members[k].Keys) == Except(Bindings(devices), k)
  {
    var (devices', members') := (devices - members[k].Keys, members - {k});
    forall id, k'
      ensures InverseAt(devices', members', id, k')
    {
      assert InverseAt(devices, members, id, k') && InverseAt(devices, members, id, k);
    }
    forall id | id in devices
      ensures id in members[k] <==> devices[id].endpointKey == k
    {
      assert InverseAt(devices, members, id, k);
    }
  }

  lemma EmptyIff(devices: Devices, members: map<string, Devices>, k: string)
    requires Inverse(devices, members) && k in members
    ensures members[k] == map[] <==> k !in Bindings(devices).Values
  {
    if id :| id in members[k] {
      assert InverseAt(devices, members, id, k);
      assert Bindings(devices)[id] in Bindings(devices).Values;
    }
    if k in Bindings(devices).Values {
      var id :| id in Bindings(devices) && Bindings(devices)[id] == k;
      assert InverseAt(devices, members, id, k);
    }
  }

  class ConnectionPool {
    const config: PoolConfig
    var sessions: map<string, PooledSession>
    var devices: map<string, DeviceBinding>
    var closed: bool
    /** The bindings of every session. */
    ghost var members: map<string, Devices>

    ghost predicate InStep()
      reads this, sessions.Values
    {
      && members.Keys == sessions.Keys
      && forall k :: k in sessions ==> sessions[k].endpointKey == k && sessions[k].devices == members[k]
    }

    ghost predicate Valid()
      reads this, sessions.Values
    {
      && InStep() && Inverse(devices, members)
      && |sessions| <= Capacity(config)
    }

    ghost function View(): Table
      reads this
    {
      Table(Bindings(devices), sessions.Keys)
    }

    constructor (config: PoolConfig)
      ensures Valid() && this.config == config && View() == Table(map[], {}) && !closed
    {
      this.config := config;
      sessions, devices, closed, members := map[], map[], false, map[];
    }

    /** The device leaves the session that it is bound to. */
    method Leave(session: PooledSession, id: string)
      requires Valid() && id in devices && session.endpointKey == devices[id].endpointKey
      requires session.endpointKey in sessions && sessions[session.endpointKey] == session
      modifies this`devices, this`members, session`devices
      ensures Valid() && View() == Unbound(old(View()), id)
      ensures session.devices == old(session.devices) - {id}
    {
      UnbindKeepsInverse(devices, members, id);
      members := Without(members, session.endpointKey, id);
      session.devices := session.devices - {id};
      devices := devices - {id};
    }

    method File(session: PooledSession, binding: DeviceBinding)
      requires InStep() && binding.endpointKey in sessions && sessions[binding.endpointKey] == session
      modifies this`devices, this`members, session`devices
      ensures InStep() && devices == old(devices)[binding.deviceId := binding] && members == With(old(members), binding)
    {
      members := With(members, binding);
      session.devices := session.devices[binding.deviceId := binding];
      devices := devices[binding.deviceId := binding];
    }

    /** A binding for the device, in the session and in the pool, if there is none. */
    method Bind(session: PooledSession, id: string)
      requires Valid() && session.endpointKey in sessions && sessions[session.endpointKey] == session
      requires id in devices ==> devices[id].endpointKey == session.endpointKey
      modifies this`devices, this`members, session`devices
      ensures Valid() && View() == Table(old(View()).bindings[id := session.endpointKey], old(View()).sessions)
    {
      assert InverseAt(devices, members, id, session.endpointKey);
      if id !in session.devices {
        var binding := new DeviceBinding(id, session.endpointKey);
        BindKeepsInverse(devices, members, binding);
        File(session, binding);
      } else {
        assert Bindings(devices)[id := session.endpointKey] == Bindings(devices);
      }
    }

    // ----- Getting a client

    /** What getClientFromExistingSession does about the connection. */
    method Reach(session: PooledSession, now: int, connect: Option<ConnectError>) returns (r: GetResult)
      requires Valid()
      modifies session`connected, session`backoff
      ensures Valid()
      ensures Contact(r, session.connected, session.backoff) ==
              Attempted(old(session.connected), old(session.backoff), now, connect, config.retryDelay)
    {
      if session.connected {
        return Client;
      }
      if !CanAttempt(session.backoff, now) {
        return BackoffActive;
      }
      session.Connect(now, connect, config.retryDelay);
      r := if connect.None? then Client else ConnectFailed(connect.value);
    }

    /** A session without devices. */
    method Open(ep: string, now: int) returns (session: PooledSession)
      requires Valid() && ep !in sessions && |sessions| < config.maxConnections
      modifies this`sessions, this`members
      ensures Valid() && fresh(session) && session.endpointKey == ep && session.backoff == FRESH && !session.connected
      ensures sessions == old(sessions)[ep := session]
    {
      OpenKeepsInverse(devices, members, ep);
      ghost var before := sessions;
      session := new PooledSession(ep, now);
      sessions := sessions[ep := session];
      members := members[ep := map[]];
      assert |sessions| == |before| + 1;
    }

    /** A session for a new endpoint, with its first device. */
    method OpenFor(id: string, ep: string, now: int) returns (session: PooledSession)
      requires Valid() && ep !in sessions && id !in devices && |sessions| < config.maxConnections
      modifies this`sessions, this`members, this`devices
      ensures Valid() && View() == Table(old(View()).bindings[id := ep], old(View()).sessions + {ep})
      ensures ep in sessions && sessions[ep] == session && fresh(session)
      ensures session.backoff == FRESH && !session.connected
    {
      session := Open(ep, now);
      Bind(session, id);
    }

    method CreateNewSession(id: string, ep: string, now: int, clientFails: bool, connect: Option<ConnectError>)
      returns (r: GetResult)
      requires Valid() && ep !in sessions && id !in devices && |sessions| < config.maxConnections
      modifies this`sessions, this`members, this`devices
      ensures Valid()
      ensures clientFails ==> r == NoClient && View() == old(View())
      ensures !clientFails ==>
                && View() == Table(old(View()).bindings[id := ep], old(View()).sessions + {ep})
                && Contact(r, sessions[ep].connected, sessions[ep].backoff) ==
                     Attempted(false, FRESH, now, connect, config.retryDelay)
    {
      if clientFails {
        return NoClient;
      }
      var session := OpenFor(id, ep, now);
      r := Reach(session, now, connect);
    }

    /** A device that has moved leaves its old session. */
    method LeaveOther(id: string, ep: string)
      requires Valid()
      modifies this`devices, this`members, sessions.Values`devices
      ensures Valid() && View() == Moved(old(View()), id, ep)
      ensures id in devices ==> devices[id].endpointKey == ep
    {
      if id in devices && devices[id].endpointKey != ep {
        assert InverseAt(devices, members, id, ep);
        Leave(sessions[devices[id].endpointKey], id);
      }
    }

    /** getClientFromExistingSession. */
    method FromExisting(id: string, ep: string, now: int, connect: Option<ConnectError>) returns (r: GetResult)
      requires Valid() && ep in sessions && (id in devices ==> devices[id].endpointKey == ep)
      modifies this`devices, this`members, sessions[ep]
      ensures Valid() && View() == Table(old(View()).bindings[id := ep], old(View()).sessions)
      ensures Contact(r, sessions[ep].connected, sessions[ep].backoff) ==
              Attempted(old(sessions[ep].connected), old(sessions[ep].backoff), now, connect, config.retryDelay)
    {
      Bind(sessions[ep], id);
      r := Reach(sessions[ep], now, connect);
    }

    /** GetClient, when the device is not bound elsewhere. */
    method ClientFor(id: string, ep: string, now: int, clientFails: bool, connect: Option<ConnectError>)
      returns (r: GetResult)
      requires Valid() && (id in devices ==> devices[id].endpointKey == ep)
      modifies this`sessions, this`devices, this`members, sessions.Values
      ensures Valid() && View() == Got(config, false, old(View()), id, ep, clientFails)
      ensures ep in old(sessions) ==>
                sessions == old(sessions)
                && Contact(r, sessions[ep].connected, sessions[ep].backoff) ==
                     Attempted(old(sessions[ep].connected), old(sessions[ep].backoff), now, connect, config.retryDelay)
      ensures ep !in old(sessions) ==> ColdResult(r, old(|sessions|), ep, now, clientFails, connect)
    {
      if ep in sessions {
        r := FromExisting(id, ep, now, connect);
      } else if |sessions| >= config.maxConnections {
        r := PoolExhausted;
      } else {
        assert InverseAt(devices, members, id, ep);
        r := CreateNewSession(id, ep, now, clientFails, connect);
      }
    }

    ghost predicate ColdResult(r: GetResult, count: nat, ep: string, now: int,
                               clientFails: bool, connect: Option<ConnectError>)
      reads this, sessions.Values
    {
      if count >= config.maxConnections then r == PoolExhausted
      else if clientFails then r == NoClient
      else ep in sessions && Contact(r, sessions[ep].connected, sessions[ep].backoff) ==
                               Attempted(false, FRESH, now, connect, config.retryDelay)
    }

    method GetWhileOpen(id: string, ep: string, now: int, clientFails: bool, connect: Option<ConnectError>)
      returns (r: GetResult)
      requires Valid()
      modifies this`sessions, this`devices, this`members, sessions.Values
      ensures Valid() && View() == Got(config, false, old(View()), id, ep, clientFails)
      ensures ep in old(sessions) ==>
                sessions == old(sessions)
                && Contact(r, sessions[ep].connected, sessions[ep].backoff) ==
                     Attempted(old(sessions[ep].connected), old(sessions[ep].backoff), now, connect, config.retryDelay)
      ensures ep !in old(sessions) ==> ColdResult(r, old(|sessions|), ep, now, clientFails, connect)
    {
      MovedThenGot(config, View(), id, ep, clientFails);
      LeaveOther(id, ep);
      assert ep in sessions ==>
          sessions[ep].connected == old(sessions[ep].connected) && sessions[ep].backoff == old(sessions[ep].backoff);
      r := ClientFor(id, ep, now, clientFails, connect);
    }

    /** GetClient. A device that has moved leaves its old session first; a failed connect keeps the session
        and the binding. */
    method GetClient(id: string, ep: string, now: int, clientFails: bool, connect: Option<ConnectError>)
      returns (r: GetResult)
      requires Valid()
      modifies this`sessions, this`devices, this`members, sessions.Values
      ensures Valid() && View() == Got(config, closed, old(View()), id, ep, clientFails)
      ensures if closed then r == ServiceStopped
              else if ep in old(sessions) then r.Client? || r.BackoffActive? || r.ConnectFailed?
              else if |old(sessions)| >= config.maxConnections then r == PoolExhausted
              else if clientFails then r == NoClient
              else r == if connect.None? then Client else ConnectFailed(connect.value)
      ensures !closed && ep in old(sessions) ==>
                sessions == old(sessions)
                && Contact(r, sessions[ep].connected, sessions[ep].backoff) ==
                     Attempted(old(sessions[ep].connected), old(sessions[ep].backoff), now, connect, config.retryDelay)
      ensures !closed && ep !in old(sessions) ==> ColdResult(r, old(|sessions|), ep, now, clientFails, connect)
    {
      if closed {
        r := ServiceStopped;
      } else {
        r := GetWhileOpen(id, ep, now, clientFails, connect);
      }
    }

    // ----- Losing sessions

    /** Every binding of the session that is still the pool's goes, then the session itself. */
    method DeleteBindings(session: PooledSession)
      requires InStep() && session.endpointKey in sessions && sessions[session.endpointKey] == session
      requires forall id :: id in session.devices ==> id in devices && devices[id].endpointKey == session.endpointKey
      modifies this`devices
      ensures devices == old(devices) - session.devices.Keys
    {
      var ids := session.devices.Keys;
      while ids != {}
        invariant ids <= session.devices.Keys
        invariant devices == old(devices) - (session.devices.Keys - ids)
        decreases ids
      {
        var id :| id in ids;
        if id in devices && devices[id].endpointKey == session.endpointKey {
          devices := devices - {id};
        }
        ids := ids - {id};
      }
    }

    /** Disconnect and delete. */
    method Drop(ep: string)
      requires Valid() && ep in sessions
      modifies this`sessions, this`devices, this`members, sessions.Values`connected
      ensures Valid() && View() == Dropped(old(View()), ep) && sessions == old(sessions) - {ep}
      ensures !old(sessions)[ep].connected
    {
      var session := sessions[ep];
      forall id | id in session.devices
        ensures id in devices && devices[id].endpointKey == ep
      {
        assert InverseAt(devices, members, id, ep);
      }
      DropKeepsInverse(devices, members, ep);
      session.connected := false;
      DeleteBindings(session);
      sessions := sessions - {ep};
      members := members - {ep};
    }

    /** The device leaves, and says whether it was the last one. */
    method LeaveLast(id: string) returns (session: PooledSession, last: bool)
      requires Valid() && id in devices
      modifies this`devices, this`members, sessions.Values`devices
      ensures Valid() && View() == Unbound(old(View()), id)
      ensures session.endpointKey == old(View()).bindings[id] && session.endpointKey in sessions
      ensures last <==> session.endpointKey !in View().bindings.Values
    {
      assert InverseAt(devices, members, id, devices[id].endpointKey);
      session := sessions[devices[id].endpointKey];
      Leave(session, id);
      EmptyIff(devices, members, session.endpointKey);
      last := session.devices == map[];
    }

    /** RemoveClient. The last device takes its session with it. */
    method RemoveClient(id: string) returns (found: bool)
      requires Valid()
      modifies this`sessions, this`devices, this`members, sessions.Values
      ensures Valid() && View() == Removed(old(View()), id)
      ensures found <==> id in old(devices)
    {
      if id !in devices {
        return false;
      }
      found := true;
      RemovedIs(View(), id);
      var session, last := LeaveLast(id);
      if last {
        Drop(session.endpointKey);
      }
    }

    ghost function Activities(): map<string, Activity>
      reads this, sessions.Values
    {
      map k | k in sessions :: sessions[k].activity
    }

    /** The first passes of reapIdleSessions: the sessions that look idle or too old. */
    method FindReapable(now: int) returns (toReap: seq<string>)
      requires Valid()
      ensures forall k :: k in toReap <==> k in sessions && Reapable(config, Activities()[k], now)
    {
      toReap := [];
      var left := sessions.Keys;
      while left != {}
        invariant left <= sessions.Keys
        invariant forall k :: k in toReap <==> k !in left && k in sessions && Reapable(config, Activities()[k], now)
        decreases left
      {
        var k :| k in left;
        if Reapable(config, sessions[k].activity, now) {
          toReap := toReap + [k];
        }
        left := left - {k};
      }
    }

    method DropActive(ep: string)
      requires Valid() && ep in sessions
      modifies this`sessions, this`devices, this`members, sessions.Values`connected
      ensures Valid() && View() == Dropped(old(View()), ep)
      ensures Activities() == old(Activities()) - {ep} && sessions.Values <= old(sessions.Values)
    {
      Drop(ep);
      ActivitiesOfRest(ep);
    }

    twostate lemma ActivitiesOfRest(ep: string)
      requires sessions == old(sessions) - {ep}
      requires forall k :: k in sessions ==> sessions[k].activity == old(sessions[k].activity)
      ensures Activities() == old(Activities()) - {ep} && sessions.Values <= old(sessions.Values)
    {
    }

    /** One turn of the last pass. */
    method ReapOne(l: Look)
      requires Valid()
      modifies this`sessions, this`devices, this`members, sessions.Values`connected
      ensures Valid() && View() == Kept(old(View()), Due(config, old(Activities()), l))
      ensures Activities() == old(Activities()) - Due(config, old(Activities()), l)
      ensures sessions.Values <= old(sessions.Values)
    {
      KeptNone(View());
      DroppedIsKept(View(), l.endpoint);
      if l.endpoint in sessions && Reapable(config, sessions[l.endpoint].activity, l.now) {
        DropActive(l.endpoint);
      }
    }

    /** The last pass, some time later: each session is looked at again, each at its own time, and only what
        is still idle or too old goes, with exactly the bindings of its devices. */
    method Reap(looks: seq<Look>)
      requires Valid()
      modifies this`sessions, this`devices, this`members, sessions.Values`connected
      ensures Valid() && View() == Kept(old(View()), AllDue(config, old(Activities()), looks))
    {
      ghost var before, all := View(), Activities();
      KeptNone(before);
      assert all - {} == all;
      for i := 0 to |looks|
        invariant Valid() && View() == Kept(before, AllDue(config, all, looks[..i]))
        invariant sessions.Values <= old(sessions.Values) && Activities() == all - AllDue(config, all, looks[..i])
      {
        LookOnceMore(config, before, all, looks, i);
        ReapOne(looks[i]);
      }
      assert looks[..|looks|] == looks;
    }

    method DisconnectAll()
      modifies sessions.Values`connected
      ensures forall k :: k in sessions ==> !sessions[k].connected
    {
      var left := sessions.Keys;
      while left != {}
        invariant left <= sessions.Keys
        invariant forall k :: k in sessions && k !in left ==> !sessions[k].connected
        decreases left
      {
        var k :| k in left;
        sessions[k].connected := false;
        left := left - {k};
      }
    }

    /** Close: every session is disconnected, and both maps are emptied. */
    method Close()
      requires Valid()
      modifies this`sessions, this`devices, this`members, this`closed, sessions.Values`connected
      ensures Valid() && closed && View() == Table(map[], {})
      ensures forall session :: session in old(sessions.Values) ==> !session.connected
    {
      closed := true;
      DisconnectAll();
      sessions, devices, members := map[], map[], map[];
    }
  }
}
