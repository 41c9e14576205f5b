/** The three registries of the protocol gateway: the device manager, the polling service and the
    command handler. What every configuration message does to them, and when they agree afterwards. */
module ConfigRegistry {
  import opened Wrappers
  import opened Devices

  /** Registries hold device objects, so that agreeing on a device means sharing the object. */
  datatype Registries = Registries(
    manager: map<string, Device>,
    pollers: map<string, Device>,
    commands: map<string, Device>
  )

  datatype ConfigError = ProtocolNotSupported | DeviceExists | DeviceNotFound

  datatype Outcome = Outcome(state: Registries, error: Option<ConfigError>)

  // ----- The polling service

  function Register(r: Registries, d: Device): Outcome {
    if d.settings.id in r.pollers then Outcome(r, Some(DeviceExists))
    else if !d.settings.enabled then Outcome(r, None)
    else Outcome(Registries(r.manager, r.pollers[d.settings.id := d], r.commands), None)
  }

  function Unregister(r: Registries, id: string): Registries {
    Registries(r.manager, r.pollers - {id}, r.commands)
  }

  function Replace(r: Registries, d: Device): Outcome {
    if d.settings.id !in r.pollers then Register(r, d)
    else if !d.settings.enabled then Outcome(Unregister(r, d.settings.id), None)
    else Outcome(Registries(r.manager, r.pollers[d.settings.id := d], r.commands), None)
  }

  // ----- The callbacks

  function Command(o: Outcome, d: Device): Outcome {
    if o.error.Some? then o
    else Outcome(Registries(o.state.manager, o.state.pollers, o.state.commands[d.settings.id := d]), None)
  }

  function OnAdd(supported: set<string>, r: Registries, d: Device): Outcome {
    if d.settings.protocol !in supported then Outcome(r, Some(ProtocolNotSupported)) else Command(Register(r, d), d)
  }

  function OnEdit(supported: set<string>, r: Registries, d: Device): Outcome {
    if d.settings.protocol !in supported then Outcome(r, Some(ProtocolNotSupported)) else Command(Replace(r, d), d)
  }

  function OnDelete(r: Registries, id: string): Registries {
    Registries(r.manager, r.pollers - {id}, r.commands - {id})
  }

  // ----- The device manager

  function Managed(r: Registries, d: Device): Registries {
    Registries(r.manager[d.settings.id := d], r.pollers, r.commands)
  }

  function Unmanaged(r: Registries, id: string): Registries {
    Registries(r.manager - {id}, r.pollers, r.commands)
  }

  function Update(supported: set<string>, r: Registries, d: Device): Outcome {
    if d.settings.id in r.manager then
      OnEdit(supported, Managed(r, d), d)
    else
      var o := OnAdd(supported, Managed(r, d), d);
      if o.error.Some? then Outcome(Unmanaged(o.state, d.settings.id), o.error) else o
  }

  function Add(supported: set<string>, r: Registries, d: Device): Outcome {
    if d.settings.id in r.manager then Update(supported, r, d)
    else
      var o := OnAdd(supported, Managed(r, d), d);
      if o.error.Some? then Outcome(Unmanaged(o.state, d.settings.id), o.error) else o
  }

  function Delete(r: Registries, id: string): Registries {
    if id in r.manager then OnDelete(Unmanaged(r, id), id) else r
  }

  /** The messages of a bulk sync, one after the other. */
  function UpdateAll(supported: set<string>, r: Registries, ds: seq<Device>): Registries {
    if ds == [] then r
    else Update(supported, UpdateAll(supported, r, ds[..|ds| - 1]), ds[|ds| - 1]).state
  }

  function Ids(ds: seq<Device>): set<string> { set i | 0 <= i < |ds| :: ds[i].settings.id }

  function Drop(r: Registries, gone: set<string>): Registries {
    Registries(r.manager - gone, r.pollers - gone, r.commands - gone)
  }

  /** What is in the manager but not among the incoming ids goes. */
  function Prune(r: Registries, incoming: set<string>): Registries { Drop(r, r.manager.Keys - incoming) }

  function Bulk(supported: set<string>, r: Registries, ds: seq<Device>): Registries {
    Prune(UpdateAll(supported, r, ds), Ids(ds))
  }

  // ----- Agreement, id by id

  predicate KeyedAt(r: Registries, id: string) {
    && (id in r.manager ==> r.manager[id].settings.id == id)
    && (id in r.pollers ==> id in r.manager)
    && (id in r.commands ==> id in r.manager)
  }

  /** The weak invariant: nobody knows a device that the manager does not have. */
  ghost predicate Keyed(r: Registries) { forall id :: KeyedAt(r, id) }

  predicate AgreesAt(r: Registries, id: string) {
    && KeyedAt(r, id)
    && (id in r.pollers <==> id in r.manager && r.manager[id].settings.enabled)
    && (id in r.pollers ==> r.pollers[id] == r.manager[id])
    && (id in r.commands <==> id in r.manager)
    && (id in r.commands ==> r.commands[id] == r.manager[id])
  }

  /** The pollers are exactly the manager's enabled devices, the command handler has all of them, and
      all three share the same objects. */
  ghost predicate Agree(r: Registries) { forall id :: AgreesAt(r, id) }

  lemma AgreeMeans(r: Registries)
    ensures Agree(r) <==> Keyed(r) && r.commands == r.manager &&
                          r.pollers == map id | id in r.manager && r.manager[id].settings.enabled :: r.manager[id]
  {
    if Agree(r) {
      assert forall id :: AgreesAt(r, id) ==> KeyedAt(r, id);
      forall id
        ensures (id in r.commands <==> id in r.manager) && (id in r.commands ==> r.commands[id] == r.manager[id])
        ensures id in r.pollers <==> id in r.manager && r.manager[id].settings.enabled
        ensures id in r.pollers ==> r.pollers[id] == r.manager[id]
      {
        assert AgreesAt(r, id);
      }
    } else {
      var id :| !AgreesAt(r, id);
      if Keyed(r) { assert KeyedAt(r, id); }
    }
  }

  /** Create and update messages do the same. */
  lemma AddIsUpdate(supported: set<string>, r: Registries, d: Device)
    ensures Add(supported, r, d) == Update(supported, r, d)
  {
  }

  predicate SameAt(r: Registries, r': Registries, id: string) {
    && (id in r'.manager <==> id in r.manager) && (id in r.manager ==> r'.manager[id] == r.manager[id])
    && (id in r'.pollers <==> id in r.pollers) && (id in r.pollers ==> r'.pollers[id] == r.pollers[id])
    && (id in r'.commands <==> id in r.commands) && (id in r.commands ==> r'.commands[id] == r.commands[id])
  }

  /** One message, seen from the id that it is about. */
  lemma UpdateAt(supported: set<string>, r: Registries, d: Device)
    requires KeyedAt(r, d.settings.id)
    ensures var id := d.settings.id; var o := Update(supported, r, d);
            if d.settings.protocol in supported then
              o.error.None? && AgreesAt(o.state, id) && id in o.state.manager && o.state.manager[id] == d
            else
              && o.error == Some(ProtocolNotSupported) && KeyedAt(o.state, id)
              && (id in o.state.manager <==> id in r.manager)
              && (id in r.manager ==> o.state == Managed(r, d))
  {
  }

  lemma UpdateElsewhere(supported: set<string>, r: Registries, d: Device, id: string)
    requires id != d.settings.id
    ensures SameAt(r, Update(supported, r, d).state, id)
  {
  }

  lemma UpdateKeepsKeyed(supported: set<string>, r: Registries, d: Device)
    requires Keyed(r)
    ensures Keyed(Update(supported, r, d).state)
  {
    forall id
      ensures KeyedAt(Update(supported, r, d).state, id)
    {
      assert KeyedAt(r, id);
      if id == d.settings.id { UpdateAt(supported, r, d); } else { UpdateElsewhere(supported, r, d, id); }
    }
  }

  /** One create or update message leaves the registries in agreement, except when it changes a known
      device to a protocol that no pool supports: then the manager has the new object, and the other two
      keep the old one. */
  lemma UpdateAgreesIff(supported: set<string>, r: Registries, d: Device)
    requires Agree(r) && d !in r.manager.Values
    ensures Agree(Update(supported, r, d).state) <==> d.settings.protocol in supported || d.settings.id !in r.manager
  {
    var id := d.settings.id;
    var r' := Update(supported, r, d).state;
    assert AgreesAt(r, id);
    UpdateAt(supported, r, d);
    if d.settings.protocol in supported || id !in r.manager {
      forall other
        ensures AgreesAt(r', other)
      {
        assert AgreesAt(r, other);
        if other != id { UpdateElsewhere(supported, r, d, other); }
      }
    } else {
      assert r.manager[id] in r.manager.Values;
      assert !AgreesAt(r', id);
    }
  }

  lemma DeleteAgrees(r: Registries, id: string)
    requires Keyed(r)
    ensures Keyed(Delete(r, id)) && AgreesAt(Delete(r, id), id) && id !in Delete(r, id).manager
    ensures Agree(r) ==> Agree(Delete(r, id))
  {
    var r' := Delete(r, id);
    assert KeyedAt(r, id);
    forall other
      ensures KeyedAt(r', other) && (AgreesAt(r, other) ==> AgreesAt(r', other))
    {
      assert KeyedAt(r, other);
    }
  }

  // ----- Bulk synchronisation

  /** The last device with an id. */
  ghost predicate Last(ds: seq<Device>, i: nat, id: string) {
    i < |ds| && ds[i].settings.id == id && forall j :: i < j < |ds| ==> ds[j].settings.id != id
  }

  /** Whether the manager has an id when the messages ds have been applied. */
  predicate Known(supported: set<string>, r: Registries, ds: seq<Device>, id: string) {
    id in r.manager || exists i :: 0 <= i < |ds| && ds[i].settings.id == id && ds[i].settings.protocol in supported
  }

  /** The last message about an id is one that the gateway can act on, or it knows nothing of the id. */
  ghost predicate Settles(supported: set<string>, r: Registries, ds: seq<Device>, id: string) {
    forall i: nat :: Last(ds, i, id) ==> ds[i].settings.protocol in supported || !Known(supported, r, ds, id)
  }

  /** Device objects are made afresh for every message. */
  ghost predicate New(r: Registries, ds: seq<Device>) {
    && (forall i :: 0 <= i < |ds| ==> ds[i] !in r.commands.Values)
    && (forall i, j :: 0 <= i < j < |ds| ==> ds[i] != ds[j])
  }

  lemma {:induction false} UpdateAllKeyed(supported: set<string>, r: Registries, ds: seq<Device>)
    requires Keyed(r)
    ensures Keyed(UpdateAll(supported, r, ds))
  {
    if ds != [] {
      UpdateAllKeyed(supported, r, ds[..|ds| - 1]);
      UpdateKeepsKeyed(supported, UpdateAll(supported, r, ds[..|ds| - 1]), ds[|ds| - 1]);
    }
  }

  lemma {:induction false} UpdateAllKnows(supported: set<string>, r: Registries, ds: seq<Device>, id: string)
    requires Keyed(r)
    ensures id in UpdateAll(supported, r, ds).manager <==> Known(supported, r, ds, id)
  {
    if ds != [] {
      var n := |ds| - 1;
      var (before, d) := (UpdateAll(supported, r, ds[..n]), ds[n]);
      UpdateAllKnows(supported, r, ds[..n], id);
      UpdateAllKeyed(supported, r, ds[..n]);
      assert KeyedAt(before, id);
      if id == d.settings.id { UpdateAt(supported, before, d); } else { UpdateElsewhere(supported, before, d, id); }
      assert forall i :: 0 <= i < n ==> ds[..n][i] == ds[i];
    }
  }

  /** Messages about other ids do not matter. */
  lemma {:induction false} OthersDoNotMatter(supported: set<string>, r: Registries, ds: seq<Device>, k: nat, id: string)
    requires k <= |ds| && forall j :: k <= j < |ds| ==> ds[j].settings.id != id
    ensures SameAt(UpdateAll(supported, r, ds[..k]), UpdateAll(supported, r, ds), id)
  {
    if k == |ds| {
      assert ds[..k] == ds;
    } else {
      var n := |ds| - 1;
      assert ds[..n][..k] == ds[..k];
      OthersDoNotMatter(supported, r, ds[..n], k, id);
      UpdateElsewhere(supported, UpdateAll(supported, r, ds[..n]), ds[n], id);
    }
  }

  /** The command handler's objects come from where it started or from the messages. */
  lemma {:induction false} CommandsComeFrom(supported: set<string>, r: Registries, ds: seq<Device>, id: string)
    ensures var r' := UpdateAll(supported, r, ds);
            id in r'.commands ==> r'.commands[id] in r.commands.Values || r'.commands[id] in ds
  {
    if ds != [] {
      var n := |ds| - 1;
      CommandsComeFrom(supported, r, ds[..n], id);
      assert forall d :: d in ds[..n] ==> d in ds;
      assert ds[n] in ds;
      var before := UpdateAll(supported, r, ds[..n]);
      if id != ds[n].settings.id { UpdateElsewhere(supported, before, ds[n], id); }
    }
  }

  lemma {:induction false} LastExists(ds: seq<Device>, id: string)
    requires id in Ids(ds)
    ensures exists i: nat :: Last(ds, i, id)
  {
    var n := |ds| - 1;
    if ds[n].settings.id == id {
      assert Last(ds, n, id);
    } else {
      var k :| 0 <= k < |ds| && ds[k].settings.id == id;
      assert ds[..n][k] == ds[k];
      LastExists(ds[..n], id);
      var i: nat :| Last(ds[..n], i, id);
      assert forall j :: 0 <= j < n ==> ds[..n][j] == ds[j];
      assert Last(ds, i, id);
    }
  }

  lemma LastDecides(supported: set<string>, r: Registries, ds: seq<Device>, i: nat, id: string)
    requires Keyed(r) && Last(ds, i, id)
    ensures var r' := UpdateAll(supported, r, ds);
            if ds[i].settings.protocol in supported then AgreesAt(r', id) && id in r'.manager && r'.manager[id] == ds[i]
            else if !Known(supported, r, ds[..i], id) then AgreesAt(r', id)
            else New(r, ds) ==> !AgreesAt(r', id)
  {
    var before := UpdateAll(supported, r, ds[..i]);
    assert ds[..i + 1][..i] == ds[..i] && ds[..i + 1][i] == ds[i];
    UpdateAllKeyed(supported, r, ds[..i]);
    UpdateAllKnows(supported, r, ds[..i], id);
    assert KeyedAt(before, id);
    UpdateAt(supported, before, ds[i]);
    OthersDoNotMatter(supported, r, ds, i + 1, id);
    CommandsComeFrom(supported, r, ds[..i], id);
  }

  lemma KnownBeforeLast(supported: set<string>, r: Registries, ds: seq<Device>, i: nat, id: string)
    requires Last(ds, i, id) && ds[i].settings.protocol !in supported
    ensures Known(supported, r, ds[..i], id) <==> Known(supported, r, ds, id)
  {
    assert forall k :: 0 <= k < i ==> ds[..i][k] == ds[k];
  }

  lemma UpdateAllAgreesAt(supported: set<string>, r: Registries, ds: seq<Device>, id: string)
    requires Keyed(r) && New(r, ds) && id in Ids(ds)
    ensures AgreesAt(UpdateAll(supported, r, ds), id) <==> Settles(supported, r, ds, id)
  {
    LastExists(ds, id);
    var i: nat :| Last(ds, i, id);
    assert forall j: nat :: Last(ds, j, id) ==> j == i;
    LastDecides(supported, r, ds, i, id);
    if ds[i].settings.protocol !in supported { KnownBeforeLast(supported, r, ds, i, id); }
  }

  lemma PruneAt(r: Registries, incoming: set<string>, id: string)
    requires Keyed(r)
    ensures KeyedAt(Prune(r, incoming), id)
    ensures id in incoming ==> SameAt(r, Prune(r, incoming), id)
    ensures id !in incoming ==> id !in Prune(r, incoming).manager && AgreesAt(Prune(r, incoming), id)
  {
    assert KeyedAt(r, id);
  }

  /** A bulk sync, from whatever state the registries are in, leaves them in agreement if and only if for
      every incoming id the last device is of a supported protocol, or no earlier one was and the
      manager did not have the id. */
  lemma BulkAgreesIff(supported: set<string>, r: Registries, ds: seq<Device>)
    requires Keyed(r) && New(r, ds)
    ensures Keyed(Bulk(supported, r, ds))
    ensures Agree(Bulk(supported, r, ds)) <==> forall id :: id in Ids(ds) ==> Settles(supported, r, ds, id)
  {
    var all := UpdateAll(supported, r, ds);
    UpdateAllKeyed(supported, r, ds);
    forall id
      ensures KeyedAt(Bulk(supported, r, ds), id)
      ensures AgreesAt(Bulk(supported, r, ds), id) <==> id !in Ids(ds) || Settles(supported, r, ds, id)
    {
      PruneAt(all, Ids(ds), id);
      if id in Ids(ds) { UpdateAllAgreesAt(supported, r, ds, id); }
    }
  }

  predicate AllSupported(supported: set<string>, ds: seq<Device>) {
    forall i :: 0 <= i < |ds| ==> ds[i].settings.protocol in supported
  }

  /** With supported protocols the result is exactly the incoming ids, each with its last device, in
      full agreement, whatever the registries held before. */
  lemma BulkIsExact(supported: set<string>, r: Registries, ds: seq<Device>)
    requires Keyed(r) && AllSupported(supported, ds)
    ensures Agree(Bulk(supported, r, ds))
    ensures Bulk(supported, r, ds).manager.Keys == Ids(ds)
    ensures forall id, i: nat :: Last(ds, i, id) ==>
      id in Bulk(supported, r, ds).manager && Bulk(supported, r, ds).manager[id] == ds[i]
  {
    var all := UpdateAll(supported, r, ds);
    var r' := Bulk(supported, r, ds);
    UpdateAllKeyed(supported, r, ds);
    forall id
      ensures AgreesAt(r', id) && (id in r'.manager <==> id in Ids(ds))
      ensures forall i: nat :: Last(ds, i, id) ==> id in r'.manager && r'.manager[id] == ds[i]
    {
      PruneAt(all, Ids(ds), id);
      if id in Ids(ds) {
        LastExists(ds, id);
        var i: nat :| Last(ds, i, id);
        LastDecides(supported, r, ds, i, id);
        assert forall j: nat :: Last(ds, j, id) ==> j == i;
      }
    }
  }

  /** So the state before does not matter, and a repeated sync changes nothing. */
  lemma BulkConverges(supported: set<string>, r: Registries, other: Registries, ds: seq<Device>)
    requires Keyed(r) && Keyed(other) && AllSupported(supported, ds)
    ensures Bulk(supported, r, ds) == Bulk(supported, other, ds)
    ensures Bulk(supported, Bulk(supported, r, ds), ds) == Bulk(supported, r, ds)
  {
    BulkIsExact(supported, r, ds);
    BulkIsExact(supported, other, ds);
    AgreementIsUnique(Bulk(supported, r, ds), Bulk(supported, other, ds), ds);
    var r' := Bulk(supported, r, ds);
    AgreeMeans(r');
    BulkIsExact(supported, r', ds);
    AgreementIsUnique(Bulk(supported, r', ds), r', ds);
  }

  lemma AgreementIsUnique(a: Registries, b: Registries, ds: seq<Device>)
    requires Agree(a) && Agree(b) && a.manager.Keys == b.manager.Keys == Ids(ds)
    requires forall id, i: nat :: Last(ds, i, id) ==> id in a.manager && a.manager[id] == ds[i]
    requires forall id, i: nat :: Last(ds, i, id) ==> id in b.manager && b.manager[id] == ds[i]
    ensures a == b
  {
    forall id | id in a.manager
      ensures id in b.manager && a.manager[id] == b.manager[id]
    {
      assert id in a.manager.Keys;
      LastExists(ds, id);
    }
    assert a.manager == b.manager;
    AgreeMeans(a);
    AgreeMeans(b);
  }

  // ----- Whole runs

  /** A tag message puts a new object for a known device, as a create or update message does. */
  datatype Change = Put(d: Device) | Remove(id: string) | Sync(ds: seq<Device>)

  function Applied(supported: set<string>, r: Registries, c: Change): Registries {
    match c
    case Put(d) => Update(supported, r, d).state
    case Remove(id) => Delete(r, id)
    case Sync(ds) => Bulk(supported, r, ds)
  }

  predicate Supported(supported: set<string>, c: Change) {
    match c
    case Put(d) => d.settings.protocol in supported
    case Remove(_) => true
    case Sync(ds) => AllSupported(supported, ds)
  }

  function AfterChanges(supported: set<string>, r: Registries, cs: seq<Change>): Registries {
    if cs == [] then r else Applied(supported, AfterChanges(supported, r, cs[..|cs| - 1]), cs[|cs| - 1])
  }

  lemma ChangeKeepsKeyed(supported: set<string>, r: Registries, c: Change)
    requires Keyed(r)
    ensures Keyed(Applied(supported, r, c))
  {
    match c
    case Put(d) => UpdateKeepsKeyed(supported, r, d);
    case Remove(id) => DeleteAgrees(r, id);
    case Sync(ds) =>
      UpdateAllKeyed(supported, r, ds);
      forall id { PruneAt(UpdateAll(supported, r, ds), Ids(ds), id); }
  }

  lemma SupportedChangeAgrees(supported: set<string>, r: Registries, c: Change)
    requires Agree(r) && Supported(supported, c)
    ensures Agree(Applied(supported, r, c))
  {
    AgreeMeans(r);
    match c
    case Put(d) =>
      forall id
        ensures AgreesAt(Applied(supported, r, c), id)
      {
        assert AgreesAt(r, id) && KeyedAt(r, d.settings.id);
        if id == d.settings.id { UpdateAt(supported, r, d); } else { UpdateElsewhere(supported, r, d, id); }
      }
    case Remove(id) => DeleteAgrees(r, id);
    case Sync(ds) => BulkIsExact(supported, r, ds);
  }

  /** Every run of messages keeps the weak invariant. From agreement, with supported protocols, it keeps
      agreement; and a bulk sync of supported devices restores agreement after whatever came before. */
  lemma {:induction false} RunsAgree(supported: set<string>, r: Registries, cs: seq<Change>)
    requires Keyed(r)
    ensures Keyed(AfterChanges(supported, r, cs))
    ensures Agree(r) && (forall i :: 0 <= i < |cs| ==> Supported(supported, cs[i])) ==>
            Agree(AfterChanges(supported, r, cs))
    ensures cs != [] && cs[|cs| - 1].Sync? && Supported(supported, cs[|cs| - 1]) ==>
            Agree(AfterChanges(supported, r, cs))
  {
    if cs != [] {
      var (front, c) := (cs[..|cs| - 1], cs[|cs| - 1]);
      RunsAgree(supported, r, front);
      ChangeKeepsKeyed(supported, AfterChanges(supported, r, front), c);
      if c.Sync? && Supported(supported, c) {
        BulkIsExact(supported, AfterChanges(supported, r, front), c.ds);
      } else if Agree(AfterChanges(supported, r, front)) && Supported(supported, c) {
        SupportedChangeAgrees(supported, AfterChanges(supported, r, front), c);
      }
    }
  }
}
