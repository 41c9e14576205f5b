/** The gateway's side of configuration messages: the device manager, the polling service as a registry,
    the command handler with its tag index, and the handlers that keep the three in step. */
module ConfigSync {
  import opened Wrappers
  import opened Devices
  import opened ConfigRegistry

  datatype WireDevice = WireDevice(settings: Settings, tags: seq<Tag>)

  datatype DeviceAction = CreateDevice | UpdateDevice | DeleteDevice | UnknownAction

  function MapProtocol(protocol: string): string {
    match protocol
    case "modbus_tcp" => "modbus-tcp"
    case "modbus_rtu" => "modbus-rtu"
    case _ => protocol
  }

  function Hyphenated(s: string): (r: string)
    ensures |r| == |s|
  {
    seq(|s|, i requires 0 <= i < |s| => if s[i] == '_' then '-' else s[i])
  }

  /** The protocols that devices can have get their own names: those of the configuration messages with hyphens
      for underscores. */
  lemma ProtocolNames(protocol: string)
    requires protocol in {"modbus_tcp", "modbus_rtu", "opcua", "s7", "mqtt"}
    ensures MapProtocol(protocol) == Hyphenated(protocol)
  {
    assert Hyphenated("modbus_tcp") == "modbus-tcp" && Hyphenated("modbus_rtu") == "modbus-rtu";
    assert Hyphenated("opcua") == "opcua" && Hyphenated("s7") == "s7" && Hyphenated("mqtt") == "mqtt";
  }

  /** WireDeviceToDomain, as far as the registries are concerned. */
  function ToDomain(wd: WireDevice): Settings {
    var w := wd.settings;
    Settings(w.id, w.name, MapProtocol(w.protocol), w.enabled, w.pollInterval, w.subscribe)
  }

  /** Everything else in the message is taken as it is. */
  lemma SettingsAreTaken(wd: WireDevice)
    ensures var (d, w) := (ToDomain(wd), wd.settings);
            && d.id == w.id && d.name == w.name && d.enabled == w.enabled
            && d.pollInterval == w.pollInterval && d.subscribe == w.subscribe
            && (w.protocol !in {"modbus_tcp", "modbus_rtu"} ==> d.protocol == w.protocol)
  {
  }

  ghost predicate Carries(d: Device, wd: WireDevice)
    reads d, d.tags
  {
    d.Valid() && d.settings == ToDomain(wd) && d.Tags() == wd.tags
  }

  class DeviceManager {
    var devices: map<string, Device>

    constructor ()
      ensures devices == map[]
    {
      devices := map[];
    }
  }

  function Pollers(devices: map<string, Device>): Registries { Registries(map[], devices, map[]) }

  class PollingService {
    var devices: map<string, Device>

    constructor ()
      ensures devices == map[]
    {
      devices := map[];
    }

    method RegisterDevice(d: Device) returns (error: Option<ConfigError>)
      modifies this
      ensures Outcome(Pollers(devices), error) == Register(Pollers(old(devices)), d)
      ensures error == if d.settings.id in old(devices) then Some(DeviceExists) else None
      ensures devices == if d.settings.id !in old(devices) && d.settings.enabled
                         then old(devices)[d.settings.id := d] else old(devices)
    {
      if d.settings.id in devices {
        return Some(DeviceExists);
      }
      if d.settings.enabled {
        devices := devices[d.settings.id := d];
      }
      error := None;
    }

    method UnregisterDevice(id: string) returns (error: Option<ConfigError>)
      modifies this
      ensures error == if id in old(devices) then None else Some(DeviceNotFound)
      ensures devices == old(devices) - {id}
    {
      if id !in devices {
        return Some(DeviceNotFound);
      }
      devices := devices - {id};
      error := None;
    }

    method ReplaceDevice(d: Device) returns (error: Option<ConfigError>)
      modifies this
      ensures Outcome(Pollers(devices), error) == Replace(Pollers(old(devices)), d)
      ensures error.None?
      ensures devices == if d.settings.enabled then old(devices)[d.settings.id := d]
                         else old(devices) - {d.settings.id}
    {
      if d.settings.id !in devices {
        error := RegisterDevice(d);
        return;
      }
      if !d.settings.enabled {
        devices := devices - {d.settings.id};
      } else {
        devices := devices[d.settings.id := d];
      }
      error := None;
    }
  }

  class CommandHandler {
    var devices: map<string, Device>
    var tagByID: map<string, map<string, nat>>

    /** The tag index of every device matches the tags that the device has now. */
    ghost predicate IndexMatches()
      reads this, devices.Values, set d | d in devices.Values :: d.tags
    {
      && tagByID.Keys == devices.Keys
      && forall id :: id in devices ==> devices[id].Valid() && tagByID[id] == IndexOf(devices[id].Tags())
    }

    constructor ()
      ensures devices == map[] && IndexMatches()
    {
      devices, tagByID := map[], map[];
    }

    method AddDevice(d: Device)
      requires d.Valid() && IndexMatches()
      modifies this
      ensures IndexMatches() && devices == old(devices)[d.settings.id := d]
    {
      var index := d.BuildTagIndex();
      devices := devices[d.settings.id := d];
      tagByID := tagByID[d.settings.id := index];
    }

    method RemoveDevice(id: string)
      requires IndexMatches()
      modifies this
      ensures IndexMatches() && devices == old(devices) - {id}
    {
      devices := devices - {id};
      tagByID := tagByID - {id};
    }
  }

  class ConfigSubscriber {
    const supported: set<string>
    const manager: DeviceManager
    const polling: PollingService
    const commands: CommandHandler

    ghost function View(): Registries
      reads manager, polling, commands
    {
      Registries(manager.devices, polling.devices, commands.devices)
    }

    ghost predicate Valid()
      reads manager, manager.devices.Values, commands, commands.devices.Values
      reads set d | d in commands.devices.Values :: d.tags
    {
      && commands.IndexMatches()
      && forall d :: d in manager.devices.Values ==> d.Valid()
    }

    constructor (supported: set<string>)
      ensures this.supported == supported && fresh(manager) && fresh(polling) && fresh(commands)
      ensures Valid() && View() == Registries(map[], map[], map[]) && Agree(View())
    {
      this.supported := supported;
      manager := new DeviceManager();
      polling := new PollingService();
      commands := new CommandHandler();
    }

    // ----- The callbacks

    method OnAddDevice(d: Device) returns (error: Option<ConfigError>)
      requires Valid() && d.Valid()
      modifies polling, commands
      ensures Valid() && Outcome(View(), error) == OnAdd(supported, old(View()), d)
    {
      if d.settings.protocol !in supported {
        return Some(ProtocolNotSupported);
      }
      error := polling.RegisterDevice(d);
      if error.None? {
        commands.AddDevice(d);
      }
    }

    method OnEditDevice(d: Device) returns (error: Option<ConfigError>)
      requires Valid() && d.Valid()
      modifies polling, commands
      ensures Valid() && Outcome(View(), error) == OnEdit(supported, old(View()), d)
    {
      if d.settings.protocol !in supported {
        return Some(ProtocolNotSupported);
      }
      error := polling.ReplaceDevice(d);
      if error.None? {
        commands.AddDevice(d);
      }
    }

    // ----- The device manager

    method UpdateDeviceFromConfig(d: Device) returns (error: Option<ConfigError>)
      requires Valid() && d.Valid()
      modifies manager, polling, commands
      ensures Valid() && Outcome(View(), error) == Update(supported, old(View()), d)
    {
      var exists_ := d.settings.id in manager.devices;
      manager.devices := manager.devices[d.settings.id := d];
      if exists_ {
        error := OnEditDevice(d);
      } else {
        error := OnAddDevice(d);
        if error.Some? {
          manager.devices := manager.devices - {d.settings.id};
        }
      }
    }

    method AddDeviceFromConfig(d: Device) returns (error: Option<ConfigError>)
      requires Valid() && d.Valid()
      modifies manager, polling, commands
      ensures Valid() && Outcome(View(), error) == Update(supported, old(View()), d)
    {
      if d.settings.id in manager.devices {
        error := UpdateDeviceFromConfig(d);
        return;
      }
      manager.devices := manager.devices[d.settings.id := d];
      error := OnAddDevice(d);
      if error.Some? {
        manager.devices := manager.devices - {d.settings.id};
      }
    }

    method DeleteDeviceByID(id: string)
      requires Valid()
      modifies manager, polling, commands
      ensures Valid() && View() == Delete(old(View()), id)
    {
      if id !in manager.devices {
        return;
      }
      manager.devices := manager.devices - {id};
      var _ := polling.UnregisterDevice(id);
      commands.RemoveDevice(id);
    }

    // ----- Messages

    method HandleDeviceChange(action: DeviceAction, wd: WireDevice) returns (ghost d: Device)
      requires Valid() && Keyed(View())
      modifies manager, polling, commands
      ensures Valid() && Keyed(View()) && fresh(d) && Carries(d, wd)
      ensures View() == match action
        case CreateDevice => Update(supported, old(View()), d).state
        case UpdateDevice => Update(supported, old(View()), d).state
        case DeleteDevice => Delete(old(View()), wd.settings.id)
        case UnknownAction => old(View())
      ensures old(Agree(View())) && MapProtocol(wd.settings.protocol) in supported ==> Agree(View())
    {
      var device := new Device(ToDomain(wd), wd.tags);
      d := device;
      ghost var before := View();
      UpdateKeepsKeyed(supported, before, d);
      DeleteAgrees(before, wd.settings.id);
      if Agree(before) {
        UpdateAgreesIff(supported, before, d);
      }
      match action
      case CreateDevice => var _ := AddDeviceFromConfig(device);
      case UpdateDevice => var _ := UpdateDeviceFromConfig(device);
      case DeleteDevice => DeleteDeviceByID(wd.settings.id);
      case UnknownAction =>
    }

    /** A tag message works on a clone: no device that was in use before is touched. */
    method HandleTagChange(deviceId: string, action: TagAction, tag: Tag) returns (updated: Option<Device>)
      requires Valid() && Keyed(View())
      modifies manager, polling, commands
      ensures Valid() && Keyed(View())
      ensures forall d :: d in old(manager.devices.Values) ==> d.Valid() && d.Tags() == old(d.Tags())
      ensures updated.None? <==> deviceId !in old(manager.devices)
      ensures updated.None? ==> View() == old(View())
      ensures updated.Some? ==>
                && fresh(updated.value) && updated.value.settings == old(manager.devices)[deviceId].settings
                && updated.value.Valid()
                && updated.value.Tags() == Changed(old(manager.devices[deviceId].Tags()), action, tag)
                && View() == Update(supported, old(View()), updated.value).state
                && (old(Agree(View())) ==> (Agree(View()) <==> updated.value.settings.protocol in supported))
    {
      if deviceId !in manager.devices {
        return None;
      }
      assert KeyedAt(View(), deviceId);
      var clone := CloneChanged(manager.devices[deviceId], action, tag);
      updated := Some(clone);
      ApplyTagChange(clone);
    }

    /** A new object for a known device: the registries agree on it if its protocol is supported. */
    method ApplyTagChange(d: Device)
      requires Valid() && d.Valid() && Keyed(View())
      requires d.settings.id in View().manager && d !in View().manager.Values
      modifies manager, polling, commands
      ensures Valid() && Keyed(View()) && View() == Update(supported, old(View()), d).state
      ensures old(Agree(View())) ==> (Agree(View()) <==> d.settings.protocol in supported)
    {
      UpdateKeepsKeyed(supported, View(), d);
      if Agree(View()) {
        UpdateAgreesIff(supported, View(), d);
      }
      var _ := UpdateDeviceFromConfig(d);
    }

    method ApplyOne(wd: WireDevice) returns (device: Device)
      requires Valid()
      modifies manager, polling, commands
      ensures Valid() && fresh(device) && Carries(device, wd)
      ensures View() == Update(supported, old(View()), device).state
    {
      device := new Device(ToDomain(wd), wd.tags);
      if device.settings.id in manager.devices {
        var _ := UpdateDeviceFromConfig(device);
      } else {
        var _ := AddDeviceFromConfig(device);
      }
    }

    /** The first loop of a bulk sync. Devices that exist are updated, others created. */
    method ApplyIncoming(wds: seq<WireDevice>) returns (incoming: set<string>, ghost ds: seq<Device>)
      requires Valid()
      modifies manager, polling, commands
      ensures Valid() && incoming == Ids(ds)
      ensures |ds| == |wds| && forall i :: 0 <= i < |ds| ==> fresh(ds[i]) && Carries(ds[i], wds[i])
      ensures forall i, j :: 0 <= i < j < |ds| ==> ds[i] != ds[j]
      ensures View() == UpdateAll(supported, old(View()), ds)
    {
      incoming, ds := {}, [];
      for k := 0 to |wds|
        invariant Valid() && incoming == Ids(ds) && |ds| == k
        invariant forall i :: 0 <= i < k ==> fresh(ds[i]) && Carries(ds[i], wds[i])
        invariant forall i, j :: 0 <= i < j < k ==> ds[i] != ds[j]
        invariant View() == UpdateAll(supported, old(View()), ds)
      {
        var device := ApplyOne(wds[k]);
        AppendMessage(supported, old(View()), ds, device);
        incoming := incoming + {device.settings.id};
        ds := ds + [device];
      }
    }

    /** The second loop: whatever the manager has beyond the incoming ids goes, in any order. */
    method RemoveStale(incoming: set<string>)
      requires Valid() && Keyed(View())
      modifies manager, polling, commands
      ensures Valid() && View() == Prune(old(View()), incoming)
    {
      ghost var before := View();
      var existing := manager.devices;
      var todo := existing.Keys;
      ghost var gone: set<string> := {};
      while todo != {}
        invariant Valid() && todo <= existing.Keys && gone == existing.Keys - todo - incoming
        invariant View() == Drop(before, gone)
        decreases todo
      {
        var id :| id in todo;
        assert KeyedAt(before, id);
        todo := todo - {id};
        if existing[id].settings.id !in incoming {
          DropOneMore(before, gone, id);
          DeleteDeviceByID(existing[id].settings.id);
          gone := gone + {id};
        }
      }
    }

    method HandleBulkDevices(wds: seq<WireDevice>) returns (ghost ds: seq<Device>)
      requires Valid() && Keyed(View())
      modifies manager, polling, commands
      ensures Valid() && Keyed(View())
      ensures |ds| == |wds| && forall i :: 0 <= i < |ds| ==> fresh(ds[i]) && Carries(ds[i], wds[i])
      ensures View() == Bulk(supported, old(View()), ds)
      ensures Agree(View()) <==> forall id :: id in Ids(ds) ==> Settles(supported, old(View()), ds, id)
    {
      ghost var before := View();
      var incoming;
      incoming, ds := ApplyIncoming(wds);
      UpdateAllKeyed(supported, before, ds);
      RemoveStale(incoming);
      BulkAgreesIff(supported, before, ds);
    }
  }

  method CloneChanged(live: Device, action: TagAction, tag: Tag) returns (clone: Device)
    requires live.Valid()
    ensures fresh(clone) && clone.Valid() && clone.settings == live.settings
    ensures clone.Tags() == Changed(live.Tags(), action, tag)
  {
    clone := new Device.Clone(live);
    clone.ChangeTags(action, tag);
  }

  lemma AppendMessage(supported: set<string>, r: Registries, ds: seq<Device>, d: Device)
    ensures UpdateAll(supported, r, ds + [d]) == Update(supported, UpdateAll(supported, r, ds), d).state
    ensures Ids(ds + [d]) == Ids(ds) + {d.settings.id}
  {
    assert (ds + [d])[..|ds|] == ds;
    assert forall i :: 0 <= i < |ds| ==> (ds + [d])[i] == ds[i];
    assert (ds + [d])[|ds|] == d;
  }

  lemma DropOneMore(r: Registries, gone: set<string>, id: string)
    requires id in r.manager && id !in gone
    ensures Delete(Drop(r, gone), id) == Drop(r, gone + {id})
  {
    assert (r.manager - gone) - {id} == r.manager - (gone + {id});
    assert (r.pollers - gone) - {id} == r.pollers - (gone + {id});
    assert (r.commands - gone) - {id} == r.commands - (gone + {id});
  }
}
