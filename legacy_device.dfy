/** The earlier device-state reducer of gateway/src/device.rs: the same `GatewayState`,
    with only `Update` and `Remove` events. */
module LegacyDevice {
  import opened Wrappers
  import opened RustInt
  import opened DeviceList

  datatype GatewayEvent =
    | Update(id: U32, value: I32)
    | Remove(id: U32)

  function Apply(ds: seq<Device>, ev: GatewayEvent): seq<Device> {
    match ev
    case Update(id, value) => Upsert(ds, id, value)
    case Remove(id) => RemoveAll(ds, id)
  }

  class GatewayState {
    var devices: seq<Device>

    /** `GatewayState::new`: no devices. */
    constructor ()
      ensures devices == []
    {
      devices := [];
    }

    /** `GatewayState::apply_event`. */
    method ApplyEvent(ev: GatewayEvent)
      modifies this
      ensures devices == Apply(old(devices), ev)
    {
      match ev {
        case Update(id, value) =>
          var found := FindIndex(devices, id);
          if found.Some? {
            var i := found.value;
            devices := devices[i := devices[i].(value := value)];
          } else {
            devices := devices + [Device(id, value)];
          }
        case Remove(id) =>
          devices := Retain(devices, id);
      }
    }
  }

  /** Every event keeps the ids unique. */
  lemma ApplyKeepsUniqueIds(ds: seq<Device>, ev: GatewayEvent)
    requires UniqueIds(ds)
    ensures UniqueIds(Apply(ds, ev))
  {
    match ev
    case Update(id, value) => UpsertKeepsUnique(ds, id, value);
    case Remove(id) => RemoveAllKeepsUnique(ds, id);
  }

  /** `Update` on a known id sets that device's value and nothing else; on an unknown id it
      appends one device at the end. */
  lemma UpdateEvent(ds: seq<Device>, id: U32, value: I32)
    ensures HasId(ds, id) ==> |Apply(ds, Update(id, value))| == |ds|
    ensures HasId(ds, id) ==> forall k :: 0 <= k < |ds| ==>
      Apply(ds, Update(id, value))[k] == (if k == IndexOf(ds, id).value then Device(id, value) else ds[k])
    ensures !HasId(ds, id) ==> Apply(ds, Update(id, value)) == ds + [Device(id, value)]
  {
    if HasId(ds, id) {
      UpsertPresent(ds, id, value);
    }
  }

  /** The program's own run: from an empty state, `Update{1,100}`, `Update{2,200}` and
      `Remove(1)` leave exactly one device, `{2, 200}`. */
  method MainScenario() returns (devices: seq<Device>)
    ensures devices == [Device(2, 200)]
  {
    var gateway := new GatewayState();
    gateway.ApplyEvent(Update(1, 100));
    assert gateway.devices == [Device(1, 100)];
    gateway.ApplyEvent(Update(2, 200));
    assert IndexOf([Device(1, 100)], 2) == None;
    assert gateway.devices == [Device(1, 100), Device(2, 200)];
    gateway.ApplyEvent(Remove(1));
    assert RemoveAll([Device(1, 100), Device(2, 200)], 1) == [Device(2, 200)] by {
      assert [Device(1, 100), Device(2, 200)][1..] == [Device(2, 200)];
      assert [Device(2, 200)][1..] == [];
    }
    devices := gateway.devices;
  }
}
