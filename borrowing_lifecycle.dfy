/** The day29 exercise (borrowing_complex_datatypes_lifecycle): a device list reduced through
    free functions that borrow the state, `find_device`, `find_device_mut`, `update_device`
    and `apply_event`. */
module BorrowingLifecycle {
  import opened Wrappers
  import opened RustInt
  import opened DeviceList

  datatype Event =
    | Update(id: U32, value: I32)
    | Remove(id: U32)

  class GatewayState {
    var devices: seq<Device>

    constructor (devices: seq<Device>)
      ensures this.devices == devices
    {
      this.devices := devices;
    }
  }

  /** `find_device`: the first device with the id, or `None` when no device has it. */
  function FindDevice(state: GatewayState, id: U32): (r: Option<Device>)
    reads state
    ensures r.Some? ==> r.value.id == id && r.value in state.devices
    ensures r.Some? ==> exists k :: (0 <= k < |state.devices| && state.devices[k] == r.value &&
                                     forall j :: 0 <= j < k ==> state.devices[j].id != id)
    ensures r.None? <==> !HasId(state.devices, id)
  {
    match IndexOf(state.devices, id)
    case Some(i) => Some(state.devices[i])
    case None => None
  }

  /** `find_device_mut`: where the first device with the id sits, so that it can be written. */
  method FindDeviceMut(state: GatewayState, id: U32) returns (r: Option<nat>)
    ensures r.Some? ==> r.value < |state.devices| && state.devices[r.value].id == id
    ensures r.None? <==> !HasId(state.devices, id)
    ensures r == IndexOf(state.devices, id)
  {
    r := FindIndex(state.devices, id);
  }

  /** `update_device`: true exactly when a device with the id exists; then that device (the
      first one) takes the new value and nothing else changes; otherwise nothing changes. */
  method UpdateDevice(state: GatewayState, id: U32, newValue: I32) returns (found: bool)
    modifies state
    ensures found == HasId(old(state.devices), id)
    ensures found ==> state.devices == Upsert(old(state.devices), id, newValue)
    ensures !found ==> state.devices == old(state.devices)
  {
    var d := FindDeviceMut(state, id);
    match d {
      case Some(i) =>
        state.devices := state.devices[i := state.devices[i].(value := newValue)];
        found := true;
      case None =>
        found := false;
    }
  }

  /** `apply_event`: an update that finds no device appends one; a removal retains the
      devices with other ids. */
  method ApplyEvent(state: GatewayState, ev: Event)
    modifies state
    ensures ev.Update? ==> state.devices == Upsert(old(state.devices), ev.id, ev.value)
    ensures ev.Remove? ==> state.devices == RemoveAll(old(state.devices), ev.id)
  {
    match ev {
      case Update(id, value) =>
        var updated := UpdateDevice(state, id, value);
        if !updated {
          state.devices := state.devices + [Device(id, value)];
        }
      case Remove(id) =>
        state.devices := Retain(state.devices, id);
    }
  }

  /** The exercise's `main`: starting from devices 1 and 2, `Update{1,100}`, `Update{2,200}`
      and `Remove(1)` leave exactly `[{2, 200}]`. */
  method MainScenario() returns (devices: seq<Device>)
    ensures devices == [Device(2, 200)]
  {
    var state := new GatewayState([Device(1, 1), Device(2, 2)]);
    ApplyEvent(state, Update(1, 100));
    assert state.devices == [Device(1, 100), Device(2, 2)];
    ApplyEvent(state, Update(2, 200));
    assert IndexOf([Device(1, 100), Device(2, 2)], 2) == Some(1) by {
      IndexOfFirst([Device(1, 100), Device(2, 2)], 2, 1);
    }
    assert state.devices == [Device(1, 100), Device(2, 200)];
    ApplyEvent(state, Remove(1));
    assert RemoveAll([Device(1, 100), Device(2, 200)], 1) == [Device(2, 200)] by {
      assert [Device(1, 100), Device(2, 200)][1..] == [Device(2, 200)];
      assert [Device(2, 200)][1..] == [];
    }
    devices := state.devices;
  }
}
