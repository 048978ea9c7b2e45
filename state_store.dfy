/** The gateway's device-state reducer of gateway/src/state/mod.rs: a `GatewayState` whose
    `devices` vector `apply_event` mutates in place. */
module StateStore {
  import opened RustInt
  import opened DeviceList

  datatype GatewayEvent =
    | Update(id: U32, value: I32)
    | Remove(id: U32)
    | Tick(delta: I32)

  /** What `apply_event` may be given without panicking: a `Tick` must not overflow any
      device's `i32` value. */
  predicate CanApply(ds: seq<Device>, ev: GatewayEvent) {
    ev.Tick? ==> CanAddToAll(ds, ev.delta)
  }

  /** The device list after one event. */
  function Apply(ds: seq<Device>, ev: GatewayEvent): seq<Device>
    requires CanApply(ds, ev)
  {
    match ev
    case Update(id, value) => Upsert(ds, id, value)
    case Remove(id) => RemoveAll(ds, id)
    case Tick(delta) => AddToAll(ds, delta)
  }

  class GatewayState {
    var devices: seq<Device>

    /** `GatewayState::new`: no devices. */
    constructor ()
      ensures devices == []
    {
      devices := [];
    }

    /** `GatewayState::apply_event`. */
    method ApplyEvent(ev: GatewayEvent)
      requires CanApply(devices, ev)
      modifies this
      ensures devices == Apply(old(devices), ev)
    {
      match ev {
        case Update(id, value) =>
          var found := FindIndex(devices, id);
          if found.Some? {
            var i := found.value;
            devices := devices[i := devices[i].(value := value)];
          } else {
            devices := devices + [Device(id, value)];
          }
        case Remove(id) =>
          devices := Retain(devices, id);
        case Tick(delta) =>
          var i := 0;
          while i < |devices|
            invariant 0 <= i <= |devices| == |old(devices)|
            invariant forall k :: 0 <= k < i ==>
              devices[k] == Device(old(devices)[k].id, old(devices)[k].value + delta)
            invariant forall k :: i <= k < |devices| ==> devices[k] == old(devices)[k]
          {
            devices := devices[i := devices[i].(value := devices[i].value + delta)];
            i := i + 1;
          }
      }
    }
  }

  /** Every event keeps the ids unique. */
  lemma ApplyKeepsUniqueIds(ds: seq<Device>, ev: GatewayEvent)
    requires CanApply(ds, ev) && UniqueIds(ds)
    ensures UniqueIds(Apply(ds, ev))
  {
    match ev
    case Update(id, value) => UpsertKeepsUnique(ds, id, value);
    case Remove(id) => RemoveAllKeepsUnique(ds, id);
    case Tick(delta) => AddToAllShape(ds, delta);
  }

  /** `Remove(id)` leaves no device with that id, keeps every other device, and changes
      nothing when the id was absent. */
  lemma RemoveEvent(ds: seq<Device>, id: U32)
    ensures !HasId(Apply(ds, Remove(id)), id)
    ensures forall d :: d in ds && d.id != id ==> d in Apply(ds, Remove(id))
    ensures !HasId(ds, id) ==> Apply(ds, Remove(id)) == ds
  {
    RemoveAllMembers(ds, id);
    if !HasId(ds, id) {
      RemoveAllAbsent(ds, id);
    }
  }

  /** The same `Update` applied twice gives the state of applying it once. */
  lemma UpdateTwice(ds: seq<Device>, id: U32, value: I32)
    ensures Apply(Apply(ds, Update(id, value)), Update(id, value)) == Apply(ds, Update(id, value))
  {
    UpsertIdempotent(ds, id, value);
  }
}
