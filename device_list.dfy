/** The list of devices the gateway keeps, and what each kind of event does to it. The three
    reducers (gateway/src/state/mod.rs, gateway/src/device.rs and the day29 exercise) all
    mutate a `Vec<Device>` with the same three primitives, specified here once:
    `iter_mut().find` + assignment (`Upsert`), `retain` (`RemoveAll`) and
    `for_each(|d| d.value += v)` (`AddToAll`). */
module DeviceList {
  import opened Wrappers
  import opened RustInt

  datatype Device = Device(id: U32, value: I32)

  predicate HasId(ds: seq<Device>, id: U32) {
    exists k :: 0 <= k < |ds| && ds[k].id == id
  }

  /** No two devices share an id. */
  predicate UniqueIds(ds: seq<Device>) {
    forall i, j :: 0 <= i < j < |ds| ==> ds[i].id != ds[j].id
  }

  /** The position `iter().find(|d| d.id == id)` stops at: the first device with that id. */
  function IndexOf(ds: seq<Device>, id: U32): (r: Option<nat>)
    ensures r.Some? ==> r.value < |ds| && ds[r.value].id == id
    ensures r.Some? ==> forall k :: 0 <= k < r.value ==> ds[k].id != id
    ensures r.None? <==> !HasId(ds, id)
    decreases |ds|
  {
    if ds == [] then None
    else if ds[0].id == id then Some(0)
    else match IndexOf(ds[1..], id)
      case None => None
      case Some(k) => Some(k + 1)
  }

  /** `Update{id, value}`: overwrite the value of the first device with `id`, or append a new
      device at the end when there is none. */
  function Upsert(ds: seq<Device>, id: U32, value: I32): seq<Device> {
    match IndexOf(ds, id)
    case Some(i) => ds[i := ds[i].(value := value)]
    case None => ds + [Device(id, value)]
  }

  /** `retain(|d| d.id != id)`: keep, in order, the devices whose id differs. */
  function RemoveAll(ds: seq<Device>, id: U32): seq<Device>
    decreases |ds|
  {
    if ds == [] then []
    else if ds[0].id == id then RemoveAll(ds[1..], id)
    else [ds[0]] + RemoveAll(ds[1..], id)
  }

  /** `value += delta` must not overflow `i32` for any device (Rust panics otherwise). */
  predicate CanAddToAll(ds: seq<Device>, delta: I32) {
    forall k :: 0 <= k < |ds| ==> InI32(ds[k].value + delta)
  }

  /** `for_each(|d| d.value += delta)`. */
  function AddToAll(ds: seq<Device>, delta: I32): seq<Device>
    requires CanAddToAll(ds, delta)
  {
    seq(|ds|, k requires 0 <= k < |ds| => Device(ds[k].id, ds[k].value + delta))
  }

  // ---------------------------------------------------------------------------------------
  // The loops behind `iter_mut().find` and `retain`

  /** `iter_mut().find(|d| d.id == id)`, as a position. */
  method FindIndex(ds: seq<Device>, id: U32) returns (r: Option<nat>)
    ensures r == IndexOf(ds, id)
  {
    var i := 0;
    while i < |ds|
      invariant 0 <= i <= |ds|
      invariant forall k :: 0 <= k < i ==> ds[k].id != id
    {
      if ds[i].id == id {
        IndexOfFirst(ds, id, i);
        return Some(i);
      }
      i := i + 1;
    }
    return None;
  }

  /** The first device carrying `id` is where `IndexOf` stops. */
  lemma IndexOfFirst(ds: seq<Device>, id: U32, i: nat)
    requires i < |ds| && ds[i].id == id
    requires forall k :: 0 <= k < i ==> ds[k].id != id
    ensures IndexOf(ds, id) == Some(i)
  {
  }

  /** `retain(|d| d.id != id)`, building the kept list front to back. */
  method Retain(ds: seq<Device>, id: U32) returns (kept: seq<Device>)
    ensures kept == RemoveAll(ds, id)
  {
    kept := [];
    var i := 0;
    while i < |ds|
      invariant 0 <= i <= |ds|
      invariant kept == RemoveAll(ds[..i], id)
    {
      assert ds[..i + 1] == ds[..i] + [ds[i]];
      RemoveAllAppend(ds[..i], [ds[i]], id);
      if ds[i].id != id {
        kept := kept + [ds[i]];
      }
      i := i + 1;
    }
    assert ds[..i] == ds;
  }

  // ---------------------------------------------------------------------------------------
  // Properties of the three primitives

  /** Removal works piecewise: the kept devices of a concatenation are the kept devices of
      each part, in the original order. */
  lemma {:induction false} RemoveAllAppend(a: seq<Device>, b: seq<Device>, id: U32)
    ensures RemoveAll(a + b, id) == RemoveAll(a, id) + RemoveAll(b, id)
    decreases |a|
  {
    if a == [] {
      assert a + b == b;
    } else {
      assert (a + b)[1..] == a[1..] + b;
      RemoveAllAppend(a[1..], b, id);
    }
  }

  /** A device survives removal exactly when it was there and carries another id. */
  lemma {:induction false} RemoveAllMembers(ds: seq<Device>, id: U32)
    ensures forall d :: d in RemoveAll(ds, id) <==> d in ds && d.id != id
    ensures !HasId(RemoveAll(ds, id), id)
    decreases |ds|
  {
    if ds != [] {
      RemoveAllMembers(ds[1..], id);
      assert ds == [ds[0]] + ds[1..];
    }
  }

  /** Removing an id that no device carries changes nothing. */
  lemma {:induction false} RemoveAllAbsent(ds: seq<Device>, id: U32)
    requires !HasId(ds, id)
    ensures RemoveAll(ds, id) == ds
    decreases |ds|
  {
    if ds != [] {
      assert ds[0].id != id;
      assert !HasId(ds[1..], id) by {
        forall k | 0 <= k < |ds[1..]| ensures ds[1..][k].id != id {
          assert ds[1..][k] == ds[k + 1];
        }
      }
      RemoveAllAbsent(ds[1..], id);
      assert ds == [ds[0]] + ds[1..];
    }
  }

  /** Removal never introduces a duplicate id. */
  lemma {:induction false} RemoveAllKeepsUnique(ds: seq<Device>, id: U32)
    requires UniqueIds(ds)
    ensures UniqueIds(RemoveAll(ds, id))
    decreases |ds|
  {
    if ds != [] {
      var rest := ds[1..];
      assert UniqueIds(rest) by {
        forall i, j | 0 <= i < j < |rest| ensures rest[i].id != rest[j].id {
          assert rest[i] == ds[i + 1] && rest[j] == ds[j + 1];
        }
      }
      RemoveAllKeepsUnique(rest, id);
      if ds[0].id != id {
        RemoveAllMembers(rest, id);
        var r := RemoveAll(rest, id);
        forall j | 0 <= j < |r| ensures r[j].id != ds[0].id {
          assert r[j] in rest;
          var k :| 0 <= k < |rest| && rest[k] == r[j];
          assert rest[k] == ds[k + 1];
        }
      }
    }
  }

  /** `Upsert` on a present id: same length, the first device with that id gets the new
      value, every other device is untouched. */
  lemma UpsertPresent(ds: seq<Device>, id: U32, value: I32)
    requires HasId(ds, id)
    ensures var i := IndexOf(ds, id).value;
      |Upsert(ds, id, value)| == |ds| &&
      Upsert(ds, id, value)[i] == Device(id, value) &&
      forall k :: 0 <= k < |ds| && k != i ==> Upsert(ds, id, value)[k] == ds[k]
  {
  }

  /** `Upsert` on an absent id appends exactly one device at the end. */
  lemma UpsertAbsent(ds: seq<Device>, id: U32, value: I32)
    requires !HasId(ds, id)
    ensures Upsert(ds, id, value) == ds + [Device(id, value)]
  {
  }

  /** After `Upsert`, the id is present and carries the new value at its first position. */
  lemma UpsertThenFind(ds: seq<Device>, id: U32, value: I32)
    ensures var r := Upsert(ds, id, value);
      IndexOf(r, id).Some? && r[IndexOf(r, id).value] == Device(id, value)
  {
    var r := Upsert(ds, id, value);
    match IndexOf(ds, id)
    case Some(i) =>
      IndexOfFirst(r, id, i);
    case None =>
      IndexOfFirst(r, id, |ds|);
  }

  /** Applying the same update twice is the same as applying it once. */
  lemma UpsertIdempotent(ds: seq<Device>, id: U32, value: I32)
    ensures Upsert(Upsert(ds, id, value), id, value) == Upsert(ds, id, value)
  {
    var r := Upsert(ds, id, value);
    UpsertThenFind(ds, id, value);
    var i := IndexOf(r, id).value;
    assert r[i := r[i].(value := value)] == r;
  }

  /** An update never introduces a duplicate id. */
  lemma UpsertKeepsUnique(ds: seq<Device>, id: U32, value: I32)
    requires UniqueIds(ds)
    ensures UniqueIds(Upsert(ds, id, value))
  {
    var r := Upsert(ds, id, value);
    if IndexOf(ds, id).None? {
      forall i, j | 0 <= i < j < |r| ensures r[i].id != r[j].id {
        if j == |ds| {
          assert ds[i].id != id;
        }
      }
    }
  }

  /** `AddToAll` keeps every id, the length and the order, and shifts every value. */
  lemma AddToAllShape(ds: seq<Device>, delta: I32)
    requires CanAddToAll(ds, delta)
    ensures |AddToAll(ds, delta)| == |ds|
    ensures forall k :: 0 <= k < |ds| ==>
      AddToAll(ds, delta)[k].id == ds[k].id && AddToAll(ds, delta)[k].value == ds[k].value + delta
    ensures UniqueIds(ds) ==> UniqueIds(AddToAll(ds, delta))
  {
  }
}
