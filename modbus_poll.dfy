/** One Modbus poll cycle (`poll_once`), which gateway/src/modbus/mod.rs and
    gateway/src/adapters/modbus/mod.rs implement identically: for each configured register
    mapping, in order, read `count` holding registers (function code 0x03, Read Holding
    Registers, section 6.3 of the Modbus Application Protocol Specification V1.1b3), decode
    them into a signed 32-bit raw value and send one observation for the mapped device. */
module ModbusPoll {
  import opened Wrappers
  import opened RustInt

  /** A configured register block. The `scale` factor of the configuration is a float and is
      not modelled; an observation carries the integer raw value. */
  datatype RegisterMapping = RegisterMapping(address: U16, count: U16, deviceId: U32)

  /** What the device answered to one read: the registers (exactly `count` of them, as
      section 6.3 of the Modbus specification requires of a normal response) or an error
      (transport failure or a Modbus exception response). */
  datatype Reading = Registers(words: seq<U16>) | ReadFailed

  /** `GatewayEvent::DeviceValueObserved { id, value }`, with the raw value before scaling. */
  datatype Observation = ValueObserved(id: U32, raw: I32)

  /** The events a cycle sent, and whether `poll_once` returned `Ok`. */
  datatype PollResult = PollResult(events: seq<Observation>, ok: bool)

  const TWO_16: int := 0x1_0000
  const TWO_31: int := 0x8000_0000
  const TWO_32: int := 0x1_0000_0000

  /** `(high as u32) << 16 | (low as u32)`, high word first. The shift puts `high` in bits
      16..31 and `low` occupies only bits 0..15, so the `|` adds the two. */
  function CombineWords(high: U16, low: U16): (r: U32)
    ensures r / TWO_16 == high && r % TWO_16 == low
  {
    high * TWO_16 + low
  }

  /** `as i32` on a `u32`: the two's-complement reinterpretation of the same 32 bits. */
  function AsI32(x: U32): (r: I32)
    ensures x < TWO_31 ==> r == x
    ensures x >= TWO_31 ==> r == x - TWO_32
    ensures r < 0 <==> x >= TWO_31
  {
    if x < TWO_31 then x else x - TWO_32
  }

  /** The `match mapping.count` of `poll_once`: one register is zero-extended, two registers
      are combined high word first and reinterpreted as `i32`, any other count is skipped. */
  function Decode(count: U16, words: seq<U16>): (r: Option<I32>)
    requires |words| == count
    ensures r.Some? <==> count == 1 || count == 2
  {
    if count == 1 then Some(words[0])
    else if count == 2 then Some(AsI32(CombineWords(words[0], words[1])))
    else None
  }

  /** A single register always gives a raw value in `0..=65535`. */
  lemma DecodeOneRegister(w: U16)
    ensures Decode(1, [w]) == Some(w) && 0 <= Decode(1, [w]).value <= U16_MAX
  {
  }

  /** Two registers give `high * 65536 + low`, less 2^32 exactly when the high word has its top
      bit set; so the value is negative exactly when `high >= 0x8000`. */
  lemma DecodeTwoRegisters(high: U16, low: U16)
    ensures Decode(2, [high, low]).Some?
    ensures high < 0x8000 ==> Decode(2, [high, low]).value == high * TWO_16 + low
    ensures high >= 0x8000 ==> Decode(2, [high, low]).value == high * TWO_16 + low - TWO_32
    ensures Decode(2, [high, low]).value < 0 <==> high >= 0x8000
  {
  }

  /** Two worked cases: `0x0001, 0x0002` decode to `0x0001_0002`, and `0xFFFF, 0xFFFF` to -1. */
  lemma DecodeExample()
    ensures Decode(2, [0x0001, 0x0002]) == Some(0x0001_0002)
    ensures Decode(2, [0xFFFF, 0xFFFF]) == Some(-1)
  {
    DecodeTwoRegisters(0x0001, 0x0002);
    DecodeTwoRegisters(0xFFFF, 0xFFFF);
  }

  /** The register pair a device would have to hold for a two-register mapping to read `v`. */
  function SplitWords(v: I32): (r: (U16, U16)) {
    var u := if v < 0 then v + TWO_32 else v;
    (u / TWO_16, u % TWO_16)
  }

  /** Every `i32` is read back from its register pair. */
  lemma DecodeSplit(v: I32)
    ensures Decode(2, [SplitWords(v).0, SplitWords(v).1]) == Some(v)
  {
    var (high, low) := SplitWords(v);
    DecodeTwoRegisters(high, low);
  }

  /** Every register pair is the split of the value it decodes to, so two-register decoding
      loses nothing. */
  lemma SplitDecode(high: U16, low: U16)
    ensures SplitWords(Decode(2, [high, low]).value) == (high, low)
  {
    DecodeTwoRegisters(high, low);
  }

  // ---------------------------------------------------------------------------------------
  // The cycle

  /** Each reading answers the mapping at the same position. */
  predicate WellFormed(mappings: seq<RegisterMapping>, readings: seq<Reading>) {
    |readings| == |mappings| &&
    forall k :: 0 <= k < |mappings| && readings[k].Registers? ==>
      |readings[k].words| == mappings[k].count
  }

  /** Put events sent earlier in the cycle in front of what the rest of it does. */
  function After(events: seq<Observation>, rest: PollResult): PollResult {
    PollResult(events + rest.events, rest.ok)
  }

  /** The number of mappings whose count the cycle decodes (1 or 2), so the number of sends
      it attempts when every read succeeds. */
  function Supported(mappings: seq<RegisterMapping>): (r: nat)
    ensures r <= |mappings|
  {
    if mappings == [] then 0
    else (if mappings[0].count == 1 || mappings[0].count == 2 then 1 else 0) + Supported(mappings[1..])
  }

  function Min(a: nat, b: nat): nat { if a <= b then a else b }

  /** What a cycle does. `accepts` is how many more sends the event channel takes before its
      receiver is gone, so the receiver may be dropped part-way through a cycle. A failed read
      ends the cycle with `Err` (the `??`); a skipped count sends nothing; a decoded value is
      sent, and once the receiver is gone the send, and so the cycle, fails (the `?` after
      `send`), after the events already sent. */
  function Poll(mappings: seq<RegisterMapping>, readings: seq<Reading>, accepts: nat)
    : (r: PollResult)
    requires WellFormed(mappings, readings)
    ensures |r.events| <= accepts
    decreases |mappings|
  {
    if mappings == [] then PollResult([], true)
    else
      var m := mappings[0];
      assert WellFormed(mappings[1..], readings[1..]) by {
        forall k | 0 <= k < |mappings| - 1 && readings[1..][k].Registers?
          ensures |readings[1..][k].words| == mappings[1..][k].count
        {
          assert readings[1..][k] == readings[k + 1] && mappings[1..][k] == mappings[k + 1];
        }
      }
      match readings[0]
      case ReadFailed => PollResult([], false)
      case Registers(words) =>
        match Decode(m.count, words)
        case None => Poll(mappings[1..], readings[1..], accepts)
        case Some(raw) =>
          if accepts == 0 then PollResult([], false)
          else After([ValueObserved(m.deviceId, raw)], Poll(mappings[1..], readings[1..], accepts - 1))
  }

  /** `poll_once`: the `for mapping in &self.config.registers` loop. The readings stand for the
      device's answers and `accepts` for how many sends the event channel still takes; the
      events are what was sent on it. */
  method PollOnce(mappings: seq<RegisterMapping>, readings: seq<Reading>, accepts: nat)
    returns (events: seq<Observation>, ok: bool)
    requires WellFormed(mappings, readings)
    ensures PollResult(events, ok) == Poll(mappings, readings, accepts)
  {
    events := [];
    var left := accepts;
    var i := 0;
    while i < |mappings|
      invariant 0 <= i <= |mappings|
      invariant WellFormed(mappings[i..], readings[i..])
      invariant Poll(mappings, readings, accepts)
        == After(events, Poll(mappings[i..], readings[i..], left))
    {
      var m := mappings[i];
      assert mappings[i..][1..] == mappings[i + 1..] && readings[i..][1..] == readings[i + 1..];
      match readings[i] {
        case ReadFailed =>
          return events, false;
        case Registers(words) =>
          var raw := Decode(m.count, words);
          if raw.None? {
            // unsupported count: skip this mapping
            i := i + 1;
            continue;
          }
          if left == 0 {
            // the receiver is gone: the send fails
            return events, false;
          }
          events := events + [ValueObserved(m.deviceId, raw.value)];
          left := left - 1;
      }
      i := i + 1;
    }
    ok := true;
  }

  // ---------------------------------------------------------------------------------------
  // Properties of a cycle

  /** Well-formed inputs stay well-formed when concatenated. */
  lemma WellFormedAppend(a: seq<RegisterMapping>, ra: seq<Reading>,
                         b: seq<RegisterMapping>, rb: seq<Reading>)
    requires WellFormed(a, ra) && WellFormed(b, rb)
    ensures WellFormed(a + b, ra + rb)
  {
    forall k | 0 <= k < |a + b| && (ra + rb)[k].Registers?
      ensures |(ra + rb)[k].words| == (a + b)[k].count
    {
      if k >= |a| {
        assert (ra + rb)[k] == rb[k - |a|] && (a + b)[k] == b[k - |a|];
      }
    }
  }

  /** Dropping the first mapping and its reading keeps the inputs well-formed. */
  lemma WellFormedTail(a: seq<RegisterMapping>, ra: seq<Reading>)
    requires WellFormed(a, ra) && a != []
    ensures WellFormed(a[1..], ra[1..])
  {
    forall k | 0 <= k < |a| - 1 && ra[1..][k].Registers?
      ensures |ra[1..][k].words| == a[1..][k].count
    {
      assert ra[1..][k] == ra[k + 1] && a[1..][k] == a[k + 1];
    }
  }

  /** The composition `PollAppend` states: the cycle over `a`, then, if that one succeeded,
      the cycle over `b` with the sends that are left. */
  function Then(a: seq<RegisterMapping>, ra: seq<Reading>,
                b: seq<RegisterMapping>, rb: seq<Reading>, accepts: nat): PollResult
    requires WellFormed(a, ra) && WellFormed(b, rb)
  {
    var first := Poll(a, ra, accepts);
    if first.ok then After(first.events, Poll(b, rb, accepts - |first.events|)) else first
  }

  /** One mapping in front of `a`: the composition over the longer sequence follows from the
      composition over `a` with the budget the first mapping leaves. */
  lemma PollAppendStep(a: seq<RegisterMapping>, ra: seq<Reading>,
                       b: seq<RegisterMapping>, rb: seq<Reading>, accepts: nat)
    requires WellFormed(a, ra) && WellFormed(b, rb) && a != []
    requires WellFormed(a[1..], ra[1..]) && WellFormed(a + b, ra + rb)
    requires WellFormed(a[1..] + b, ra[1..] + rb)
    requires Poll(a[1..] + b, ra[1..] + rb, accepts) == Then(a[1..], ra[1..], b, rb, accepts)
    requires accepts > 0 ==>
      Poll(a[1..] + b, ra[1..] + rb, accepts - 1) == Then(a[1..], ra[1..], b, rb, accepts - 1)
    ensures Poll(a + b, ra + rb, accepts) == Then(a, ra, b, rb, accepts)
  {
    assert (a + b)[1..] == a[1..] + b && (ra + rb)[1..] == ra[1..] + rb;
    assert (a + b)[0] == a[0] && (ra + rb)[0] == ra[0];
    match ra[0]
    case ReadFailed =>
    case Registers(words) =>
      match Decode(a[0].count, words)
      case None =>
      case Some(raw) =>
        if accepts > 0 {
          var sent := [ValueObserved(a[0].deviceId, raw)];
          var rest := Poll(a[1..], ra[1..], accepts - 1);
          assert Poll(a, ra, accepts) == After(sent, rest);
          if rest.ok {
            var next := Poll(b, rb, accepts - 1 - |rest.events|);
            assert sent + (rest.events + next.events) == (sent + rest.events) + next.events;
          }
        }
  }

  /** Cycles compose: a cycle over `a + b` is the cycle over `a`, followed, if that one
      succeeded, by the cycle over `b` with the sends that are left. */
  lemma {:induction false} PollAppend(a: seq<RegisterMapping>, ra: seq<Reading>,
                                      b: seq<RegisterMapping>, rb: seq<Reading>, accepts: nat)
    requires WellFormed(a, ra) && WellFormed(b, rb)
    ensures WellFormed(a + b, ra + rb)
    ensures Poll(a + b, ra + rb, accepts) ==
      if Poll(a, ra, accepts).ok then
        After(Poll(a, ra, accepts).events,
              Poll(b, rb, accepts - |Poll(a, ra, accepts).events|))
      else Poll(a, ra, accepts)
    decreases |a|
  {
    WellFormedAppend(a, ra, b, rb);
    if a == [] {
      assert a + b == b && ra + rb == rb;
      assert [] + Poll(b, rb, accepts).events == Poll(b, rb, accepts).events;
    } else {
      WellFormedTail(a, ra);
      PollAppend(a[1..], ra[1..], b, rb, accepts);
      if accepts > 0 {
        PollAppend(a[1..], ra[1..], b, rb, accepts - 1);
      }
      PollAppendStep(a, ra, b, rb, accepts);
    }
  }

  /** A read error aborts the cycle: nothing after the failed mapping is read or sent, and the
      cycle returns `Err`. */
  lemma ReadErrorAborts(a: seq<RegisterMapping>, ra: seq<Reading>, m: RegisterMapping,
                        b: seq<RegisterMapping>, rb: seq<Reading>, accepts: nat)
    requires WellFormed(a, ra) && WellFormed(b, rb)
    ensures WellFormed(a + [m] + b, ra + [ReadFailed] + rb)
    ensures Poll(a + [m] + b, ra + [ReadFailed] + rb, accepts) ==
      PollResult(Poll(a, ra, accepts).events, false)
  {
    assert a + [m] + b == a + ([m] + b) && ra + [ReadFailed] + rb == ra + ([ReadFailed] + rb);
    assert ([m] + b)[1..] == b && ([ReadFailed] + rb)[1..] == rb;
    PollAppend([m], [ReadFailed], b, rb, 0);
    PollAppend(a, ra, [m] + b, [ReadFailed] + rb, accepts);
  }

  /** A mapping with an unsupported count is skipped: the cycle is the one without it. */
  lemma UnsupportedSkipped(a: seq<RegisterMapping>, ra: seq<Reading>, m: RegisterMapping,
                           words: seq<U16>, b: seq<RegisterMapping>, rb: seq<Reading>,
                           accepts: nat)
    requires WellFormed(a, ra) && WellFormed(b, rb)
    requires m.count != 1 && m.count != 2 && |words| == m.count
    ensures WellFormed(a + [m] + b, ra + [Registers(words)] + rb)
    ensures Poll(a + [m] + b, ra + [Registers(words)] + rb, accepts) == Poll(a + b, ra + rb, accepts)
  {
    assert ([m] + b)[1..] == b && ([Registers(words)] + rb)[1..] == rb;
    assert a + [m] + b == a + ([m] + b) && ra + [Registers(words)] + rb == ra + ([Registers(words)] + rb);
    PollAppend([m], [Registers(words)], b, rb, 0);
    PollAppend(a, ra, [m] + b, [Registers(words)] + rb, accepts);
    PollAppend(a, ra, b, rb, accepts);
  }

  /** When every read succeeds, every count is supported and the receiver takes every send,
      the cycle succeeds with one observation per mapping, in configuration order, each
      carrying its mapping's device id and decoded value. */
  lemma {:induction false} AllSupported(mappings: seq<RegisterMapping>, readings: seq<Reading>,
                                        accepts: nat)
    requires WellFormed(mappings, readings)
    requires forall k :: 0 <= k < |mappings| ==>
      readings[k].Registers? && (mappings[k].count == 1 || mappings[k].count == 2)
    requires |mappings| <= accepts
    ensures Poll(mappings, readings, accepts).ok
    ensures |Poll(mappings, readings, accepts).events| == |mappings|
    ensures forall k :: 0 <= k < |mappings| ==>
      Poll(mappings, readings, accepts).events[k] ==
        ValueObserved(mappings[k].deviceId, Decode(mappings[k].count, readings[k].words).value)
    decreases |mappings|
  {
    if mappings != [] {
      var tail, rtail := mappings[1..], readings[1..];
      assert WellFormed(tail, rtail) by {
        forall k | 0 <= k < |tail| && rtail[k].Registers?
          ensures |rtail[k].words| == tail[k].count
        {
          assert rtail[k] == readings[k + 1] && tail[k] == mappings[k + 1];
        }
      }
      forall k | 0 <= k < |tail|
        ensures rtail[k].Registers? && (tail[k].count == 1 || tail[k].count == 2)
      {
        assert rtail[k] == readings[k + 1] && tail[k] == mappings[k + 1];
      }
      AllSupported(tail, rtail, accepts - 1);
      forall k | 1 <= k < |mappings|
        ensures Poll(mappings, readings, accepts).events[k] ==
          ValueObserved(mappings[k].deviceId, Decode(mappings[k].count, readings[k].words).value)
      {
        assert Poll(mappings, readings, accepts).events[k] == Poll(tail, rtail, accepts - 1).events[k - 1];
        assert tail[k - 1] == mappings[k] && rtail[k - 1] == readings[k];
      }
    }
  }

  /** A cycle succeeds exactly when no read fails and the receiver takes every send the
      decoded mappings make. When every read succeeds, the cycle sends as many events as the
      receiver takes, up to one per decoded mapping: a receiver dropped part-way leaves the
      earlier events sent and the cycle failed. */
  lemma {:induction false} PollOk(mappings: seq<RegisterMapping>, readings: seq<Reading>,
                                  accepts: nat)
    requires WellFormed(mappings, readings)
    ensures Poll(mappings, readings, accepts).ok <==>
      (forall k :: 0 <= k < |mappings| ==> readings[k].Registers?) &&
      Supported(mappings) <= accepts
    ensures (forall k :: 0 <= k < |mappings| ==> readings[k].Registers?) ==>
      |Poll(mappings, readings, accepts).events| == Min(accepts, Supported(mappings))
    decreases |mappings|
  {
    if mappings != [] {
      var tail, rtail := mappings[1..], readings[1..];
      assert WellFormed(tail, rtail) by {
        forall k | 0 <= k < |tail| && rtail[k].Registers?
          ensures |rtail[k].words| == tail[k].count
        {
          assert rtail[k] == readings[k + 1] && tail[k] == mappings[k + 1];
        }
      }
      PollOk(tail, rtail, accepts);
      if accepts > 0 {
        PollOk(tail, rtail, accepts - 1);
      }
      assert forall k :: 0 <= k < |tail| ==> rtail[k] == readings[k + 1];
      assert (forall k :: 0 <= k < |mappings| ==> readings[k].Registers?) <==>
        readings[0].Registers? && forall k :: 0 <= k < |tail| ==> rtail[k].Registers?;
    }
  }

  /** Every event a cycle sends is for a configured device. */
  lemma {:induction false} EventsForConfiguredDevices(mappings: seq<RegisterMapping>,
                                                      readings: seq<Reading>, accepts: nat)
    requires WellFormed(mappings, readings)
    ensures |Poll(mappings, readings, accepts).events| <= |mappings|
    ensures forall e :: e in Poll(mappings, readings, accepts).events ==>
      exists k :: 0 <= k < |mappings| && mappings[k].deviceId == e.id
    decreases |mappings|
  {
    if mappings != [] {
      var tail, rtail := mappings[1..], readings[1..];
      assert WellFormed(tail, rtail) by {
        forall k | 0 <= k < |tail| && rtail[k].Registers?
          ensures |rtail[k].words| == tail[k].count
        {
          assert rtail[k] == readings[k + 1] && tail[k] == mappings[k + 1];
        }
      }
      EventsForConfiguredDevices(tail, rtail, accepts);
      if accepts > 0 {
        EventsForConfiguredDevices(tail, rtail, accepts - 1);
      }
      forall e | e in Poll(mappings, readings, accepts).events
        ensures exists k :: 0 <= k < |mappings| && mappings[k].deviceId == e.id
      {
        if e in Poll(tail, rtail, accepts).events {
          var k :| 0 <= k < |tail| && tail[k].deviceId == e.id;
          assert mappings[k + 1] == tail[k];
        } else if accepts > 0 && e in Poll(tail, rtail, accepts - 1).events {
          var k :| 0 <= k < |tail| && tail[k].deviceId == e.id;
          assert mappings[k + 1] == tail[k];
        } else {
          assert mappings[0].deviceId == e.id;
        }
      }
    }
  }
}
