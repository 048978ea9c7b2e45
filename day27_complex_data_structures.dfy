/** `classify`, `describe` and `handle` of
    days/day27/pattern_matching_complex_data_structures/src/main.rs. */
module ComplexDataStructures {
  import opened Wrappers
  import opened RustInt
  import opened RustText

  datatype Metrics = Metrics(temp: Option<I32>, humidity: Option<U8>)

  /** A humidity above 80 is humid; an unknown one is not. */
  predicate Humid(h: Option<U8>) { h.Some? && h.value > 80 }

  /** `classify`: the temperature is judged first, the humidity only when the temperature
      is known and in range. */
  function Classify(m: Metrics): (r: string)
    ensures r == "no temp data" <==> m.temp.None?
    ensures r == "freezing" <==> m.temp.Some? && m.temp.value < 0
    ensures r == "overheat" <==> m.temp.Some? && m.temp.value > 60
    ensures r == "humid" <==> m.temp.Some? && 0 <= m.temp.value <= 60 && Humid(m.humidity)
    ensures r == "ok" <==> m.temp.Some? && 0 <= m.temp.value <= 60 && !Humid(m.humidity)
  {
    match m
    case Metrics(None, _) => "no temp data"
    case Metrics(Some(t), h) =>
      if t < 0 then "freezing"
      else if t > 60 then "overheat"
      else if Humid(h) then "humid"
      else "ok"
  }

  datatype Connection =
    | Wifi(ssid: string, strength: I32)
    | Ethernet(speed: U32)
    | Bluetooth(device: Option<string>)

  /** `describe`. */
  function Describe(c: Connection): (r: string)
    ensures c.Wifi? ==> r == if c.strength < -80 then "wifi weak (" + c.ssid + ")" else "wifi ok"
    ensures c.Ethernet? ==> (r == "gb ethernet" <==> c.speed >= 1000)
    ensures c.Ethernet? ==> (r == "ethernet" <==> c.speed < 1000)
    ensures c.Bluetooth? ==> r == if c.device.Some? then "bt: " + c.device.value else "bt: unknown"
  {
    match c
    case Wifi(ssid, strength) => if strength < -80 then "wifi weak (" + ssid + ")" else "wifi ok"
    case Ethernet(speed) => if speed >= 1000 then "gb ethernet" else "ethernet"
    case Bluetooth(Some(name)) => "bt: " + name
    case Bluetooth(None) => "bt: unknown"
  }

  /** A weak Wifi connection is never described as a good one, whatever its name. */
  lemma WeakWifiDistinct(ssid: string, strength: I32)
    requires strength < -80
    ensures Describe(Wifi(ssid, strength)) != "wifi ok"
  {
    assert Describe(Wifi(ssid, strength))[5] == 'w';
  }

  /** A Bluetooth device named "unknown" reads the same as one with no name. */
  lemma BluetoothUnknownAmbiguous()
    ensures Describe(Bluetooth(Some("unknown"))) == Describe(Bluetooth(None))
  {
  }

  datatype Packet = Packet(id: U32, data: Option<seq<U8>>)

  datatype GatewayMsg = Data(packet: Packet) | Heartbeat(ts: U64) | Error(message: string)

  /** `handle`: a missing payload is reported before the id is checked, and the id before
      the length. */
  function Handle(msg: GatewayMsg): (r: string)
    ensures r == "empty packet" <==> msg.Data? && msg.packet.data.None?
    ensures r == "invalid id" <==> msg.Data? && msg.packet.data.Some? && msg.packet.id == 0
    ensures r == "no bytes" <==>
      msg.Data? && msg.packet.data == Some([]) && msg.packet.id != 0
    ensures msg.Data? && msg.packet.data.Some? && msg.packet.data.value != [] && msg.packet.id != 0 ==>
      r == "packet " + NatToString(msg.packet.id) + ": " + NatToString(|msg.packet.data.value|) + " bytes"
    ensures msg.Heartbeat? ==> r == "hb " + NatToString(msg.ts)
    ensures msg.Error? ==> r == "err: " + msg.message
  {
    match msg
    case Data(Packet(_, None)) => "empty packet"
    case Data(Packet(id, Some(bytes))) =>
      if id == 0 then "invalid id"
      else if bytes == [] then "no bytes"
      else
        var s := "packet " + NatToString(id) + ": " + NatToString(|bytes|) + " bytes";
        assert s[0] == 'p';
        s
    case Heartbeat(ts) =>
      assert ("hb " + NatToString(ts))[0] == 'h';
      "hb " + NatToString(ts)
    case Error(s) =>
      assert ("err: " + s)[1] == 'r';
      "err: " + s
  }
}
