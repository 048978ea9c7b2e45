/** `describe`, `is_enabled`, `take_name` and `handle` of
    days/day26/nested_borrowing_and_references_from_structs/src/main.rs. */
module NestedBorrowing {
  import opened RustInt
  import opened RustText

  datatype Sensor = Sensor(id: U32, value: I32, active: bool)

  /** "Sensor {id}", the start of every description. */
  function SensorName(id: U32): string {
    "Sensor " + NatToString(id)
  }

  /** `describe`: an inactive sensor is reported as such whatever its value; an active one
      is an error below zero and otherwise shows its value. */
  function Describe(sensor: Sensor): (r: string)
    ensures !sensor.active ==> r == SensorName(sensor.id) + " inactive"
    ensures sensor.active && sensor.value < 0 ==> r == SensorName(sensor.id) + " error"
    ensures sensor.active && sensor.value >= 0 ==>
      r == SensorName(sensor.id) + ": " + IntToString(sensor.value)
  {
    var id := SensorName(sensor.id);
    if !sensor.active then id + " inactive"
    else if sensor.value < 0 then id + " error"
    else id + ": " + IntToString(sensor.value)
  }

  /** The value of an inactive sensor is not looked at. */
  lemma InactiveIgnoresValue(id: U32, v1: I32, v2: I32)
    ensures Describe(Sensor(id, v1, false)) == Describe(Sensor(id, v2, false))
  {
  }

  /** The three descriptions of one sensor differ from each other. */
  lemma DescriptionsDiffer(id: U32, v1: I32, v2: I32)
    requires v1 < 0 <= v2
    ensures Describe(Sensor(id, v1, true)) != Describe(Sensor(id, v2, true))
    ensures Describe(Sensor(id, v2, true)) != Describe(Sensor(id, v1, false))
    ensures Describe(Sensor(id, v1, true)) != Describe(Sensor(id, v1, false))
  {
    var n := |SensorName(id)|;
    assert Describe(Sensor(id, v1, true))[n] == ' ';
    assert Describe(Sensor(id, v2, true))[n] == ':';
    assert Describe(Sensor(id, v1, true))[n + 1] == 'e';
    assert Describe(Sensor(id, v1, false))[n + 1] == 'i';
  }

  datatype Config = Config(name: string, retries: U32, enabled: bool)

  /** `is_enabled`: the `enabled` field and no other. */
  function IsEnabled(cfg: Config): (r: bool)
    ensures r == cfg.enabled
  {
    cfg.enabled
  }

  /** `take_name`: the `name` field, moved out of the configuration. */
  function TakeName(cfg: Config): (r: string)
    ensures r == cfg.name
  {
    cfg.name
  }

  datatype SensorData = SensorData(id: U32, value: I32, timestamp: U64)

  datatype GatewayEvent =
    | SensorUpdate(data: SensorData)
    | ConnectionLost(id: U32, reason: string)
    | Shutdown

  /** `handle`: a sensor update is invalid below zero, an overflow above 1000, and otherwise
      reported with its value and timestamp. */
  function Handle(ev: GatewayEvent): (r: string)
    ensures ev.SensorUpdate? ==>
      var d := ev.data;
      (r == SensorName(d.id) + " invalid" <==> d.value < 0) &&
      (r == SensorName(d.id) + " overflow" <==> d.value > 1000) &&
      (0 <= d.value <= 1000 ==>
        r == SensorName(d.id) + ": " + IntToString(d.value) + " at " + NatToString(d.timestamp))
    ensures ev.ConnectionLost? ==> r == "Lost " + NatToString(ev.id) + ": " + ev.reason
    ensures ev.Shutdown? ==> r == "Shutting down"
  {
    match ev
    case SensorUpdate(SensorData(id, value, timestamp)) =>
      var name := SensorName(id);
      var n := |name|;
      if value < 0 then
        assert (name + " invalid")[n + 1] != (name + " overflow")[n + 1];
        name + " invalid"
      else if value > 1000 then
        assert (name + " invalid")[n + 1] != (name + " overflow")[n + 1];
        name + " overflow"
      else
        var s := name + ": " + IntToString(value) + " at " + NatToString(timestamp);
        assert s[n] == ':' && (name + " invalid")[n] == ' ' && (name + " overflow")[n] == ' ';
        s
    case ConnectionLost(id, reason) => "Lost " + NatToString(id) + ": " + reason
    case Shutdown => "Shutting down"
  }
}
