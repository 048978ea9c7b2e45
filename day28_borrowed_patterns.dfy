/** `status_msg`, `reset_if_error`, `interpret` and `summarize` of
    days/day28/advanced_pattern_matching_borrowed_patterns/src/main.rs. */
module BorrowedPatterns {
  import opened Wrappers
  import opened RustInt
  import opened RustText

  datatype Status = Online(load: U32) | Offline | Error(message: string)

  /** What `reset_if_error` does to a status: an error becomes offline, nothing else
      changes. */
  function Reset(s: Status): (r: Status)
    ensures s.Error? ==> r == Offline
    ensures !s.Error? ==> r == s
  {
    if s.Error? then Offline else s
  }

  /** Resetting twice is resetting once, and a reset status is never an error. */
  lemma ResetIdempotent(s: Status)
    ensures Reset(Reset(s)) == Reset(s)
    ensures !Reset(s).Error?
  {
  }

  /** "Device {id}: ", the start of every status message. */
  function DevicePrefix(id: U32): string {
    "Device " + NatToString(id) + ": "
  }

  /** The device of `status_msg` and `reset_if_error`; `reset_if_error` changes its status
      in place. */
  class Device {
    var id: U32
    var status: Status

    constructor (id: U32, status: Status)
      ensures this.id == id && this.status == status
    {
      this.id := id;
      this.status := status;
    }

    /** `status_msg`: a load below 50 is OK and any other load is high. */
    function StatusMsg(): (r: string)
      reads this
      ensures status.Online? ==>
        r == DevicePrefix(id) + (if status.load < 50 then "OK" else "HIGH LOAD")
      ensures status.Offline? ==> r == DevicePrefix(id) + "OFFLINE"
      ensures status.Error? ==> r == DevicePrefix(id) + "ERROR " + status.message
    {
      match status
      case Online(load) => if load < 50 then DevicePrefix(id) + "OK" else DevicePrefix(id) + "HIGH LOAD"
      case Offline => DevicePrefix(id) + "OFFLINE"
      case Error(msg) => DevicePrefix(id) + "ERROR " + msg
    }

    /** `reset_if_error`. */
    method ResetIfError()
      modifies this
      ensures status == Reset(old(status)) && id == old(id)
    {
      if status.Error? {
        status := Offline;
      }
    }
  }

  /** After a reset the status message of a device that was in error reads "OFFLINE". */
  method ResetThenReport(dev: Device) returns (msg: string)
    modifies dev
    ensures old(dev.status).Error? ==> msg == DevicePrefix(dev.id) + "OFFLINE"
    ensures !old(dev.status).Error? ==> dev.status == old(dev.status)
  {
    dev.ResetIfError();
    msg := dev.StatusMsg();
  }

  datatype Response = Ok(value: Option<I32>) | Timeout | NetworkErr(message: string)

  /** `interpret`: note that 0, like any value above 100, counts as overflow. */
  function Interpret(resp: Response): (r: string)
    ensures r == "timeout" <==> resp.Timeout?
    ensures r == "network error" <==> resp.NetworkErr?
    ensures r == "no data" <==> resp == Response.Ok(None)
    ensures r == "invalid" <==> resp.Ok? && resp.value.Some? && resp.value.value < 0
    ensures r == "normal" <==> resp.Ok? && resp.value.Some? && 0 < resp.value.value <= 100
    ensures r == "overflow" <==>
      resp.Ok? && resp.value.Some? && (resp.value.value == 0 || resp.value.value > 100)
  {
    match resp
    case Timeout => "timeout"
    case NetworkErr(_) => "network error"
    case Ok(None) => "no data"
    case Ok(Some(v)) =>
      if v < 0 then "invalid"
      else if v > 0 && v <= 100 then "normal"
      else "overflow"
  }

  datatype GatewayEvent =
    | Sensor(id: U32, value: I32)
    | Command(command: string)
    | Disconnect(reason: Option<string>)

  /** "sensor {id}", the start of every sensor summary. */
  function SensorName(id: U32): string {
    "sensor " + NatToString(id)
  }

  /** `summarize`. A sensor reading is judged by its range; a command by its text, with
      "restart" and the empty command singled out; a disconnect by whether it has a reason. */
  function Summarize(ev: GatewayEvent): (r: string)
    ensures ev.Sensor? ==>
      (r == SensorName(ev.id) + " invalid" <==> ev.value < 0) &&
      (r == SensorName(ev.id) + " overflow" <==> ev.value > 1000) &&
      (0 <= ev.value <= 1000 ==> r == SensorName(ev.id) + ": " + IntToString(ev.value))
    ensures ev.Command? ==>
      r == if ev.command == "restart" then "restarting"
           else if ev.command == [] then "empty command"
           else "cmd: " + ev.command
    ensures ev.Disconnect? ==>
      r == if ev.reason.Some? then "disconnect: " + ev.reason.value else "disconnect"
  {
    match ev
    case Sensor(id, value) =>
      var name := SensorName(id);
      var n := |name|;
      if value < 0 then
        assert (name + " invalid")[n + 1] != (name + " overflow")[n + 1];
        name + " invalid"
      else if value > 1000 then
        assert (name + " invalid")[n + 1] != (name + " overflow")[n + 1];
        name + " overflow"
      else
        var s := name + ": " + IntToString(value);
        assert s[n] == ':' && (name + " invalid")[n] == ' ' && (name + " overflow")[n] == ' ';
        s
    case Command(cmd) =>
      if cmd == "restart" then "restarting"
      else if cmd == [] then "empty command"
      else "cmd: " + cmd
    case Disconnect(reason) =>
      if reason.Some? then "disconnect: " + reason.value else "disconnect"
  }

  /** A command whose text is "restarting" is not mistaken for a restart. */
  lemma RestartDistinct()
    ensures Summarize(Command("restarting")) != Summarize(Command("restart"))
  {
    assert Summarize(Command("restarting"))[0] == 'c';
  }
}
