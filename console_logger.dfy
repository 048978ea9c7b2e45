/** `ConsoleLogger`, the listener of gateway/src/logging/mod.rs: it logs every change and
    refuses the creation of device 0. */
module ConsoleLogging {
  import opened Wrappers
  import opened StateChanges

  const ReservedIdMessage: string := "Device ID 0 is reserved/invalid"

  /** `ConsoleLogger::on_event` (its log lines are left out). */
  function OnEvent(change: StateChange): (r: Result<Unit, ListenerError>)
    ensures r.Err? <==> change == DeviceCreated(0)
    ensures r.Err? ==> r.error == General(ReservedIdMessage)
  {
    match change
    case DeviceCreated(id) =>
      if id == 0 then Err(General(ReservedIdMessage)) else Ok(Unit)
    case DeviceUpdated(_, _) => Ok(Unit)
    case DeviceRemoved(_) => Ok(Unit)
  }
}
