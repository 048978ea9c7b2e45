/** The accepted-mutation notifications and the listener error of the gateway's `core::state`
    module, declared only as far as the listeners and the dispatcher match on them. */
module StateChanges {
  import opened Wrappers
  import opened RustInt

  /** The `value` payload is a floating-point reading in the gateway; no modelled code
      inspects it, so an integer stands in for it. */
  datatype StateChange =
    | DeviceCreated(id: U32)
    | DeviceUpdated(id: U32, value: Option<int>)
    | DeviceRemoved(id: U32)

  datatype ListenerError = General(message: string)
}
