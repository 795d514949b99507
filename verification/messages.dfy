/** The in-process message vocabulary exchanged over the task queues:
    button events, radio commands, radio events and LED commands. */
module Messages {
  import Common

  /** Events a button monitor reports. Only `LongPress` has a consumer. */
  datatype ButtonEvent = ShortPress | LongPress

  /** Commands sent to the radio command task. */
  datatype BleCommand =
    | StartAdvertise(timeoutMs: Common.U32)
    | StopAdvertise
    | DisconnectAll
    | GetStatus
    | Shutdown

  /** The commands the radio command task's loop matches on. `DisconnectAll`
      and `GetStatus` are declared but no loop handles them, so the task's
      queue is typed with this subset. */
  type HandledCommand = c: BleCommand | !c.DisconnectAll? && !c.GetStatus?
    witness StopAdvertise

  /** Events the radio command task emits and the event coordinator matches. */
  datatype BleEvent =
    | AdvertisingStarted
    | AdvertisingStopped
    | Connected
    | Disconnected
    | Error

  /** Commands for the LED task. */
  datatype LedCommand =
    | Blink(intervalMs: Common.U32)
    | On
    | Off
    | GetStatus
    | Shutdown
}
