/** The event coordinator of `app/tasks/event_coordinator.rs`: a router
    without state. Each 20 ms iteration first drains the button events,
    turning every long press into a radio command, then drains the radio
    events, turning each into one LED command. Its output is the ordered
    list of sends it makes to the two task queues. */
module EventCoordinator {
  import Common
  import opened Messages

  /** The advertising window a long press asks for. */
  const PAIRING_WINDOW_MS: Common.U32 := 60000

  /** A send to one of the two queues the coordinator feeds. */
  datatype Send = ToBle(bleCmd: BleCommand) | ToLed(ledCmd: LedCommand)

  /** The LED command for a radio event. The coordinator only ever asks
      for a blink at one of three intervals, on, or off. */
  function LedCommandFor(e: BleEvent): (c: LedCommand)
    ensures c.Blink? || c == LedCommand.On || c == LedCommand.Off
    ensures c.Blink? ==> c.intervalMs in {100, 500, 1000}
  {
    match e
    case AdvertisingStarted => Blink(500)
    case AdvertisingStopped => LedCommand.Off
    case Connected => LedCommand.On
    case Disconnected => Blink(1000)
    case Error => Blink(100)
  }

  /** The number of long presses among `es`. */
  function CountLongPress(es: seq<ButtonEvent>): nat
  {
    if |es| == 0 then 0
    else CountLongPress(es[..|es| - 1]) + (if es[|es| - 1] == LongPress then 1 else 0)
  }

  /** The button-event loop: one `StartAdvertise` per long press, nothing
      for a short press. */
  function RouteButtons(es: seq<ButtonEvent>): (r: seq<Send>)
    ensures |r| == CountLongPress(es)
    ensures forall i :: 0 <= i < |r| ==> r[i] == ToBle(StartAdvertise(PAIRING_WINDOW_MS))
  {
    if |es| == 0 then []
    else
      RouteButtons(es[..|es| - 1])
      + (if es[|es| - 1] == LongPress then [ToBle(StartAdvertise(PAIRING_WINDOW_MS))] else [])
  }

  /** The radio-event loop: exactly one LED command per event, in arrival
      order. */
  function RouteBleEvents(es: seq<BleEvent>): (r: seq<Send>)
    ensures |r| == |es|
    ensures forall i :: 0 <= i < |es| ==> r[i] == ToLed(LedCommandFor(es[i]))
  {
    if |es| == 0 then []
    else RouteBleEvents(es[..|es| - 1]) + [ToLed(LedCommandFor(es[|es| - 1]))]
  }

  /** One iteration of the coordinator. All the button events' sends come
      first, then one LED command per radio event in arrival order; button
      events never produce LED commands and radio events never produce
      radio commands. */
  function Tick(buttons: seq<ButtonEvent>, bles: seq<BleEvent>): (r: seq<Send>)
    ensures |r| == CountLongPress(buttons) + |bles|
    ensures forall i :: 0 <= i < CountLongPress(buttons) ==> r[i] == ToBle(StartAdvertise(PAIRING_WINDOW_MS))
    ensures forall i :: 0 <= i < |bles| ==> r[CountLongPress(buttons) + i] == ToLed(LedCommandFor(bles[i]))
  {
    RouteButtons(buttons) + RouteBleEvents(bles)
  }

  /** The mapping from radio events to LED commands. */
  lemma LedMapping()
    ensures LedCommandFor(AdvertisingStarted) == Blink(500)
    ensures LedCommandFor(AdvertisingStopped) == LedCommand.Off
    ensures LedCommandFor(Connected) == LedCommand.On
    ensures LedCommandFor(Disconnected) == Blink(1000)
    ensures LedCommandFor(BleEvent.Error) == Blink(100)
  {
  }

  /** Distinct radio events show as distinct LED commands. */
  lemma LedMappingInjective(a: BleEvent, b: BleEvent)
    ensures LedCommandFor(a) == LedCommandFor(b) ==> a == b
  {
  }

  /** Short presses are dropped: a tick with only short presses sends no
      radio command, and appending short presses changes nothing. */
  lemma {:induction false} ShortPressIgnored(es: seq<ButtonEvent>, n: nat)
    ensures RouteButtons(es + seq(n, _ => ShortPress)) == RouteButtons(es)
  {
    if n > 0 {
      var longer := es + seq(n, _ => ShortPress);
      assert longer[..|longer| - 1] == es + seq(n - 1, _ => ShortPress);
      assert longer[|longer| - 1] == ShortPress;
      ShortPressIgnored(es, n - 1);
    } else {
      assert es + seq(0, _ => ShortPress) == es;
    }
  }
}
