/** Scenarios that run through several components: the two paths from a
    long press to a blinking LED that the firmware wires up. */
module System {
  import opened Common
  import opened Messages
  import ConnStates
  import LedStates
  import Hub
  import LongPress
  import ConnReactionTask
  import BleCommandTask
  import BleDriver
  import EventCoordinator

  /** Hub path: the button-task poll that completes a long press writes
      `Pairing` into the hub; the next step of the reaction task (which
      had acted on the previous state) starts pairing, opens the pairing
      window and sets the LED state to `BlinkingFast`. */
  lemma LongPressBlinksViaHub(
    hub: Hub.Hub, press: LongPress.PressState, t: ConnReactionTask.Reaction,
    now: nat, setDataOk: bool, startOk: bool)
    requires ConnReactionTask.Valid(t)
    requires t.prev == Hub.GetConnState(hub) && t.prev != ConnStates.Pairing
    requires LongPress.Step(press, true).requestPairing
    ensures var polled := LongPress.Tick(hub, press, Low);
            var r := ConnReactionTask.Step(t, polled.hub, now, setDataOk, startOk);
            && Hub.GetConnState(r.hub) == ConnStates.Pairing
            && Hub.GetLedState(r.hub) == LedStates.BlinkingFast
            && r.task.pairingStartedAt == Some(now)
            && r.task.ble == BleDriver.StartPairing(t.ble, setDataOk, startOk).ble
  {
  }

  /** Queue path: a long press reaches the coordinator, which sends
      `StartAdvertise{60000}`; the radio command task, starting idle and
      with a radio stack that accepts, reports `AdvertisingStarted` and
      arms the deadline; the coordinator turns that report into a 500 ms
      blink. */
  lemma LongPressBlinksViaQueues(now: nat)
    ensures var sends := EventCoordinator.Tick([LongPress], []);
            && sends == [EventCoordinator.ToBle(StartAdvertise(60000))]
            && var q := BleCommandTask.Queued(StartAdvertise(60000), BleCommandTask.AdapterReply(true, true));
               var ticked := BleCommandTask.Tick(BleCommandTask.Initial, [q], now);
               && ticked.events == [AdvertisingStarted]
               && ticked.state.ble.advertising
               && ticked.state.deadline == Some(now + 60000)
               && EventCoordinator.Tick([], ticked.events) == [EventCoordinator.ToLed(Blink(500))]
  {
    var q := BleCommandTask.Queued(StartAdvertise(60000), BleCommandTask.AdapterReply(true, true));
    var h := BleCommandTask.Handle(BleCommandTask.Initial, q, now);
    assert [q][0] == q;
    assert [q][1..] == [];
    assert BleCommandTask.Drain(h.state, [], now) == BleCommandTask.TickResult(h.state, [], false);
    assert h.events + [] == h.events;
    assert [LongPress][..0] == [];
    assert [AdvertisingStarted][..0] == [];
  }
}
