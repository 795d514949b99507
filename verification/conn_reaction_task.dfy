/** The older radio task of `app/tasks/ble_task.rs`. Every 50 ms it reads
    the hub's connection state and reacts only when that state differs
    from the one it last acted on: it drives the radio driver, records
    when pairing started and writes the LED state into the hub. After
    60 s in `Pairing` it stops advertising and writes `Idle` back. Time
    is the step's `now` in milliseconds; the radio stack's answers are
    inputs. */
module ConnReactionTask {
  import opened Common
  import opened ConnStates
  import LedStates
  import Hub
  import BleDriver

  const PAIRING_TIMEOUT_MS: nat := 60000

  /** The task's local state: the driver, the state it last acted on and
      when the current pairing window started. */
  datatype Reaction = Reaction(ble: BleDriver.Ble, prev: ConnState, pairingStartedAt: Option<nat>)

  datatype StepResult = StepResult(task: Reaction, hub: Hub.Hub)

  /** The task's invariant: a pairing window is open only while the state
      last acted on is `Pairing`. */
  predicate Valid(t: Reaction)
  {
    BleDriver.Valid(t.ble) && (t.pairingStartedAt.Some? ==> t.prev == Pairing)
  }

  /** The set-up before the loop: a fresh driver, one `init` whose result
      is ignored, and `prev` read from the hub. */
  function Start(hub: Hub.Hub, setDataOk: bool): (t: Reaction)
    ensures Valid(t)
    ensures t.prev == Hub.GetConnState(hub) && t.pairingStartedAt.None?
    ensures !t.ble.advertising && (t.ble.hasAdvertiser <==> setDataOk)
  {
    Reaction(BleDriver.Init(BleDriver.New(), setDataOk).ble, Hub.GetConnState(hub), None)
  }

  /** The reaction to a change to `cur`: one arm of the match. */
  function React(t: Reaction, hub: Hub.Hub, cur: ConnState, now: nat, setDataOk: bool, startOk: bool): (r: StepResult)
    ensures r.task.prev == cur
    ensures r.hub.connCell == hub.connCell
    ensures cur == Pairing ==> r.task.pairingStartedAt == Some(now)
    ensures cur != Pairing ==> r.task.pairingStartedAt.None?
    ensures cur == Idle || cur == ConnState.Error ==> !r.task.ble.advertising
    ensures cur == Pairing ==> r.task.ble == BleDriver.StartPairing(t.ble, setDataOk, startOk).ble
    ensures cur == Connected || cur == Disconnected ==> r.task.ble == t.ble
    ensures cur == Idle || cur == ConnState.Error ==> r.task.ble == t.ble.(advertising := false)
    ensures Valid(t) ==> Valid(r.task)
  {
    match cur
    case Pairing =>
      var o := BleDriver.StartPairing(t.ble, setDataOk, startOk);
      StepResult(Reaction(o.ble, cur, Some(now)), Hub.SetLedState(hub, LedStates.BlinkingFast))
    case Connected =>
      var o := BleDriver.OnConnected(t.ble);
      StepResult(Reaction(o.ble, cur, None), Hub.SetLedState(hub, LedStates.On))
    case Disconnected =>
      var o := BleDriver.OnDisconnected(t.ble);
      StepResult(Reaction(o.ble, cur, None), Hub.SetLedState(hub, LedStates.Off))
    case Idle =>
      var o := BleDriver.StopPairing(t.ble);
      StepResult(Reaction(o.ble, cur, None), Hub.SetLedState(hub, LedStates.Off))
    case Error =>
      var o := BleDriver.StopPairing(t.ble);
      StepResult(Reaction(o.ble, cur, None), Hub.SetLedState(hub, LedStates.Error))
  }

  /** The hub's state differs from the one the task last acted on. */
  predicate Changed(t: Reaction, hub: Hub.Hub)
  {
    Hub.GetConnState(hub) != t.prev
  }

  /** The pairing window the task already acted on has lasted 60 s. */
  predicate TimedOut(t: Reaction, hub: Hub.Hub, now: nat)
  {
    && !Changed(t, hub)
    && Hub.GetConnState(hub) == Pairing
    && t.pairingStartedAt.Some?
    && now >= t.pairingStartedAt.value + PAIRING_TIMEOUT_MS
  }

  /** One iteration of the loop. The LED state in the hub is written only
      on a change, and then it reflects the new connection state; the
      connection state in the hub is written only on a pairing timeout,
      and then it becomes `Idle`. */
  function Step(t: Reaction, hub: Hub.Hub, now: nat, setDataOk: bool, startOk: bool): (r: StepResult)
    ensures r.task.prev == Hub.GetConnState(hub)
    ensures !Changed(t, hub) && !TimedOut(t, hub, now) ==> r == StepResult(t, hub)
    ensures !Changed(t, hub) ==> r.hub.ledCell == hub.ledCell
    ensures Changed(t, hub) ==> r.hub.connCell == hub.connCell
    ensures Changed(t, hub) ==> match Hub.GetConnState(hub)
              case Pairing =>
                && Hub.GetLedState(r.hub) == LedStates.BlinkingFast && r.task.pairingStartedAt == Some(now)
                && r.task.ble == BleDriver.StartPairing(t.ble, setDataOk, startOk).ble
              case Connected =>
                Hub.GetLedState(r.hub) == LedStates.On && r.task.pairingStartedAt.None? && r.task.ble == t.ble
              case Disconnected =>
                Hub.GetLedState(r.hub) == LedStates.Off && r.task.pairingStartedAt.None? && r.task.ble == t.ble
              case Idle =>
                && Hub.GetLedState(r.hub) == LedStates.Off && r.task.pairingStartedAt.None?
                && r.task.ble == t.ble.(advertising := false)
              case Error =>
                && Hub.GetLedState(r.hub) == LedStates.Error && r.task.pairingStartedAt.None?
                && r.task.ble == t.ble.(advertising := false)
    ensures TimedOut(t, hub, now) ==>
              && Hub.GetConnState(r.hub) == Idle
              && !r.task.ble.advertising
              && r.task.pairingStartedAt.None?
              && r.task == t.(ble := BleDriver.StopPairing(t.ble).ble, pairingStartedAt := None)
    ensures Valid(t) ==> Valid(r.task)
  {
    var cur := Hub.GetConnState(hub);
    var reacted := if cur != t.prev then React(t, hub, cur, now, setDataOk, startOk) else StepResult(t, hub);
    var t1 := reacted.task;
    if cur == Pairing && t1.pairingStartedAt.Some? && now >= t1.pairingStartedAt.value + PAIRING_TIMEOUT_MS then
      var stopped := BleDriver.StopPairing(t1.ble);
      StepResult(t1.(ble := stopped.ble, pairingStartedAt := None), Hub.SetConnState(reacted.hub, Idle))
    else
      reacted
  }

  /** Because `prev` is read from the hub at start-up, the state found at
      start-up triggers nothing: while the hub is unchanged, the first
      step writes nothing and leaves the task as it started. */
  lemma InitialStateTriggersNothing(hub: Hub.Hub, setDataOk: bool, now: nat, d: bool, s: bool)
    ensures var t := Start(hub, setDataOk);
            Step(t, hub, now, d, s) == StepResult(t, hub)
  {
  }

  /** A pairing timeout is followed, on the next step, by the reaction to
      the `Idle` it wrote: the LED state becomes `Off` and the radio stays
      stopped. */
  lemma TimeoutThenIdle(t: Reaction, hub: Hub.Hub, now: nat, later: nat, d1: bool, s1: bool, d2: bool, s2: bool)
    requires Valid(t)
    requires TimedOut(t, hub, now)
    ensures var r1 := Step(t, hub, now, d1, s1);
            var r2 := Step(r1.task, r1.hub, later, d2, s2);
            && Changed(r1.task, r1.hub)
            && Hub.GetLedState(r2.hub) == LedStates.Off
            && Hub.GetConnState(r2.hub) == Idle
            && !r2.task.ble.advertising
  {
  }
}
