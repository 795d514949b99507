/** The radio command task of `app/ble/ble_task.rs`. Each 20 ms tick
    drains the command queue in FIFO order, reporting one event per
    command except `Shutdown`, then checks the pairing deadline. Time is the tick's `now` in
    milliseconds; every queued command carries the radio stack's answers
    for the calls that command may make. */
module BleCommandTask {
  import opened Common
  import opened Messages
  import BleDriver

  /** What the radio stack answers to one `StartAdvertise`. */
  datatype AdapterReply = AdapterReply(setDataOk: bool, startOk: bool)

  /** A queued command together with the radio stack's answers to it. */
  datatype Queued = Queued(cmd: HandledCommand, reply: AdapterReply)

  /** The task's local state: the driver and the optional pairing deadline. */
  datatype TaskState = TaskState(ble: BleDriver.Ble, deadline: Option<nat>)

  datatype TickResult = TickResult(state: TaskState, events: seq<BleEvent>, terminated: bool)

  /** The state the task starts its loop in. */
  const Initial: TaskState := TaskState(BleDriver.New(), None)

  /** The task's invariant: a deadline is armed exactly while advertising. */
  predicate Valid(st: TaskState)
  {
    BleDriver.Valid(st.ble) && (st.deadline.Some? <==> st.ble.advertising)
  }

  /** `e` is a possible report of command `c`. */
  predicate Answers(c: HandledCommand, e: BleEvent)
  {
    || (c.StartAdvertise? && (e == AdvertisingStarted || e == BleEvent.Error))
    || (c.StopAdvertise? && e == AdvertisingStopped)
  }

  /** One arm of the command match. */
  function Handle(st: TaskState, q: Queued, now: nat): (r: TickResult)
    ensures r.terminated <==> q.cmd.Shutdown?
    ensures r.terminated ==> r.events == [] && !r.state.ble.advertising
    ensures !r.terminated ==> |r.events| == 1 && Answers(q.cmd, r.events[0])
    ensures q.cmd.StopAdvertise? ==>
              r == TickResult(TaskState(BleDriver.StopPairing(st.ble).ble, None), [AdvertisingStopped], false)
    ensures q.cmd.StartAdvertise? && r.events == [AdvertisingStarted] ==>
              r.state.ble.advertising && r.state.deadline == Some(now + q.cmd.timeoutMs)
    ensures q.cmd.StartAdvertise? && r.events == [BleEvent.Error] ==> r.state.deadline == st.deadline
    ensures q.cmd.StartAdvertise? ==>
              var o := BleDriver.StartPairing(st.ble, q.reply.setDataOk, q.reply.startOk);
              r.state.ble == o.ble && (r.events == [AdvertisingStarted] <==> o.result.Ok?)
    ensures q.cmd.StartAdvertise? && BleDriver.Valid(st.ble) && !st.ble.advertising ==>
              (r.events == [AdvertisingStarted] <==> (st.ble.hasAdvertiser || q.reply.setDataOk) && q.reply.startOk)
    ensures q.cmd.StartAdvertise? && st.ble.advertising && st.ble.hasAdvertiser ==>
              r == TickResult(TaskState(st.ble, Some(now + q.cmd.timeoutMs)), [AdvertisingStarted], false)
    ensures Valid(st) && !r.terminated ==> Valid(r.state)
  {
    if q.cmd.StartAdvertise? then
      var o := BleDriver.StartPairing(st.ble, q.reply.setDataOk, q.reply.startOk);
      if o.result.Ok? then
        TickResult(TaskState(o.ble, Some(now + q.cmd.timeoutMs)), [AdvertisingStarted], false)
      else
        TickResult(TaskState(o.ble, st.deadline), [BleEvent.Error], false)
    else if q.cmd.StopAdvertise? then
      TickResult(TaskState(BleDriver.StopPairing(st.ble).ble, None), [AdvertisingStopped], false)
    else
      var stopped := BleDriver.StopPairing(st.ble);
      var cleaned := BleDriver.OnDisconnected(stopped.ble);
      TickResult(TaskState(cleaned.ble, st.deadline), [], true)
  }

  /** The inner non-blocking receive loop: handles the
      queued commands in order and stops at the first `Shutdown`. The
      i-th event reports the i-th command; the events end exactly at the
      first `Shutdown`, if there is one. */
  function Drain(st: TaskState, queue: seq<Queued>, now: nat): (r: TickResult)
    ensures |r.events| <= |queue|
    ensures forall i :: 0 <= i < |r.events| ==> Answers(queue[i].cmd, r.events[i])
    ensures !r.terminated ==> |r.events| == |queue|
    ensures r.terminated ==> |r.events| < |queue| && queue[|r.events|].cmd.Shutdown?
    ensures r.terminated ==> !r.state.ble.advertising
    ensures Valid(st) && !r.terminated ==> Valid(r.state)
    ensures |queue| == 1 ==> r == Handle(st, queue[0], now)
    decreases |queue|
  {
    if |queue| == 0 then TickResult(st, [], false)
    else
      var h := Handle(st, queue[0], now);
      if h.terminated then h
      else
        var rest := Drain(h.state, queue[1..], now);
        TickResult(rest.state, h.events + rest.events, rest.terminated)
  }

  /** The deadline check after the drain. */
  function CheckTimeout(st: TaskState, now: nat): (r: TickResult)
    ensures !r.terminated
    ensures r.state.deadline.Some? ==> now < r.state.deadline.value
    ensures st.deadline.Some? && now >= st.deadline.value ==>
              r.events == [AdvertisingStopped] && r.state == TaskState(BleDriver.StopPairing(st.ble).ble, None)
    ensures !(st.deadline.Some? && now >= st.deadline.value) ==> r == TickResult(st, [], false)
    ensures Valid(st) ==> Valid(r.state)
  {
    match st.deadline
    case Some(d) =>
      if now >= d then TickResult(TaskState(BleDriver.StopPairing(st.ble).ble, None), [AdvertisingStopped], false)
      else TickResult(st, [], false)
    case None => TickResult(st, [], false)
  }

  /** One iteration of the task's loop: drain, then (unless the drain met a
      `Shutdown`) check the deadline. The events of the drain come first;
      a deadline expiry adds one `AdvertisingStopped` after them. */
  function Tick(st: TaskState, queue: seq<Queued>, now: nat): (r: TickResult)
    ensures r.terminated ==> r == Drain(st, queue, now)
    ensures !r.terminated ==>
              && !Drain(st, queue, now).terminated
              && |queue| <= |r.events| <= |queue| + 1
              && r.events[..|queue|] == Drain(st, queue, now).events
              && (forall i :: |queue| <= i < |r.events| ==> r.events[i] == AdvertisingStopped)
              && (r.state.deadline.Some? ==> now < r.state.deadline.value)
    ensures !r.terminated ==>
              (|r.events| == |queue| + 1 <==>
                 var d := Drain(st, queue, now).state.deadline; d.Some? && now >= d.value)
    ensures !r.terminated && |r.events| == |queue| + 1 ==>
              r.state == TaskState(BleDriver.StopPairing(Drain(st, queue, now).state.ble).ble, None)
    ensures !r.terminated && |r.events| == |queue| ==> r.state == Drain(st, queue, now).state
    ensures Valid(st) && !r.terminated ==> Valid(r.state)
  {
    var d := Drain(st, queue, now);
    if d.terminated then d
    else
      var t := CheckTimeout(d.state, now);
      TickResult(t.state, d.events + t.events, false)
  }

  /** Draining a queue in one go is draining its front part and then, from
      where that left off, its back part: commands are handled in FIFO
      order and their events are concatenated in the same order. */
  lemma {:induction false} DrainAppend(st: TaskState, q1: seq<Queued>, q2: seq<Queued>, now: nat)
    requires !Drain(st, q1, now).terminated
    ensures var a := Drain(st, q1, now);
            var b := Drain(a.state, q2, now);
            Drain(st, q1 + q2, now) == TickResult(b.state, a.events + b.events, b.terminated)
    decreases |q1|
  {
    if |q1| == 0 {
      assert q1 + q2 == q2;
    } else {
      var q := q1 + q2;
      assert q[0] == q1[0];
      assert q[1..] == q1[1..] + q2;
      var h := Handle(st, q1[0], now);
      var a1 := Drain(h.state, q1[1..], now);
      assert Drain(st, q1, now) == TickResult(a1.state, h.events + a1.events, a1.terminated);
      DrainAppend(h.state, q1[1..], q2, now);
      var b := Drain(a1.state, q2, now);
      assert Drain(st, q, now) == TickResult(b.state, h.events + (a1.events + b.events), b.terminated);
      ConcatAssoc(h.events, a1.events, b.events);
    }
  }

  /** Associativity of concatenation, kept out of `DrainAppend`'s context
      where it makes the proof too costly. */
  lemma ConcatAssoc<T>(a: seq<T>, b: seq<T>, c: seq<T>)
    ensures a + (b + c) == (a + b) + c
  {
  }

  /** Nothing queued behind a `Shutdown` is handled. */
  lemma {:induction false} DrainStopsAtShutdown(st: TaskState, q1: seq<Queued>, s: Queued, q2: seq<Queued>, now: nat)
    requires s.cmd.Shutdown?
    requires forall i :: 0 <= i < |q1| ==> !q1[i].cmd.Shutdown?
    ensures Drain(st, q1 + [s] + q2, now) == Drain(st, q1 + [s], now)
    decreases |q1|
  {
    if |q1| == 0 {
      assert (q1 + [s] + q2)[0] == s;
      assert (q1 + [s])[0] == s;
    } else {
      assert (q1 + [s] + q2)[0] == q1[0];
      assert (q1 + [s])[0] == q1[0];
      assert (q1 + [s] + q2)[1..] == q1[1..] + [s] + q2;
      assert (q1 + [s])[1..] == q1[1..] + [s];
      DrainStopsAtShutdown(Handle(st, q1[0], now).state, q1[1..], s, q2, now);
    }
  }

  /** A `Shutdown` ends the task in that tick: the radio is no longer
      advertising, the commands behind it are dropped and no deadline
      check follows. */
  lemma ShutdownTerminates(st: TaskState, q1: seq<Queued>, s: Queued, q2: seq<Queued>, now: nat)
    requires s.cmd.Shutdown?
    requires forall i :: 0 <= i < |q1| ==> !q1[i].cmd.Shutdown?
    ensures var r := Tick(st, q1 + [s] + q2, now);
            r.terminated && !r.state.ble.advertising && |r.events| == |q1|
            && r == Drain(st, q1 + [s], now)
  {
    DrainStopsAtShutdown(st, q1, s, q2, now);
    assert (q1 + [s])[|q1|] == s;
    assert forall i :: 0 <= i < |q1| ==> (q1 + [s])[i] == q1[i];
  }

  /** `StartAdvertise` while already advertising leaves the driver as it
      is but re-arms the deadline and reports `AdvertisingStarted` again:
      two successful starts in a row report two `AdvertisingStarted`. */
  lemma RepeatedStartReannounces(st: TaskState, a: Queued, b: Queued, now: nat)
    requires Valid(st)
    requires a.cmd.StartAdvertise? && b.cmd.StartAdvertise?
    requires Drain(st, [a], now).events == [AdvertisingStarted]
    ensures var r := Drain(st, [a, b], now);
            && r.events == [AdvertisingStarted, AdvertisingStarted]
            && r.state.ble == Drain(st, [a], now).state.ble
            && r.state.deadline == Some(now + b.cmd.timeoutMs)
  {
    assert [a, b] == [a] + [b];
    DrainAppend(st, [a], [b], now);
    var s1 := Drain(st, [a], now).state;
    assert s1 == Handle(st, a, now).state;
    assert Drain(s1, [b], now) == Handle(s1, b, now);
  }

  /** Stopping and then starting again restarts advertising: the stored
      advertiser survives the stop, so the restart makes only the start
      call, and it succeeds exactly when that call does. */
  lemma RestartAfterStop(st: TaskState, stop: Queued, start: Queued, now: nat)
    requires Valid(st) && st.ble.hasAdvertiser
    requires stop.cmd.StopAdvertise? && start.cmd.StartAdvertise?
    ensures var r := Drain(st, [stop, start], now);
            && !r.terminated
            && r.events[0] == AdvertisingStopped
            && (r.events[1] == AdvertisingStarted <==> start.reply.startOk)
            && (start.reply.startOk ==>
                  r.state == TaskState(st.ble.(advertising := true), Some(now + start.cmd.timeoutMs)))
            && (!start.reply.startOk ==>
                  r.state == TaskState(st.ble.(advertising := false), None))
  {
    assert [stop, start] == [stop] + [start];
    DrainAppend(st, [stop], [start], now);
    var s1 := Drain(st, [stop], now).state;
    assert s1 == TaskState(st.ble.(advertising := false), None);
    var o := BleDriver.StartPairing(s1.ble, start.reply.setDataOk, start.reply.startOk);
    assert o.result.Ok? <==> start.reply.startOk;
  }

  /** The pairing window: after a successful `StartAdvertise{t}` handled at
      time `t0`, idle ticks before `t0 + t` change nothing and report
      nothing, and the first idle tick at or after `t0 + t` stops
      advertising and reports exactly one `AdvertisingStopped`. */
  lemma PairingWindow(st: TaskState, q: Queued, t0: nat, now: nat)
    requires Valid(st)
    requires q.cmd.StartAdvertise? && q.cmd.timeoutMs > 0
    requires Tick(st, [q], t0).events == [AdvertisingStarted]
    ensures var armed := Tick(st, [q], t0).state;
            && armed.ble.advertising
            && armed.deadline == Some(t0 + q.cmd.timeoutMs)
            && (now < t0 + q.cmd.timeoutMs ==> Tick(armed, [], now) == TickResult(armed, [], false))
            && (now >= t0 + q.cmd.timeoutMs ==>
                  Tick(armed, [], now).events == [AdvertisingStopped]
                  && !Tick(armed, [], now).state.ble.advertising
                  && Tick(armed, [], now).state.deadline.None?)
  {
    var d := Drain(st, [q], t0);
    var h := Handle(st, q, t0);
    assert [q][0] == q;
    assert [q][1..] == [];
    assert Drain(h.state, [], t0) == TickResult(h.state, [], false);
    assert h.events + [] == h.events;
    assert d == h;
    assert Tick(st, [q], t0) == TickResult(d.state, d.events, false);
  }
}
