# ESP32 button / LED / BLE coordination — a Dafny model

This project models the coordination layer of a small ESP32 firmware
(`esp32-devkit-v1`). The board has one status LED, one active-low push
button and BLE advertising. The firmware's threads are thin loops around
small sequential state machines. Each state machine is modelled here as a
pure step function over an immutable record:

- time is a `nat` count of milliseconds (`now`);
- every answer from the hardware or the NimBLE radio stack is an input
  (did the pin write succeed, did setting the advertisement data succeed,
  did advertising start);
- queues are sequences, handled in FIFO order.

| module | file | models |
|---|---|---|
| `Common` | common.dfy | `u8`/`u32`, `saturating_add`, GPIO level, `Error`/`ErrorType`, `Result`, `Option` |
| `Messages` | messages.dfy | `ButtonEvent`, `BleCommand`, `BleEvent`, `LedCommand` |
| `ConnStates`, `BleStates`, `LedStates` | state_codecs.dfy | the `repr(u8)` state enums and their `From<u8>` decoders |
| `Hub` | hub.dfy | `Tasks`: the two atomic byte cells and their setters/getters |
| `ButtonDriver` | button.dfy | `Button::new`, `is_pressed`, `poll_pressed_edge` |
| `LongPress` | long_press.dfy | the long-press detector of the button task |
| `BleDriver` | ble_driver.dfy | `Ble::new`, `init`, `start_pairing`, `stop_pairing`, `on_connected`, `on_disconnected` |
| `BleCommandTask` | ble_command_task.dfy | the radio command task: queue drain and pairing deadline |
| `ConnReactionTask` | conn_reaction_task.dfy | the older radio task, which reacts to changes of the hub's connection state |
| `EventCoordinator` | event_coordinator.dfy | routing button events to radio commands and radio events to LED commands |
| `LedDriver` | led_driver.dfy | `Led::new`, `tick`, `on`, `off` |
| `System` | system.dfy | two end-to-end paths from a long press to a blinking LED |

`Ble` exists twice, in `app/ble.rs` and `app/ble/mod.rs`, with identical
method bodies. `BleDriver` models it once. Its rows below cite one copy
or the other.

Notes on behaviour a reader might not expect:

- The command task answers a `StartAdvertise` with `AdvertisingStarted`
  even while already advertising. It also re-arms the deadline each time.
  So two starts in a row report two events (`RepeatedStartReannounces`).
- `StopAdvertise` always reports `AdvertisingStopped`, even when the radio
  was not advertising.
- The coordinator maps each radio event directly to an LED command. It
  never asks for a status snapshot, and it has no error/connected/advertising
  precedence. `Disconnected` becomes a 1000 ms blink, not `Off`.
- The button task writes `BleState::Pairing`, a variant `BleState` lacks.
  It is modelled as writing `ConnState::Pairing`, the type the hub stores.
- The radio command task matches only `StartAdvertise`, `StopAdvertise` and
  `Shutdown`. Its queue therefore carries `HandledCommand`, the subset of
  `BleCommand` without `DisconnectAll` and `GetStatus`.

## Model

| member | source | states |
|---|---|---|
| ConnStates.FromByte | esp32/esp32-devkit-v1/src/app/ble.rs:19-29 | every byte decodes; the decoded state casts back to the byte exactly when the byte is one of 0, 1, 2, 3, 255; every other byte decodes to `Idle` |
| ConnStates.RoundTrip | esp32/esp32-devkit-v1/src/app/ble.rs:9-17 | the cast of a state is a discriminant, decoding it gives the state back, and distinct states have distinct bytes |
| BleStates.FromByte | esp32/esp32-devkit-v1/src/app/ble/ble_state.rs:11-20 | the same total decoding for `BleState`; bytes outside {0,1,2,3,255} decode to `Idle`, and encode-after-decode returns the byte exactly for those five |
| ConnStates.ToByte | esp32/esp32-devkit-v1/src/app/ble.rs:9-17 | `state as u8` always yields one of the five discriminants 0, 1, 2, 3, 255 |
| BleStates.ToByte | esp32/esp32-devkit-v1/src/app/ble/ble_state.rs:1-9 | `state as u8` always yields one of the five discriminants 0, 1, 2, 3, 255 |
| LedStates.ToByte | esp32/esp32-devkit-v1/src/app/tasks/mod.rs:32-34 | the byte stored for an LED state is one of the assumed discriminants 0-4 (see `LedStates` under "## Left out") |
| LedStates.FromByte | esp32/esp32-devkit-v1/src/app/tasks/mod.rs:36-38 | `LedState::from` is total: a byte casts back exactly when it is an assumed discriminant, and any other byte reads as `Off` (see `LedStates` under "## Left out") |
| LedStates.RoundTrip | esp32/esp32-devkit-v1/src/app/tasks/mod.rs:32-38 | an LED state written to the hub's LED cell reads back unchanged, under the assumed discriminants (see `LedStates` under "## Left out") |
| BleStates.RoundTrip | esp32/esp32-devkit-v1/src/app/ble/ble_state.rs:1-9 | decoding the cast of any `BleState` gives it back, and the casts are distinct discriminants |
| Hub.New | esp32/esp32-devkit-v1/src/app/tasks/mod.rs:25-30 | the hub starts with LED state `Off` and connection state `Idle`, both cells holding valid encodings |
| Hub.SetLedState | esp32/esp32-devkit-v1/src/app/tasks/mod.rs:32-34 | a following get returns the state written; the connection cell is untouched; valid cells stay valid |
| Hub.GetLedState | esp32/esp32-devkit-v1/src/app/tasks/mod.rs:36-38 | a valid cell reads back exactly the state it encodes |
| Hub.SetConnState | esp32/esp32-devkit-v1/src/app/tasks/mod.rs:40-42 | a following get returns the state written; the LED cell is untouched; valid cells stay valid |
| Hub.GetConnState | esp32/esp32-devkit-v1/src/app/tasks/mod.rs:44-46 | any byte reads as a defined state; a valid cell reads back exactly its state; an unknown byte reads as `Idle` |
| Hub.LastWriteWins | esp32/esp32-devkit-v1/src/app/tasks/mod.rs:32-46 | of two writes to a cell the second wins, and writing one cell leaves the other's reading unchanged |
| ButtonDriver.IsPressed | esp32/esp32-devkit-v1/src/app/button.rs:23-25 | the button is active-low: a low line is pressed and a high line, where the pull-up holds a released button, is not |
| ButtonDriver.New | esp32/esp32-devkit-v1/src/app/button.rs:13-21 | construction succeeds exactly when the pull-up can be set; a new button has `last_low = false`; failure is `InvalidState` |
| ButtonDriver.PollPressedEdge | esp32/esp32-devkit-v1/src/app/button.rs:28-42 | returns true iff the first sample is low (pressed), `last_low` was false and the re-check is low; afterwards `last_low` equals "first sample was low" in every branch, including a failed re-check |
| ButtonDriver.PollAll | esp32/esp32-devkit-v1/src/app/button.rs:28-42 | repeated polls give one result per sample, and the button then remembers whether the last first-sample was low |
| ButtonDriver.EdgesCharacterised | esp32/esp32-devkit-v1/src/app/button.rs:29-41 | a poll reports a press iff both its samples are low and the previous poll's first sample was high (or, for the first poll, `last_low` was false) |
| ButtonDriver.HeldButtonReportsOnce | esp32/esp32-devkit-v1/src/app/button.rs:30-36 | between any two reported presses there is a poll that saw the line high, so a held button reports once |
| ButtonDriver.FailedRecheckNeedsRelease | esp32/esp32-devkit-v1/src/app/button.rs:32-41 | an edge whose re-check fails returns false and still blocks the next poll from reporting; a release must come first |
| LongPress.Step | esp32/esp32-devkit-v1/src/app/tasks/button_task.rs:32-47 | a released poll resets to `(0, false)`; a request only comes when `fired` was false, and it sets `fired` with the time at the threshold; the bound/multiple-of-20 invariant is preserved |
| LongPress.Tick | esp32/esp32-devkit-v1/src/app/tasks/button_task.rs:30-42 | the task reads the active-low pin; a request writes `Pairing` into the hub and leaves the LED cell alone, and no request leaves the hub unchanged |
| LongPress.Run | esp32/esp32-devkit-v1/src/app/tasks/button_task.rs:22-47 | starting from 0, the pressed time stays at most 3000 and a multiple of 20 after any sequence of polls |
| LongPress.StepAfterPress | esp32/esp32-devkit-v1/src/app/tasks/button_task.rs:34-42 | after k pressed polls the state is `(min(20k, 3000), k >= 150)`; one more pressed poll requests pairing iff it is the 150th |
| LongPress.RunTracksPress | esp32/esp32-devkit-v1/src/app/tasks/button_task.rs:26-47 | the detector's state after any poll sequence is determined by the length of the current continuous press |
| LongPress.RequestsAtThreshold | esp32/esp32-devkit-v1/src/app/tasks/button_task.rs:22-42 | a poll requests pairing exactly when it is the 150th consecutive pressed poll |
| LongPress.ShortPressNeverFires | esp32/esp32-devkit-v1/src/app/tasks/button_task.rs:34-42 | every request is preceded by 150 consecutive pressed polls, so a press of fewer than 150 polls never fires |
| LongPress.OncePerPress | esp32/esp32-devkit-v1/src/app/tasks/button_task.rs:39-42 | between two requests there is a released poll: at most one request per continuous press |
| LongPress.ReleaseRearms | esp32/esp32-devkit-v1/src/app/tasks/button_task.rs:43-47 | after a release, any later press of at least 150 polls requests again on its 150th poll, whatever happened before |
| LongPress.HeldPressFiresOnce | esp32/esp32-devkit-v1/src/app/tasks/button_task.rs:34-42 | a press held from rest requests exactly on its 150th poll and on no other |
| BleDriver.New | esp32/esp32-devkit-v1/src/app/ble/mod.rs:22-28 | a new wrapper is not advertising, has neither server nor advertiser, and satisfies the wrapper invariant |
| BleDriver.Init | esp32/esp32-devkit-v1/src/app/ble/mod.rs:31-62 | with an advertiser stored it returns Ok, makes no stack call and changes nothing; otherwise it succeeds iff setting the advertisement data succeeds; on failure server and advertiser stay unset and the error is `Esp` |
| BleDriver.StartPairing | esp32/esp32-devkit-v1/src/app/ble/mod.rs:65-79 | while advertising: Ok, no call, no change; an `init` error propagates unchanged; otherwise, once `init` succeeds, `init`'s calls then exactly one start call, Ok iff the start succeeded, and a failed start is an `Esp` error with advertising false; Ok implies advertising, and a failure leaves it false |
| BleDriver.StopPairing | esp32/esp32-devkit-v1/src/app/ble/mod.rs:82-92 | always Ok, leaves `advertising` false and changes nothing else; no stack call when not advertising |
| BleDriver.OnConnected | esp32/esp32-devkit-v1/src/app/ble/mod.rs:96-99 | returns Ok, changes no state and makes no call |
| BleDriver.OnDisconnected | esp32/esp32-devkit-v1/src/app/ble/mod.rs:101-104 | returns Ok, changes no state and makes no call |
| BleDriver.InitIdempotent | esp32/esp32-devkit-v1/src/app/ble.rs:49-52 | after a successful `init`, a second `init` is an immediate Ok with no call and no change |
| BleDriver.StartPairingIdempotent | esp32/esp32-devkit-v1/src/app/ble.rs:83-88 | after a successful `start_pairing`, a second one is an immediate Ok with no call and no change |
| BleDriver.StopPairingIdempotent | esp32/esp32-devkit-v1/src/app/ble.rs:100-110 | a second `stop_pairing` makes no call and changes nothing |
| BleDriver.StartPairingReportsAdvertising | esp32/esp32-devkit-v1/src/app/ble.rs:83-97 | from a valid wrapper, `start_pairing` returns Ok exactly when the wrapper ends up advertising |
| BleCommandTask.Handle | esp32/esp32-devkit-v1/src/app/ble/ble_task.rs:39-65 | `Shutdown` terminates with advertising off and no event; other commands emit exactly one matching event; a start leaves the driver as `start_pairing` does and reports `AdvertisingStarted` iff that succeeded, else `Error`; from an idle valid driver it succeeds iff the advertiser exists or the data is set, and the start succeeds; a successful start arms `now + t`, a failed one keeps the deadline; a start while advertising keeps the driver, re-arms and reports `AdvertisingStarted`; `StopAdvertise` leaves exactly `stop_pairing`'s driver (only `advertising` cleared, handles kept), clears the deadline and reports `AdvertisingStopped` |
| BleCommandTask.Drain | esp32/esp32-devkit-v1/src/app/ble/ble_task.rs:38-66 | the i-th event answers the i-th queued command; without `Shutdown` every command gets one event; with one, events end exactly at the first `Shutdown`, advertising is off; the deadline-iff-advertising invariant is kept; a single queued command is handled exactly as `Handle` does (driver, deadline and event), so with `DrainAppend` each command is handled in FIFO order |
| BleCommandTask.CheckTimeout | esp32/esp32-devkit-v1/src/app/ble/ble_task.rs:69-75 | an expired deadline stops advertising, emits exactly one `AdvertisingStopped` and clears the deadline (leaving the state exactly as `stop_pairing` plus no deadline); no deadline or a future one changes nothing and emits nothing |
| BleCommandTask.Tick | esp32/esp32-devkit-v1/src/app/ble/ble_task.rs:36-78 | the drain's events come first; one `AdvertisingStopped` follows them exactly when the deadline left by the drain has expired, and then the state is exactly `stop_pairing` of the drained driver with no deadline; a tick without expiry keeps the drained state unchanged; a terminating drain skips the timeout check; after a tick any armed deadline lies in the future |
| BleCommandTask.DrainAppend | esp32/esp32-devkit-v1/src/app/ble/ble_task.rs:38-66 | draining `q1 + q2` equals draining `q1` then `q2` from where it left off, with the events concatenated (FIFO) |
| BleCommandTask.DrainStopsAtShutdown | esp32/esp32-devkit-v1/src/app/ble/ble_task.rs:60-64 | commands queued after the first `Shutdown` are not processed |
| BleCommandTask.ShutdownTerminates | esp32/esp32-devkit-v1/src/app/ble/ble_task.rs:60-64 | a tick containing `Shutdown` terminates, leaves advertising off, reports only the commands before it, and has no timeout event |
| BleCommandTask.RepeatedStartReannounces | esp32/esp32-devkit-v1/src/app/ble/ble_task.rs:40-48 | two successful `StartAdvertise` in a row report `AdvertisingStarted` twice; the driver is unchanged by the second, and the deadline comes from the second |
| BleCommandTask.RestartAfterStop | esp32/esp32-devkit-v1/src/app/ble/ble_task.rs:40-58 | `StopAdvertise` then `StartAdvertise` from a driver with an advertiser reports `AdvertisingStopped`, then `AdvertisingStarted` exactly when the adapter's start succeeds; on success the driver advertises again with the deadline `now + t`, on failure it stays stopped with no deadline |
| BleCommandTask.PairingWindow | esp32/esp32-devkit-v1/src/app/ble/ble_task.rs:41-75 | after a successful start of `t` ms at `t0`, idle ticks before `t0 + t` do nothing; an idle tick at or after `t0 + t` stops advertising with exactly one `AdvertisingStopped` |
| ConnReactionTask.Start | esp32/esp32-devkit-v1/src/app/tasks/ble_task.rs:23-32 | `prev` is the hub's state at start-up, no pairing window is open, and the ignored `init` result only decides whether an advertiser is stored |
| ConnReactionTask.React | esp32/esp32-devkit-v1/src/app/tasks/ble_task.rs:39-67 | the new state becomes `prev`; `Pairing` calls `start_pairing` and opens a window at `now`; `Connected` and `Disconnected` leave the driver untouched; `Idle` and `Error` stop it; the connection cell is untouched |
| ConnReactionTask.Step | esp32/esp32-devkit-v1/src/app/tasks/ble_task.rs:35-79 | without a change or timeout nothing is written; the LED state is written only on a change: Pairing→BlinkingFast with `start_pairing` called, Connected→On and Disconnected→Off with the driver untouched, Idle→Off and Error→Error with the driver stopped, the timer set or cleared; after 60 s in Pairing it writes `Idle`, and the task changes only by `stop_pairing` on its driver and a cleared timer |
| ConnReactionTask.InitialStateTriggersNothing | esp32/esp32-devkit-v1/src/app/tasks/ble_task.rs:32-37 | while the hub keeps its start-up state, the first step writes nothing and leaves the task unchanged |
| ConnReactionTask.TimeoutThenIdle | esp32/esp32-devkit-v1/src/app/tasks/ble_task.rs:72-79 | after a pairing timeout, the next step sees the `Idle` it wrote, sets the LED state to `Off` and keeps the radio stopped |
| EventCoordinator.LedCommandFor | esp32/esp32-devkit-v1/src/app/tasks/event_coordinator.rs:45-51 | a radio event only ever yields a blink at 100, 500 or 1000 ms, `On` or `Off` |
| EventCoordinator.RouteButtons | esp32/esp32-devkit-v1/src/app/tasks/event_coordinator.rs:30-41 | exactly one `StartAdvertise{60000}` per long press and nothing else |
| EventCoordinator.RouteBleEvents | esp32/esp32-devkit-v1/src/app/tasks/event_coordinator.rs:44-54 | exactly one LED command per radio event, in arrival order |
| EventCoordinator.Tick | esp32/esp32-devkit-v1/src/app/tasks/event_coordinator.rs:28-56 | all radio commands from button events come before any LED command; button events never yield LED commands and radio events never yield radio commands |
| EventCoordinator.LedMapping | esp32/esp32-devkit-v1/src/app/tasks/event_coordinator.rs:45-51 | AdvertisingStarted→Blink 500, AdvertisingStopped→Off, Connected→On, Disconnected→Blink 1000, Error→Blink 100 |
| EventCoordinator.LedMappingInjective | esp32/esp32-devkit-v1/src/app/tasks/event_coordinator.rs:45-51 | distinct radio events give distinct LED commands |
| EventCoordinator.ShortPressIgnored | esp32/esp32-devkit-v1/src/app/tasks/event_coordinator.rs:37-39 | short presses produce no command |
| LedDriver.New | esp32/esp32-devkit-v1/src/app/led/mod.rs:19-24 | a new LED has `phase_on = false` and an undriven line |
| LedDriver.On | esp32/esp32-devkit-v1/src/app/led/mod.rs:39-44 | success drives the line high and changes nothing else; failure changes nothing and is `InvalidState` |
| LedDriver.Off | esp32/esp32-devkit-v1/src/app/led/mod.rs:46-51 | success drives the line low and changes nothing else; failure changes nothing and is `InvalidState` |
| LedDriver.Tick | esp32/esp32-devkit-v1/src/app/led/mod.rs:26-37 | the phase is always negated; Ok iff the write succeeded, and then the line is high iff `phase_on`; a failed write still flips the phase, keeps the line and returns `InvalidState` |
| LedDriver.FirstTickTurnsOn | esp32/esp32-devkit-v1/src/app/led/mod.rs:19-31 | the first successful tick of a new LED drives it high |
| LedDriver.TwoTicksRestore | esp32/esp32-devkit-v1/src/app/led/mod.rs:29-34 | two ticks restore the phase; from a line showing its phase, two ticks ending in a successful write restore the LED exactly |
| System.LongPressBlinksViaHub | esp32/esp32-devkit-v1/src/app/tasks/button_task.rs:39-41 | the poll that completes a long press writes `Pairing`; the reaction task's next step starts pairing, opens the pairing window and sets the LED state to `BlinkingFast` |
| System.LongPressBlinksViaQueues | esp32/esp32-devkit-v1/src/app/tasks/event_coordinator.rs:32-36 | a long press becomes `StartAdvertise{60000}`; an accepting radio reports `AdvertisingStarted` with the deadline at `now + 60000`; that report becomes a 500 ms blink |

## Left out

- Threads, `JoinHandle`, `Arc`, atomic memory orderings and `FreeRtos::delay_ms` are not modelled. Each loop iteration is one step function, and the 20/50 ms cadence is only a comment.
- The interval argument of `Led::tick` and its delay are not modelled, because they only affect timing.
- NimBLE is not modelled: device take, GATT service and characteristic, UUIDs, advertisement data, device name. Its answers (set data, start) are boolean inputs, and the result of stopping is ignored in the source.
- Error messages keep only their fixed prefix. The adapter's detail text is not available.
- Time in the radio command task is one `now` per tick. The source reads `Instant::now()` separately for each `StartAdvertise` and for the deadline check. `now + timeout_ms` is unbounded, so `Instant` overflow is not modelled.
- LedStates: `LedState` is not declared in any of the files modelled. `LedStates.ToByte` and `LedStates.FromByte` use assumed discriminants 0-4 and an assumed `Off` fallback, and only the round trip is relied on elsewhere.
- `DisconnectAll`, `GetStatus`, `LedCommand::GetStatus`, `LedCommand::Shutdown` and `StatusResponse` have no handler in the source loops, so no behaviour is given to them.
- The connect/disconnect callback path (`set_event_sink` at app/ble/ble_task.rs:31) is not modelled, because `Ble` does not define it. `Connected`/`Disconnected` events appear only as coordinator inputs.
- Not modelled: the LED tasks (`tasks/led_task.rs`, `led/led_task.rs`) and `tasks/ui_task.rs`. They call methods that do not exist or do not type-check, and they never act on commands.
- Not modelled: `TaskManager`, `tasks/task_manager.rs`, `main.rs`, `config/*`, `app/tasks.rs`, `app/led.rs` (`blink`), the runners and the handles. They are start-up wiring, infinite blocking loops, empty stubs or one-line enqueue wrappers. Their only effect is the commands appended to queues.
- The `Tasks::send_*` routing functions used by the coordinator and the command task are not declared in the hub file modelled. Their sends are the output sequences of those tasks.
- BleCommandTask.PairingWindow: the lemma assumes a non-zero timeout. A zero timeout expires in the same tick that arms it, and that case is covered by `Tick`'s contract instead.
- BleCommandTask.PairingWindow: expiry is stated at the deadline itself. Ticks happen at arbitrary `now` values, not on a 20 ms grid, so no poll-interval tolerance is stated.
