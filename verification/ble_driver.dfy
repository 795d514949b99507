/** The `Ble` advertising wrapper. `app/ble.rs` and `app/ble/mod.rs` hold
    two copies with the same method bodies; this module models both. The
    radio stack is not modelled: what the firmware learns from it (whether
    setting the advertisement data succeeded, whether starting to advertise
    succeeded) is an input, and the calls it makes are recorded in order. */
module BleDriver {
  import opened Common

  /** The radio-stack calls the wrapper makes. `TakeDevice` stands for
      taking the device, fetching the server and advertiser and creating
      the GATT service. */
  datatype AdapterCall = TakeDevice | SetAdvData | StartAdvertising | StopAdvertising

  /** The wrapper's state: the `advertising` flag and whether the server
      and advertiser handles have been stored. */
  datatype Ble = Ble(advertising: bool, hasServer: bool, hasAdvertiser: bool)

  /** The wrapper after a call, the call's result and the radio-stack calls
      it made. */
  datatype Outcome = Outcome(ble: Ble, result: Result<()>, calls: seq<AdapterCall>)

  /** The wrapper's invariant: the two handles are stored together, and
      the wrapper only advertises once it has an advertiser. */
  predicate Valid(b: Ble)
  {
    b.hasServer == b.hasAdvertiser && (b.advertising ==> b.hasAdvertiser)
  }

  /** `Ble::new`. */
  function New(): (b: Ble)
    ensures Valid(b)
    ensures !b.advertising && !b.hasServer && !b.hasAdvertiser
  {
    Ble(false, false, false)
  }

  /** `Ble::init`: sets the stack up once. A stored advertiser makes it a
      no-op; otherwise the handles are stored only if setting the
      advertisement data succeeds. */
  function Init(b: Ble, setDataOk: bool): (r: Outcome)
    ensures b.hasAdvertiser ==> r == Outcome(b, Ok(()), [])
    ensures !b.hasAdvertiser ==> r.calls == [TakeDevice, SetAdvData]
    ensures r.result.Ok? <==> b.hasAdvertiser || setDataOk
    ensures r.result.Ok? ==> r.ble.hasAdvertiser
    ensures !b.hasAdvertiser && r.result.Ok? ==> r.ble.hasServer
    ensures r.result.Err? ==> r.ble == b && !r.ble.hasAdvertiser && r.result.error.kind == Esp
    ensures r.ble.advertising == b.advertising
    ensures Valid(b) ==> Valid(r.ble)
  {
    if b.hasAdvertiser then Outcome(b, Ok(()), [])
    else if !setDataOk then
      Outcome(b, Err(Error(Esp, "set adv data failed")), [TakeDevice, SetAdvData])
    else
      Outcome(b.(hasServer := true, hasAdvertiser := true), Ok(()), [TakeDevice, SetAdvData])
  }

  /** `Ble::start_pairing`: initialise, then start advertising unless
      already advertising. */
  function StartPairing(b: Ble, setDataOk: bool, startOk: bool): (r: Outcome)
    ensures b.advertising && b.hasAdvertiser ==> r == Outcome(b, Ok(()), [])
    ensures Init(b, setDataOk).result.Err? ==> r == Init(b, setDataOk)
    ensures !b.advertising && Init(b, setDataOk).result.Ok? ==>
              && r.calls == Init(b, setDataOk).calls + [StartAdvertising]
              && (r.result.Ok? <==> startOk)
              && (!startOk ==> r.result.error.kind == Esp && !r.ble.advertising)
    ensures r.result.Ok? ==> r.ble.advertising && r.ble.hasAdvertiser
    ensures Valid(b) && r.result.Err? ==> !r.ble.advertising
    ensures r.ble.hasAdvertiser == Init(b, setDataOk).ble.hasAdvertiser
    ensures Valid(b) ==> Valid(r.ble)
  {
    var i := Init(b, setDataOk);
    if i.result.Err? then Outcome(i.ble, Err(i.result.error), i.calls)
    else if i.ble.advertising then Outcome(i.ble, Ok(()), i.calls)
    else if i.ble.hasAdvertiser then
      if startOk then Outcome(i.ble.(advertising := true), Ok(()), i.calls + [StartAdvertising])
      else Outcome(i.ble, Err(Error(Esp, "adv start failed")), i.calls + [StartAdvertising])
    else Outcome(i.ble, Ok(()), i.calls)
  }

  /** `Ble::stop_pairing`: the radio stack's answer to stopping is
      ignored, so this always succeeds. */
  function StopPairing(b: Ble): (r: Outcome)
    ensures r.result.Ok?
    ensures r.ble == b.(advertising := false)
    ensures !b.advertising ==> r.calls == []
    ensures b.advertising && b.hasAdvertiser ==> r.calls == [StopAdvertising]
    ensures Valid(b) ==> Valid(r.ble)
  {
    if !b.advertising then Outcome(b, Ok(()), [])
    else Outcome(b.(advertising := false), Ok(()), if b.hasAdvertiser then [StopAdvertising] else [])
  }

  /** `Ble::on_connected`: a placeholder that succeeds and does nothing. */
  function OnConnected(b: Ble): (r: Outcome)
    ensures r.result.Ok? && r.ble == b && r.calls == []
  {
    Outcome(b, Ok(()), [])
  }

  /** `Ble::on_disconnected`: a placeholder that succeeds and does nothing. */
  function OnDisconnected(b: Ble): (r: Outcome)
    ensures r.result.Ok? && r.ble == b && r.calls == []
  {
    Outcome(b, Ok(()), [])
  }

  /** Initialising twice: the second call succeeds at once, makes no
      radio-stack call and changes nothing. */
  lemma InitIdempotent(b: Ble, ok1: bool, ok2: bool)
    requires Init(b, ok1).result.Ok?
    ensures Init(Init(b, ok1).ble, ok2) == Outcome(Init(b, ok1).ble, Ok(()), [])
  {
  }

  /** A successful start followed by another start: the second succeeds,
      makes no radio-stack call and changes nothing. */
  lemma StartPairingIdempotent(b: Ble, d1: bool, s1: bool, d2: bool, s2: bool)
    requires StartPairing(b, d1, s1).result.Ok?
    ensures var b1 := StartPairing(b, d1, s1).ble;
            StartPairing(b1, d2, s2) == Outcome(b1, Ok(()), [])
  {
  }

  /** Stopping twice: the second call makes no radio-stack call and
      changes nothing. */
  lemma StopPairingIdempotent(b: Ble)
    ensures var b1 := StopPairing(b).ble;
            StopPairing(b1) == Outcome(b1, Ok(()), [])
  {
  }

  /** From a valid wrapper, `start_pairing` succeeds exactly when the
      wrapper ends up advertising. */
  lemma StartPairingReportsAdvertising(b: Ble, setDataOk: bool, startOk: bool)
    requires Valid(b)
    ensures StartPairing(b, setDataOk, startOk).result.Ok? <==>
              StartPairing(b, setDataOk, startOk).ble.advertising
  {
  }
}
