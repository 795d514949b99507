/** The LED driver `Led` of `app/led/mod.rs`: an output line and a blink
    phase. Whether a pin write succeeds is an input; the line's level is
    `None` until the driver first writes it. */
module LedDriver {
  import opened Common

  datatype Led = Led(phaseOn: bool, pin: Option<Level>)

  datatype Outcome = Outcome(led: Led, result: Result<()>)

  /** The line shows the phase. */
  predicate ShowsPhase(l: Led)
  {
    l.pin == Some(if l.phaseOn then High else Low)
  }

  /** `Led::new`: the phase starts off and the line is not yet driven. */
  function New(): (l: Led)
    ensures !l.phaseOn && l.pin.None?
  {
    Led(false, None)
  }

  /** `Led::on`: drive the line high. */
  function On(l: Led, writeOk: bool): (r: Outcome)
    ensures r.result.Ok? <==> writeOk
    ensures writeOk ==> r.led == l.(pin := Some(High))
    ensures !writeOk ==> r.led == l && r.result.error.kind == InvalidState
  {
    if writeOk then Outcome(l.(pin := Some(High)), Ok(()))
    else Outcome(l, Err(Error(InvalidState, "failed to set LED HIGH")))
  }

  /** `Led::off`: drive the line low. */
  function Off(l: Led, writeOk: bool): (r: Outcome)
    ensures r.result.Ok? <==> writeOk
    ensures writeOk ==> r.led == l.(pin := Some(Low))
    ensures !writeOk ==> r.led == l && r.result.error.kind == InvalidState
  {
    if writeOk then Outcome(l.(pin := Some(Low)), Ok(()))
    else Outcome(l, Err(Error(InvalidState, "failed to set LED LOW")))
  }

  /** `Led::tick`: flip the phase, then drive the line to match it. The
      phase is flipped before the write, so a failed write still flips it
      and leaves the line as it was. */
  function Tick(l: Led, writeOk: bool): (r: Outcome)
    ensures r.led.phaseOn == !l.phaseOn
    ensures r.result.Ok? <==> writeOk
    ensures writeOk ==> ShowsPhase(r.led)
    ensures !writeOk ==> r.led.pin == l.pin && r.result.error.kind == InvalidState
  {
    var flipped := l.(phaseOn := !l.phaseOn);
    if flipped.phaseOn then On(flipped, writeOk) else Off(flipped, writeOk)
  }

  /** The first successful tick of a new LED turns it on. */
  lemma FirstTickTurnsOn()
    ensures Tick(New(), true).led.pin == Some(High)
  {
  }

  /** Two ticks restore the phase; when both writes succeed from a line
      that showed the phase, they restore the LED completely. */
  lemma TwoTicksRestore(l: Led, ok1: bool, ok2: bool)
    ensures Tick(Tick(l, ok1).led, ok2).led.phaseOn == l.phaseOn
    ensures ShowsPhase(l) && ok2 ==> Tick(Tick(l, ok1).led, ok2).led == l
  {
  }
}
