/** `ConnState` of `app/ble.rs`: the connection state stored as a byte in
    the shared hub, with its `repr(u8)` encoding and total decoding. */
module ConnStates {
  import Common

  datatype ConnState = Idle | Pairing | Connected | Disconnected | Error

  /** The bytes that are the discriminant of some `ConnState`. */
  const Discriminants: set<Common.U8> := {0, 1, 2, 3, 255}

  /** `state as u8`. */
  function ToByte(s: ConnState): (b: Common.U8)
    ensures b in Discriminants
  {
    match s
    case Idle => 0
    case Pairing => 1
    case Connected => 2
    case Disconnected => 3
    case Error => 255
  }

  /** `ConnState::from(u8)`: every byte decodes, unknown ones to `Idle`. */
  function FromByte(b: Common.U8): (s: ConnState)
    ensures ToByte(s) == b <==> b in Discriminants
    ensures b !in Discriminants ==> s == Idle
  {
    if b == 1 then Pairing
    else if b == 2 then Connected
    else if b == 3 then Disconnected
    else if b == 255 then Error
    else Idle
  }

  /** Decoding the cast of a state gives that state back, and the casts of
      distinct states are distinct bytes. */
  lemma RoundTrip(s: ConnState, t: ConnState)
    ensures FromByte(ToByte(s)) == s
    ensures ToByte(s) in Discriminants
    ensures ToByte(s) == ToByte(t) ==> s == t
  {
  }
}

/** `BleState` of `app/ble/ble_state.rs`: the same byte encoding with
    `Advertising` in place of `Pairing`. */
module BleStates {
  import Common

  datatype BleState = Idle | Advertising | Connected | Disconnected | Error

  const Discriminants: set<Common.U8> := {0, 1, 2, 3, 255}

  /** `state as u8`. */
  function ToByte(s: BleState): (b: Common.U8)
    ensures b in Discriminants
  {
    match s
    case Idle => 0
    case Advertising => 1
    case Connected => 2
    case Disconnected => 3
    case Error => 255
  }

  /** `BleState::from(u8)`: every byte decodes, unknown ones to `Idle`. */
  function FromByte(b: Common.U8): (s: BleState)
    ensures ToByte(s) == b <==> b in Discriminants
    ensures b !in Discriminants ==> s == Idle
  {
    if b == 1 then Advertising
    else if b == 2 then Connected
    else if b == 3 then Disconnected
    else if b == 255 then Error
    else Idle
  }

  lemma RoundTrip(s: BleState, t: BleState)
    ensures FromByte(ToByte(s)) == s
    ensures ToByte(s) in Discriminants
    ensures ToByte(s) == ToByte(t) ==> s == t
  {
  }
}

/** `LedState`, the indicator state kept in the hub's LED cell. Its
    declaration is not part of this model: the discriminants below follow
    the order in which the names are introduced, and an unknown byte
    decodes to `Off`. Only the round trip is relied on elsewhere. */
module LedStates {
  import Common

  datatype LedState = BlinkingFast | BlinkingSlow | On | Off | Error

  const Discriminants: set<Common.U8> := {0, 1, 2, 3, 4}

  /** `state as u8`, with the assumed discriminants. */
  function ToByte(s: LedState): (b: Common.U8)
    ensures b in Discriminants
  {
    match s
    case BlinkingFast => 0
    case BlinkingSlow => 1
    case On => 2
    case Off => 3
    case Error => 4
  }

  /** `LedState::from(u8)`: every byte decodes, unknown ones to `Off`. */
  function FromByte(b: Common.U8): (s: LedState)
    ensures ToByte(s) == b <==> b in Discriminants
    ensures b !in Discriminants ==> s == Off
  {
    if b == 0 then BlinkingFast
    else if b == 1 then BlinkingSlow
    else if b == 2 then On
    else if b == 4 then Error
    else Off
  }

  /** Decoding the cast of an LED state gives that state back. */
  lemma RoundTrip(s: LedState)
    ensures FromByte(ToByte(s)) == s
  {
  }
}
