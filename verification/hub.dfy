/** The shared state hub `Tasks` of `app/tasks/mod.rs`: two atomic byte
    cells, one for the LED state and one for the connection state, written
    and read through the byte codecs. Atomic memory orderings are not
    modelled: every access is a whole-byte read or write. */
module Hub {
  import opened ConnStates
  import opened LedStates

  datatype Hub = Hub(ledCell: Common.U8, connCell: Common.U8)

  /** Both cells hold the encoding of some state. */
  predicate WellFormed(h: Hub)
  {
    h.ledCell in LedStates.Discriminants && h.connCell in ConnStates.Discriminants
  }

  /** `Tasks::new`. */
  function New(): (h: Hub)
    ensures GetLedState(h) == LedState.Off
    ensures GetConnState(h) == ConnState.Idle
    ensures WellFormed(h)
  {
    Hub(LedStates.ToByte(LedState.Off), ConnStates.ToByte(ConnState.Idle))
  }

  /** `Tasks::set_led_state`. */
  function SetLedState(h: Hub, s: LedState): (h': Hub)
    ensures GetLedState(h') == s
    ensures h'.connCell == h.connCell
    ensures WellFormed(h) ==> WellFormed(h')
  {
    LedStates.RoundTrip(s);
    h.(ledCell := LedStates.ToByte(s))
  }

  /** `Tasks::get_led_state`. */
  function GetLedState(h: Hub): (s: LedState)
    ensures WellFormed(h) ==> LedStates.ToByte(s) == h.ledCell
  {
    LedStates.FromByte(h.ledCell)
  }

  /** `Tasks::set_ble_conn_state`. */
  function SetConnState(h: Hub, s: ConnState): (h': Hub)
    ensures GetConnState(h') == s
    ensures h'.ledCell == h.ledCell
    ensures WellFormed(h) ==> WellFormed(h')
  {
    ConnStates.RoundTrip(s, s);
    h.(connCell := ConnStates.ToByte(s))
  }

  /** `Tasks::get_ble_conn_state`: any byte in the cell reads as some
      state; a well-formed cell reads back exactly the state it encodes. */
  function GetConnState(h: Hub): (s: ConnState)
    ensures WellFormed(h) ==> ConnStates.ToByte(s) == h.connCell
    ensures h.connCell !in ConnStates.Discriminants ==> s == ConnState.Idle
  {
    ConnStates.FromByte(h.connCell)
  }

  /** Of two writes to the same cell the second wins, and a write to one
      cell is invisible in the other. */
  lemma LastWriteWins(h: Hub, a: ConnState, b: ConnState, x: LedState, y: LedState)
    ensures GetConnState(SetConnState(SetConnState(h, a), b)) == b
    ensures GetLedState(SetLedState(SetLedState(h, x), y)) == y
    ensures GetLedState(SetConnState(h, a)) == GetLedState(h)
    ensures GetConnState(SetLedState(h, x)) == GetConnState(h)
  {
  }
}
