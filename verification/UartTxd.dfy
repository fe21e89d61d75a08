/** The serial transmitter UART_TXD. */
module UartTxd {
  import opened Bits

  datatype Phase = Idle | Start | Data | Stop

  datatype Tx = Tx(phase: Phase, data: Byte, bitpos: Reg3, txd: bool)

  const POWER_ON := Tx(Idle, ZERO_BYTE, 0, true)

  /** One clock edge: every right-hand side reads the registers as they were before the edge. */
  function Next(s: Tx, clken: bool, wrEn: bool, din: Byte): Tx {
    match s.phase
    case Idle =>
      if wrEn then s.(phase := Start, data := din, bitpos := 0) else s
    case Start =>
      if clken then s.(phase := Data, txd := false) else s
    case Data =>
      if !clken then s
      else if s.bitpos == 7 then s.(phase := Stop, txd := s.data[s.bitpos])
      else s.(bitpos := s.bitpos + 1, txd := s.data[s.bitpos])
    case Stop =>
      if clken then s.(phase := Idle, txd := true) else s
  }

  predicate Busy(s: Tx) {
    s.phase != Idle
  }

  /** The transmitter takes a byte exactly when a write meets the idle state. */
  predicate Accepts(s: Tx, wrEn: bool) {
    s.phase == Idle && wrEn
  }

  /** The level the line shows in each phase; bit slot 0 is the start bit. */
  predicate LineShape(s: Tx) {
    match s.phase
    case Idle => s.txd
    case Start => s.txd && s.bitpos == 0
    case Data => s.txd == (s.bitpos != 0 && s.data[s.bitpos - 1])
    case Stop => s.bitpos == 7 && s.txd == s.data[7]
  }

  class Transmitter {
    var state: Phase
    var data: Byte
    var bitpos: Reg3
    var txd: bool

    function Registers(): Tx
      reads this
    {
      Tx(state, data, bitpos, txd)
    }

    constructor ()
      ensures Registers() == POWER_ON
    {
      state, data, bitpos, txd := Idle, ZERO_BYTE, 0, true;
    }

    method Clock(din: Byte, wrEn: bool, clken: bool)
      modifies this
      ensures Registers() == Next(old(Registers()), clken, wrEn, din)
      ensures old(LineShape(Registers())) ==> LineShape(Registers())
    {
      match state {
        case Idle =>
          if wrEn {
            state, data, bitpos := Start, din, 0;
          }
        case Start =>
          if clken {
            txd, state := false, Data;
          }
        case Data =>
          if clken {
            var bit := data[bitpos];
            if bitpos == 7 {
              state := Stop;
            } else {
              bitpos := bitpos + 1;
            }
            txd := bit;
          }
        case Stop =>
          if clken {
            txd, state := true, Idle;
          }
      }
    }
  }
}
