/** The oversampling serial receiver UART_RXD. */
module UartRxd {
  import opened Bits

  datatype Phase = Start | Data | Stop

  datatype Rx = Rx(phase: Phase, sample: Reg4, bitpos: Reg4, scratch: Byte, rdy: bool, data: Byte)

  const POWER_ON := Rx(Start, 0, 0, ZERO_BYTE, false, ZERO_BYTE)

  function Inc(n: Reg4): Reg4 {
    (n + 1) % 16
  }

  /** One clock edge; nothing moves unless the receive tick `clkEn` is up. */
  function Next(s: Rx, clkEn: bool, rdyClr: bool, rxd: bool): Rx {
    if !clkEn then s
    else
      match s.phase
      case Start =>
        var t := s.(rdy := s.rdy && !rdyClr,
                    sample := if !rxd || s.sample != 0 then Inc(s.sample) else s.sample);
        if s.sample == 15 then t.(phase := Data, bitpos := 0, sample := 0, scratch := ZERO_BYTE) else t
      case Data =>
        var t := s.(sample := Inc(s.sample));
        var u := if s.sample == 8
                 then t.(scratch := s.scratch[s.bitpos % 8 := rxd], bitpos := Inc(s.bitpos)) else t;
        if s.bitpos == 8 && s.sample == 15 then u.(phase := Stop) else u
      case Stop =>
        if s.sample == 15 || (s.sample >= 8 && !rxd)
        then s.(phase := Start, data := s.scratch, rdy := true, sample := 0)
        else s.(sample := Inc(s.sample))
  }

  /** A byte is announced when `rdy` rises. */
  predicate Announces(before: Rx, after: Rx) {
    !before.rdy && after.rdy
  }

  /** With `rdy_clr` low an announced byte stays announced, whatever the line does. */
  lemma {:induction false} ReadyHolds(s: Rx, line: seq<bool>)
    requires s.rdy
    ensures AfterTicks(s, line).rdy
    decreases |line|
  {
    if line != [] {
      ReadyHolds(s, line[..|line| - 1]);
    }
  }

  /** One tick for each sample of the line, with `rdy_clr` low. */
  function AfterTicks(s: Rx, line: seq<bool>): Rx
    decreases |line|
  {
    if line == [] then s else Next(AfterTicks(s, line[..|line| - 1]), true, false, line[|line| - 1])
  }

  class Receiver {
    var state: Phase
    var sample: Reg4
    var bitpos: Reg4
    var scratch: Byte
    var rdy: bool
    var data: Byte

    function Registers(): Rx
      reads this
    {
      Rx(state, sample, bitpos, scratch, rdy, data)
    }

    constructor ()
      ensures Registers() == POWER_ON
    {
      state, sample, bitpos, scratch, rdy, data := Start, 0, 0, ZERO_BYTE, false, ZERO_BYTE;
    }

    method Clock(rxd: bool, rdyClr: bool, clkEn: bool)
      modifies this
      ensures Registers() == Next(old(Registers()), clkEn, rdyClr, rxd)
    {
      if !clkEn {
        return;
      }
      var was := sample;
      match state {
        case Start =>
          if rdyClr {
            rdy := false;
          }
          if !rxd || was != 0 {
            sample := Inc(was);
          }
          if was == 15 {
            state, bitpos, sample, scratch := Data, 0, 0, ZERO_BYTE;
          }
        case Data =>
          var pos := bitpos;
          sample := Inc(was);
          if was == 8 {
            scratch, bitpos := scratch[pos % 8 := rxd], Inc(pos);
          }
          if pos == 8 && was == 15 {
            state := Stop;
          }
        case Stop =>
          if was == 15 || (was >= 8 && !rxd) {
            state, data, rdy, sample := Start, scratch, true, 0;
          } else {
            sample := Inc(was);
          }
      }
    }
  }
}
