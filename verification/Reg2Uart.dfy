/** The register reporter REG2UART: latches a frame and hands it out byte by byte. */
module Reg2Uart {
  import opened Bits
  import opened ReportFrame

  datatype Phase = Idle | Saving | SendStart | SendAdd | SendEnd

  datatype Reporter = Reporter(phase: Phase, counter: Reg4, data: seq<Byte>,
                               dout: Byte, oEn: bool, isBusy: bool) {
    predicate Valid() {
      |data| == 8 && (phase == SendStart || phase == SendAdd ==> counter < 8)
    }
  }

  function PowerOn(data: seq<Byte>, dout: Byte): Reporter {
    Reporter(Idle, 7, data, dout, false, false)
  }

  function NextPhase(s: Reporter, en: bool, busy: bool): Phase {
    match s.phase
    case Idle => if en then Saving else Idle
    case Saving => SendStart
    case SendStart => if busy then SendAdd else SendStart
    case SendAdd => SendEnd
    case SendEnd => if busy then SendEnd else if s.counter >= 8 then Idle else SendStart
  }

  function Next(s: Reporter, en: bool, p: Report, busy: bool): Reporter
    requires s.Valid()
  {
    var t := s.(phase := NextPhase(s, en, busy));
    match s.phase
    case Idle => t.(oEn := false, counter := 0, isBusy := false)
    case Saving => t.(data := Frame(p), counter := 0, isBusy := true)
    case SendStart => t.(oEn := true, dout := s.data[s.counter])
    case SendAdd => t.(oEn := false, counter := (s.counter + 1) % 16)
    case SendEnd => t
  }

  class RegisterReporter {
    var state: Phase
    var counter: Reg4
    const data: array<Byte>
    var dout: Byte
    var oEn: bool
    var isBusy: bool

    function Registers(): Reporter
      reads this, data
    {
      Reporter(state, counter, data[..], dout, oEn, isBusy)
    }

    constructor (data: array<Byte>, dout: Byte)
      requires data.Length == 8
      ensures Registers() == PowerOn(data[..], dout) && this.data == data
    {
      state, counter, this.data, this.dout, oEn, isBusy := Idle, 7, data, dout, false, false;
    }

    /** Latches the eight bytes of the frame. */
    method Save(address: Byte, regs: Bits48)
      requires data.Length == 8
      modifies data
      ensures data[..] == Frame(Report(address, regs))
    {
      data[0] := [false] + address[1..];
      data[1] := Upper(regs, 5);
      data[2] := Upper(regs, 4);
      data[3] := Upper(regs, 3);
      data[4] := Upper(regs, 2);
      data[5] := Upper(regs, 1);
      data[6] := Upper(regs, 0);
      data[7] := [true, regs[0], regs[8], regs[16], regs[24], regs[32], regs[40], address[0]];
    }

    method Clock(en: bool, address: Byte, regs: Bits48, busy: bool)
      requires Registers().Valid()
      modifies this, data
      ensures Registers() == Next(old(Registers()), en, Report(address, regs), busy)
      ensures Registers().Valid()
    {
      var next := NextPhase(Registers(), en, busy);
      match state {
        case Idle =>
          oEn, counter, isBusy := false, 0, false;
        case Saving =>
          Save(address, regs);
          counter, isBusy := 0, true;
        case SendStart =>
          oEn, dout := true, data[counter];
        case SendAdd =>
          oEn, counter := false, (counter + 1) % 16;
        case SendEnd =>
      }
      state := next;
    }
  }
}
