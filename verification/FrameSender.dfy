/** The sending state machine FPGA2AR9331. */
module FrameSender {
  type Octet = n: nat | n < 256

  const WORD := 0x1_0000_0000
  const HEADER: Octet := 54
  const DELAY_LEN := 2000

  datatype Phase =
    | Idle | StartSave | Start | Start2 | Start3
    | Ing0 | Ing1 | Ing2 | Ing3 | Ing4
    | End | Delay1 | Delay2 | Delay3

  /** The data pins: driven, or left floating. */
  datatype Pins = Driven(value: Octet) | Floating

  datatype Sender = Sender(phase: Phase, ackSave: bool, len: nat, delay: nat,
                           clkOut: bool, dataOut: Pins, rClk: bool)

  datatype Input = Input(en: bool, lenIn: nat, dataIn: Octet)

  function NextPhase(s: Sender, en: bool, ack: bool): Phase {
    match s.phase
    case Idle => if en then StartSave else Idle
    case StartSave => Start
    case Start => Start2
    case Start2 => Start3
    case Start3 => Ing0
    case Ing0 => Ing1
    case Ing1 => if ack != s.ackSave then Ing2 else Ing1
    case Ing2 => Ing3
    case Ing3 => Ing4
    case Ing4 => if s.len == 0 then End else Ing0
    case End => if ack != s.ackSave then Delay1 else End
    case Delay1 => Delay2
    case Delay2 => if ack != s.ackSave then Delay3 else Delay2
    case Delay3 => if s.delay >= DELAY_LEN then Idle else Delay3
  }

  /** The 32-bit length register after one decrement. */
  function Decremented(len: nat): nat {
    if len == 0 then WORD - 1 else len - 1
  }

  /** One clock edge with the reset released. */
  function Next(s: Sender, i: Input, ack: bool): Sender {
    var t := s.(phase := NextPhase(s, i.en, ack));
    match s.phase
    case Idle => t.(ackSave := ack, dataOut := Floating)
    case StartSave => t.(ackSave := ack, dataOut := Driven(HEADER), delay := 0, rClk := true)
    case Start => t.(len := i.lenIn, clkOut := true, rClk := false)
    case Start2 => t.(rClk := true)
    case Start3 => t.(rClk := false)
    case Ing0 => t.(rClk := true)
    case Ing1 => t.(rClk := false)
    case Ing2 => t.(ackSave := ack, len := Decremented(s.len), clkOut := !s.clkOut, dataOut := Driven(i.dataIn))
    case Delay1 => t.(dataOut := Floating, ackSave := ack)
    case Delay3 => t.(delay := (s.delay + 1) % WORD, clkOut := false)
    case _ => t
  }

  /** The data pins change only together with the clock line, or before it first rises, or behind the frame. */
  lemma DataMovesWithClock(s: Sender, i: Input, ack: bool)
    ensures var t := Next(s, i, ack);
            t.dataOut != s.dataOut ==> t.clkOut != s.clkOut || s.phase in {Idle, StartSave, Delay1}
  {
  }

  // ---- The sender by itself, whatever its inputs

  datatype Tick = Tick(i: Input, ack: bool)

  function Run(f: Sender, ts: seq<Tick>): Sender
    decreases |ts|
  {
    if ts == [] then f else Next(Run(f, ts[..|ts| - 1]), ts[|ts| - 1].i, ts[|ts| - 1].ack)
  }

  /** Between the last byte of a frame and the header of the next the data pins float. */
  predicate PinsOk(f: Sender) {
    f.dataOut.Floating? <==> f.phase in {Idle, StartSave, Delay2, Delay3}
  }

  lemma PinsStayOk(f: Sender, i: Input, ack: bool)
    requires PinsOk(f) || f.phase == Idle
    ensures PinsOk(Next(f, i, ack))
  {
  }

  /**
   From its first clock on the sender drives the data pins exactly while a frame is going out, and it
   takes the acknowledge line's level, whatever it was before, as it puts the header out.
   */
  lemma {:induction false} PinsFloatBetweenFrames(f: Sender, ts: seq<Tick>)
    requires f.phase == Idle && ts != []
    ensures PinsOk(Run(f, ts))
    ensures Run(f, ts).phase == StartSave || Run(f, ts).phase == Start ==> Run(f, ts).ackSave == ts[|ts| - 1].ack
    ensures Run(f, ts).phase == Start ==> Run(f, ts).dataOut == Driven(54)
    decreases |ts|
  {
    var init, t := ts[..|ts| - 1], ts[|ts| - 1];
    if init != [] {
      PinsFloatBetweenFrames(f, init);
    }
    PinsStayOk(Run(f, init), t.i, t.ack);
  }

  class FrameMachine {
    var state: Phase
    var ackSave: bool
    var len: nat
    var delayCounter: nat
    var clkOut: bool
    var dataOut: Pins
    var rClk: bool

    function Registers(): Sender
      reads this
    {
      Sender(state, ackSave, len, delayCounter, clkOut, dataOut, rClk)
    }

    constructor (ack: bool)
      ensures Registers() == Sender(Idle, ack, 0, 0, false, Floating, false)
    {
      state, ackSave, len, delayCounter := Idle, ack, 0, 0;
      clkOut, dataOut, rClk := false, Floating, false;
    }

    method Clock(en: bool, lenIn: nat, dataIn: Octet, ack: bool)
      modifies this
      ensures Registers() == Next(old(Registers()), Input(en, lenIn, dataIn), ack)
    {
      var next := NextPhase(Registers(), en, ack);
      match state {
        case Idle =>
          ackSave, dataOut := ack, Floating;
        case StartSave =>
          ackSave, dataOut, delayCounter, rClk := ack, Driven(HEADER), 0, true;
        case Start =>
          len, clkOut, rClk := lenIn, true, false;
        case Start2 =>
          rClk := true;
        case Start3 =>
          rClk := false;
        case Ing0 =>
          rClk := true;
        case Ing1 =>
          rClk := false;
        case Ing2 =>
          ackSave, len, clkOut, dataOut := ack, Decremented(len), !clkOut, Driven(dataIn);
        case Delay1 =>
          dataOut, ackSave := Floating, ack;
        case Delay3 =>
          delayCounter, clkOut := (delayCounter + 1) % WORD, false;
        case _ =>
      }
      state := next;
    }
  }
}
