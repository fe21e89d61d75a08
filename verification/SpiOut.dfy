/** The serialiser SPI_OUT and a slave that shifts on falling clock edges. */
module SpiOut {
  import opened Bits

  const SPI_LEN := 16
  /** `5'd40` keeps five bits. */
  const PAUSE := 40 % 32

  type Word = b: Bits | |b| == 16 witness seq(16, _ => false)
  type Reg5 = n: nat | n < 32

  datatype Phase = Idle | Send | SendN | Delay | Reload | End

  datatype Spi = Spi(phase: Phase, counter: Reg5, save: Word, sclk: bool, dout: bool, syncN: bool)

  function NextPhase(s: Spi, en: bool): Phase {
    match s.phase
    case Idle => if en then SendN else Idle
    case Send => if s.counter == 0 then Delay else if !s.sclk then SendN else Send
    case SendN => if s.sclk then Send else SendN
    case Delay => if s.counter > PAUSE then Idle else Reload
    case Reload => End
    case End => if s.counter > PAUSE then Idle else End
  }

  predicate IsIdle(s: Spi, en: bool) {
    NextPhase(s, en) == Idle
  }

  predicate IsEnd(s: Spi, en: bool) {
    NextPhase(s, en) == End
  }

  /** Bit `counter - 1` of the saved word; outside it the output keeps its level. */
  function Selected(s: Spi): bool {
    if 1 <= s.counter <= SPI_LEN then s.save[s.counter - 1] else s.dout
  }

  /** One edge of the serial clock: the outputs follow the phase being entered. */
  function Next(s: Spi, en: bool, dataIn: Word): Spi {
    var t := s.(phase := NextPhase(s, en));
    match NextPhase(s, en)
    case Idle => t.(save := dataIn, counter := SPI_LEN, sclk := true, syncN := true)
    case Send => t.(sclk := false, counter := (s.counter + 31) % 32)
    case SendN => t.(sclk := true, dout := Selected(s), syncN := false)
    case Delay => t.(sclk := true, syncN := true, counter := (s.counter + 1) % 32)
    case Reload => t.(sclk := true, syncN := true, counter := 0)
    case End => t.(sclk := true, syncN := true, counter := (s.counter + 1) % 32)
  }

  // ---- The far end

  /** `shift` collects bits while the frame line is low, `last` is the last finished word. */
  datatype Slave = Slave(shift: Bits, last: Bits)

  function Sees(v: Slave, before: Spi, after: Spi): Slave {
    if before.syncN && !after.syncN then v.(shift := [])
    else if !before.syncN && after.syncN then v.(last := v.shift)
    else if before.sclk && !after.sclk && !after.syncN then v.(shift := v.shift + [before.dout])
    else v
  }

  /** The bits of a word as they go out, the highest first. */
  function MsbFirst(w: Word): (b: Bits)
    ensures |b| == SPI_LEN && forall i :: 0 <= i < SPI_LEN ==> b[i] == w[SPI_LEN - 1 - i]
  {
    seq(SPI_LEN, i requires 0 <= i < SPI_LEN => w[SPI_LEN - 1 - i])
  }

  /** Where a transfer stands. */
  predicate Inv(s: Spi, v: Slave) {
    match s.phase
    case Idle => s.counter == SPI_LEN && (s.syncN || v.shift == [])
    case SendN =>
      && !s.syncN && s.sclk && 1 <= s.counter <= SPI_LEN
      && s.dout == s.save[s.counter - 1] && v.shift == MsbFirst(s.save)[..SPI_LEN - s.counter]
    case Send => !s.syncN && !s.sclk && s.counter < SPI_LEN && v.shift == MsbFirst(s.save)[..SPI_LEN - s.counter]
    case Delay => s.syncN && s.sclk && s.counter == 1 && v.last == MsbFirst(s.save)
    case Reload => s.syncN && s.sclk && s.counter == 0 && v.last == MsbFirst(s.save)
    case End => s.syncN && s.sclk && 1 <= s.counter <= PAUSE + 1 && v.last == MsbFirst(s.save)
  }

  lemma FromIdle(s: Spi, v: Slave, en: bool, dataIn: Word)
    requires Inv(s, v) && s.phase == Idle
    ensures var t := Next(s, en, dataIn); Inv(t, Sees(v, s, t)) && (t.phase != Idle ==> t.save == s.save)
  {
    assert MsbFirst(s.save)[..0] == [];
  }

  lemma FromSend(s: Spi, v: Slave, en: bool, dataIn: Word)
    requires Inv(s, v) && s.phase == Send
    ensures var t := Next(s, en, dataIn); Inv(t, Sees(v, s, t)) && t.save == s.save
  {
    var word := MsbFirst(s.save);
    assert word[..SPI_LEN] == word;
  }

  lemma FromSendN(s: Spi, v: Slave, en: bool, dataIn: Word)
    requires Inv(s, v) && s.phase == SendN
    ensures var t := Next(s, en, dataIn); Inv(t, Sees(v, s, t)) && t.save == s.save
  {
    var word := MsbFirst(s.save);
    assert word[..SPI_LEN - s.counter] + [word[SPI_LEN - s.counter]] == word[..SPI_LEN - s.counter + 1];
  }

  lemma EdgeKeepsInv(s: Spi, v: Slave, en: bool, dataIn: Word)
    requires Inv(s, v)
    ensures var t := Next(s, en, dataIn);
            && Inv(t, Sees(v, s, t))
            && (t.phase != Idle ==> t.save == s.save)
  {
    match s.phase
    case Idle => FromIdle(s, v, en, dataIn);
    case Send => FromSend(s, v, en, dataIn);
    case SendN => FromSendN(s, v, en, dataIn);
    case _ =>
  }

  // ---- Whole runs

  datatype Edge = Edge(en: bool, dataIn: Word)

  /** `latched` logs the input seen at the last edge into idle. */
  datatype Bus = Bus(spi: Spi, slave: Slave, latched: Word)

  function Step(b: Bus, e: Edge): Bus {
    var t := Next(b.spi, e.en, e.dataIn);
    Bus(t, Sees(b.slave, b.spi, t), if t.phase == Idle then e.dataIn else b.latched)
  }

  function Run(b: Bus, es: seq<Edge>): Bus
    decreases |es|
  {
    if es == [] then b else Step(Run(b, es[..|es| - 1]), es[|es| - 1])
  }

  predicate BusInv(b: Bus) {
    Inv(b.spi, b.slave) && b.spi.save == b.latched
  }

  lemma {:induction false} RunKeepsInv(b: Bus, es: seq<Edge>)
    requires BusInv(b)
    ensures BusInv(Run(b, es))
    decreases |es|
  {
    if es != [] {
      RunKeepsInv(b, es[..|es| - 1]);
      var m, e := Run(b, es[..|es| - 1]), es[|es| - 1];
      EdgeKeepsInv(m.spi, m.slave, e.en, e.dataIn);
    }
  }

  /**
   Whatever the data input and the enable do during a transfer, a slave that shifts while the
   frame line is low holds, from the rise of that line to the next idle edge, exactly the sixteen
   bits latched at the last idle edge, highest bit first.
   */
  lemma WordIsTransferred(b: Bus, es: seq<Edge>)
    requires b.spi.phase == Idle && Inv(b.spi, b.slave) && b.spi.save == b.latched
    ensures var e := Run(b, es);
            e.spi.phase in {Delay, Reload, End} ==> e.spi.syncN && e.slave.last == MsbFirst(e.latched)
  {
    RunKeepsInv(b, es);
  }

  /** The registers `n` edges after a word has ended. */
  predicate Paused(s: Spi, n: nat) {
    s.syncN && s.sclk
    && if n == 0 then s.phase == Delay && s.counter == 1
       else if n == 1 then s.phase == Reload && s.counter == 0
       else if n <= 10 then s.phase == End && s.counter == n - 1
       else s.phase == Idle && s.counter == SPI_LEN
  }

  lemma PauseStep(s: Spi, n: nat, en: bool, dataIn: Word)
    requires Paused(s, n) && n <= 10
    ensures Paused(Next(s, en, dataIn), n + 1)
  {
  }

  lemma {:induction false} PauseGoesOn(b: Bus, es: seq<Edge>)
    requires Inv(b.spi, b.slave) && b.spi.phase == Delay && |es| <= 11
    ensures Paused(Run(b, es).spi, |es|)
    decreases |es|
  {
    if es != [] {
      var init, e := es[..|es| - 1], es[|es| - 1];
      PauseGoesOn(b, init);
      PauseStep(Run(b, init).spi, |init|, e.en, e.dataIn);
    }
  }

  /**
   Between two words the frame line stays high, and the clock line with it, for exactly twelve edges
   when the serialiser is enabled again, and for more when it is not; it falls with the clock line high.
   */
  lemma LineRestsBetweenWords(b: Bus, es: seq<Edge>, e: Edge)
    requires Inv(b.spi, b.slave) && b.spi.phase == Delay
    ensures |es| <= 11 ==> Run(b, es).spi.syncN && Run(b, es).spi.sclk
    ensures |es| == 11 ==> Step(Run(b, es), e).spi.syncN == !e.en && Step(Run(b, es), e).spi.sclk
  {
    if |es| <= 11 {
      PauseGoesOn(b, es);
    }
  }

  /** An idle serialiser holds both lines high from its first edge on. */
  lemma {:induction false} IdleLinesHigh(b: Bus, es: seq<Edge>)
    requires BusInv(b) && es != []
    ensures Run(b, es).spi.phase == Idle ==> Run(b, es).spi.syncN && Run(b, es).spi.sclk
    decreases |es|
  {
  }

  class Serialiser {
    var state: Phase
    var counter: Reg5
    var dataInSave: Word
    var sclk: bool
    var dout: bool
    var syncN: bool

    function Registers(): Spi
      reads this
    {
      Spi(state, counter, dataInSave, sclk, dout, syncN)
    }

    constructor (power: Spi)
      requires power.phase == Idle && power.counter == SPI_LEN
      ensures Registers() == power
    {
      state, counter, dataInSave := Idle, SPI_LEN, power.save;
      sclk, dout, syncN := power.sclk, power.dout, power.syncN;
    }

    method Clock(en: bool, dataIn: Word)
      modifies this
      ensures Registers() == Next(old(Registers()), en, dataIn)
    {
      var next := NextPhase(Registers(), en);
      match next {
        case Idle =>
          dataInSave, counter, sclk, syncN := dataIn, SPI_LEN, true, true;
        case Send =>
          sclk, counter := false, (counter + 31) % 32;
        case SendN =>
          sclk, dout, syncN := true, Selected(Registers()), false;
        case Delay =>
          sclk, syncN, counter := true, true, (counter + 1) % 32;
        case Reload =>
          sclk, syncN, counter := true, true, 0;
        case End =>
          sclk, syncN, counter := true, true, (counter + 1) % 32;
      }
      state := next;
    }
  }
}
