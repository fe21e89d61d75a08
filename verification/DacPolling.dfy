/** The DAC multiplexer refresh DAC_POLLING around the serialiser, for every alignment of its clock. */
module DacPolling {
  import opened Bits
  import opened SpiOut
  import S = SpiOut

  datatype PollPhase = PollIdle | PollSend | PollCount | PollEnd

  datatype Poll = Poll(phase: PollPhase, pos: Reg3, counter: Reg3, dac: Bits12, spiEn: bool)

  type Channels = c: seq<Bits12> | |c| == 8 witness seq(8, _ => seq(12, _ => false))

  function PollNextPhase(p: Poll, en: bool, isIdle: bool, isEnd: bool): PollPhase {
    match p.phase
    case PollIdle => if en then PollSend else PollIdle
    case PollSend => if isEnd then PollCount else PollSend
    case PollCount => PollEnd
    case PollEnd => if isIdle then PollIdle else PollEnd
  }

  function PollNext(p: Poll, en: bool, isIdle: bool, isEnd: bool, dataIn: Channels): Poll {
    var t := p.(phase := PollNextPhase(p, en, isIdle, isEnd));
    match p.phase
    case PollIdle => t.(pos := 7, spiEn := false)
    case PollSend => t.(spiEn := true)
    case PollCount => t.(spiEn := false, pos := p.counter, counter := (p.counter + 1) % 8)
    case PollEnd => t.(dac := dataIn[p.counter])
  }

  /** Four zero bits above the channel value. */
  function Packed(dac: Bits12): Word {
    dac + [false, false, false, false]
  }

  /** A channel value as it was sampled. */
  datatype Sample = Sample(channel: Reg3, value: Bits12)

  /** One selection of the multiplexer: the position set, and the word the slave held by then. */
  datatype Selection = Selection(pos: Reg3, word: Bits, sample: Sample)

  /** `sample` logs the last value latched from the inputs, `shown` the selections made. */
  datatype System = System(poll: Poll, spi: Spi, slave: Slave, sample: Sample, shown: seq<Selection>)

  /** One core clock; `edge` tells whether the divided clock rises with it. */
  datatype Input = Input(en: bool, dataIn: Channels, edge: bool)

  function Step(s: System, i: Input): System {
    var poll := PollNext(s.poll, i.en, IsIdle(s.spi, s.poll.spiEn), IsEnd(s.spi, s.poll.spiEn), i.dataIn);
    var spi := if i.edge then S.Next(s.spi, poll.spiEn, Packed(poll.dac)) else s.spi;
    System(poll, spi, if i.edge then Sees(s.slave, s.spi, spi) else s.slave,
           if s.poll.phase == PollEnd then Sample(s.poll.counter, i.dataIn[s.poll.counter]) else s.sample,
           if s.poll.phase == PollCount then s.shown + [Selection(poll.pos, s.slave.last, s.sample)] else s.shown)
  }

  function Run(s: System, ins: seq<Input>): System
    decreases |ins|
  {
    if ins == [] then s else Step(Run(s, ins[..|ins| - 1]), ins[|ins| - 1])
  }

  /** The registers with an initial value have it; all others, the pins among them, hold anything. */
  predicate PowerOn(s: System) {
    && s.poll.phase == PollIdle && s.poll.counter == 0 && !s.poll.spiEn
    && s.spi.phase == S.Idle && s.spi.counter == SPI_LEN && s.slave.shift == []
    && s.shown == []
  }

  // ---- The invariant

  /** How the two machines can stand to each other. */
  predicate Paired(poll: Poll, spi: Spi) {
    match poll.phase
    case PollIdle => !poll.spiEn && (spi.phase == S.Idle || (spi.phase == S.End && spi.counter == PAUSE + 1))
    case PollSend =>
      if spi.phase == S.End then spi.counter == PAUSE + 1 else poll.spiEn || spi.phase == S.Idle
    case PollCount => poll.spiEn && (spi.phase == Reload || (spi.phase == S.End && spi.counter == 1))
    case PollEnd => !poll.spiEn && (spi.phase == Reload || spi.phase == S.End)
  }

  /** From the second conversion on: what is in the registers is the last sample of this channel. */
  predicate Fresh(s: System) {
    s.shown != [] ==>
      && (s.poll.phase != PollEnd ==> s.sample == Sample(s.poll.counter, s.poll.dac))
      && ((s.poll.phase == PollSend && s.spi.phase != S.End) || s.poll.phase == PollCount
          || (s.poll.phase == PollIdle && s.spi.phase == S.Idle)
          ==> s.spi.save == Packed(s.poll.dac))
  }

  /** The bits of a selection: four zeros, then the sampled value, the highest bit first. */
  predicate Shows(word: Bits, value: Bits12) {
    && |word| == SPI_LEN
    && (forall i :: 0 <= i < 4 ==> !word[i])
    && (forall i :: 4 <= i < SPI_LEN ==> word[i] == value[15 - i])
  }

  /** Every selection but the first is right, and the channels are taken in turn. */
  predicate ShownOk(counter: Reg3, shown: seq<Selection>) {
    && counter == |shown| % 8
    && (forall j :: 0 <= j < |shown| ==> shown[j].pos == j % 8)
    && (forall j :: 1 <= j < |shown| ==> Right(shown[j]))
  }

  predicate Right(sel: Selection) {
    sel.sample.channel == sel.pos && Shows(sel.word, sel.sample.value)
  }

  predicate Inv(s: System) {
    Paired(s.poll, s.spi) && S.Inv(s.spi, s.slave) && Fresh(s) && ShownOk(s.poll.counter, s.shown)
  }

  lemma PairedStays(s: System, i: Input)
    requires Inv(s)
    ensures Paired(Step(s, i).poll, Step(s, i).spi) && S.Inv(Step(s, i).spi, Step(s, i).slave)
  {
    var t := Step(s, i);
    if i.edge {
      EdgeKeepsInv(s.spi, s.slave, t.poll.spiEn, Packed(t.poll.dac));
    }
  }

  lemma FreshStays(s: System, i: Input)
    requires Inv(s)
    ensures Fresh(Step(s, i))
  {
    var t := Step(s, i);
    if i.edge {
      EdgeKeepsInv(s.spi, s.slave, t.poll.spiEn, Packed(t.poll.dac));
    }
  }

  lemma PackedShows(dac: Bits12)
    ensures Shows(MsbFirst(Packed(dac)), dac)
  {
  }

  lemma ShownAppends(counter: Reg3, shown: seq<Selection>, sel: Selection)
    requires ShownOk(counter, shown) && sel.pos == counter && (shown != [] ==> Right(sel))
    ensures ShownOk((counter + 1) % 8, shown + [sel])
  {
  }

  /** What the slave holds when a selection is made is the value last sampled for its channel. */
  lemma SelectionIsRight(s: System)
    requires Inv(s) && s.poll.phase == PollCount && s.shown != []
    ensures Right(Selection(s.poll.counter, s.slave.last, s.sample))
  {
    PackedShows(s.poll.dac);
  }

  lemma ShownStays(s: System, i: Input)
    requires Inv(s)
    ensures ShownOk(Step(s, i).poll.counter, Step(s, i).shown)
  {
    if s.poll.phase == PollCount {
      if s.shown != [] {
        SelectionIsRight(s);
      }
      ShownAppends(s.poll.counter, s.shown, Selection(s.poll.counter, s.slave.last, s.sample));
    }
  }

  lemma {:induction false} RunKeepsInv(s: System, ins: seq<Input>)
    requires Inv(s)
    ensures Inv(Run(s, ins))
    decreases |ins|
  {
    if ins != [] {
      RunKeepsInv(s, ins[..|ins| - 1]);
      var m, i := Run(s, ins[..|ins| - 1]), ins[|ins| - 1];
      PairedStays(m, i);
      FreshStays(m, i);
      ShownStays(m, i);
    }
  }

  /**
   For every alignment and even every pattern of serial clock edges, whatever the channel inputs
   do: the multiplexer is set to channels 0 to 7 in turn, and from the second time on the word the
   DAC has just completed is four zeros and the value last sampled for that very channel.
   */
  lemma ChannelsMatchWords(start: System, ins: seq<Input>, j: nat)
    requires PowerOn(start) && j < |Run(start, ins).shown|
    ensures var sel := Run(start, ins).shown[j];
            sel.pos == j % 8 && (j > 0 ==> Right(sel))
  {
    RunKeepsInv(start, ins);
  }

  class Poller {
    var state: PollPhase
    var pos: Reg3
    var counter: Reg3
    var dacData: Bits12
    var spiEn: bool

    function Registers(): Poll
      reads this
    {
      Poll(state, pos, counter, dacData, spiEn)
    }

    constructor (pos: Reg3, dacData: Bits12)
      ensures Registers() == Poll(PollIdle, pos, 0, dacData, false)
    {
      state, this.pos, counter, this.dacData, spiEn := PollIdle, pos, 0, dacData, false;
    }

    method Clock(en: bool, isIdle: bool, isEnd: bool, dataIn: Channels)
      modifies this
      ensures Registers() == PollNext(old(Registers()), en, isIdle, isEnd, dataIn)
    {
      var next := PollNextPhase(Registers(), en, isIdle, isEnd);
      match state {
        case PollIdle =>
          pos, spiEn := 7, false;
        case PollSend =>
          spiEn := true;
        case PollCount =>
          spiEn, pos, counter := false, counter, (counter + 1) % 8;
        case PollEnd =>
          dacData := dataIn[counter];
      }
      state := next;
    }
  }
}
