/** The multiplexer refresh on its own divided clock: selections keep coming. */
module DacTiming {
  import opened DacPolling
  import opened SpiOut
  import P = DacPolling
  import D = Divs

  /** The serial clock is the core clock divided by 14. */
  const STEP: nat := D.StepOf(14)

  datatype Clocked = Clocked(system: System, clock: D.Divider)

  /** One core clock of the enabled controller. */
  function Step(c: Clocked, dataIn: Channels): Clocked {
    Clocked(P.Step(c.system, Input(true, dataIn, D.Rises(c.clock, STEP))), D.Next(c.clock, STEP))
  }

  function Run(c: Clocked, ins: seq<Channels>): Clocked
    decreases |ins|
  {
    if ins == [] then c else Step(Run(c, ins[..|ins| - 1]), ins[|ins| - 1])
  }

  /** Edges of the serial clock until the serialiser's end of a word lets the next selection be made. */
  function EdgesLeft(poll: Poll, spi: Spi): nat {
    match poll.phase
    case PollIdle => 35
    case PollEnd => if spi.phase == SpiOut.End && spi.counter <= PAUSE + 1 then 36 + (PAUSE + 1 - spi.counter) else 45
    case PollCount => 0
    case PollSend =>
      match spi.phase
      case Idle => 34
      case SendN => 2 * spi.counter + 1
      case Send => 2 * spi.counter + 2
      case Delay => 1
      case Reload => 0
      case End => 35
  }

  /** A bound on the core clocks until the next selection. */
  function ClocksLeft(c: Clocked): nat {
    if c.system.poll.phase == PollCount then 1
    else 14 * EdgesLeft(c.system.poll, c.system.spi) + D.UntilRise(c.clock, STEP) + 1
  }

  /** The longest wait between two selections. */
  const MAX_WAIT := 645

  predicate Inv(c: Clocked) {
    P.Inv(c.system) && c.clock.cnt <= STEP
  }

  lemma WaitIsBounded(c: Clocked)
    requires Inv(c)
    ensures 1 <= ClocksLeft(c) <= MAX_WAIT
  {
  }

  /** An edge of the serial clock brings the selection one edge nearer, and no other clock takes it away. */
  lemma EdgeAdvances(s: System, i: Input)
    requires P.Inv(s) && i.en && s.poll.phase != PollCount
    ensures var t := P.Step(s, i);
            t.poll.phase != PollCount
            ==> EdgesLeft(t.poll, t.spi) + (if i.edge then 1 else 0) <= EdgesLeft(s.poll, s.spi)
  {
  }

  lemma StepAdvances(c: Clocked, dataIn: Channels)
    requires Inv(c)
    ensures var t := Step(c, dataIn);
            if c.system.poll.phase == PollCount then |t.system.shown| == |c.system.shown| + 1
            else |t.system.shown| == |c.system.shown| && ClocksLeft(t) < ClocksLeft(c)
  {
    D.UntilRiseCountsDown(c.clock, STEP);
    if c.system.poll.phase != PollCount {
      EdgeAdvances(c.system, Input(true, dataIn, D.Rises(c.clock, STEP)));
    }
  }

  lemma StepKeepsInv(c: Clocked, dataIn: Channels)
    requires Inv(c)
    ensures Inv(Step(c, dataIn))
  {
    var i := Input(true, dataIn, D.Rises(c.clock, STEP));
    PairedStays(c.system, i);
    FreshStays(c.system, i);
    ShownStays(c.system, i);
  }

  lemma {:induction false} RunAdvances(c: Clocked, ins: seq<Channels>)
    requires Inv(c) && c.system.shown == []
    ensures var e := Run(c, ins);
            Inv(e) && |ins| + ClocksLeft(e) <= MAX_WAIT * (|e.system.shown| + 1)
    decreases |ins|
  {
    WaitIsBounded(c);
    if ins != [] {
      RunAdvances(c, ins[..|ins| - 1]);
      var m := Run(c, ins[..|ins| - 1]);
      StepKeepsInv(m, ins[|ins| - 1]);
      StepAdvances(m, ins[|ins| - 1]);
      WaitIsBounded(Step(m, ins[|ins| - 1]));
    }
  }

  /**
   On the board's clock, from any phase of the divider: selection `j` has been made after at most
   645 core clocks for each selection up to it, it is channel `j` modulo 8, and from the second on
   the word just completed is four zeros and the value last sampled for that channel.
   */
  lemma ChannelsAreRefreshed(start: Clocked, ins: seq<Channels>, j: nat)
    requires PowerOn(start.system) && start.clock.cnt <= STEP && |ins| >= 645 * (j + 1)
    ensures var shown := Run(start, ins).system.shown;
            j < |shown| && shown[j].pos == j % 8 && (j > 0 ==> Right(shown[j]))
  {
    RunAdvances(start, ins);
  }

  lemma {:induction false} WaitRunsOut(c: Clocked, ins: seq<Channels>)
    requires Inv(c)
    ensures var e := Run(c, ins);
            && Inv(e) && |e.system.shown| >= |c.system.shown|
            && (|e.system.shown| > |c.system.shown| || ClocksLeft(e) + |ins| <= ClocksLeft(c))
    decreases |ins|
  {
    if ins != [] {
      WaitRunsOut(c, ins[..|ins| - 1]);
      var m := Run(c, ins[..|ins| - 1]);
      StepKeepsInv(m, ins[|ins| - 1]);
      StepAdvances(m, ins[|ins| - 1]);
      WaitIsBounded(m);
    }
  }

  /** At any time the next selection is at most 645 core clocks away. */
  lemma NextSelectionComes(start: Clocked, ins: seq<Channels>, more: seq<Channels>)
    requires PowerOn(start.system) && start.clock.cnt <= STEP && |more| >= 645
    ensures |Run(Run(start, ins), more).system.shown| > |Run(start, ins).system.shown|
  {
    RunAdvances(start, ins);
    WaitIsBounded(Run(start, ins));
    WaitRunsOut(Run(start, ins), more);
    WaitIsBounded(Run(Run(start, ins), more));
  }
}
