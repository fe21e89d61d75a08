/** An enabled reporter keeps reporting. */
module ReportProgress {
  import opened Bits
  import opened ReportFrame
  import opened Reg2Uart
  import opened Reporting
  import L = SerialLink
  import T = UartTxd

  /** Clocks since the last tick. */
  function Since(ins: seq<Input>): nat
    decreases |ins|
  {
    if ins == [] || ins[|ins| - 1].tick then 0 else Since(ins[..|ins| - 1]) + 1
  }

  /** The reporter is enabled throughout, and any `period` clocks hold a transmit tick. */
  predicate Served(ins: seq<Input>, period: nat)
    decreases |ins|
  {
    ins == [] || (Served(ins[..|ins| - 1], period) && ins[|ins| - 1].en && Since(ins) < period)
  }

  /** Transmit ticks until the transmitter is idle again. */
  function TicksLeft(tx: T.Tx): nat {
    match tx.phase
    case Idle => 0
    case Start => 10
    case Data => 9 - tx.bitpos
    case Stop => 1
  }

  /** A bound on the clocks until the transmitter is idle again. */
  function BusyLeft(tx: T.Tx, since: nat, period: nat): int {
    if TicksLeft(tx) == 0 then 0 else L.Span(TicksLeft(tx) - 1, period) + period - since
  }

  /** A bound on the clocks until the next snapshot is taken or the next byte is accepted. */
  function ClocksLeft(s: Feeder, since: nat, period: nat): int {
    match s.reporter.phase
    case Idle => 2
    case Saving => 1
    case SendStart =>
      if s.tx.phase != T.Idle then BusyLeft(s.tx, since, period) + 3 else if s.reporter.oEn then 1 else 2
    case SendAdd => BusyLeft(s.tx, since, period) + 3
    case SendEnd => BusyLeft(s.tx, since, period) + 3
  }

  function MaxWait(period: nat): nat {
    10 * period + 3
  }

  /** The clocks in which `n` frames are snapshot and taken: nine events each, and a wait before each event. */
  function Due(n: nat, period: nat): nat {
    L.Span(9 * n, MaxWait(period))
  }

  lemma DueIsProduct(n: nat, period: nat)
    ensures Due(n, period) == 9 * n * (10 * period + 3)
  {
    L.SpanIsProduct(9 * n, MaxWait(period));
  }

  /** Snapshots taken and bytes accepted. */
  function Events(s: Feeder): nat {
    |s.snapshots| + |s.accepted|
  }

  lemma BusyLeftBound(tx: T.Tx, since: nat, period: nat)
    requires since < period
    ensures 0 <= BusyLeft(tx, since, period) <= 10 * period
    ensures tx.phase != T.Idle ==> 1 <= BusyLeft(tx, since, period)
  {
    if TicksLeft(tx) > 0 {
      L.SpanGrows(TicksLeft(tx) - 1, 9, period);
      L.SpanIsProduct(9, period);
    }
  }

  /** A clock brings the end of the byte nearer. */
  lemma BusyLeftShrinks(tx: T.Tx, i: Input, wrEn: bool, din: Byte, since: nat, period: nat)
    requires since < period && tx.phase != T.Idle && (!i.tick ==> since + 1 < period)
    requires tx.phase == T.Start ==> tx.bitpos == 0
    ensures BusyLeft(T.Next(tx, i.tick, wrEn, din), if i.tick then 0 else since + 1, period)
            < BusyLeft(tx, since, period)
  {
    if i.tick && TicksLeft(tx) >= 2 {
      assert L.Span(TicksLeft(tx) - 1, period) == L.Span(TicksLeft(tx) - 2, period) + period;
    }
  }

  lemma StepAdvances(s: Feeder, i: Input, since: nat, period: nat)
    requires Inv(s) && i.en && since < period && (!i.tick ==> since + 1 < period)
    ensures var t := FeederNext(s, i);
            || Events(t) == Events(s) + 1
            || (Events(t) == Events(s)
                && ClocksLeft(t, if i.tick then 0 else since + 1, period) < ClocksLeft(s, since, period))
  {
    if s.tx.phase != T.Idle {
      BusyLeftShrinks(s.tx, i, s.reporter.oEn, s.reporter.dout, since, period);
      BusyLeftBound(s.tx, since, period);
      BusyLeftBound(FeederNext(s, i).tx, if i.tick then 0 else since + 1, period);
    }
  }

  lemma WaitIsBounded(s: Feeder, since: nat, period: nat)
    requires since < period
    ensures 1 <= ClocksLeft(s, since, period) <= MaxWait(period)
  {
    BusyLeftBound(s.tx, since, period);
  }

  /** `n` clocks, and what is still to wait, fit into the waits of the events there have been. */
  predicate OnTime(s: Feeder, since: nat, period: nat, n: nat) {
    n + ClocksLeft(s, since, period) <= L.Span(Events(s) + 1, MaxWait(period))
  }

  lemma StepIsOnTime(s: Feeder, i: Input, since: nat, period: nat, n: nat)
    requires Inv(s) && i.en && since < period && (!i.tick ==> since + 1 < period)
    requires OnTime(s, since, period, n)
    ensures OnTime(FeederNext(s, i), if i.tick then 0 else since + 1, period, n + 1)
  {
    StepAdvances(s, i, since, period);
    WaitIsBounded(s, since, period);
    WaitIsBounded(FeederNext(s, i), if i.tick then 0 else since + 1, period);
  }

  lemma {:induction false} RunIsOnTime(start: Feeder, ins: seq<Input>, period: nat)
    requires FeederAtRest(start) && Served(ins, period) && period > 0
    ensures Since(ins) < period && OnTime(FeederRun(start, ins), Since(ins), period, |ins|)
    decreases |ins|
  {
    if ins == [] {
      assert L.Span(1, MaxWait(period)) == MaxWait(period);
    } else {
      var init, i := ins[..|ins| - 1], ins[|ins| - 1];
      RunIsOnTime(start, init, period);
      assert BetweenFrames(start);
      RunKeepsInv(start, init);
      StepIsOnTime(FeederRun(start, init), i, Since(init), period, |init|);
    }
  }

  /**
   An enabled reporter never falls silent: `n` frames have been snapshot, and all their bytes taken
   in order, after `Due(n, T)` clocks, when any `T` clocks hold a transmit tick.
   */
  lemma FramesKeepComing(start: Feeder, ins: seq<Input>, period: nat, n: nat)
    requires FeederAtRest(start) && Served(ins, period) && period > 0
    requires |ins| >= Due(n, period)
    ensures var e := FeederRun(start, ins);
            |e.snapshots| >= n && |e.accepted| >= 8 * n && e.accepted <= Frames(e.snapshots)
  {
    RunIsOnTime(start, ins, period);
    assert BetweenFrames(start);
    RunKeepsInv(start, ins);
    var e := FeederRun(start, ins);
    TakenInOrder(e);
    WaitIsBounded(e, Since(ins), period);
    EventsCount(e, period, n, |ins|, Since(ins));
  }

  lemma EventsCount(s: Feeder, period: nat, n: nat, clocks: nat, since: nat)
    requires OnTime(s, since, period, clocks) && 1 <= ClocksLeft(s, since, period)
    requires clocks >= Due(n, period)
    ensures Events(s) >= 9 * n
  {
    if Events(s) + 1 <= 9 * n {
      L.SpanGrows(Events(s) + 1, 9 * n, MaxWait(period));
      assert false;
    }
  }
}
