/** When writing stops, every accepted byte is announced within a fixed number of clocks. */
module SerialDrain {
  import opened Bits
  import opened SerialLink
  import T = UartTxd
  import R = UartRxd

  /** Nothing is on its way and both sides rest. */
  predicate Drained(s: Link) {
    s.tx.phase == T.Idle && Waiting(s.rx) && s.received == s.accepted
  }

  predicate NoWrites(ws: seq<Write>) {
    forall i :: 0 <= i < |ws| ==> !ws[i].en
  }

  /** Transmit ticks until the transmitter is idle again. */
  function TxTicksLeft(tx: T.Tx): nat {
    match tx.phase
    case Idle => 0
    case Start => 10
    case Data => 9 - tx.bitpos
    case Stop => 1
  }

  /** Clocks until the last of `ticks` further ticks, the next one being `period - age` away. */
  function ClocksLeft(ticks: nat, age: nat, period: nat): int {
    Span(ticks, period) - age + 1
  }

  /** An upper bound on the clocks until the link is drained. */
  function Work(r: Rate, s: Link): int {
    if s.tx.phase != T.Idle then ClocksLeft(TxTicksLeft(s.tx), Age(s.txAcc, r.tx), r.tx) + 25 * r.rx
    else if Busy(s.rx) && Ticks(s.rx) <= 160 then
      ClocksLeft(160 - Ticks(s.rx), Age(s.rxAcc, r.rx), r.rx)
    else 0
  }

  lemma TrailingIsNearlyDone(r: Rate, s: Link)
    requires r.Recoverable() && Inv(r, s) && Trailing(r, s)
    ensures 137 <= Ticks(s.rx) < 160
    ensures 1 <= ClocksLeft(160 - Ticks(s.rx), Age(s.rxAcc, r.rx), r.rx) <= 24 * r.rx
  {
    var n := Ticks(s.rx);
    SpanGrows(1, 160 - n, r.rx);
    SpanGrows(160 - n, 24, r.rx);
    SpanIsProduct(24, r.rx);
    assert Span(1, r.rx) == r.rx;
  }

  lemma BusyTransmitterBound(r: Rate, s: Link)
    requires r.Recoverable() && Inv(r, s) && s.tx.phase != T.Idle
    ensures 25 * r.rx < Work(r, s) <= 10 * r.tx + 25 * r.rx
  {
    var n := TxTicksLeft(s.tx);
    SpanGrows(1, n, r.tx);
    SpanGrows(n, 10, r.tx);
    SpanIsProduct(10, r.tx);
    assert Span(1, r.tx) == r.tx;
  }

  /** An idle transmitter leaves the link either drained or in its trailing situation. */
  lemma IdleSituations(r: Rate, s: Link)
    requires Inv(r, s) && s.tx.phase == T.Idle
    ensures Drained(s) || Trailing(r, s)
  {
  }

  lemma WorkBounds(r: Rate, s: Link)
    requires r.Recoverable() && Inv(r, s)
    ensures 0 <= Work(r, s) <= 10 * r.tx + 25 * r.rx
    ensures Work(r, s) == 0 ==> Drained(s)
  {
    if s.tx.phase != T.Idle {
      BusyTransmitterBound(r, s);
    } else {
      IdleSituations(r, s);
      if Trailing(r, s) {
        TrailingIsNearlyDone(r, s);
      }
    }
  }

  lemma WorkShrinks(r: Rate, s: Link, w: Write)
    requires r.Recoverable() && Inv(r, s) && !w.en && !Drained(s)
    ensures Work(r, Clock(r, s, w)) < Work(r, s)
  {
    var c := Clock(r, s, w);
    StepKeepsInv(r, s, w);
    if s.tx.phase != T.Idle {
      BusyTransmitterBound(r, s);
      if c.tx.phase == T.Idle {
        IdleSituations(r, c);
        if Trailing(r, c) {
          TrailingIsNearlyDone(r, c);
        }
      }
    } else {
      IdleSituations(r, s);
      TrailingIsNearlyDone(r, s);
      IdleSituations(r, c);
      if Trailing(r, c) {
        TrailingIsNearlyDone(r, c);
        if s.rxAcc == 0 {
          CountsOneTick(s.rx, true, s.accepted[|s.received|]);
        }
      }
    }
  }

  /** Without writes the logs of a drained link stand still. */
  lemma DrainedStays(r: Rate, s: Link, w: Write)
    requires Inv(r, s) && Drained(s) && !w.en
    ensures Drained(Clock(r, s, w)) && Clock(r, s, w).accepted == s.accepted
  {
  }

  lemma {:induction false} RunSplits(r: Rate, s: Link, a: seq<Write>, b: seq<Write>)
    ensures Run(r, s, a + b) == Run(r, Run(r, s, a), b)
    decreases |b|
  {
    if b == [] {
      assert a + b == a;
    } else {
      var b' := b[..|b| - 1];
      RunSplits(r, s, a, b');
      assert (a + b)[..|a + b| - 1] == a + b';
    }
  }

  lemma {:induction false} RunDrains(r: Rate, s: Link, ws: seq<Write>)
    requires r.Recoverable() && Inv(r, s) && NoWrites(ws)
    ensures var e := Run(r, s, ws);
            e.accepted == s.accepted && (Drained(e) || Work(r, e) + |ws| <= Work(r, s))
    decreases |ws|
  {
    if ws != [] {
      var ws' := ws[..|ws| - 1];
      RunDrains(r, s, ws');
      RunKeepsInv(r, s, ws');
      var m := Run(r, s, ws');
      if Drained(m) {
        DrainedStays(r, m, ws[|ws| - 1]);
      } else {
        WorkShrinks(r, m, ws[|ws| - 1]);
      }
    }
  }

  /**
   Nothing is lost: ten bit times and twenty-five receive ticks after the last write, every
   byte the transmitter accepted has been announced, in order and once.
   */
  lemma EverythingArrives(r: Rate, start: Link, ws: seq<Write>, idle: seq<Write>)
    requires r.Recoverable() && AtRest(r, start)
    requires NoWrites(idle) && |idle| > 10 * r.tx + 25 * r.rx
    ensures var e := Run(r, start, ws + idle);
            Drained(e) && e.received == Offered(r, start, ws)
  {
    AcceptedAreOffered(r, start, ws);
    assert Quiet(r, start);
    RunKeepsInv(r, start, ws);
    var m := Run(r, start, ws);
    RunSplits(r, start, ws, idle);
    WorkBounds(r, m);
    RunDrains(r, m, idle);
    RunKeepsInv(r, m, idle);
    WorkBounds(r, Run(r, m, idle));
  }
}
