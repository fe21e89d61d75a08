/** The reporter driving the transmitter: how its frames reach the line. */
module Reporting {
  import opened Bits
  import opened ReportFrame
  import opened Reg2Uart
  import T = UartTxd

  /**
   `snapshots` logs the reports sampled while saving, `accepted` the bytes the transmitter took;
   neither influences the registers.
   */
  datatype Feeder = Feeder(reporter: Reporter, tx: T.Tx, snapshots: seq<Report>, accepted: seq<Byte>)

  /** The inputs of one clock: the transmit tick, the enable and the report wires. */
  datatype Input = Input(tick: bool, en: bool, report: Report)

  function FeederNext(s: Feeder, i: Input): (t: Feeder)
    requires s.reporter.Valid()
    ensures t.reporter.Valid()
  {
    Feeder(Next(s.reporter, i.en, i.report, T.Busy(s.tx)),
           T.Next(s.tx, i.tick, s.reporter.oEn, s.reporter.dout),
           if s.reporter.phase == Saving then s.snapshots + [i.report] else s.snapshots,
           if T.Accepts(s.tx, s.reporter.oEn) then s.accepted + [s.reporter.dout] else s.accepted)
  }

  function Frames(ps: seq<Report>): (bytes: seq<Byte>)
    ensures |bytes| == 8 * |ps|
    decreases |ps|
  {
    if ps == [] then [] else Frames(ps[..|ps| - 1]) + Frame(ps[|ps| - 1])
  }

  /** The first `k` bytes of the newest frame, after all of the older ones, have been taken. */
  predicate Taken(s: Feeder, k: nat) {
    && k <= 8 && s.snapshots != []
    && s.reporter.data == Frame(s.snapshots[|s.snapshots| - 1])
    && s.accepted == Frames(s.snapshots[..|s.snapshots| - 1]) + s.reporter.data[..k]
  }

  predicate BetweenFrames(s: Feeder) {
    && (s.reporter.phase == Idle || s.reporter.phase == Saving)
    && s.tx.phase == T.Idle && !s.reporter.oEn && s.accepted == Frames(s.snapshots)
  }

  /** A byte is on offer, or was taken one clock ago. */
  predicate Offering(s: Feeder) {
    && s.reporter.Valid() && s.reporter.phase == SendStart
    && (s.reporter.oEn ==> s.reporter.dout == s.reporter.data[s.reporter.counter])
    && (if s.tx.phase == T.Idle then Taken(s, s.reporter.counter)
        else s.reporter.oEn && s.tx.phase == T.Start && Taken(s, s.reporter.counter + 1))
  }

  /** The write line is still up, and the transmitter is too busy to see it. */
  predicate Withdrawing(s: Feeder) {
    && s.reporter.phase == SendAdd
    && (s.tx.phase == T.Start || (s.tx.phase == T.Data && s.tx.bitpos == 0))
    && Taken(s, s.reporter.counter + 1)
  }

  predicate WaitingForStop(s: Feeder) {
    && s.reporter.phase == SendEnd && !s.reporter.oEn
    && 1 <= s.reporter.counter <= 8 && Taken(s, s.reporter.counter)
  }

  predicate Inv(s: Feeder) {
    && s.reporter.Valid() && (s.tx.phase == T.Start ==> s.tx.bitpos == 0)
    && (BetweenFrames(s) || Offering(s) || Withdrawing(s) || WaitingForStop(s))
  }

  lemma BetweenFramesStep(s: Feeder, i: Input)
    requires Inv(s) && BetweenFrames(s)
    ensures Inv(FeederNext(s, i))
  {
    var t := FeederNext(s, i);
    if s.reporter.phase == Saving {
      assert t.snapshots[..|t.snapshots| - 1] == s.snapshots;
      assert Taken(t, 0);
      assert Offering(t);
    } else {
      assert BetweenFrames(t);
    }
  }

  /** The offered byte is not up yet, or the transmitter takes it now. */
  lemma OfferMade(s: Feeder, i: Input)
    requires Inv(s) && Offering(s) && s.tx.phase == T.Idle
    ensures Offering(FeederNext(s, i))
  {
    var t, k := FeederNext(s, i), s.reporter.counter;
    if s.reporter.oEn {
      assert s.reporter.data[..k] + [s.reporter.data[k]] == s.reporter.data[..k + 1];
      assert Taken(t, k + 1);
    } else {
      assert Taken(t, k);
    }
  }

  lemma OfferTaken(s: Feeder, i: Input)
    requires Inv(s) && Offering(s) && s.tx.phase != T.Idle
    ensures Withdrawing(FeederNext(s, i))
  {
    assert Taken(FeederNext(s, i), s.reporter.counter + 1);
  }

  lemma OfferingStep(s: Feeder, i: Input)
    requires Inv(s) && Offering(s)
    ensures Inv(FeederNext(s, i))
  {
    if s.tx.phase == T.Idle {
      OfferMade(s, i);
    } else {
      OfferTaken(s, i);
    }
  }

  /** A busy transmitter takes nothing. */
  lemma BusyTakesNothing(s: Feeder, i: Input, k: nat)
    requires s.reporter.Valid() && s.reporter.phase == SendAdd && s.tx.phase != T.Idle && Taken(s, k)
    ensures Taken(FeederNext(s, i), k)
  {
  }

  lemma WithdrawingStep(s: Feeder, i: Input)
    requires Inv(s) && Withdrawing(s)
    ensures Inv(FeederNext(s, i))
  {
    BusyTakesNothing(s, i, s.reporter.counter + 1);
    var t := FeederNext(s, i);
    assert t.reporter.counter == s.reporter.counter + 1;
    assert WaitingForStop(t);
  }

  lemma WaitingForStopStep(s: Feeder, i: Input)
    requires Inv(s) && WaitingForStop(s)
    ensures Inv(FeederNext(s, i))
  {
    var t := FeederNext(s, i);
    if T.Busy(s.tx) {
      assert WaitingForStop(t);
    } else if s.reporter.counter == 8 {
      assert s.reporter.data[..8] == s.reporter.data;
      assert BetweenFrames(t);
    } else {
      assert Offering(t);
    }
  }

  lemma StepKeepsInv(s: Feeder, i: Input)
    requires Inv(s)
    ensures Inv(FeederNext(s, i))
  {
    if BetweenFrames(s) {
      BetweenFramesStep(s, i);
    } else if Offering(s) {
      OfferingStep(s, i);
    } else if Withdrawing(s) {
      WithdrawingStep(s, i);
    } else {
      WaitingForStopStep(s, i);
    }
  }

  function FeederRun(s: Feeder, ins: seq<Input>): (t: Feeder)
    requires s.reporter.Valid()
    ensures t.reporter.Valid()
    decreases |ins|
  {
    if ins == [] then s else FeederNext(FeederRun(s, ins[..|ins| - 1]), ins[|ins| - 1])
  }

  lemma {:induction false} RunKeepsInv(s: Feeder, ins: seq<Input>)
    requires Inv(s)
    ensures Inv(FeederRun(s, ins))
    decreases |ins|
  {
    if ins != [] {
      RunKeepsInv(s, ins[..|ins| - 1]);
      StepKeepsInv(FeederRun(s, ins[..|ins| - 1]), ins[|ins| - 1]);
    }
  }

  predicate FeederAtRest(s: Feeder) {
    && s.reporter.Valid() && s.reporter.phase == Idle && !s.reporter.oEn
    && s.tx.phase == T.Idle && s.snapshots == [] && s.accepted == []
  }

  /** What the invariant says about the byte stream. */
  lemma TakenInOrder(s: Feeder)
    requires Inv(s)
    ensures s.accepted <= Frames(s.snapshots) && |Frames(s.snapshots)| <= |s.accepted| + 8
    ensures s.reporter.phase == Idle ==> s.accepted == Frames(s.snapshots)
  {
  }

  /**
   For every schedule of transmit ticks, even one in each clock, and whatever the report wires
   do meanwhile, the transmitter takes the bytes of each snapshot's frame once and in order.
   */
  lemma FramesAreTaken(start: Feeder, ins: seq<Input>)
    requires FeederAtRest(start)
    ensures var e := FeederRun(start, ins);
            && e.accepted <= Frames(e.snapshots) && |Frames(e.snapshots)| <= |e.accepted| + 8
            && (e.reporter.phase == Idle ==> e.accepted == Frames(e.snapshots))
  {
    assert BetweenFrames(start);
    RunKeepsInv(start, ins);
    TakenInOrder(FeederRun(start, ins));
  }

  // ---- What the snapshots are, and what is shown meanwhile

  /** `ps` picks some of the reports on the wires, in order. */
  predicate PickedFrom(ps: seq<Report>, ins: seq<Input>)
    decreases |ins|
  {
    if ps == [] then true
    else
      ins != []
      && ((ps[|ps| - 1] == ins[|ins| - 1].report && PickedFrom(ps[..|ps| - 1], ins[..|ins| - 1]))
          || PickedFrom(ps, ins[..|ins| - 1]))
  }

  /** Every snapshot is what the report wires showed in a clock of its own. */
  lemma {:induction false} SnapshotsArePicked(start: Feeder, ins: seq<Input>)
    requires start.reporter.Valid() && start.snapshots == []
    ensures PickedFrom(FeederRun(start, ins).snapshots, ins)
    decreases |ins|
  {
    if ins != [] {
      var m, e := FeederRun(start, ins[..|ins| - 1]), FeederRun(start, ins);
      SnapshotsArePicked(start, ins[..|ins| - 1]);
      if e.snapshots != m.snapshots {
        assert e.snapshots[..|e.snapshots| - 1] == m.snapshots;
      }
    }
  }

  /** `isBusy` is up from the clock after a snapshot until the frame is over, and down when the next one is taken. */
  lemma {:induction false} BusyWhileSending(start: Feeder, ins: seq<Input>)
    requires FeederAtRest(start)
    ensures var s := FeederRun(start, ins).reporter;
            && (s.phase != Idle && s.phase != Saving ==> s.isBusy)
            && (s.phase == Saving ==> !s.isBusy)
    decreases |ins|
  {
    if ins != [] {
      BusyWhileSending(start, ins[..|ins| - 1]);
    }
  }

  /** While it is not enabled an idle reporter takes no snapshot and offers nothing. */
  lemma {:induction false} DisabledStaysQuiet(start: Feeder, ins: seq<Input>)
    requires FeederAtRest(start) && forall i :: 0 <= i < |ins| ==> !ins[i].en
    ensures FeederAtRest(FeederRun(start, ins))
    decreases |ins|
  {
    if ins != [] {
      DisabledStaysQuiet(start, ins[..|ins| - 1]);
      assert !ins[|ins| - 1].en;
    }
  }
}
