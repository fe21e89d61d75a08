/** The board's reports seen from the far end of the serial line. */
module Telemetry {
  import opened Bits
  import opened SerialLink
  import opened ReportFrame
  import opened Reg2Uart
  import FrameSplitter
  import S = Reporting
  import P = ReportProgress
  import BaudGen
  import D = SerialDrain
  import T = UartTxd

  datatype System = System(reporter: Reporter, link: Link, snapshots: seq<Report>)

  datatype Wires = Wires(en: bool, report: Report)

  /** One clock of reporter, transmitter, line and receiver. */
  function Step(r: Rate, s: System, i: Wires): (t: System)
    requires s.reporter.Valid()
    ensures t.reporter.Valid()
  {
    System(Next(s.reporter, i.en, i.report, T.Busy(s.link.tx)),
           Clock(r, s.link, Write(s.reporter.oEn, s.reporter.dout)),
           if s.reporter.phase == Saving then s.snapshots + [i.report] else s.snapshots)
  }

  function Steps(r: Rate, s: System, ins: seq<Wires>): (t: System)
    requires s.reporter.Valid()
    ensures t.reporter.Valid()
    decreases |ins|
  {
    if ins == [] then s else Step(r, Steps(r, s, ins[..|ins| - 1]), ins[|ins| - 1])
  }

  function FeederOf(s: System): S.Feeder {
    S.Feeder(s.reporter, s.link.tx, s.snapshots, s.link.accepted)
  }

  predicate AtRestSystem(r: Rate, s: System) {
    AtRest(r, s.link) && S.FeederAtRest(FeederOf(s))
  }

  lemma {:induction false} StepsKeepInv(r: Rate, s: System, ins: seq<Wires>)
    requires r.Recoverable() && Inv(r, s.link) && S.Inv(FeederOf(s))
    ensures Inv(r, Steps(r, s, ins).link) && S.Inv(FeederOf(Steps(r, s, ins)))
    decreases |ins|
  {
    if ins != [] {
      StepsKeepInv(r, s, ins[..|ins| - 1]);
      var m, i := Steps(r, s, ins[..|ins| - 1]), ins[|ins| - 1];
      StepKeepsInv(r, m.link, Write(m.reporter.oEn, m.reporter.dout));
      S.StepKeepsInv(FeederOf(m), S.Input(m.link.txAcc == 0, i.en, i.report));
    }
  }

  /**
   Whatever the report wires do, the bytes announced at the far end are a prefix of the frames
   of the snapshots. A listener who joins at any byte `c`, when `whole` frames have been announced,
   decodes the snapshots from the first whole frame `w` on, in order, each once, and nothing else.
   */
  lemma ReportsArrive(r: Rate, start: System, ins: seq<Wires>, c: nat, w: nat, whole: nat)
    requires r.Recoverable() && AtRestSystem(r, start)
    requires c <= |Steps(r, start, ins).link.received|
    requires FrameSplitter.FirstWhole(c, w)
    requires 8 * whole <= |Steps(r, start, ins).link.received| < 8 * whole + 8
    ensures var e := Steps(r, start, ins);
            && e.link.received <= S.Frames(e.snapshots)
            && |S.Frames(e.snapshots)| <= |e.link.received| + 10
            && Decoded(FrameSplitter.Split(FrameSplitter.FRESH, e.link.received[c..]).frames,
                       if w <= whole then e.snapshots[w..whole] else [])
  {
    assert Quiet(r, start.link);
    assert S.BetweenFrames(FeederOf(start));
    StepsKeepInv(r, start, ins);
    var e := Steps(r, start, ins);
    S.TakenInOrder(FeederOf(e));
    ReceivedIsPrefix(r, e.link);
    FramesAreChunks(e.snapshots);
    FrameSplitter.PrefixSplits(FramesOf(e.snapshots), e.link.received, c, w, whole);
    if w <= whole {
      DecodesBack(e.snapshots, w, whole);
    }
  }

  lemma ReceivedIsPrefix(r: Rate, s: Link)
    requires Inv(r, s)
    ensures s.received <= s.accepted && |s.accepted| <= |s.received| + 2
  {
  }

  // ---- From frames back to reports

  function FramesOf(ps: seq<Report>): (xs: seq<seq<Byte>>)
    ensures |xs| == |ps| && forall i :: 0 <= i < |ps| ==> xs[i] == Frame(ps[i])
  {
    seq(|ps|, i requires 0 <= i < |ps| => Frame(ps[i]))
  }

  /** The frames decode to exactly these reports. */
  ghost predicate Decoded(frames: seq<seq<Byte>>, ps: seq<Report>) {
    |frames| == |ps| && forall i :: 0 <= i < |ps| ==> |frames[i]| == 8 && Unframe(frames[i]) == ps[i]
  }

  lemma FrameIsChunk(p: Report)
    ensures FrameSplitter.IsChunk(Frame(p))
  {
  }

  lemma {:induction false} FramesAreChunks(ps: seq<Report>)
    ensures FrameSplitter.Chunks(FramesOf(ps))
    ensures FrameSplitter.Concat(FramesOf(ps)) == S.Frames(ps)
    decreases |ps|
  {
    forall i | 0 <= i < |ps|
      ensures FrameSplitter.IsChunk(FramesOf(ps)[i])
    {
      FrameIsChunk(ps[i]);
    }
    if ps != [] {
      FramesAreChunks(ps[..|ps| - 1]);
      assert FramesOf(ps)[..|ps| - 1] == FramesOf(ps[..|ps| - 1]);
    }
  }

  lemma DecodesBack(ps: seq<Report>, w: nat, whole: nat)
    requires w <= whole <= |ps|
    ensures Decoded(FramesOf(ps)[w..whole], ps[w..whole])
  {
    forall i | 0 <= i < whole - w
      ensures Unframe(FramesOf(ps)[w..whole][i]) == ps[w..whole][i]
    {
      FrameRoundTrip(ps[w + i]);
    }
  }

  // ---- Reports keep coming

  predicate Enabled(ins: seq<Wires>) {
    forall i :: 0 <= i < |ins| ==> ins[i].en
  }

  /** What reporter and transmitter see of the run: the ticks of their counter. */
  function FeederInputs(r: Rate, s: System, ins: seq<Wires>): seq<S.Input>
    requires s.reporter.Valid()
    decreases |ins|
  {
    if ins == [] then []
    else
      var init, i := ins[..|ins| - 1], ins[|ins| - 1];
      FeederInputs(r, s, init) + [S.Input(Steps(r, s, init).link.txAcc == 0, i.en, i.report)]
  }

  lemma {:induction false} FeederFollows(r: Rate, s: System, ins: seq<Wires>)
    requires s.reporter.Valid()
    ensures FeederOf(Steps(r, s, ins)) == S.FeederRun(FeederOf(s), FeederInputs(r, s, ins))
    ensures |FeederInputs(r, s, ins)| == |ins|
    decreases |ins|
  {
    if ins != [] {
      var init, i := ins[..|ins| - 1], ins[|ins| - 1];
      FeederFollows(r, s, init);
      var before := FeederInputs(r, s, init);
      assert FeederInputs(r, s, ins)[..|init|] == before;
      FeederFollowsStep(r, Steps(r, s, init), i);
    }
  }

  lemma FeederFollowsStep(r: Rate, s: System, i: Wires)
    requires s.reporter.Valid()
    ensures FeederOf(Step(r, s, i)) == S.FeederNext(FeederOf(s), S.Input(s.link.txAcc == 0, i.en, i.report))
  {
  }

  /** The counter ticks once in any bit time. */
  lemma {:induction false} CounterServes(r: Rate, s: System, ins: seq<Wires>)
    requires s.reporter.Valid() && s.link.txAcc < r.tx && Enabled(ins)
    ensures var e, fed := Steps(r, s, ins), FeederInputs(r, s, ins);
            && e.link.txAcc < r.tx && P.Served(fed, r.tx)
            && P.Since(fed) <= (if e.link.txAcc == 0 then r.tx - 1 else e.link.txAcc - 1)
    decreases |ins|
  {
    if ins != [] {
      var init := ins[..|ins| - 1];
      CounterServes(r, s, init);
      assert FeederInputs(r, s, ins)[..|FeederInputs(r, s, init)|] == FeederInputs(r, s, init);
    }
  }

  lemma EnoughArrive(r: Rate, start: System, ins: seq<Wires>, n: nat)
    requires r.Recoverable() && AtRestSystem(r, start)
    requires |Steps(r, start, ins).link.accepted| >= 8 * (n + 1)
    ensures var e := Steps(r, start, ins);
            var frames := FrameSplitter.Split(FrameSplitter.FRESH, e.link.received).frames;
            n <= |frames| <= |e.snapshots| && Decoded(frames, e.snapshots[..|frames|])
  {
    assert Quiet(r, start.link);
    assert S.BetweenFrames(FeederOf(start));
    StepsKeepInv(r, start, ins);
    var e := Steps(r, start, ins);
    ReceivedIsPrefix(r, e.link);
    var whole := |e.link.received| / 8;
    ReportsArrive(r, start, ins, 0, 0, whole);
    assert e.link.received[0..] == e.link.received;
  }

  lemma EnoughAccepted(r: Rate, start: System, ins: seq<Wires>, n: nat)
    requires r.Recoverable() && AtRestSystem(r, start) && Enabled(ins)
    requires |ins| >= P.Due(n, r.tx)
    ensures |Steps(r, start, ins).link.accepted| >= 8 * n
  {
    var e, fed := Steps(r, start, ins), FeederInputs(r, start, ins);
    assert |fed| == |ins| && FeederOf(e) == S.FeederRun(FeederOf(start), fed) by { FeederFollows(r, start, ins); }
    assert P.Served(fed, r.tx) by { CounterServes(r, start, ins); }
    FedAccepts(FeederOf(start), fed, FeederOf(e), r.tx, n);
  }

  lemma FedAccepts(start: S.Feeder, fed: seq<S.Input>, e: S.Feeder, period: nat, n: nat)
    requires S.FeederAtRest(start) && P.Served(fed, period) && period > 0 && e == S.FeederRun(start, fed)
    requires |fed| >= P.Due(n, period)
    ensures |e.accepted| >= 8 * n
  {
    P.FramesKeepComing(start, fed, period, n);
  }

  lemma SnapshotsArePicked(r: Rate, start: System, ins: seq<Wires>)
    requires AtRestSystem(r, start)
    ensures S.PickedFrom(Steps(r, start, ins).snapshots, FeederInputs(r, start, ins))
  {
    FeederFollows(r, start, ins);
    S.SnapshotsArePicked(FeederOf(start), FeederInputs(r, start, ins));
  }

  /**
   With the reporter enabled, reports arrive for ever: after `9 (n + 1) (10 T + 3)` clocks the far end
   has decoded at least `n` reports, each of them what the report wires showed in a clock of its own,
   in order, whatever the phases of the two tick trains.
   */
  lemma ReportsKeepArriving(r: Rate, start: System, ins: seq<Wires>, n: nat)
    requires r.Recoverable() && AtRestSystem(r, start) && Enabled(ins)
    requires |ins| >= 9 * (n + 1) * (10 * r.tx + 3)
    ensures var e := Steps(r, start, ins);
            var frames := FrameSplitter.Split(FrameSplitter.FRESH, e.link.received).frames;
            && n <= |frames| <= |e.snapshots| && Decoded(frames, e.snapshots[..|frames|])
            && S.PickedFrom(e.snapshots, FeederInputs(r, start, ins))
  {
    P.DueIsProduct(n + 1, r.tx);
    EnoughAccepted(r, start, ins, n + 1);
    SnapshotsArePicked(r, start, ins);
    EnoughArrive(r, start, ins, n);
  }

  /** On the board, with a report every 19647 clocks or sooner. */
  lemma ReportsKeepArrivingOnTheBoard(start: System, ins: seq<Wires>, n: nat)
    requires AtRestSystem(BaudGen.BOARD_RATE, start) && Enabled(ins) && |ins| >= 19647 * (n + 1)
    ensures var e := Steps(BaudGen.BOARD_RATE, start, ins);
            var frames := FrameSplitter.Split(FrameSplitter.FRESH, e.link.received).frames;
            && n <= |frames| <= |e.snapshots| && Decoded(frames, e.snapshots[..|frames|])
            && S.PickedFrom(e.snapshots, FeederInputs(BaudGen.BOARD_RATE, start, ins))
  {
    BaudGen.BoardRateIsRecoverable();
    ReportsKeepArriving(BaudGen.BOARD_RATE, start, ins, n);
  }
}
