/** The acquisition at work: on a steady schedule the first capture arrives in the driver. */
module FirstCapture {
  import opened Acquisition
  import A = AdcCapture
  import D = Divs
  import F = FrameSender
  import H = Handshake
  import R = FrameReceiver

  /** No two operations of the driver without a sender clock between them. */
  predicate Alternates(es: seq<H.Event>) {
    forall k :: 0 < k < |es| ==> es[k].Drive? ==> es[k - 1].Clock?
  }

  lemma {:induction false} ClocksKeepUp(es: seq<H.Event>)
    requires Alternates(es)
    ensures H.Drives(es) <= H.Clocks(es) + 1
    decreases |es|
  {
    if |es| >= 2 && es[|es| - 1].Drive? {
      var init := es[..|es| - 1];
      assert init[..|init| - 1] == es[..|es| - 2];
      assert init[|init| - 1].Clock?;
      ClocksKeepUp(es[..|es| - 2]);
    } else if es != [] {
      ClocksKeepUp(es[..|es| - 1]);
    }
  }

  lemma AlternatingIsFair(es: seq<H.Event>)
    requires Alternates(es)
    ensures H.Fair(es)
  {
    forall a, b | 0 <= a <= b <= |es| && H.Drives(es[a..b]) >= 199
      ensures H.Clocks(es[a..b]) >= 5
    {
      ClocksKeepUp(es[a..b]);
    }
  }

  // ---- One sender clock and one operation of the driver at a time

  /** A full memory, an ignored trigger; the memory does not refill in the pause. */
  function Usual(b: Board, step: nat): A.Input {
    var pause := F.NextPhase(b.adc.sender, b.adc.capture.isFull, b.driver.ack) == F.Delay3;
    A.Input(step, b.driver.ack, 0, true, false, if b.adc.capture.phase == A.Saving && pause then 0 else A.LEN)
  }

  function Beat(b: Board, step: nat): Board {
    DriveStep(ClockStep(b, Usual(b, step)), 0)
  }

  ghost predicate Attains(start: Board, b: Board) {
    exists es :: AllAllowed(start, es) && Run(start, es) == b
  }

  /** The schedule so far is made of whole beats. */
  predicate Steady(events: seq<H.Event>) {
    Alternates(events) && (events != [] ==> events[|events| - 1].Drive?)
  }

  ghost predicate Reaches(start: Board, b: Board) {
    Steady(b.events) && Attains(start, b)
  }

  lemma StepAttains(start: Board, b: Board, e: Event)
    requires Attains(start, b) && Allowed(b, e)
    ensures Attains(start, Step(b, e))
  {
    var es :| AllAllowed(start, es) && Run(start, es) == b;
    assert (es + [e])[..|es|] == es;
    assert AllAllowed(start, es + [e]);
  }

  lemma BeatIsSteady(b: Board, step: nat)
    requires Steady(b.events)
    ensures Steady(Beat(b, step).events)
  {
    var clock := H.Clock(SenderInput(b, Usual(b, step)));
    assert Beat(b, step).events == b.events + [clock] + [H.Drive(0)];
  }

  lemma UsualIsAllowed(b: Board, step: nat)
    requires step <= A.MAX_STEP
    ensures Allowed(b, Clock(Usual(b, step)))
  {
  }

  lemma ClockLeavesDriver(b: Board, i: A.Input)
    ensures ClockStep(b, i).driver == b.driver && ClockStep(b, i).received == b.received
  {
  }

  lemma BeatReaches(start: Board, b: Board, step: nat)
    requires Reaches(start, b) && b.received == [] && step <= A.MAX_STEP
    ensures Reaches(start, Beat(b, step))
  {
    var i := Usual(b, step);
    UsualIsAllowed(b, step);
    StepAttains(start, b, Clock(i));
    ClockLeavesDriver(b, i);
    StepAttains(start, ClockStep(b, i), Drive(0));
    BeatIsSteady(b, step);
  }

  // ---- The capture fills

  predicate Filling(b: Board, step: nat, phase: A.Phase) {
    && b.adc.sender.phase == F.Idle && !b.adc.sender.clkOut && Fresh(b.driver) && b.received == []
    && !b.adc.capture.isFull && b.adc.capture.phase == phase && b.adc.clock.cnt <= step
  }

  lemma FillingBeats(b: Board, step: nat, phase: A.Phase)
    requires Filling(b, step, phase)
    ensures var t := Beat(b, step);
            && t.adc.clock == D.Next(b.adc.clock, step) && t.adc.clock.cnt <= step
            && t.adc.sender.phase == F.Idle && !t.adc.sender.clkOut && Fresh(t.driver) && t.received == []
            && if D.Rises(b.adc.clock, step) then
                 && t.adc.capture.phase == A.NextPhase(b.adc.capture, true, false, A.LEN, false)
                 && t.adc.capture.isFull == (phase == A.Sending)
               else t.adc.capture == b.adc.capture
  {
  }

  lemma {:induction false} NextEdge(start: Board, step: nat, b: Board, phase: A.Phase) returns (t: Board)
    requires Reaches(start, b) && Filling(b, step, phase) && step <= A.MAX_STEP
    ensures Reaches(start, t) && t.adc.clock.cnt <= step
    ensures t.adc.sender.phase == F.Idle && !t.adc.sender.clkOut && Fresh(t.driver) && t.received == []
    ensures t.adc.capture.phase == A.NextPhase(b.adc.capture, true, false, A.LEN, false)
    ensures t.adc.capture.isFull == (phase == A.Sending)
    decreases D.UntilRise(b.adc.clock, step)
  {
    BeatReaches(start, b, step);
    FillingBeats(b, step, phase);
    D.UntilRiseCountsDown(b.adc.clock, step);
    t := Beat(b, step);
    if !D.Rises(b.adc.clock, step) {
      t := NextEdge(start, step, t, phase);
    }
  }

  lemma Fills(start: Board, step: nat) returns (t: Board)
    requires PowerOn(start) && step <= A.MAX_STEP
    ensures Reaches(start, t) && t.adc.sender.phase == F.Idle && !t.adc.sender.clkOut
    ensures Fresh(t.driver) && t.received == [] && t.adc.capture.isFull
  {
    assert AllAllowed(start, []) && Run(start, []) == start;
    var a := NextEdge(start, step, start, A.Idle);
    var b := NextEdge(start, step, a, A.Saving);
    var c := NextEdge(start, step, b, A.SaveLen);
    t := NextEdge(start, step, c, A.Sending);
  }

  // ---- The frame is taken

  /** The frame is on its way to the first rise of the clock line. */
  predicate Starting(b: Board, phase: F.Phase) {
    && b.adc.sender.phase == phase && !b.adc.sender.clkOut && Fresh(b.driver) && b.received == []
  }

  lemma StartingBeats(b: Board, step: nat, phase: F.Phase)
    requires Starting(b, phase)
    ensures phase == F.Idle && b.adc.capture.isFull ==> Starting(Beat(b, step), F.StartSave)
    ensures phase == F.StartSave ==> Starting(Beat(b, step), F.Start)
    ensures phase == F.Start ==> Called(Beat(b, step))
  {
  }

  /** The driver is in its call. */
  predicate Called(b: Board) {
    R.Bounded(b.driver) && b.driver.pc != R.Armed && b.driver.pc != R.Done && b.received == []
  }

  lemma CalledBeats(b: Board, step: nat)
    requires Called(b)
    ensures var t := Beat(b, step);
            |t.received| == 1 || (Called(t) && R.Budget(t.driver) < R.Budget(b.driver))
  {
    var c := ClockStep(b, Usual(b, step));
    assert c.driver == b.driver;
    R.OperationShrinksBudget(c.driver, H.LineNow(c.adc.sender, 0));
  }

  lemma {:induction false} CallEnds(start: Board, step: nat, b: Board) returns (t: Board)
    requires Reaches(start, b) && Called(b) && step <= A.MAX_STEP
    ensures Reaches(start, t) && |t.received| == 1
    decreases R.Budget(b.driver)
  {
    BeatReaches(start, b, step);
    CalledBeats(b, step);
    t := Beat(b, step);
    if |t.received| != 1 {
      t := CallEnds(start, step, t);
    }
  }

  /**
   From every power-on and at every sample-clock step in bounds there is an allowed and fair schedule
   on which the driver finishes its first call, with the first capture whole.
   */
  lemma FirstCaptureArrives(start: Board, step: nat) returns (es: seq<Event>)
    requires PowerOn(start) && step <= A.MAX_STEP
    ensures AllAllowed(start, es) && H.Fair(Run(start, es).events)
    ensures var e := Run(start, es);
            |e.received| == 1 && |e.adc.captured| > 0 && Whole(e.received[0], e.adc.captured[0])
  {
    var shown := Fills(start, step);
    StartingBeats(shown, step, F.Idle);
    BeatReaches(start, shown, step);
    var saving := Beat(shown, step);
    StartingBeats(saving, step, F.StartSave);
    BeatReaches(start, saving, step);
    var starting := Beat(saving, step);
    StartingBeats(starting, step, F.Start);
    BeatReaches(start, starting, step);
    var e := CallEnds(start, step, Beat(starting, step));
    es :| AllAllowed(start, es) && Run(start, es) == e;
    AlternatingIsFair(e.events);
    EveryCaptureArrives(start, es);
  }
}
