/**
 Captures all the way into the driver: the capture control, the sample clock, the sender and the
 polling driver, over any number of frames.
 */
module Acquisition {
  import A = AdcCapture
  import F = FrameSender
  import H = Handshake
  import R = FrameReceiver

  /** What one call of the driver brought, and what the sender had latched for the frame. */
  datatype Receipt = Receipt(kind: F.Octet, data: seq<F.Octet>, sampled: seq<F.Octet>)

  /**
   `samples` and `rises` are the handshake's logs of the current frame, `clocks`, `now` and `mark` its
   clocks; `events` logs the schedule and `received` the finished calls.
   */
  datatype Board = Board(adc: A.System, driver: R.Driver, samples: seq<F.Octet>, rises: nat,
                         clocks: nat, now: nat, mark: nat, events: seq<H.Event>, received: seq<Receipt>)

  /** A clock with everything the environment decides in it, or one operation of the driver. */
  datatype Event = Clock(i: A.Input) | Drive(noise: F.Octet)

  /** The two ends of the handshake. */
  function LinkOf(b: Board): H.System {
    H.System(b.adc.sender, b.driver, b.samples, b.rises, b.clocks, b.now, b.mark)
  }

  /** The sender sees the capture's flag and length; the capture never sees the driver but for its acknowledge line. */
  function SenderInput(b: Board, i: A.Input): F.Input {
    F.Input(b.adc.capture.isFull, b.adc.capture.len, i.data)
  }

  function AdcInput(b: Board, i: A.Input): A.Input {
    i.(ack := b.driver.ack)
  }

  function ClockStep(b: Board, i: A.Input): Board {
    var link := H.ClockStep(LinkOf(b), SenderInput(b, i));
    var between := b.adc.sender.phase == F.Idle;
    b.(adc := A.Step(b.adc, AdcInput(b, i)),
       samples := if between then [] else link.samples, rises := if between then 0 else link.rises,
       clocks := link.clocks, now := link.now, events := b.events + [H.Clock(SenderInput(b, i))])
  }

  /** A call that ends is logged, and the driver waits for its next interrupt. */
  function DriveStep(b: Board, noise: F.Octet): Board {
    var link := H.DriveStep(LinkOf(b), noise);
    var done := link.driver.pc == R.Done;
    b.(driver := if done then H.Rearmed(link.driver) else link.driver,
       received := if done then b.received + [Receipt(link.driver.kind, link.driver.data, b.samples)] else b.received,
       clocks := link.clocks, now := link.now, mark := link.mark, events := b.events + [H.Drive(noise)])
  }

  function Step(b: Board, e: Event): Board {
    match e
    case Clock(i) => ClockStep(b, i)
    case Drive(noise) => DriveStep(b, noise)
  }

  function Run(b: Board, es: seq<Event>): Board
    decreases |es|
  {
    if es == [] then b else Step(Run(b, es[..|es| - 1]), es[|es| - 1])
  }

  predicate Fresh(d: R.Driver) {
    d.pc == R.Armed && d.data == [] && d.toggles == 0 && d.timer == 0
  }

  predicate PowerOn(b: Board) {
    && A.PowerOn(b.adc) && !b.adc.sender.clkOut && !b.adc.sender.rClk
    && Fresh(b.driver) && b.now == 0 && b.mark == 0 && b.events == [] && b.received == []
  }

  // ---- What the surroundings must keep to

  /**
   A sample clock in bounds; a memory that does not refill during the pause and a capture of 1 to
   3999 bytes; and a driver that takes two sender clocks or more from the end of one call to the
   next interrupt.
   */
  predicate Allowed(b: Board, e: Event) {
    match e
    case Clock(i) =>
      && i.step <= 499 && A.Paces(b.adc, AdcInput(b, i))
      && (b.adc.capture.phase == A.SaveLen ==> 1 <= i.lenCache < 4000)
    case Drive(_) => b.driver.pc == R.Armed && b.received != [] ==> b.clocks >= 2
  }

  predicate AllAllowed(b: Board, es: seq<Event>)
    decreases |es|
  {
    es == [] || (AllAllowed(b, es[..|es| - 1]) && Allowed(Run(b, es[..|es| - 1]), es[|es| - 1]))
  }

  // ---- The invariant

  /** Every finished call brought its capture whole. */
  predicate ReceivedOk(received: seq<Receipt>, captured: seq<nat>) {
    && |received| <= |captured|
    && forall j :: 0 <= j < |received| ==> Whole(received[j], captured[j])
  }

  predicate Whole(r: Receipt, len: nat) {
    r.kind == 54 && r.data == r.sampled && |r.data| == len
  }

  predicate LengthsOk(captured: seq<nat>) {
    forall j :: 0 <= j < |captured| ==> 1 <= captured[j] < 4000
  }

  /** How sender and driver stand to each other, within a frame and between frames. */
  predicate Meeting(b: Board) {
    var f, frames := b.adc.sender, |b.adc.begun|;
    match f.phase
    case Idle => Fresh(b.driver) && !f.clkOut && !f.rClk && |b.received| == frames
    case Delay3 =>
      Fresh(b.driver) && !f.rClk && |b.received| == frames > 0 && (f.clkOut ==> f.delay == 0 && b.clocks == 1)
    case _ =>
      if Closed(b) then |b.received| == frames
      else |b.received| + 1 == frames && b.driver.pc != R.Done && H.Inv(LinkOf(b), b.adc.capture.len)
  }

  /** The call is over, and the sender has not seen its last toggle yet. */
  predicate Closed(b: Board) {
    var f := b.adc.sender;
    f.phase == F.Delay2 && f.ackSave != b.driver.ack && Fresh(b.driver) && b.clocks == 0 && !f.rClk && f.delay == 0
    && b.received != []
  }

  predicate Inv(b: Board) {
    && A.Matched(b.adc) && Meeting(b) && H.Measured(LinkOf(b), b.events)
    && ReceivedOk(b.received, b.adc.captured) && LengthsOk(b.adc.captured)
  }

  // ---- A clock

  /** What a clock does to the capture's side. */
  lemma AdcMoves(b: Board, i: A.Input)
    requires Inv(b)
    ensures var t := ClockStep(b, i);
            && (b.adc.capture.isFull ==> t.adc.capture.len == b.adc.capture.len)
            && |t.adc.begun| == |b.adc.begun| + (if b.adc.sender.phase == F.Idle && b.adc.capture.isFull then 1 else 0)
            && t.adc.sender == F.Next(b.adc.sender, SenderInput(b, i), b.driver.ack)
  {
  }

  /** The length being sent is one of those captured. */
  lemma LengthInRange(b: Board)
    requires A.Matched(b.adc) && LengthsOk(b.adc.captured) && b.adc.capture.phase == A.Sending
    ensures 1 <= b.adc.capture.len < 4000
  {
  }

  lemma ClockFromIdle(b: Board, i: A.Input)
    requires Inv(b) && b.adc.sender.phase == F.Idle
    ensures Meeting(ClockStep(b, i))
  {
    AdcMoves(b, i);
    var t := ClockStep(b, i);
    if b.adc.capture.isFull {
      LengthInRange(b);
      assert H.Quiet(LinkOf(t));
      assert H.Inv(LinkOf(t), t.adc.capture.len);
    }
  }

  lemma ClockInFrame(b: Board, i: A.Input)
    requires Inv(b) && H.Answered(LinkOf(b))
    requires b.adc.sender.phase != F.Idle && b.adc.sender.phase != F.Delay3 && !Closed(b)
    ensures Meeting(ClockStep(b, i))
  {
    AdcMoves(b, i);
    var t, n := ClockStep(b, i), b.adc.capture.len;
    H.ClockKeepsInv(LinkOf(b), n, SenderInput(b, i));
    assert LinkOf(t) == H.ClockStep(LinkOf(b), SenderInput(b, i));
    H.SenderIsBusy(LinkOf(t), n);
    NotClosed(t, n);
  }

  lemma NotClosed(b: Board, n: nat)
    requires H.Inv(LinkOf(b), n) && b.driver.pc != R.Done
    ensures !Closed(b)
  {
  }

  lemma ClockBetween(b: Board, i: A.Input)
    requires Inv(b) && (b.adc.sender.phase == F.Delay3 || Closed(b))
    ensures Meeting(ClockStep(b, i))
  {
    AdcMoves(b, i);
  }

  lemma ClockKeepsMeeting(b: Board, i: A.Input)
    requires Inv(b) && H.Answered(LinkOf(b))
    ensures Meeting(ClockStep(b, i))
  {
    if b.adc.sender.phase == F.Idle {
      ClockFromIdle(b, i);
    } else if b.adc.sender.phase == F.Delay3 || Closed(b) {
      ClockBetween(b, i);
    } else {
      ClockInFrame(b, i);
    }
  }

  lemma ClockKeepsMeasure(b: Board, i: A.Input)
    requires Inv(b)
    ensures H.Measured(LinkOf(ClockStep(b, i)), ClockStep(b, i).events)
  {
    assert b.driver.pc != R.Done;
    H.StepKeepsMeasure(LinkOf(b), b.events, H.Clock(SenderInput(b, i)));
  }

  lemma ClockKeepsReceipts(b: Board, i: A.Input)
    requires Inv(b) && Allowed(b, Clock(i))
    ensures ReceivedOk(ClockStep(b, i).received, ClockStep(b, i).adc.captured)
    ensures LengthsOk(ClockStep(b, i).adc.captured)
  {
  }

  lemma ClockKeepsInv(b: Board, i: A.Input)
    requires Inv(b) && H.Answered(LinkOf(b)) && Allowed(b, Clock(i))
    ensures Inv(ClockStep(b, i))
  {
    A.StepKeepsMatched(b.adc, AdcInput(b, i));
    ClockKeepsMeeting(b, i);
    ClockKeepsMeasure(b, i);
    ClockKeepsReceipts(b, i);
  }

  // ---- An operation of the driver

  /** Between frames the clock line is low by the time the driver looks at it. */
  lemma DriveBetween(b: Board, noise: F.Octet)
    requires Inv(b) && Allowed(b, Drive(noise))
    requires b.adc.sender.phase == F.Idle || b.adc.sender.phase == F.Delay3 || Closed(b)
    ensures Meeting(DriveStep(b, noise)) && DriveStep(b, noise).received == b.received
  {
    assert !b.adc.sender.clkOut;
  }

  /** A call that ends in a frame has brought it whole. */
  lemma CallEnds(b: Board, noise: F.Octet)
    requires Inv(b) && H.Inv(LinkOf(b), b.adc.capture.len)
    requires 1 <= b.adc.capture.len < 4000
    requires H.Inv(H.DriveStep(LinkOf(b), noise), b.adc.capture.len)
    requires b.driver.pc != R.Done && H.DriveStep(LinkOf(b), noise).driver.pc == R.Done
    ensures var t := DriveStep(b, noise);
            Closed(t) && Whole(t.received[|b.received|], b.adc.capture.len)
  {
    assert H.TimedOut(H.DriveStep(LinkOf(b), noise), b.adc.capture.len);
  }

  lemma DriveInFrame(b: Board, noise: F.Octet)
    requires Inv(b) && H.Answered(LinkOf(b))
    requires b.adc.sender.phase != F.Idle && b.adc.sender.phase != F.Delay3 && !Closed(b)
    ensures Meeting(DriveStep(b, noise)) && ReceivedOk(DriveStep(b, noise).received, b.adc.captured)
  {
    var t, n, link := DriveStep(b, noise), b.adc.capture.len, H.DriveStep(LinkOf(b), noise);
    LengthInRange(b);
    H.DriveKeepsInv(LinkOf(b), n, noise);
    if link.driver.pc == R.Done {
      CallEnds(b, noise);
    } else {
      assert LinkOf(t) == link;
      NotClosed(t, n);
    }
  }

  lemma DriveKeepsMeasure(b: Board, noise: F.Octet)
    requires Inv(b)
    ensures H.Measured(LinkOf(DriveStep(b, noise)), DriveStep(b, noise).events)
  {
    assert b.driver.pc != R.Done;
    H.StepKeepsMeasure(LinkOf(b), b.events, H.Drive(noise));
  }

  lemma DriveKeepsInv(b: Board, noise: F.Octet)
    requires Inv(b) && H.Answered(LinkOf(b)) && Allowed(b, Drive(noise))
    ensures Inv(DriveStep(b, noise))
  {
    DriveKeepsMeasure(b, noise);
    if b.adc.sender.phase == F.Idle || b.adc.sender.phase == F.Delay3 || Closed(b) {
      DriveBetween(b, noise);
    } else {
      DriveInFrame(b, noise);
    }
  }

  // ---- Runs

  lemma StepLogs(b: Board, e: Event)
    ensures |Step(b, e).events| == |b.events| + 1 && Step(b, e).events[..|b.events|] == b.events
  {
  }

  lemma {:induction false} RunKeepsInv(start: Board, es: seq<Event>)
    requires PowerOn(start) && AllAllowed(start, es) && H.Fair(Run(start, es).events)
    ensures Inv(Run(start, es))
    decreases |es|
  {
    if es != [] {
      var m, e := Run(start, es[..|es| - 1]), es[|es| - 1];
      StepLogs(m, e);
      H.FairPrefix(Run(start, es).events, |m.events|);
      RunKeepsInv(start, es[..|es| - 1]);
      H.FairnessAnswers(LinkOf(m), m.events);
      match e
      case Clock(i) => ClockKeepsInv(m, i);
      case Drive(noise) => DriveKeepsInv(m, noise);
    }
  }

  /** The captures that have arrived, and at most one more. */
  predicate InOrder(received: seq<Receipt>, captured: seq<nat>) {
    ReceivedOk(received, captured) && |captured| <= |received| + 1
  }

  /**
   From power-on, over any number of frames: every call of the driver brings one capture, in order and
   whole, as the bytes the sender latched, as many as the capture's length, under the header; and at
   most one capture is still to come.
   */
  lemma EveryCaptureArrives(start: Board, es: seq<Event>)
    requires PowerOn(start)
    ensures AllAllowed(start, es) && H.Fair(Run(start, es).events)
            ==> InOrder(Run(start, es).received, Run(start, es).adc.captured)
  {
    if AllAllowed(start, es) && H.Fair(Run(start, es).events) {
      RunKeepsInv(start, es);
    }
  }

  // ---- The whole stream, told from the inputs

  /** Every byte the sender has latched, over all frames: its data input in the clocks that latch it. */
  function Latched(start: Board, es: seq<Event>): seq<F.Octet>
    decreases |es|
  {
    if es == [] then []
    else
      var before, m, e := Latched(start, es[..|es| - 1]), Run(start, es[..|es| - 1]), es[|es| - 1];
      if e.Clock? && m.adc.sender.phase == F.Ing2 then before + [e.i.data] else before
  }

  function Concat(received: seq<Receipt>): seq<F.Octet>
    decreases |received|
  {
    if received == [] then [] else Concat(received[..|received| - 1]) + received[|received| - 1].data
  }

  /** The bytes of the frame whose call is not over yet. */
  function Pending(b: Board): seq<F.Octet> {
    if b.adc.sender.phase == F.Idle || b.adc.sender.phase == F.Delay3 || Closed(b) then [] else b.samples
  }

  /** A clock adds the byte it latches. */
  lemma ClockKeepsStream(b: Board, i: A.Input)
    requires Inv(b) && H.Answered(LinkOf(b))
    ensures Pending(ClockStep(b, i)) == Pending(b) + (if b.adc.sender.phase == F.Ing2 then [i.data] else [])
    ensures ClockStep(b, i).received == b.received
  {
    AdcMoves(b, i);
    if b.adc.sender.phase != F.Idle && b.adc.sender.phase != F.Delay3 && !Closed(b) {
      H.ClockKeepsInv(LinkOf(b), b.adc.capture.len, SenderInput(b, i));
      assert LinkOf(ClockStep(b, i)) == H.ClockStep(LinkOf(b), SenderInput(b, i));
      H.SenderIsBusy(LinkOf(ClockStep(b, i)), b.adc.capture.len);
      NotClosed(ClockStep(b, i), b.adc.capture.len);
    }
  }

  /** A finished call moves its frame's bytes from the pending to the received ones. */
  lemma DriveKeepsStream(b: Board, noise: F.Octet)
    requires Inv(b) && H.Answered(LinkOf(b)) && Allowed(b, Drive(noise))
    ensures Concat(DriveStep(b, noise).received) + Pending(DriveStep(b, noise)) == Concat(b.received) + Pending(b)
  {
    var t := DriveStep(b, noise);
    if b.adc.sender.phase == F.Idle || b.adc.sender.phase == F.Delay3 || Closed(b) {
      DriveBetween(b, noise);
    } else {
      var n := b.adc.capture.len;
      LengthInRange(b);
      H.DriveKeepsInv(LinkOf(b), n, noise);
      if H.DriveStep(LinkOf(b), noise).driver.pc == R.Done {
        CallEnds(b, noise);
        assert t.received[..|t.received| - 1] == b.received;
      } else {
        assert LinkOf(t) == H.DriveStep(LinkOf(b), noise);
        NotClosed(t, n);
      }
    }
  }

  lemma StepKeepsStream(b: Board, e: Event, latched: seq<F.Octet>)
    requires Inv(b) && H.Answered(LinkOf(b)) && Allowed(b, e)
    requires Concat(b.received) + Pending(b) == latched
    ensures Concat(Step(b, e).received) + Pending(Step(b, e)) ==
            if e.Clock? && b.adc.sender.phase == F.Ing2 then latched + [e.i.data] else latched
  {
    match e
    case Clock(i) =>
      ClockKeepsStream(b, i);
      assert Concat(b.received) + (Pending(b) + [i.data]) == latched + [i.data];
    case Drive(noise) => DriveKeepsStream(b, noise);
  }

  lemma {:induction false} RunKeepsStream(start: Board, es: seq<Event>)
    requires PowerOn(start) && AllAllowed(start, es) && H.Fair(Run(start, es).events)
    ensures Concat(Run(start, es).received) + Pending(Run(start, es)) == Latched(start, es)
    decreases |es|
  {
    if es != [] {
      var m, e := Run(start, es[..|es| - 1]), es[|es| - 1];
      StepLogs(m, e);
      H.FairPrefix(Run(start, es).events, |m.events|);
      RunKeepsInv(start, es[..|es| - 1]);
      RunKeepsStream(start, es[..|es| - 1]);
      H.FairnessAnswers(LinkOf(m), m.events);
      StepKeepsStream(m, e, Latched(start, es[..|es| - 1]));
    }
  }

  /**
   Over any number of frames the bytes the driver has received, one call after the other, are the
   bytes on the sender's data input in the clocks that latched them, none lost, repeated or out of order.
   */
  lemma StreamArrives(start: Board, es: seq<Event>)
    requires PowerOn(start)
    ensures AllAllowed(start, es) && H.Fair(Run(start, es).events)
            ==> Concat(Run(start, es).received) <= Latched(start, es)
  {
    if AllAllowed(start, es) && H.Fair(Run(start, es).events) {
      RunKeepsStream(start, es);
    }
  }
}
