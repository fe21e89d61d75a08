/** The bound on the sample clock is exact: any slower clock sends a capture twice. */
module AdcBound {
  import opened AdcCapture
  import D = Divs
  import F = FrameSender

  predicate AtStep(ins: seq<Input>, step: nat) {
    forall i :: 0 <= i < |ins| ==> ins[i].step == step
  }

  /** The memory's count is the number of samples written, which is so until the first frame reads them. */
  predicate Counts(start: System, ins: seq<Input>)
    decreases |ins|
  {
    ins == []
    || (Counts(start, ins[..|ins| - 1]) && ins[|ins| - 1].lenCache == Run(start, ins[..|ins| - 1]).written)
  }

  /** Some run at a constant step, with a memory that counts, leads from `start` to `s`. */
  ghost predicate Reaches(start: System, step: nat, s: System) {
    exists ins :: AtStep(ins, step) && Counts(start, ins) && Run(start, ins) == s
  }

  lemma RunReaches(start: System, step: nat, s: System, i: Input)
    requires Reaches(start, step, s) && i.step == step && i.lenCache == s.written
    ensures Reaches(start, step, Step(s, i))
  {
    var ins :| AtStep(ins, step) && Counts(start, ins) && Run(start, ins) == s;
    assert (ins + [i])[..|ins|] == ins;
    assert AtStep(ins + [i], step) && Counts(start, ins + [i]);
  }

  /** `R` holds along every run at this step with a memory that counts. */
  ghost predicate Closed(R: System -> bool, step: nat) {
    forall s: System, i: Input {:trigger Step(s, i), R(s)} ::
      R(s) && i.step == step && i.lenCache == s.written ==> R(Step(s, i))
  }

  lemma ReachedIsClosed(start: System, step: nat)
    ensures Closed((s: System) => Reaches(start, step, s), step)
  {
    forall s: System, i: Input | Reaches(start, step, s) && i.step == step && i.lenCache == s.written
      ensures Reaches(start, step, Step(s, i))
    {
      RunReaches(start, step, s, i);
    }
  }

  lemma StepReaches(R: System -> bool, step: nat, s: System, i: Input)
    requires Closed(R, step) && R(s) && i.step == step && i.lenCache == s.written
    ensures R(Step(s, i))
  {
  }

  /** Inputs with an ignored trigger, and the driver's acknowledge line at `ack`. */
  function Acked(s: System, step: nat, ack: bool): Input {
    Input(step, ack, 0, true, false, s.written)
  }

  // ---- The first capture

  /** The sender rests, and only the sample clock moves. */
  predicate Filling(s: System, step: nat, phase: Phase) {
    && s.sender.phase == F.Idle && !s.capture.isFull && s.capture.phase == phase && s.clock.cnt <= step
    && s.begun == []
  }

  lemma FillingWaits(s: System, step: nat, phase: Phase)
    requires Filling(s, step, phase) && !D.Rises(s.clock, step)
    ensures var t := Step(s, Acked(s, step, true));
            Filling(t, step, phase) && t.clock == D.Next(s.clock, step) && t.captured == s.captured
            && t.capture == s.capture && t.written == s.written
  {
  }

  /** At the next edge of the sample clock the capture moves on. */
  lemma {:induction false} NextEdge(R: System -> bool, step: nat, s: System, phase: Phase) returns (t: System)
    requires Closed(R, step) && R(s) && Filling(s, step, phase)
    ensures R(t)
    ensures t.sender.phase == F.Idle && t.clock.cnt <= step && t.begun == []
    ensures t.capture == Next(s.capture, true, false, s.written, false)
    ensures t.captured == if phase == SaveLen then s.captured + [s.written] else s.captured
    ensures t.written == if s.capture.isW then s.written + 1 else s.written
    decreases D.UntilRise(s.clock, step)
  {
    var i := Acked(s, step, true);
    StepReaches(R, step, s, i);
    D.UntilRiseCountsDown(s.clock, step);
    if D.Rises(s.clock, step) {
      t := Step(s, i);
    } else {
      FillingWaits(s, step, phase);
      t := NextEdge(R, step, Step(s, i), phase);
    }
  }

  /** Sample by sample the memory fills up, because the capture has it written. */
  lemma {:induction false} Fills(R: System -> bool, step: nat, s: System) returns (t: System)
    requires Closed(R, step) && R(s) && Filling(s, step, Saving) && s.captured == []
    requires s.capture.isW && s.written <= 2999
    ensures R(t) && Filling(t, step, SaveLen) && t.captured == []
    ensures t.capture.isW && t.written == 3000
    decreases 2999 - s.written
  {
    t := NextEdge(R, step, s, Saving);
    if s.written < 2999 {
      t := Fills(R, step, t);
    }
  }

  /** The first edge lets the capture start, and the second has the memory written. */
  lemma Starts(R: System -> bool, step: nat, start: System) returns (t: System)
    requires Closed(R, step) && PowerOn(start) && R(start)
    ensures R(t) && Filling(t, step, Saving) && t.captured == []
    ensures t.capture.isW && t.written <= 2
  {
    var a := NextEdge(R, step, start, Idle);
    assert a.capture.phase == Saving && a.written <= 1;
    t := NextEdge(R, step, a, Saving);
  }

  /** The length is saved, and the capture shows. */
  lemma Shows(R: System -> bool, step: nat, s: System) returns (t: System)
    requires Closed(R, step) && R(s) && Filling(s, step, SaveLen) && s.captured == [] && s.written == 3000
    ensures R(t) && t.sender.phase == F.Idle && t.clock.cnt <= step
    ensures t.capture.phase == Sending && t.capture.isFull && t.capture.len == 3000
    ensures t.begun == [] && t.captured == [3000]
  {
    var a := NextEdge(R, step, s, SaveLen);
    assert a.capture.phase == Sending && a.capture.len == 3000;
    t := NextEdge(R, step, a, Sending);
  }

  /** The first capture is complete and shows. */
  lemma FirstCapture(R: System -> bool, step: nat, start: System) returns (t: System)
    requires Closed(R, step) && PowerOn(start) && R(start)
    ensures R(t) && t.sender.phase == F.Idle && t.clock.cnt <= step
    ensures t.capture.phase == Sending && t.capture.isFull && t.capture.len == 3000
    ensures t.begun == [] && t.captured == [3000]
  {
    var a := Starts(R, step, start);
    var b := Fills(R, step, a);
    t := Shows(R, step, b);
  }

  // ---- Its frame, byte by byte

  /** The first capture shows, and its frame has begun. */
  predicate Showing(s: System) {
    && s.capture.phase == Sending && s.capture.isFull && s.capture.len == 3000
    && s.captured == [3000] && s.begun == [1]
  }

  /** The sender registers the frame depends on, after one clock. */
  predicate Moves(f: F.Sender, g: F.Sender, ack: bool) {
    && g.phase == F.NextPhase(f, true, ack)
    && g.len == (if f.phase == F.Start then 3000 else if f.phase == F.Ing2 then F.Decremented(f.len) else f.len)
    && g.ackSave == (if f.phase == F.StartSave || f.phase == F.Ing2 || f.phase == F.Delay1 then ack else f.ackSave)
    && (f.phase != F.Delay3 ==> g.delay == if f.phase == F.StartSave then 0 else f.delay)
  }

  /** One clock of the frame, with the driver's acknowledge line at `ack`. */
  lemma Goes(R: System -> bool, step: nat, s: System, ack: bool) returns (t: System)
    requires Closed(R, step) && R(s) && Showing(s) && s.sender.phase != F.Idle
    requires F.NextPhase(s.sender, true, ack) != F.Delay3
    ensures R(t) && Showing(t)
    ensures Moves(s.sender, t.sender, ack) && t.clock == D.Next(s.clock, step)
  {
    StepReaches(R, step, s, Acked(s, step, ack));
    t := Step(s, Acked(s, step, ack));
  }

  /** The sender takes the capture up and reaches the first byte. */
  lemma FrameBegins(R: System -> bool, step: nat, start: System) returns (t: System)
    requires Closed(R, step) && PowerOn(start) && R(start)
    ensures R(t) && Showing(t)
    ensures t.sender.phase == F.Ing0 && t.sender.len == 3000 && t.sender.delay == 0
  {
    var shown := FirstCapture(R, step, start);
    StepReaches(R, step, shown, Acked(shown, step, true));
    var a := Step(shown, Acked(shown, step, true));
    var b := Goes(R, step, a, true);
    var c := Goes(R, step, b, true);
    var d := Goes(R, step, c, true);
    t := Goes(R, step, d, true);
  }

  /** The byte on the pins is acknowledged. */
  lemma AckGoes(R: System -> bool, step: nat, s: System) returns (t: System)
    requires Closed(R, step) && R(s) && Showing(s) && s.sender.phase == F.Ing0
    ensures R(t) && Showing(t) && t.sender.phase == F.Ing2
    ensures t.sender.len == s.sender.len && t.sender.delay == s.sender.delay
  {
    var ack := !s.sender.ackSave;
    var a := Goes(R, step, s, ack);
    assert a.sender.phase == F.Ing1 && a.sender.ackSave != ack;
    t := Goes(R, step, a, ack);
  }

  /** The length decides what follows a latched byte. */
  lemma TestGoes(R: System -> bool, step: nat, s: System) returns (t: System)
    requires Closed(R, step) && R(s) && Showing(s) && s.sender.phase == F.Ing3
    ensures R(t) && Showing(t)
    ensures t.sender.phase == (if s.sender.len == 0 then F.End else F.Ing0)
    ensures t.sender.len == s.sender.len && t.sender.delay == s.sender.delay
  {
    var a := Goes(R, step, s, true);
    t := Goes(R, step, a, true);
  }

  /** The next byte is latched. */
  lemma LatchGoes(R: System -> bool, step: nat, s: System) returns (t: System)
    requires Closed(R, step) && R(s) && Showing(s) && s.sender.phase == F.Ing2 && 0 < s.sender.len
    ensures R(t) && Showing(t)
    ensures t.sender.phase == (if s.sender.len == 1 then F.End else F.Ing0)
    ensures t.sender.len == s.sender.len - 1 && t.sender.delay == s.sender.delay
  {
    var a := Goes(R, step, s, true);
    t := TestGoes(R, step, a);
  }

  lemma {:induction false} BytesGo(R: System -> bool, step: nat, s: System) returns (t: System)
    requires Closed(R, step) && R(s) && Showing(s)
    requires s.sender.phase == F.Ing0 && 0 < s.sender.len && s.sender.delay == 0
    ensures R(t) && Showing(t) && t.sender.phase == F.End && t.sender.delay == 0
    decreases s.sender.len
  {
    var acked := AckGoes(R, step, s);
    t := LatchGoes(R, step, acked);
    if t.sender.phase == F.Ing0 {
      t := BytesGo(R, step, t);
    }
  }

  /** The frame is over except for the last acknowledge. */
  predicate Closing(s: System) {
    Showing(s) && s.sender.phase == F.Delay2 && s.sender.delay == 0
  }

  lemma EndGoes(R: System -> bool, step: nat, s: System) returns (t: System)
    requires Closed(R, step) && R(s) && Showing(s) && s.sender.phase == F.End && s.sender.delay == 0
    ensures R(t) && Closing(t)
  {
    var a := Goes(R, step, s, !s.sender.ackSave);
    assert a.sender.phase == F.Delay1;
    t := Goes(R, step, a, true);
  }

  lemma FrameCloses(R: System -> bool, step: nat, start: System) returns (t: System)
    requires Closed(R, step) && PowerOn(start) && R(start)
    ensures R(t) && Closing(t)
  {
    var a := FrameBegins(R, step, start);
    var b := BytesGo(R, step, a);
    t := EndGoes(R, step, b);
  }

  // ---- The second frame

  /** Until the acknowledge nothing but the sample clock moves; here it has just risen. */
  lemma {:induction false} ClosingWaits(R: System -> bool, step: nat, s: System) returns (t: System)
    requires Closed(R, step) && R(s) && Closing(s)
    ensures R(t) && Closing(t) && D.UntilRise(t.clock, step) == 2 * (step + 1)
    decreases D.UntilRise(s.clock, step)
  {
    D.UntilRiseCountsDown(s.clock, step);
    t := Goes(R, step, s, s.sender.ackSave);
    if !D.Rises(s.clock, step) {
      t := ClosingWaits(R, step, t);
    }
  }

  /** `k` clocks into the pause, when the sample clock last rose just before it. */
  predicate Lingering(s: System, step: nat, k: nat) {
    && s.capture.isFull && s.captured == [3000] && s.begun == [1]
    && (if k <= F.DELAY_LEN + 1 then s.sender.phase == F.Delay3 && s.sender.delay == k - 1
        else s.sender.phase == F.Idle)
    && (match s.capture.phase
        case Sending => D.UntilRise(s.clock, step) + k >= 2 * (step + 1)
        case Idle => D.UntilRise(s.clock, step) + k >= 4 * (step + 1)
        case _ => false)
  }

  lemma PauseStarts(s: System, step: nat)
    requires Closing(s) && step > MAX_STEP && D.UntilRise(s.clock, step) == 2 * (step + 1)
    ensures Lingering(Step(s, Acked(s, step, !s.sender.ackSave)), step, 1)
  {
    D.UntilRiseCountsDown(s.clock, step);
  }

  lemma LingeringStays(s: System, step: nat, k: nat)
    requires 1 <= k < F.DELAY_LEN + 2 && step > MAX_STEP && Lingering(s, step, k)
    ensures Lingering(Step(s, Acked(s, step, true)), step, k + 1)
  {
    D.UntilRiseCountsDown(s.clock, step);
    if s.capture.phase == Idle {
      assert !D.Rises(s.clock, step);
    }
  }

  lemma {:induction false} PauseLingers(R: System -> bool, step: nat, s: System, k: nat) returns (t: System)
    requires Closed(R, step) && R(s) && step > MAX_STEP && 1 <= k <= F.DELAY_LEN + 2 && Lingering(s, step, k)
    ensures R(t) && Lingering(t, step, F.DELAY_LEN + 2)
    decreases F.DELAY_LEN + 2 - k
  {
    if k == F.DELAY_LEN + 2 {
      t := s;
    } else {
      LingeringStays(s, step, k);
      StepReaches(R, step, s, Acked(s, step, true));
      t := PauseLingers(R, step, Step(s, Acked(s, step, true)), k + 1);
    }
  }

  /** A whole run: the last acknowledge of the first frame comes right after an edge of the sample clock. */
  lemma SendsTwice(R: System -> bool, step: nat, start: System) returns (t: System)
    requires Closed(R, step) && PowerOn(start) && R(start) && step > MAX_STEP
    ensures R(t) && t.captured == [3000] && t.begun == [1, 1]
  {
    var a := FrameCloses(R, step, start);
    var b := ClosingWaits(R, step, a);
    var last := Acked(b, step, !b.sender.ackSave);
    PauseStarts(b, step);
    StepReaches(R, step, b, last);
    var c := PauseLingers(R, step, Step(b, last), 1);
    StepReaches(R, step, c, Acked(c, step, true));
    t := Step(c, Acked(c, step, true));
  }

  /**
   From every power-on, at every constant step above the bound, some run sends its first capture
   twice: the driver acknowledges the last byte right after an edge of the sample clock.
   */
  lemma SlowerClockSendsTwice(start: System, step: nat) returns (ins: seq<Input>)
    requires PowerOn(start) && step > 499
    ensures AtStep(ins, step) && Counts(start, ins)
    ensures Run(start, ins).captured == [3000] && Run(start, ins).begun == [1, 1]
  {
    var R := (s: System) => Reaches(start, step, s);
    assert AtStep([], step) && Counts(start, []) && Run(start, []) == start;
    ReachedIsClosed(start, step);
    var e := SendsTwice(R, step, start);
    ins :| AtStep(ins, step) && Counts(start, ins) && Run(start, ins) == e;
  }

  ghost predicate NeverSendsTwice(start: System, step: nat) {
    forall ins :: AtStep(ins, step) ==> Increasing(Run(start, ins).begun)
  }

  /** Exactly up to the bound is no capture ever sent twice. */
  lemma BoundIsExact(start: System, step: nat)
    requires PowerOn(start)
    ensures NeverSendsTwice(start, step) <==> 4 * (step + 1) <= 2000
  {
    if step > 499 {
      var ins := SlowerClockSendsTwice(start, step);
      assert Run(start, ins).begun[0] == Run(start, ins).begun[1];
      assert !Increasing(Run(start, ins).begun);
    } else {
      forall ins: seq<Input> | AtStep(ins, step)
        ensures Increasing(Run(start, ins).begun)
      {
        NoCaptureIsSentTwice(start, ins, Acked(start, step, true));
      }
    }
  }
}
