/** The capture control ADC_FIFO_CONTROL and its isFull/clear exchange with the frame sender. */
module AdcCapture {
  import D = Divs
  import F = FrameSender

  const LEN := 3000

  datatype Phase = Idle | WaitTrigger | Saving | SaveLen | Sending

  datatype Capture = Capture(phase: Phase, isW: bool, isFull: bool, len: nat)

  function NextPhase(c: Capture, ignore: bool, trigger: bool, lenCache: nat, clear: bool): Phase {
    match c.phase
    case Idle => if ignore then Saving else if !trigger then WaitTrigger else Idle
    case WaitTrigger => if trigger || ignore then Saving else WaitTrigger
    case Saving => if lenCache > LEN - 2 then SaveLen else Saving
    case SaveLen => Sending
    case Sending => if clear then Idle else Sending
  }

  /** One edge of the sample clock. */
  function Next(c: Capture, ignore: bool, trigger: bool, lenCache: nat, clear: bool): Capture {
    var t := c.(phase := NextPhase(c, ignore, trigger, lenCache, clear));
    match c.phase
    case Idle => t.(isW := false, isFull := false)
    case WaitTrigger => t.(isW := false, isFull := false)
    case Saving => t.(isW := true, isFull := false)
    case SaveLen => t.(isW := false, isFull := false, len := lenCache)
    case Sending => t.(isW := false, isFull := true)
  }

  class CaptureControl {
    var state: Phase
    var isW: bool
    var isFull: bool
    var len: nat

    function Registers(): Capture
      reads this
    {
      Capture(state, isW, isFull, len)
    }

    constructor (len: nat)
      ensures Registers() == Capture(Idle, true, false, len)
    {
      state, isW, isFull, this.len := Idle, true, false, len;
    }

    method Clock(ignore: bool, trigger: bool, lenCache: nat, clear: bool)
      modifies this
      ensures Registers() == Next(old(Registers()), ignore, trigger, lenCache, clear)
    {
      var next := NextPhase(Registers(), ignore, trigger, lenCache, clear);
      match state {
        case Idle =>
          isW, isFull := false, false;
        case WaitTrigger =>
          isW, isFull := false, false;
        case Saving =>
          isW, isFull := true, false;
        case SaveLen =>
          isW, isFull, len := false, false, lenCache;
        case Sending =>
          isW, isFull := false, true;
      }
      state := next;
    }
  }

  // ---- The capture by itself, edge by edge

  datatype Edge = Edge(ignore: bool, trigger: bool, lenCache: nat, clear: bool)

  function RunEdges(c: Capture, es: seq<Edge>): Capture
    decreases |es|
  {
    if es == [] then c
    else
      var e := es[|es| - 1];
      Next(RunEdges(c, es[..|es| - 1]), e.ignore, e.trigger, e.lenCache, e.clear)
  }

  /**
   The memory is written at exactly the edges from the one after the first edge in `Saving` through the
   one that saves the length, and never while the capture shows as full.
   */
  lemma WritesWhileSaving(c: Capture, es: seq<Edge>)
    requires es != []
    ensures var before, after := RunEdges(c, es[..|es| - 1]), RunEdges(c, es);
            && (after.isW <==> before.phase == Saving) && (after.isFull <==> before.phase == Sending)
            && (after.phase == SaveLen ==> after.isW) && !(after.isW && after.isFull)
  {
  }

  /** The capture has started: it is past waiting for its trigger. */
  predicate Waits(c: Capture) {
    c.phase == Idle || c.phase == WaitTrigger
  }

  /** A low trigger, and a high one later. */
  ghost predicate Rises(es: seq<Edge>) {
    exists i, j :: 0 <= i < j < |es| && !es[i].trigger && es[j].trigger
  }

  ghost predicate Ignored(es: seq<Edge>) {
    exists i :: 0 <= i < |es| && es[i].ignore
  }

  predicate SomeLow(es: seq<Edge>) {
    exists i :: 0 <= i < |es| && !es[i].trigger
  }

  lemma RisesGrows(es: seq<Edge>, e: Edge)
    ensures Rises(es + [e]) <==> Rises(es) || (SomeLow(es) && e.trigger)
    ensures SomeLow(es + [e]) <==> SomeLow(es) || !e.trigger
    ensures Ignored(es + [e]) <==> Ignored(es) || e.ignore
  {
    var fs := es + [e];
    assert fs[|es|] == e && forall i :: 0 <= i < |es| ==> fs[i] == es[i];
    if Rises(fs) {
      var i, j :| 0 <= i < j < |fs| && !fs[i].trigger && fs[j].trigger;
      assert !es[i].trigger;
    }
    if SomeLow(es) && e.trigger {
      var i :| 0 <= i < |es| && !es[i].trigger;
      assert !fs[i].trigger && fs[|es|].trigger;
    }
    if Rises(es) {
      var i, j :| 0 <= i < j < |es| && !es[i].trigger && es[j].trigger;
      assert !fs[i].trigger && fs[j].trigger;
    }
  }

  /** The capture has not started at any of these edges. */
  predicate NeverStarts(c: Capture, es: seq<Edge>)
    decreases |es|
  {
    Waits(RunEdges(c, es)) && (es == [] || NeverStarts(c, es[..|es| - 1]))
  }

  /**
   A waiting capture starts exactly when the trigger, low once, has been high after that, or is to be
   ignored; until then it waits for the low or the high level, whichever is due.
   */
  lemma {:induction false} StartsOnRise(c: Capture, es: seq<Edge>)
    requires c.phase == Idle
    ensures NeverStarts(c, es) <==> !Rises(es) && !Ignored(es)
    ensures NeverStarts(c, es) ==> RunEdges(c, es).phase == if SomeLow(es) then WaitTrigger else Idle
    decreases |es|
  {
    if es != [] {
      var init, e := es[..|es| - 1], es[|es| - 1];
      StartsOnRise(c, init);
      RisesGrows(init, e);
      assert init + [e] == es;
    }
  }

  /**
   With the trigger heeded, no capture is taken after the last one, or after power-on, unless the trigger
   has meanwhile been low and then high.
   */
  lemma {:induction false} NoCaptureWithoutRise(c: Capture, es: seq<Edge>)
    requires c.phase == Sending || c.phase == Idle
    requires !Rises(es) && !Ignored(es)
    ensures RunEdges(c, es).phase == Sending || Waits(RunEdges(c, es))
    ensures RunEdges(c, es).phase == WaitTrigger ==> SomeLow(es)
    decreases |es|
  {
    if es != [] {
      var init, e := es[..|es| - 1], es[|es| - 1];
      assert init + [e] == es;
      RisesGrows(init, e);
      NoCaptureWithoutRise(c, init);
    }
  }

  /** A started capture fills the memory until it holds more than 2998 samples, and then saves the count. */
  lemma {:induction false} SavesWhenFull(c: Capture, es: seq<Edge>)
    requires c.phase == Saving
    ensures (forall k :: 0 <= k < |es| ==> es[k].lenCache <= 2998) ==> RunEdges(c, es).phase == Saving
    ensures |es| >= 2 && (forall k :: 0 <= k < |es| - 2 ==> es[k].lenCache <= 2998) && es[|es| - 2].lenCache > 2998
            ==> RunEdges(c, es).phase == Sending && RunEdges(c, es).len == es[|es| - 1].lenCache
    decreases |es|
  {
    if es != [] {
      var init := es[..|es| - 1];
      SavesWhenFull(c, init);
      if |es| >= 2 {
        SavesWhenFull(c, init[..|init| - 1]);
        assert init[|init| - 1] == es[|es| - 2];
      }
    }
  }

  /** A capture stays shown, with its length, exactly until the sender's pause clears it. */
  lemma {:induction false} ShowsUntilCleared(c: Capture, es: seq<Edge>)
    requires c.phase == Sending
    ensures (forall k :: 0 <= k < |es| ==> !es[k].clear)
            ==> RunEdges(c, es).phase == Sending && RunEdges(c, es).len == c.len
    ensures (forall k :: 0 <= k < |es| ==> !es[k].clear) && es != [] ==> RunEdges(c, es).isFull
    ensures es != [] && (forall k :: 0 <= k < |es| - 1 ==> !es[k].clear) && es[|es| - 1].clear
            ==> RunEdges(c, es).phase == Idle && RunEdges(c, es).isFull
    decreases |es|
  {
    if es != [] {
      ShowsUntilCleared(c, es[..|es| - 1]);
    }
  }

  // ---- The capture, the divided sample clock and the sender together

  /**
   Four logs: `captured` has the length saved by each capture, `begun` the number of captures there
   were when each frame began, `taken` the length the sender read for each frame, and `written` the
   number of samples the memory has been told to write.
   */
  datatype System = System(sender: F.Sender, capture: Capture, clock: D.Divider,
                           captured: seq<nat>, begun: seq<nat>, taken: seq<nat>, written: nat)

  /** What the environment decides in one core clock. */
  datatype Input = Input(step: nat, ack: bool, data: F.Octet, ignore: bool, trigger: bool, lenCache: nat)

  /** One core clock. A sample edge raised by this clock already sees the sender's new state. */
  function Step(s: System, i: Input): System {
    var sender := F.Next(s.sender, F.Input(s.capture.isFull, s.capture.len, i.data), i.ack);
    var edge := D.Rises(s.clock, i.step);
    System(sender,
           if edge then Next(s.capture, i.ignore, i.trigger, i.lenCache, sender.phase == F.Delay3) else s.capture,
           D.Next(s.clock, i.step),
           if edge && s.capture.phase == SaveLen then s.captured + [i.lenCache] else s.captured,
           if s.sender.phase == F.Idle && sender.phase == F.StartSave then s.begun + [|s.captured|] else s.begun,
           if s.sender.phase == F.Start then s.taken + [s.capture.len] else s.taken,
           if edge && s.capture.isW then s.written + 1 else s.written)
  }

  function Run(s: System, ins: seq<Input>): System
    decreases |ins|
  {
    if ins == [] then s else Step(Run(s, ins[..|ins| - 1]), ins[|ins| - 1])
  }

  predicate PowerOn(s: System) {
    && s.sender.phase == F.Idle && s.capture.phase == Idle && !s.capture.isFull && s.clock.cnt == 0
    && s.captured == [] && s.begun == [] && s.taken == [] && s.written == 0
  }

  /** The largest sample-clock step for which two sample edges fit into the sender's pause. */
  const MAX_STEP := 499

  predicate AllSlow(ins: seq<Input>) {
    forall i :: 0 <= i < |ins| ==> ins[i].step <= 499
  }

  /** The sample edges of a run, as the capture sees them. */
  function EdgesOf(s: System, ins: seq<Input>): seq<Edge>
    decreases |ins|
  {
    if ins == [] then []
    else
      var before, m, i := EdgesOf(s, ins[..|ins| - 1]), Run(s, ins[..|ins| - 1]), ins[|ins| - 1];
      if !m.clock.level && Step(m, i).clock.level
      then before + [Edge(i.ignore, i.trigger, i.lenCache, Step(m, i).sender.phase == F.Delay3)] else before
  }

  /** The capture moves at the edges of its clock and at no other time. */
  lemma {:induction false} CaptureFollowsEdges(s: System, ins: seq<Input>)
    ensures Run(s, ins).capture == RunEdges(s.capture, EdgesOf(s, ins))
    decreases |ins|
  {
    if ins != [] {
      CaptureFollowsEdges(s, ins[..|ins| - 1]);
      RiseMovesCapture(Run(s, ins[..|ins| - 1]), ins[|ins| - 1]);
    }
  }

  lemma RiseMovesCapture(s: System, i: Input)
    ensures Step(s, i).capture ==
            if !s.clock.level && Step(s, i).clock.level
            then Next(s.capture, i.ignore, i.trigger, i.lenCache, Step(s, i).sender.phase == F.Delay3) else s.capture
  {
  }

  // ---- No capture is sent twice

  /** Bound on the clocks to the next sample edge, however the step changes meanwhile. */
  function Within(d: D.Divider): int {
    if d.level then 2 * (MAX_STEP + 1) - d.cnt else MAX_STEP + 1 - d.cnt
  }

  lemma WithinCountsDown(d: D.Divider, step: nat)
    requires step <= MAX_STEP && d.cnt <= MAX_STEP
    ensures D.Next(d, step).cnt <= MAX_STEP
    ensures D.Rises(d, step) ==> Within(D.Next(d, step)) == 2 * (MAX_STEP + 1)
    ensures !D.Rises(d, step) ==> 1 <= Within(D.Next(d, step)) < Within(d)
  {
  }

  predicate Increasing(xs: seq<nat>) {
    forall i, j :: 0 <= i < j < |xs| ==> xs[i] < xs[j]
  }

  /** A frame has already begun for the newest capture. */
  predicate Served(begun: seq<nat>, captured: seq<nat>) {
    begun != [] && begun[|begun| - 1] == |captured|
  }

  /** If `isFull` still shows a capture already served, it falls before the sender can look again. */
  predicate FallsInTime(sender: F.Sender, capture: Capture, clock: D.Divider) {
    match sender.phase
    case Idle => false
    case Delay3 =>
      if capture.phase == Sending then sender.delay + Within(clock) <= F.DELAY_LEN - 2 * (MAX_STEP + 1) + 1
      else sender.delay + Within(clock) <= F.DELAY_LEN + 1
    case _ => true
  }

  predicate SenderOk(s: F.Sender) {
    && (s.phase in {F.Start, F.Start2, F.Start3, F.Ing0, F.Ing1, F.Ing2, F.Ing3, F.Ing4, F.End, F.Delay1, F.Delay2}
        ==> s.delay == 0)
    && (s.phase == F.Delay3 ==> s.delay <= F.DELAY_LEN)
  }

  /** `isFull` rises only for a capture that no frame has begun for. */
  predicate CaptureOk(c: Capture, served: bool) {
    && (c.isFull ==> c.phase == Sending || c.phase == Idle)
    && (c.phase == Sending && served ==> c.isFull)
  }

  predicate BegunOk(begun: seq<nat>, captured: seq<nat>) {
    Increasing(begun) && (begun != [] ==> begun[|begun| - 1] <= |captured|)
  }

  predicate Inv(s: System) {
    && SenderOk(s.sender) && s.clock.cnt <= MAX_STEP
    && CaptureOk(s.capture, Served(s.begun, s.captured)) && BegunOk(s.begun, s.captured)
    && (s.capture.isFull && Served(s.begun, s.captured) ==> FallsInTime(s.sender, s.capture, s.clock))
  }

  lemma SenderStaysOk(s: F.Sender, i: F.Input, ack: bool)
    requires SenderOk(s)
    ensures SenderOk(F.Next(s, i, ack))
  {
  }

  lemma BegunStaysOk(s: System, i: Input)
    requires Inv(s)
    ensures BegunOk(Step(s, i).begun, Step(s, i).captured)
    ensures CaptureOk(Step(s, i).capture, Served(Step(s, i).begun, Step(s, i).captured))
  {
    var t := Step(s, i);
    if s.capture.isFull && s.sender.phase == F.Idle {
      assert !Served(s.begun, s.captured);
      assert t.begun == s.begun + [|s.captured|];
    } else {
      assert t.begun == s.begun;
    }
  }

  lemma FallsInTimeStays(s: System, i: Input)
    requires i.step <= MAX_STEP && Inv(s)
    requires s.capture.isFull && FallsInTime(s.sender, s.capture, s.clock)
    requires Step(s, i).capture.isFull
    ensures FallsInTime(Step(s, i).sender, Step(s, i).capture, Step(s, i).clock)
  {
    WithinCountsDown(s.clock, i.step);
  }

  lemma StepKeepsInv(s: System, i: Input)
    requires Inv(s) && i.step <= MAX_STEP
    ensures Inv(Step(s, i))
  {
    var t := Step(s, i);
    WithinCountsDown(s.clock, i.step);
    SenderStaysOk(s.sender, F.Input(s.capture.isFull, s.capture.len, i.data), i.ack);
    BegunStaysOk(s, i);
    if t.capture.isFull && Served(t.begun, t.captured) && s.capture.isFull && Served(s.begun, s.captured) {
      FallsInTimeStays(s, i);
    }
  }

  lemma {:induction false} RunKeepsInv(start: System, ins: seq<Input>)
    requires Inv(start) && AllSlow(ins)
    ensures Inv(Run(start, ins))
    decreases |ins|
  {
    if ins != [] {
      RunKeepsInv(start, ins[..|ins| - 1]);
      StepKeepsInv(Run(start, ins[..|ins| - 1]), ins[|ins| - 1]);
    }
  }

  /**
   With every step of the sample clock at most `MAX_STEP`, every frame begins for a later capture
   than the frame before it, whatever the trigger, the memory and the driver do; and the length
   stays as it is for as long as `isFull` is high.
   */
  lemma NoCaptureIsSentTwice(start: System, ins: seq<Input>, i: Input)
    requires PowerOn(start) && AllSlow(ins)
    ensures Increasing(Run(start, ins).begun)
    ensures Run(start, ins).capture.isFull ==> Step(Run(start, ins), i).capture.len == Run(start, ins).capture.len
  {
    RunKeepsInv(start, ins);
  }

  // ---- Exactly one frame for each capture

  /** The sample memory does not fill up again while the sender pauses. */
  predicate Paces(s: System, i: Input) {
    s.capture.phase == Saving && F.NextPhase(s.sender, s.capture.isFull, i.ack) == F.Delay3
    ==> i.lenCache <= 2998
  }

  predicate AllPaced(s: System, ins: seq<Input>)
    decreases |ins|
  {
    ins == [] || (AllPaced(s, ins[..|ins| - 1]) && Paces(Run(s, ins[..|ins| - 1]), ins[|ins| - 1]))
  }

  /** Frame `k` begins when there are `k + 1` captures. */
  predicate OneByOne(begun: seq<nat>) {
    forall k :: 0 <= k < |begun| ==> begun[k] == k + 1
  }

  /** How the two machines can stand to each other. */
  predicate Paired(sender: F.Sender, c: Capture, captures: nat, frames: nat) {
    match sender.phase
    case Idle =>
      && (c.isFull ==> c.phase == Sending)
      && captures == (if c.phase == Sending then frames + 1 else frames)
    case Delay3 => c.phase != SaveLen && captures == frames > 0
    case _ => c.phase == Sending && c.isFull && captures == frames > 0
  }

  predicate TakenOk(sender: F.Sender, c: Capture, captured: seq<nat>, frames: nat, taken: seq<nat>) {
    && (c.phase == Sending ==> captured != [] && captured[|captured| - 1] == c.len)
    && |taken| == (if sender.phase in {F.StartSave, F.Start} then frames - 1 else frames)
    && taken <= captured
  }

  predicate Matched(s: System) {
    && Inv(s) && OneByOne(s.begun)
    && Paired(s.sender, s.capture, |s.captured|, |s.begun|)
    && TakenOk(s.sender, s.capture, s.captured, |s.begun|, s.taken)
  }

  lemma BegunOneByOne(s: System, i: Input)
    requires Matched(s)
    ensures OneByOne(Step(s, i).begun)
  {
    if Step(s, i).begun != s.begun {
      assert s.sender.phase == F.Idle && s.capture.isFull;
    }
  }

  lemma PairedFromIdle(s: System, i: Input)
    requires Matched(s) && s.sender.phase == F.Idle
    ensures Paired(Step(s, i).sender, Step(s, i).capture, |Step(s, i).captured|, |Step(s, i).begun|)
  {
  }

  lemma PairedFromPause(s: System, i: Input)
    requires Matched(s) && Paces(s, i) && s.sender.phase == F.Delay3
    requires Inv(Step(s, i))
    ensures Paired(Step(s, i).sender, Step(s, i).capture, |Step(s, i).captured|, |Step(s, i).begun|)
  {
    var t := Step(s, i);
    assert t.begun == s.begun;
    if t.sender.phase == F.Idle {
      assert t.captured == s.captured;
      assert Served(t.begun, t.captured);
    }
  }

  lemma PairedInFrame(s: System, i: Input)
    requires Matched(s) && s.sender.phase != F.Idle && s.sender.phase != F.Delay3
    ensures Paired(Step(s, i).sender, Step(s, i).capture, |Step(s, i).captured|, |Step(s, i).begun|)
  {
    assert Step(s, i).begun == s.begun && Step(s, i).captured == s.captured;
  }

  lemma PairedStays(s: System, i: Input)
    requires Matched(s) && Paces(s, i) && Inv(Step(s, i))
    ensures OneByOne(Step(s, i).begun)
    ensures Paired(Step(s, i).sender, Step(s, i).capture, |Step(s, i).captured|, |Step(s, i).begun|)
  {
    BegunOneByOne(s, i);
    if s.sender.phase == F.Idle {
      PairedFromIdle(s, i);
    } else if s.sender.phase == F.Delay3 {
      PairedFromPause(s, i);
    } else {
      PairedInFrame(s, i);
    }
  }

  lemma CapturedStays(s: System, i: Input)
    requires Matched(s)
    ensures var t := Step(s, i);
            && (t.capture.phase == Sending ==> t.captured != [] && t.captured[|t.captured| - 1] == t.capture.len)
            && s.captured <= t.captured
  {
  }

  lemma TakenStays(s: System, i: Input)
    requires Matched(s)
    ensures var t := Step(s, i); TakenOk(t.sender, t.capture, t.captured, |t.begun|, t.taken)
  {
    CapturedStays(s, i);
    var t := Step(s, i);
    if s.sender.phase == F.Start {
      assert s.captured == s.captured[..|s.captured| - 1] + [s.capture.len];
      assert t.taken <= s.captured;
    } else {
      assert t.taken == s.taken;
    }
  }

  lemma StepKeepsMatched(s: System, i: Input)
    requires Matched(s) && i.step <= MAX_STEP && Paces(s, i)
    ensures Matched(Step(s, i))
  {
    StepKeepsInv(s, i);
    PairedStays(s, i);
    TakenStays(s, i);
  }

  lemma {:induction false} RunKeepsMatched(start: System, ins: seq<Input>)
    requires Matched(start) && AllSlow(ins) && AllPaced(start, ins)
    ensures Matched(Run(start, ins))
    decreases |ins|
  {
    if ins != [] {
      RunKeepsMatched(start, ins[..|ins| - 1]);
      StepKeepsMatched(Run(start, ins[..|ins| - 1]), ins[|ins| - 1]);
    }
  }

  /**
   When moreover the memory refills no sooner than the pause ends, frames and captures go one for
   one: frame `k` begins as soon as capture `k` shows and before capture `k + 1` is saved, and the
   lengths the sender takes are the lengths captured, in order, with at most one outstanding.
   */
  lemma OneFramePerCapture(start: System, ins: seq<Input>)
    requires PowerOn(start) && AllSlow(ins) && AllPaced(start, ins)
    ensures var e := Run(start, ins);
            && OneByOne(e.begun) && |e.begun| <= |e.captured| <= |e.begun| + 1
            && e.taken <= e.captured && |e.captured| <= |e.taken| + 1
  {
    RunKeepsMatched(start, ins);
  }

  /** From its first clock to its last acknowledge a frame has its capture flagged, and it is the newest one. */
  lemma FrameStaysFlagged(start: System, ins: seq<Input>)
    requires PowerOn(start) && AllSlow(ins) && AllPaced(start, ins)
    ensures var e := Run(start, ins);
            e.sender.phase != F.Idle && e.sender.phase != F.Delay3
            ==> e.capture.phase == Sending && e.capture.isFull && Served(e.begun, e.captured)
  {
    RunKeepsMatched(start, ins);
  }
}
