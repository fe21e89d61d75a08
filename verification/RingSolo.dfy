/**
 The shared ring on one processor: the tasklet runs from start to end before the callback or the
 consumer get their turn, only the GPIO interrupt breaks in anywhere.
 */
module RingSolo {
  import opened SharedRing
  import opened RingInvariant
  import opened RingTheorems

  predicate IsTaskletEvent(e: Event) {
    e.Check? || e.Receive? || e.Advance? || e.MarkFull? || e.Signal? || e.Reopen?
  }

  /** Signals sent and not yet answered. */
  function Signals(s: State): nat {
    One(IsCode(s.callback)) + |Codes(s.toKernel)| + One(s.user.Draining?) + |s.toUser|
  }

  /** No signal slips out between the callback's note of the sender and its clearing of `hasSend`. */
  predicate CleanStart(s: State, e: Event) {
    e.Update? && IsStart(s.callback) ==> Signals(s) == 0
  }

  predicate OneCpu(s: State, e: Event) {
    && (!IsTaskletEvent(e) && !e.GpioEdge? ==> s.tasklet.Resting?)
    && (e.Begin? ==> LockFree(s))
  }

  /** The run never leaves one processor. */
  predicate OnOneCpu(s: State, es: seq<Event>)
    decreases |es|
  {
    es == [] || (OnOneCpu(s, es[..|es| - 1]) && OneCpu(Run(s, es[..|es| - 1]), es[|es| - 1]))
  }

  /** The session of the run starts cleanly. */
  predicate StartsCleanly(s: State, es: seq<Event>)
    decreases |es|
  {
    es == [] || (StartsCleanly(s, es[..|es| - 1]) && CleanStart(Run(s, es[..|es| - 1]), es[|es| - 1]))
  }

  /** Nothing has arrived since this signal, and nothing can until it is answered. */
  predicate Settled(s: State, sig: Sent) {
    sig.wasFull ==> s.full && !s.pending && Counted(s) == sig.index && (s.tasklet.Resting? || s.tasklet.Reopening?)
  }

  predicate AllSettled(s: State, ms: seq<Message>) {
    forall i :: 0 <= i < |ms| ==> Settled(s, ms[i].sig)
  }

  predicate SoloInv(s: State) {
    && Signals(s) <= 1
    && (!s.hasSend || s.callback.Flagged? ==> Signals(s) == 0)
    && (s.tasklet.Signalling? && s.tasklet.sig.wasFull ==> s.full)
    && (s.tasklet.Checked? || s.tasklet.Signalling? ==> LockFree(s))
    && (IsCode(s.callback) ==> Settled(s, s.callback.sig))
    && (s.user.Draining? ==> Settled(s, s.user.sig))
    && AllSettled(s, Codes(s.toKernel)) && AllSettled(s, s.toUser)
  }

  lemma TaskletKeepsSolo(s: State, e: Event)
    requires Inv(s) && SoloInv(s) && Enabled(s, e) && OneCpu(s, e)
    requires IsTaskletEvent(e) || e.GpioEdge? || e.Begin?
    ensures InRange(s) && SoloInv(Step(s, e))
  {
    InvIsInRange(s);
  }

  lemma EnterKeepsSolo(s: State)
    requires Inv(s) && SoloInv(s) && Enabled(s, Enter)
    ensures InRange(s) && SoloInv(EnterStep(s))
  {
    if Starting(s.toKernel) {
      CodesAfterStart(CallbackEnd(s.callback, s.released), s.toKernel, s.replied);
    } else {
      CodeDecodes(s);
      NoSecondStart(s.toKernel[0].sig.index, s.toKernel[1..], s.replied);
    }
  }

  lemma ReplyKeepsSolo(s: State)
    requires InRange(s) && SoloInv(s) && Enabled(s, Reply)
    ensures SoloInv(ReplyStep(s))
  {
    CodesAppend(s.toKernel, Message(s.lastFront, s.user.sig));
  }

  lemma ProcessKeepsSolo(s: State, e: Event)
    requires Inv(s) && SoloInv(s) && Enabled(s, e) && OneCpu(s, e) && CleanStart(s, e)
    requires !IsTaskletEvent(e) && !e.GpioEdge? && !e.Begin?
    ensures InRange(s) && SoloInv(Step(s, e))
  {
    InvIsInRange(s);
    match e
    case Enter => EnterKeepsSolo(s);
    case Reply => ReplyKeepsSolo(s);
    case Update => assert SoloInv(UpdateStep(s));
    case Latch => assert SoloInv(LatchStep(s));
    case Attach => assert SoloInv(AttachStep(s));
    case Take => assert SoloInv(TakeStep(s));
    case Hand(sockets) => assert SoloInv(HandStep(s, sockets));
  }

  lemma {:induction false} RunKeepsSolo(s: State, es: seq<Event>)
    requires Inv(s) && SoloInv(s) && OnOneCpu(s, es) && StartsCleanly(s, es)
    ensures Inv(Run(s, es)) && SoloInv(Run(s, es))
    decreases |es|
  {
    if es != [] {
      var m, e := Run(s, es[..|es| - 1]), es[|es| - 1];
      RunKeepsSolo(s, es[..|es| - 1]);
      ApplyKeepsInv(m, e);
      if Enabled(m, e) {
        if IsTaskletEvent(e) || e.GpioEdge? || e.Begin? {
          TaskletKeepsSolo(m, e);
        } else {
          ProcessKeepsSolo(m, e);
        }
      }
    }
  }

  /**
   On one processor, after a clean start, at most one signal is ever unanswered. A signal from the full
   branch finds the ring marked full, and it stays so, without another frame, until the answer; and
   the answer leaves the ring empty.
   */
  lemma FullSignalEmptiesTheRing(start: State, es: seq<Event>)
    requires Loaded(start) && start.lastFront < STREAM_LEN && OnOneCpu(start, es) && StartsCleanly(start, es)
    ensures var e := Run(start, es);
            && Signals(e) <= 1
            && (e.tasklet.Signalling? && e.tasklet.sig.wasFull ==> e.full)
            && (e.user.Draining? && e.user.sig.wasFull ==> e.full && Counted(e) == e.user.sig.index)
            && (IsCode(e.callback) && e.callback.sig.wasFull ==> e.full && UpdateStep(e).len == 0)
  {
    LoadedSatisfiesInv(start);
    RunKeepsSolo(start, es);
  }

  // ---- Without a clean start

  /** The tasklet takes one frame and signals it, up to but not including its signal. */
  function OneFrame(s: State, f: Frame): State
    requires InRange(s) && s.intOn && !s.full && s.tasklet.Resting? && LockFree(s) && !RingFull(s.len)
  {
    AdvanceStep(ReceiveStep(CheckStep(BeginStep(GpioEdgeStep(s))), f))
  }

  /** Some run on one processor leads here. */
  ghost predicate OneCpuReachable(s: State) {
    exists start, es :: Loaded(start) && start.lastFront < STREAM_LEN && OnOneCpu(start, es) && Run(start, es) == s
  }

  lemma OneCpuIsReachable(s: State)
    requires OneCpuReachable(s)
    ensures Reachable(s) && Inv(s) && InRange(s)
  {
    ReachableSatisfiesInv(s);
    InvIsInRange(s);
  }

  lemma StepReaches(s: State, e: Event)
    requires OneCpuReachable(s) && InRange(s) && Enabled(s, e) && OneCpu(s, e)
    ensures OneCpuReachable(Step(s, e))
  {
    var start, es :| Loaded(start) && start.lastFront < STREAM_LEN && OnOneCpu(start, es) && Run(start, es) == s;
    RunAppends(start, es, e);
  }

  lemma RunAppends(start: State, es: seq<Event>, e: Event)
    ensures Run(start, es + [e]) == Apply(Run(start, es), e)
    ensures OnOneCpu(start, es + [e]) <==> OnOneCpu(start, es) && OneCpu(Run(start, es), e)
  {
    assert (es + [e])[..|es|] == es;
  }

  lemma FrameReaches(s: State, f: Frame)
    requires OneCpuReachable(s)
    requires InRange(s) && s.intOn && !s.full && s.tasklet.Resting? && LockFree(s) && !RingFull(s.len)
    ensures OneCpuReachable(OneFrame(s, f))
  {
    var s1 := GpioEdgeStep(s);
    var s2 := BeginStep(s1);
    var s3 := CheckStep(s2);
    StepReaches(s, GpioEdge);
    StepReaches(s1, Begin);
    StepReaches(s2, Check);
    StepReaches(s3, Receive(f));
    StepReaches(ReceiveStep(s3, f), Advance);
  }

  predicate IsStart(c: Callback) {
    c.Entered? && c.code == START_CODE
  }

  /** The tasklet at rest with the interrupt open, and a session that has been noted. */
  predicate Rested(s: State) {
    && InRange(s) && s.intOn && !s.pending && !s.irq && s.tasklet.Resting? && LockFree(s)
    && s.attached && s.user.Blocked? && s.toKernel == []
  }

  predicate Open(s: State) {
    Rested(s) && !s.full
  }

  /** The tasklet's signal goes out, and the interrupt opens. */
  lemma Tells(s: State) returns (t: State)
    requires OneCpuReachable(s) && InRange(s) && LockFree(s) && s.tasklet.Signalling? && !s.hasSend
    requires !s.pending && !s.irq && s.attached && s.user.Blocked? && s.toKernel == []
    ensures OneCpuReachable(t) && Rested(t) && t.full == s.full && t.hasSend && t.callback == s.callback
    ensures t.toUser == s.toUser + [Message(s.tasklet.pos, s.tasklet.sig)]
    ensures t.front == s.front && t.released == s.released && t.lastFront == s.lastFront && t.len == s.len
    ensures t.completed == s.completed
  {
    StepReaches(s, Signal);
    var a := SignalStep(s);
    StepReaches(a, Reopen);
    t := ReopenStep(a);
  }

  /** What a received frame leaves as it was. */
  lemma OneFrameMoves(s: State, f: Frame)
    requires Open(s) && !RingFull(s.len)
    ensures var t := OneFrame(s, f);
            && InRange(t) && t.tasklet.Signalling? && t.tasklet.sig == Sent(|s.completed|, false, s.released)
            && !t.pending && !t.irq && !t.full && t.attached && t.user == s.user && t.toKernel == s.toKernel
            && t.front == s.front && t.released == s.released && t.lastFront == s.lastFront
            && t.hasSend == s.hasSend && t.callback == s.callback && t.toUser == s.toUser
            && t.len == s.len + 1 && |t.completed| == |s.completed| + 1
  {
  }

  /** A frame is received and signalled. */
  lemma TellsFrame(s: State, f: Frame) returns (t: State)
    requires OneCpuReachable(s) && Open(s) && !s.hasSend && !RingFull(s.len)
    ensures OneCpuReachable(t) && Open(t) && t.hasSend && t.callback == s.callback
    ensures |t.toUser| == |s.toUser| + 1 && t.toUser[..|s.toUser|] == s.toUser
    ensures t.toUser[|s.toUser|].sig == Sent(|s.completed|, false, s.released)
    ensures t.released == s.released && t.len == s.len + 1 && |t.completed| == |s.completed| + 1
  {
    FrameReaches(s, f);
    OneFrameMoves(s, f);
    t := Tells(OneFrame(s, f));
  }

  /** The session opens on an empty ring, and its start message is entered but not yet acted on. */
  lemma Notes(start: State) returns (t: State)
    requires Loaded(start) && start.lastFront < STREAM_LEN
    ensures OneCpuReachable(t) && Open(t) && !t.hasSend && IsStart(t.callback) && t.toUser == []
    ensures t.released == 0 && t.len == 0 && t.completed == []
  {
    assert OnOneCpu(start, []) && Run(start, []) == start;
    StepReaches(start, Attach);
    var a := AttachStep(start);
    StepReaches(a, Enter);
    t := EnterStep(a);
  }

  /** The callback's section, run in one piece. */
  lemma CallbackRuns(s: State) returns (t: State)
    requires OneCpuReachable(s) && InRange(s) && s.callback.Entered? && s.tasklet.Resting?
    ensures OneCpuReachable(t) && InRange(t) && t == LatchStep(UpdateStep(s))
  {
    StepReaches(s, Update);
    var a := UpdateStep(s);
    OneCpuIsReachable(a);
    StepReaches(a, Latch);
    t := LatchStep(a);
  }

  /** The start message is acted on after all, and forgets that a signal is out. */
  lemma Forgets(s: State) returns (t: State)
    requires OneCpuReachable(s) && Open(s) && IsStart(s.callback)
    ensures OneCpuReachable(t) && Open(t) && !t.hasSend && t.callback.Waiting?
    ensures t.len == s.len && t.released == s.released && t.completed == s.completed && t.toUser == s.toUser
  {
    t := CallbackRuns(s);
  }

  /**
   The clean start is needed, on one processor too: a tasklet that runs after the callback has
   noted the sender, but before it clears `hasSend`, lets a second signal out while the first is
   unanswered.
   */
  lemma SecondSignalEscapes(start: State, f: Frame) returns (s: State)
    requires Loaded(start) && start.lastFront < STREAM_LEN
    ensures OneCpuReachable(s) && Signals(s) >= 2
  {
    var noted := Notes(start);
    var told := TellsFrame(noted, f);
    var forgotten := Forgets(told);
    s := TellsFrame(forgotten, f);
  }
}
