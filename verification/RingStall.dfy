/**
 When an answered signal does not make room. A signal from the full branch can name a position
 that an earlier answer has already released; its own answer then frees nothing.
 */
module RingStall {
  import opened SharedRing
  import opened RingInvariant
  import opened RingTheorems
  import opened RingSolo

  /**
   Exactly when an answer leaves the ring full: it was full, and the answer names the front it
   already has. For a signal of the full branch that is to say its position is released already.
   */
  lemma AnswerLeavesRoom(s: State)
    requires Reachable(s) && IsCode(s.callback)
    ensures RingFull(UpdateStep(s).len) <==> RingFull(s.len) && s.callback.frontDif == 0
    ensures s.callback.sig.wasFull ==>
            (s.callback.frontDif == 0 <==> s.released == s.callback.sig.seen + STREAM_LEN - 1)
  {
    ReachableSatisfiesInv(s);
    CallbackBetween(s);
  }

  // ---- A run into that case, on one processor

  /** Nothing but the ring's contents has moved. */
  predicate SameSession(s: State, t: State) {
    && t.front == s.front && t.released == s.released && t.lastFront == s.lastFront
    && t.hasSend == s.hasSend && t.callback == s.callback && t.toUser == s.toUser
  }

  /** A frame that nobody is told about. */
  lemma QuietFrame(s: State, f: Frame) returns (t: State)
    requires OneCpuReachable(s) && Open(s) && s.hasSend && !RingFull(s.len)
    ensures OneCpuReachable(t) && Open(t) && SameSession(s, t)
    ensures t.len == s.len + 1 && |t.completed| == |s.completed| + 1
  {
    FrameReaches(s, f);
    OneFrameMoves(s, f);
    var a := OneFrame(s, f);
    StepReaches(a, Signal);
    var b := SignalStep(a);
    StepReaches(b, Reopen);
    t := ReopenStep(b);
  }

  lemma {:induction false} QuietFrames(s: State, f: Frame, n: nat) returns (t: State)
    requires OneCpuReachable(s) && Open(s) && s.hasSend && s.len + n < STREAM_LEN
    ensures OneCpuReachable(t) && Open(t) && SameSession(s, t)
    ensures t.len == s.len + n && |t.completed| == |s.completed| + n
  {
    if n == 0 {
      t := s;
    } else {
      var m := QuietFrames(s, f, n - 1);
      t := QuietFrame(m, f);
    }
  }

  /** The tasklet finds the ring full and is about to say so. */
  lemma FindsFull(s: State) returns (t: State)
    requires OneCpuReachable(s) && Open(s) && RingFull(s.len)
    ensures OneCpuReachable(t) && InRange(t) && SameSession(s, t) && t.len == s.len
    ensures !t.intOn && !t.pending && !t.irq && t.attached && t.user.Blocked? && t.toKernel == []
    ensures t.tasklet == Signalling(s.rear, Sent(|s.completed|, true, s.released))
    ensures t.completed == s.completed
  {
    var a := GpioEdgeStep(s);
    StepReaches(s, GpioEdge);
    var b := BeginStep(a);
    StepReaches(a, Begin);
    var c := CheckStep(b);
    StepReaches(b, Check);
    StepReaches(c, MarkFull);
    t := MarkFullStep(c);
  }

  /** Only the consumer has moved. */
  predicate OnlyReads(s: State, t: State) {
    && t.front == s.front && t.len == s.len && t.released == s.released && t.rear == s.rear
    && t.full == s.full && t.irq == s.irq && t.hasSend == s.hasSend && t.attached == s.attached
    && t.intOn == s.intOn && t.pending == s.pending && t.tasklet == s.tasklet && t.callback == s.callback
    && t.toUser == s.toUser && t.toKernel == s.toKernel && t.completed == s.completed
  }

  lemma HandReads(s: State)
    requires InRange(s) && s.user.Draining? && s.user.left > 0
    ensures OnlyReads(s, HandStep(s, false)) && HandStep(s, false).user == s.user.(left := s.user.left - 1)
  {
  }

  /** The consumer's inner loop. */
  lemma {:induction false} Hands(s: State) returns (t: State)
    requires OneCpuReachable(s) && InRange(s) && s.user.Draining? && s.tasklet.Resting?
    ensures OneCpuReachable(t) && InRange(t) && OnlyReads(s, t) && t.user == s.user.(left := 0)
    decreases s.user.left
  {
    if s.user.left == 0 {
      t := s;
    } else {
      HandReads(s);
      StepReaches(s, Hand(false));
      var m := HandStep(s, false);
      OneCpuIsReachable(m);
      t := Hands(m);
    }
  }

  lemma EnterReads(s: State)
    requires InRange(s) && s.callback.Waiting? && |s.toKernel| == 1 && s.toKernel[0].value < STREAM_LEN
    ensures var t := EnterStep(s);
            && IsCode(t.callback) && t.callback.sig == s.toKernel[0].sig
            && t.toKernel == [] && t.attached && t.user == s.user
            && OnlyReads(s.(toKernel := [], callback := t.callback, attached := true), t)
  {
  }

  lemma ReplyReads(s: State)
    requires InRange(s) && s.user.Draining? && s.toKernel == []
    ensures var t := ReplyStep(s);
            && InRange(t) && t.toKernel == [Message(s.lastFront, s.user.sig)] && t.user.Blocked?
            && OnlyReads(s.(toKernel := t.toKernel), t)
  {
  }

  /** The reply, up to the callback's lock. */
  lemma Replies(s: State) returns (t: State)
    requires OneCpuReachable(s) && InRange(s) && s.user.Draining? && s.user.left == 0 && s.toKernel == []
    requires s.callback.Waiting? && s.tasklet.Resting?
    ensures OneCpuReachable(t) && InRange(t)
    ensures IsCode(t.callback) && t.callback.sig == s.user.sig
    ensures t.user.Blocked? && t.toKernel == [] && t.attached
    ensures OnlyReads(s.(callback := t.callback, attached := true), t)
  {
    ReplyReads(s);
    StepReaches(s, Reply);
    var c := ReplyStep(s);
    EnterReads(c);
    StepReaches(c, Enter);
    t := EnterStep(c);
    OneCpuIsReachable(t);
  }

  /** A whole round: the next signal is taken, its frames are handed over, and the answer is entered. */
  lemma Answers(s: State) returns (t: State)
    requires OneCpuReachable(s) && InRange(s) && s.user.Blocked? && s.toUser != [] && s.toKernel == []
    requires s.callback.Waiting? && s.attached && s.tasklet.Resting?
    ensures var m := s.toUser[0];
            && OneCpuReachable(t) && InRange(t) && t.toUser == s.toUser[1..]
            && IsCode(t.callback) && t.callback.sig == m.sig && t.callback.frontDif == m.sig.index - s.released
            && t.user.Blocked? && t.toKernel == [] && t.attached
            && OnlyReads(s.(toUser := t.toUser, callback := t.callback), t)
  {
    StepReaches(s, Take);
    var a := TakeStep(s);
    OneCpuIsReachable(a);
    var b := Hands(a);
    t := Replies(b);
    OneCpuIsReachable(t);
  }

  /** The tasklet finds the ring full and says so. */
  lemma SaysFull(s: State) returns (t: State)
    requires OneCpuReachable(s) && Open(s) && RingFull(s.len) && s.callback.Waiting? && !s.hasSend
    ensures OneCpuReachable(t) && Rested(t) && t.callback.Waiting?
    ensures t.len == s.len && t.released == s.released && t.completed == s.completed
    ensures |t.toUser| == |s.toUser| + 1 && t.toUser[..|s.toUser|] == s.toUser
    ensures t.toUser[|s.toUser|].sig == Sent(|s.completed|, true, s.released)
  {
    var a := FindsFull(s);
    t := Tells(a);
  }

  /** A signal is taken, answered, and its answer acted on. */
  lemma Round(s: State) returns (t: State)
    requires OneCpuReachable(s) && Rested(s) && s.callback.Waiting? && s.toUser != []
    ensures OneCpuReachable(t) && Open(t) && t.callback.Waiting? && !t.hasSend && t.toUser == s.toUser[1..]
    ensures t.released == s.toUser[0].sig.index && t.completed == s.completed
    ensures t.len == s.len - (s.toUser[0].sig.index - s.released)
  {
    var a := Answers(s);
    t := CallbackRuns(a);
  }

  /** A frame that is signalled, and quiet ones until the ring is full again. */
  lemma Refills(s: State, f: Frame) returns (t: State)
    requires OneCpuReachable(s) && Open(s) && s.callback.Waiting? && !s.hasSend && s.len == 0
    ensures OneCpuReachable(t) && Open(t) && t.callback.Waiting? && t.len == STREAM_LEN - 1
    ensures t.released == s.released && |t.toUser| == |s.toUser| + 1 && t.toUser[..|s.toUser|] == s.toUser
  {
    var a := TellsFrame(s, f);
    t := QuietFrames(a, f, STREAM_LEN - 2);
  }

  /** What is left of two signals once the first is answered. */
  lemma SecondRemains(before: seq<Message>, after: seq<Message>, sig: Sent)
    requires |before| == 1 && |after| == 2 && after[..1] == before && after[1].sig == sig
    ensures after[0] == before[0] && |after[1..]| == 1 && after[1..][0].sig == sig
  {
    assert after[..1][0] == after[0];
  }

  const FULL_SIGNAL := Sent(STREAM_LEN - 1, true, 0)

  /**
   The start message is acted on only when the ring is full. The full ring is then signalled although
   the first frame's signal is unanswered; its answer clears `full` and releases nothing.
   */
  lemma SaysFullOnce(start: State, f: Frame) returns (t: State)
    requires Loaded(start) && start.lastFront < STREAM_LEN
    ensures OneCpuReachable(t) && Open(t) && t.callback.Waiting? && !t.hasSend && RingFull(t.len)
    ensures t.len == STREAM_LEN - 1 && t.released == 0 && |t.completed| == STREAM_LEN - 1
    ensures |t.toUser| == 1 && t.toUser[0].sig == FULL_SIGNAL
  {
    var noted := Notes(start);
    var told := TellsFrame(noted, f);
    var filled := QuietFrames(told, f, STREAM_LEN - 2);
    var forgotten := Forgets(filled);
    var full := SaysFull(forgotten);
    SecondRemains(forgotten.toUser, full.toUser, FULL_SIGNAL);
    t := Round(full);
  }

  /** One position signalled twice by the full branch, and only the second signal still unanswered. */
  lemma SaysFullTwice(start: State, f: Frame) returns (t: State)
    requires Loaded(start) && start.lastFront < STREAM_LEN
    ensures OneCpuReachable(t) && Open(t) && t.callback.Waiting? && !t.hasSend && t.len == 0
    ensures t.released == STREAM_LEN - 1 && |t.toUser| == 1 && t.toUser[0].sig == FULL_SIGNAL
  {
    var once := SaysFullOnce(start, f);
    var twice := SaysFull(once);
    SecondRemains(once.toUser, twice.toUser, FULL_SIGNAL);
    t := Round(twice);
  }

  /**
   On one processor, too, an answer to a signal of the full branch can leave the ring full: the start
   message is noted, the ring fills up, and only then is `hasSend` cleared with the first frame's
   signal still out. The same position is signalled twice, and by the time of the second answer the
   ring has filled up again.
   */
  lemma AnswerCanFreeNothing(start: State, f: Frame) returns (s: State)
    requires Loaded(start) && start.lastFront < STREAM_LEN
    ensures OneCpuReachable(s) && IsCode(s.callback) && s.callback.sig.wasFull
    ensures RingFull(s.len) && RingFull(UpdateStep(s).len)
  {
    var a := SaysFullTwice(start, f);
    var b := Refills(a, f);
    assert b.toUser[..1] == a.toUser && b.toUser[0] == b.toUser[..1][0];
    s := Answers(b);
  }
}
