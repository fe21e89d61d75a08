/** What holds of the shared ring in every reachable state. */
module RingInvariant {
  import opened SharedRing

  // ---- Positions and slots

  /** The slot of an unbounded position. */
  function SlotOf(i: nat): (r: nat)
    ensures r < STREAM_LEN
  {
    if i < STREAM_LEN then i else SlotOf(i - STREAM_LEN)
  }

  lemma {:induction false} SlotIsRemainder(i: nat)
    ensures SlotOf(i) == i % STREAM_LEN
  {
    if i >= STREAM_LEN {
      SlotIsRemainder(i - STREAM_LEN);
    }
  }

  lemma {:induction false} NextSlot(i: nat)
    ensures SlotOf(i + 1) == (SlotOf(i) + 1) % STREAM_LEN
  {
    if i >= STREAM_LEN {
      NextSlot(i - STREAM_LEN);
    }
  }

  /** Positions less than a ring apart have different slots. */
  lemma DistinctSlots(i: nat, j: nat)
    requires i < j < i + STREAM_LEN
    ensures SlotOf(i) != SlotOf(j)
  {
    SlotIsRemainder(i);
    SlotIsRemainder(j);
  }

  /** The consumer's length computation. */
  predicate Decodes(from: nat, to: nat, gap: int) {
    (to + 64 - from) % 64 == gap
  }

  /** The modular difference of two slots is the true gap exactly when the gap is below a ring. */
  lemma GapDecodes(low: nat, high: nat)
    requires low <= high
    ensures Decodes(SlotOf(low), SlotOf(high), high - low) <==> high - low < 64
  {
    SlotIsRemainder(low);
    SlotIsRemainder(high);
  }

  // ---- The parts of the invariant; `f`, `h`, `p` are the released, handed and counted positions

  predicate RingOk(front: nat, rear: nat, len: int, f: nat, h: nat, p: int) {
    f <= h <= p < f + STREAM_LEN && front == SlotOf(f) && rear == SlotOf(p) && len == p - f
  }

  /** A signal from the full branch names the end of a ring that was full. */
  predicate FullSignal(sig: Sent) {
    sig.wasFull ==> sig.index == sig.seen + STREAM_LEN - 1
  }

  predicate TaskletOk(t: Tasklet, rear: nat, f: nat, p: int) {
    match t
    case Checked(pos, isFull, seen) =>
      pos == rear && (if isFull then p == seen + STREAM_LEN - 1 else p < f + STREAM_LEN - 1)
    case Received(pos) => pos == rear && p < f + STREAM_LEN - 1
    case Signalling(pos, sig) =>
      pos == SlotOf(sig.index) && FullSignal(sig) && p == (if sig.wasFull then sig.index else sig.index + 1)
    case _ => true
  }

  /** No signal sent so far lies behind this position. */
  function SignalBound(t: Tasklet, p: int): int {
    if t.Signalling? then t.sig.index else p
  }

  predicate Truthful(m: Message) {
    m.value == SlotOf(m.sig.index) && FullSignal(m.sig)
  }

  /** A queue of truthful messages whose positions rise from `low` to at most `high`. */
  predicate Ordered(low: int, ms: seq<Message>, high: int)
    decreases |ms|
  {
    if ms == [] then low <= high
    else low <= ms[0].sig.index && Truthful(ms[0]) && Ordered(ms[0].sig.index, ms[1..], high)
  }

  predicate IsCode(c: Callback) {
    c.Entered? && c.code != START_CODE
  }

  predicate CallbackOk(c: Callback, f: nat) {
    IsCode(c) ==> c.code == SlotOf(c.sig.index) && FullSignal(c.sig)
                  && f <= c.sig.index && c.frontDif == c.sig.index - f
  }

  function CallbackEnd(c: Callback, f: nat): nat {
    if IsCode(c) then c.sig.index else f
  }

  /** The start message, if still queued, is the first. */
  predicate Starting(toKernel: seq<Message>) {
    toKernel != [] && toKernel[0] == START
  }

  function Codes(toKernel: seq<Message>): seq<Message> {
    if Starting(toKernel) then toKernel[1..] else toKernel
  }

  /** The consumer stands where its last reply said, or is on its way to the next signal. */
  predicate UserOk(user: User, lastFront: nat, h: nat, replied: nat) {
    && (if user != Off then lastFront == SlotOf(h) else lastFront < STREAM_LEN)
    && if user.Draining? then replied <= h && h + user.left == user.sig.index && FullSignal(user.sig)
       else h == replied
  }

  function UserEnd(user: User, replied: nat): nat {
    if user.Draining? then user.sig.index else replied
  }

  predicate SessionOk(s: State) {
    && (s.user.Off? ==>
          s.toKernel == [] && s.toUser == [] && !s.attached && s.callback.Waiting? && s.replied == s.released)
    && (!s.user.Off? && !s.attached ==> Starting(s.toKernel))
  }

  function Wholes(fs: seq<Frame>): (slots: seq<Slot>)
    ensures |slots| == |fs|
  {
    if fs == [] then [] else Wholes(fs[..|fs| - 1]) + [Whole(fs[|fs| - 1])]
  }

  /** The slots of the positions from `low` up to `high`. */
  function Window(slots: seq<Slot>, low: nat, high: nat): (w: seq<Slot>)
    requires |slots| == STREAM_LEN && low <= high
    ensures |w| == high - low
    decreases high
  {
    if low == high then [] else Window(slots, low, high - 1) + [slots[SlotOf(high - 1)]]
  }

  /** Conservation of frames: handed over, then unread in the ring, is what was received. */
  predicate SlotOk(slots: seq<Slot>, handed: seq<Slot>, completed: seq<Frame>) {
    && |slots| == STREAM_LEN && |handed| <= |completed|
    && handed + Window(slots, |handed|, |completed|) == Wholes(completed)
  }

  function One(b: bool): nat {
    if b then 1 else 0
  }

  /** Messages whose handling ends in the callback clearing `hasSend`. */
  function InFlight(s: State): nat {
    |s.toUser| + One(s.user.Draining?) + |s.toKernel| + One(s.callback.Entered?)
  }

  /** Conservation of wake-ups. */
  predicate WakeOk(s: State) {
    && One(s.intOn) + One(s.pending) + One(!s.tasklet.Resting?) + One(s.irq) == 1
    && (s.irq && LockFree(s) ==> s.full)
    && (s.full && !s.tasklet.Signalling? ==> s.hasSend)
    && (s.hasSend && !s.user.Off? ==> InFlight(s) > 0)
  }

  /** Positions and queues. */
  predicate FlowInv(s: State) {
    var f, h, p := s.released, |s.handed|, Counted(s);
    && |s.slots| == STREAM_LEN
    && RingOk(s.front, s.rear, s.len, f, h, p)
    && TaskletOk(s.tasklet, s.rear, f, p)
    && CallbackOk(s.callback, f)
    && Ordered(CallbackEnd(s.callback, f), Codes(s.toKernel), s.replied)
    && UserOk(s.user, s.lastFront, h, s.replied)
    && Ordered(UserEnd(s.user, s.replied), s.toUser, SignalBound(s.tasklet, p))
  }

  /** Flags. */
  predicate FlagInv(s: State) {
    SessionOk(s) && WakeOk(s)
  }

  predicate Inv(s: State) {
    FlowInv(s) && SlotOk(s.slots, s.handed, s.completed) && FlagInv(s)
  }

  lemma LoadedSatisfiesInv(s: State)
    requires Loaded(s) && s.lastFront < STREAM_LEN
    ensures Inv(s)
  {
  }

  lemma InvIsInRange(s: State)
    requires FlowInv(s)
    ensures InRange(s)
  {
  }

  // ---- Queues

  lemma {:induction false} OrderedEnds(low: int, ms: seq<Message>, high: int)
    requires Ordered(low, ms, high)
    ensures low <= high
    decreases |ms|
  {
    if ms != [] {
      OrderedEnds(ms[0].sig.index, ms[1..], high);
    }
  }

  lemma {:induction false} OrderedWidens(low: int, ms: seq<Message>, high: int, higher: int)
    requires Ordered(low, ms, high) && high <= higher
    ensures Ordered(low, ms, higher)
    decreases |ms|
  {
    if ms != [] {
      OrderedWidens(ms[0].sig.index, ms[1..], high, higher);
    }
  }

  lemma {:induction false} OrderedAppends(low: int, ms: seq<Message>, high: int, m: Message)
    requires Ordered(low, ms, high) && high <= m.sig.index && Truthful(m)
    ensures Ordered(low, ms + [m], m.sig.index)
    decreases |ms|
  {
    if ms == [] {
      assert [m][1..] == [];
    } else {
      OrderedAppends(ms[0].sig.index, ms[1..], high, m);
      assert (ms + [m])[1..] == ms[1..] + [m];
    }
  }

  // ---- Windows

  lemma {:induction false} WindowPops(slots: seq<Slot>, low: nat, high: nat)
    requires |slots| == STREAM_LEN && low < high
    ensures Window(slots, low, high) == [slots[SlotOf(low)]] + Window(slots, low + 1, high)
    decreases high
  {
    if low + 1 < high {
      WindowPops(slots, low, high - 1);
    }
  }

  /** Writing the slot of a position outside the window, but within a ring of it, leaves it alone. */
  lemma {:induction false} WindowIgnores(slots: seq<Slot>, low: nat, high: nat, at: nat, v: Slot)
    requires |slots| == STREAM_LEN && low <= high
    requires high <= at < low + STREAM_LEN || (at < low && high <= at + STREAM_LEN)
    ensures Window(slots[SlotOf(at) := v], low, high) == Window(slots, low, high)
    decreases high
  {
    if low < high {
      WindowIgnores(slots, low, high - 1, at, v);
      if at < low {
        DistinctSlots(at, high - 1);
      } else {
        DistinctSlots(high - 1, at);
      }
    }
  }

  // ---- Conservation of frames

  lemma MovesAcross(a: seq<Slot>, x: Slot, b: seq<Slot>)
    ensures a + ([x] + b) == (a + [x]) + b
  {
  }

  lemma AppendsAcross(a: seq<Slot>, b: seq<Slot>, x: Slot)
    ensures a + (b + [x]) == (a + b) + [x]
  {
  }

  lemma WholesAppend(fs: seq<Frame>, f: Frame)
    ensures Wholes(fs + [f]) == Wholes(fs) + [Whole(f)]
  {
    assert (fs + [f])[..|fs|] == fs;
  }

  /** Filling the slot behind the window extends it. */
  lemma WindowFills(slots: seq<Slot>, low: nat, high: nat, v: Slot)
    requires |slots| == STREAM_LEN && low <= high < low + STREAM_LEN
    ensures Window(slots[SlotOf(high) := v], low, high + 1) == Window(slots, low, high) + [v]
  {
    WindowIgnores(slots, low, high, high, v);
  }

  lemma CheckKeepsSlots(s: State)
    requires FlowInv(s) && SlotOk(s.slots, s.handed, s.completed) && Enabled(s, Check)
    ensures var t := CheckStep(s); SlotOk(t.slots, t.handed, t.completed)
  {
    if !RingFull(s.len) {
      WindowIgnores(s.slots, |s.handed|, |s.completed|, |s.completed|, Torn);
    }
  }

  lemma ReceiveKeepsSlots(s: State, f: Frame)
    requires FlowInv(s) && SlotOk(s.slots, s.handed, s.completed) && Enabled(s, Receive(f))
    ensures var t := ReceiveStep(s, f); SlotOk(t.slots, t.handed, t.completed)
  {
    var h, c := |s.handed|, |s.completed|;
    WindowFills(s.slots, h, c, Whole(f));
    WholesAppend(s.completed, f);
    AppendsAcross(s.handed, Window(s.slots, h, c), Whole(f));
  }

  /** Handing over moves the oldest unread slot across, even if it is stamped meanwhile. */
  lemma HandMoves(slots: seq<Slot>, handed: seq<Slot>, high: nat, after: seq<Slot>, v: Slot)
    requires |slots| == STREAM_LEN && |handed| < high <= |handed| + STREAM_LEN
    requires after == slots || after == slots[SlotOf(|handed|) := v]
    ensures (handed + [slots[SlotOf(|handed|)]]) + Window(after, |handed| + 1, high)
            == handed + Window(slots, |handed|, high)
  {
    var h := |handed|;
    WindowPops(slots, h, high);
    WindowIgnores(slots, h + 1, high, h, v);
    MovesAcross(handed, slots[SlotOf(h)], Window(slots, h + 1, high));
  }

  lemma HandKeepsSlots(s: State, sockets: bool)
    requires FlowInv(s) && SlotOk(s.slots, s.handed, s.completed) && Enabled(s, Hand(sockets))
    ensures var t := HandStep(s, sockets); SlotOk(t.slots, t.handed, t.completed)
  {
    HandBelowCounted(s, sockets);
    HandMoves(s.slots, s.handed, |s.completed|, HandStep(s, sockets).slots, Stamped(s.slots[s.lastFront]));
  }

  // ---- Every step keeps the invariant

  lemma GpioEdgeKeeps(s: State)
    requires FlowInv(s) && Enabled(s, GpioEdge)
    ensures FlowInv(GpioEdgeStep(s))
  {
  }

  lemma BeginKeeps(s: State)
    requires FlowInv(s) && Enabled(s, Begin)
    ensures FlowInv(BeginStep(s))
  {
  }

  lemma CheckKeeps(s: State)
    requires FlowInv(s) && Enabled(s, Check)
    ensures FlowInv(CheckStep(s))
  {
  }

  lemma ReceiveKeeps(s: State, f: Frame)
    requires FlowInv(s) && Enabled(s, Receive(f))
    ensures FlowInv(ReceiveStep(s, f))
  {
  }

  lemma AdvanceKeeps(s: State)
    requires FlowInv(s) && Enabled(s, Advance)
    ensures FlowInv(AdvanceStep(s))
  {
    NextSlot(|s.completed| - 1);
  }

  lemma MarkFullKeeps(s: State)
    requires FlowInv(s) && Enabled(s, MarkFull)
    ensures FlowInv(MarkFullStep(s))
  {
  }

  lemma SignalKeeps(s: State)
    requires FlowInv(s) && Enabled(s, Signal)
    ensures FlowInv(SignalStep(s))
  {
    var low, sig := UserEnd(s.user, s.replied), s.tasklet.sig;
    var m := Message(s.tasklet.pos, sig);
    OrderedAppends(low, s.toUser, sig.index, m);
    OrderedWidens(low, s.toUser + [m], sig.index, Counted(s));
    OrderedWidens(low, s.toUser, sig.index, Counted(s));
  }

  lemma ReopenKeeps(s: State)
    requires FlowInv(s) && Enabled(s, Reopen)
    ensures FlowInv(ReopenStep(s))
  {
  }

  lemma CodesAfterStart(low: int, toKernel: seq<Message>, high: int)
    requires Starting(toKernel) && Ordered(low, Codes(toKernel), high)
    ensures Codes(toKernel[1..]) == toKernel[1..]
  {
  }

  lemma EnterStartKeeps(s: State)
    requires FlowInv(s) && Enabled(s, Enter) && Starting(s.toKernel)
    ensures InRange(s) && FlowInv(EnterStep(s))
  {
    CodesAfterStart(CallbackEnd(s.callback, s.released), s.toKernel, s.replied);
  }

  /** The callback's modular subtraction is the true number of frames to release. */
  lemma CodeDecodes(s: State)
    requires FlowInv(s) && Enabled(s, Enter) && !Starting(s.toKernel)
    ensures InRange(s)
    ensures var m := s.toKernel[0];
            && m.value < STREAM_LEN && Truthful(m) && s.released <= m.sig.index <= |s.handed|
            && (m.value + STREAM_LEN - s.front) % STREAM_LEN == m.sig.index - s.released
            && Ordered(m.sig.index, s.toKernel[1..], s.replied)
  {
    var m := s.toKernel[0];
    OrderedEnds(m.sig.index, s.toKernel[1..], s.replied);
    GapDecodes(s.released, m.sig.index);
  }

  lemma NoSecondStart(low: int, ms: seq<Message>, high: int)
    requires Ordered(low, ms, high)
    ensures Codes(ms) == ms
  {
  }

  lemma EnterCodeKeeps(s: State)
    requires FlowInv(s) && Enabled(s, Enter) && !Starting(s.toKernel)
    ensures InRange(s) && FlowInv(EnterStep(s))
  {
    CodeDecodes(s);
    var m, rest := s.toKernel[0], s.toKernel[1..];
    var t := s.(toKernel := rest, attached := true, callback := Entered(m.value, m.sig.index - s.released, m.sig));
    assert EnterStep(s) == t;
    NoSecondStart(m.sig.index, rest, s.replied);
    EnteredKeeps(s, m, rest);
  }

  lemma EnteredKeeps(s: State, m: Message, rest: seq<Message>)
    requires FlowInv(s) && Truthful(m) && m.value < STREAM_LEN && s.released <= m.sig.index
    requires Codes(rest) == rest && Ordered(m.sig.index, rest, s.replied)
    ensures FlowInv(s.(toKernel := rest, attached := true,
                       callback := Entered(m.value, m.sig.index - s.released, m.sig)))
  {
  }

  lemma EnterKeeps(s: State)
    requires FlowInv(s) && Enabled(s, Enter)
    ensures InRange(s) && FlowInv(EnterStep(s))
  {
    if Starting(s.toKernel) {
      EnterStartKeeps(s);
    } else {
      EnterCodeKeeps(s);
    }
  }

  /** Releasing up to a position the consumer has passed only makes room. */
  lemma ReleaseMakesRoom(front: nat, rear: nat, len: int, t: Tasklet, f: nat, h: nat, p: int, to: nat)
    requires RingOk(front, rear, len, f, h, p) && TaskletOk(t, rear, f, p) && f <= to <= h
    ensures RingOk(SlotOf(to), rear, len - (to - f), to, h, p) && TaskletOk(t, rear, to, p)
  {
  }

  /** The signal in the callback lies between what is released and what is handed over. */
  lemma CallbackBetween(s: State)
    requires FlowInv(s) && IsCode(s.callback)
    ensures s.released <= s.callback.sig.index <= |s.handed|
  {
    OrderedEnds(CallbackEnd(s.callback, s.released), Codes(s.toKernel), s.replied);
  }

  lemma UpdateStartKeeps(s: State)
    requires FlowInv(s) && Enabled(s, Update) && !IsCode(s.callback)
    ensures FlowInv(UpdateStep(s))
  {
  }

  lemma UpdateCodeKeeps(s: State)
    requires FlowInv(s) && Enabled(s, Update) && IsCode(s.callback)
    ensures FlowInv(UpdateStep(s))
  {
    CallbackBetween(s);
    ReleaseMakesRoom(s.front, s.rear, s.len, s.tasklet, s.released, |s.handed|, Counted(s), s.callback.sig.index);
  }

  lemma UpdateKeeps(s: State)
    requires FlowInv(s) && Enabled(s, Update)
    ensures FlowInv(UpdateStep(s))
  {
    if IsCode(s.callback) {
      UpdateCodeKeeps(s);
    } else {
      UpdateStartKeeps(s);
    }
  }

  lemma LatchKeeps(s: State)
    requires FlowInv(s) && Enabled(s, Latch)
    ensures FlowInv(LatchStep(s))
  {
  }

  lemma AttachKeeps(s: State)
    requires Inv(s) && Enabled(s, Attach)
    ensures FlowInv(AttachStep(s))
  {
  }

  /** The consumer's modular length is the true number of unread frames below the signal. */
  lemma TakeDecodes(s: State)
    requires FlowInv(s) && Enabled(s, Take)
    ensures InRange(s)
    ensures var m := s.toUser[0];
            && Truthful(m) && |s.handed| <= m.sig.index <= Counted(s)
            && Decodes(s.lastFront, m.value, m.sig.index - |s.handed|)
            && Ordered(m.sig.index, s.toUser[1..], SignalBound(s.tasklet, Counted(s)))
  {
    var m := s.toUser[0];
    OrderedEnds(m.sig.index, s.toUser[1..], SignalBound(s.tasklet, Counted(s)));
    GapDecodes(|s.handed|, m.sig.index);
  }

  lemma TakeKeeps(s: State)
    requires FlowInv(s) && Enabled(s, Take)
    ensures InRange(s) && FlowInv(TakeStep(s))
  {
    TakeDecodes(s);
  }

  /** The consumer only hands over frames the ring has counted. */
  lemma HandBelowCounted(s: State, sockets: bool)
    requires FlowInv(s) && Enabled(s, Hand(sockets))
    ensures |s.handed| < Counted(s)
  {
    OrderedEnds(s.user.sig.index, s.toUser, SignalBound(s.tasklet, Counted(s)));
  }

  lemma UserAdvances(user: User, lastFront: nat, h: nat, replied: nat)
    requires user.Draining? && user.left > 0 && UserOk(user, lastFront, h, replied)
    ensures UserOk(user.(left := user.left - 1), (lastFront + 1) % STREAM_LEN, h + 1, replied)
  {
    NextSlot(h);
  }

  lemma HandKeeps(s: State, sockets: bool)
    requires FlowInv(s) && Enabled(s, Hand(sockets))
    ensures FlowInv(HandStep(s, sockets))
  {
    HandBelowCounted(s, sockets);
    UserAdvances(s.user, s.lastFront, |s.handed|, s.replied);
  }

  lemma CodesAppend(toKernel: seq<Message>, m: Message)
    requires m != START
    ensures Codes(toKernel + [m]) == Codes(toKernel) + [m]
    ensures Starting(toKernel + [m]) == Starting(toKernel)
  {
  }

  lemma ReplyKeeps(s: State)
    requires FlowInv(s) && Enabled(s, Reply)
    ensures FlowInv(ReplyStep(s))
  {
    var m := Message(s.lastFront, s.user.sig);
    CodesAppend(s.toKernel, m);
    OrderedAppends(CallbackEnd(s.callback, s.released), Codes(s.toKernel), s.replied, m);
  }

  lemma StepKeepsFlow(s: State, e: Event)
    requires Inv(s) && Enabled(s, e)
    ensures InRange(s) && FlowInv(Step(s, e))
  {
    match e
    case GpioEdge => GpioEdgeKeeps(s);
    case Begin => BeginKeeps(s);
    case Check => CheckKeeps(s);
    case Receive(f) => ReceiveKeeps(s, f);
    case Advance => AdvanceKeeps(s);
    case MarkFull => MarkFullKeeps(s);
    case Signal => SignalKeeps(s);
    case Reopen => ReopenKeeps(s);
    case Enter => EnterKeeps(s);
    case Update => UpdateKeeps(s);
    case Latch => LatchKeeps(s);
    case Attach => AttachKeeps(s);
    case Take => TakeKeeps(s);
    case Hand(sockets) => HandKeeps(s, sockets);
    case Reply => ReplyKeeps(s);
  }

  lemma StepKeepsSlots(s: State, e: Event)
    requires FlowInv(s) && SlotOk(s.slots, s.handed, s.completed) && Enabled(s, e)
    ensures InRange(s)
    ensures var t := Step(s, e); SlotOk(t.slots, t.handed, t.completed)
  {
    match e
    case Check => CheckKeepsSlots(s);
    case Receive(f) => ReceiveKeepsSlots(s, f);
    case Hand(sockets) => HandKeepsSlots(s, sockets);
    case _ => OtherStepsLeaveSlots(s, e);
  }

  predicate SameFrames(s: State, t: State) {
    t.slots == s.slots && t.handed == s.handed && t.completed == s.completed
  }

  lemma DriverStepsLeaveSlots(s: State, e: Event)
    requires InRange(s) && Enabled(s, e)
    requires e.GpioEdge? || e.Begin? || e.Advance? || e.MarkFull? || e.Signal? || e.Reopen?
    ensures SameFrames(s, Step(s, e))
  {
  }

  lemma OtherStepsLeaveSlots(s: State, e: Event)
    requires InRange(s) && Enabled(s, e) && !e.Check? && !e.Receive? && !e.Hand?
    ensures SameFrames(s, Step(s, e))
  {
    match e
    case Enter => assert SameFrames(s, EnterStep(s));
    case Update => assert SameFrames(s, UpdateStep(s));
    case Latch => assert SameFrames(s, LatchStep(s));
    case Attach => assert SameFrames(s, AttachStep(s));
    case Take => assert SameFrames(s, TakeStep(s));
    case Reply => assert SameFrames(s, ReplyStep(s));
    case _ => DriverStepsLeaveSlots(s, e);
  }

  /** Every message to the driver is the start message or a slot. */
  predicate HeadIsKnown(toKernel: seq<Message>) {
    toKernel != [] ==> toKernel[0].value == START_CODE || toKernel[0].value < STREAM_LEN
  }

  lemma FlowKnowsHead(s: State)
    requires FlowInv(s)
    ensures InRange(s) && HeadIsKnown(s.toKernel)
  {
  }

  lemma TaskletKeepsFlags(s: State, e: Event)
    requires InRange(s) && FlagInv(s) && Enabled(s, e)
    requires e.GpioEdge? || e.Begin? || e.Check? || e.Receive? || e.Advance? || e.MarkFull?
    ensures FlagInv(Step(s, e))
  {
  }

  lemma SignalKeepsFlags(s: State, e: Event)
    requires InRange(s) && FlagInv(s) && Enabled(s, e) && (e.Signal? || e.Reopen?)
    ensures FlagInv(Step(s, e))
  {
  }

  lemma CallbackKeepsFlags(s: State, e: Event)
    requires InRange(s) && FlagInv(s) && Enabled(s, e) && HeadIsKnown(s.toKernel)
    requires e.Enter? || e.Update? || e.Latch?
    ensures FlagInv(Step(s, e))
  {
  }

  lemma ConsumerKeepsFlags(s: State, e: Event)
    requires InRange(s) && FlagInv(s) && Enabled(s, e)
    requires e.Attach? || e.Take? || e.Hand? || e.Reply?
    ensures FlagInv(Step(s, e))
  {
  }

  lemma StepKeepsFlags(s: State, e: Event)
    requires InRange(s) && FlagInv(s) && Enabled(s, e) && HeadIsKnown(s.toKernel)
    ensures FlagInv(Step(s, e))
  {
    match e
    case Signal => SignalKeepsFlags(s, e);
    case Reopen => SignalKeepsFlags(s, e);
    case Enter => CallbackKeepsFlags(s, e);
    case Update => CallbackKeepsFlags(s, e);
    case Latch => CallbackKeepsFlags(s, e);
    case Attach => ConsumerKeepsFlags(s, e);
    case Take => ConsumerKeepsFlags(s, e);
    case Hand(_) => ConsumerKeepsFlags(s, e);
    case Reply => ConsumerKeepsFlags(s, e);
    case _ => TaskletKeepsFlags(s, e);
  }

  lemma StepKeepsInv(s: State, e: Event)
    requires Inv(s) && Enabled(s, e)
    ensures InRange(s) && Inv(Step(s, e))
  {
    FlowKnowsHead(s);
    StepKeepsFlow(s, e);
    StepKeepsSlots(s, e);
    StepKeepsFlags(s, e);
  }
}
