/**
 The frame ring shared by the driver and the user program: the GPIO interrupt, the tasklet with
 its locked sections, the netlink callback and the consumer thread.
 */
module SharedRing {
  /** `Stream_Len` and the ring's `len_max`. */
  const STREAM_LEN := 64
  const START_CODE := 0xffff
  const END_CODE := 0xfffe

  /** `Sequeue_Full`. */
  predicate RingFull(len: int) {
    len >= STREAM_LEN - 1
  }

  datatype Frame = Frame(kind: nat, data: seq<nat>)

  /** A slot is torn while `receive_data` is writing it. */
  datatype Slot = Torn | Whole(frame: Frame)

  /** The frame once the consumer has overwritten its first byte. */
  function Stamped(s: Slot): Slot {
    match s
    case Torn => Torn
    case Whole(f) => Whole(if f.data == [] then f else f.(data := f.data[0 := 0]))
  }

  /**
   The log entry of a signal: its unbounded position, whether it came from the full branch, and
   the released count when the tasklet looked at the ring. No step reads a log entry.
   */
  datatype Sent = Sent(index: nat, wasFull: bool, seen: nat)

  /** What travels over netlink: the value on the wire, and the signal it belongs to. */
  datatype Message = Message(value: nat, sig: Sent)

  const START := Message(START_CODE, Sent(0, false, 0))

  /** Where the tasklet stands between its locked sections. */
  datatype Tasklet =
    | Resting
    | Begun
    | Checked(pos: nat, isFull: bool, seen: nat)
    | Received(pos: nat)
    | Signalling(pos: nat, sig: Sent)
    | Reopening

  /** The netlink callback: its flags are cleared first, the latch is looked at last. */
  datatype Callback = Waiting | Entered(code: nat, frontDif: nat, sig: Sent) | Flagged

  datatype User = Off | Blocked | Draining(left: nat, sig: Sent)

  datatype State = State(
    front: nat, rear: nat, len: int, slots: seq<Slot>,
    full: bool, irq: bool, hasSend: bool, attached: bool,
    intOn: bool, pending: bool, tasklet: Tasklet, callback: Callback,
    toUser: seq<Message>, toKernel: seq<Message>, user: User, lastFront: nat,
    // logs: frames received, slots handed over, and the positions last released and last replied
    completed: seq<Frame>, handed: seq<Slot>, released: nat, replied: nat)

  /** The driver just loaded: an empty ring, the interrupt open, nobody listening. */
  predicate Loaded(s: State) {
    && s.front == 0 && s.rear == 0 && s.len == 0 && |s.slots| == STREAM_LEN
    && !s.full && !s.irq && !s.hasSend && !s.attached
    && s.intOn && !s.pending && s.tasklet == Resting && s.callback == Waiting
    && s.toUser == [] && s.toKernel == [] && s.user == Off
    && s.completed == [] && s.handed == [] && s.released == 0 && s.replied == 0
  }

  datatype Event =
    | GpioEdge | Begin | Check | Receive(frame: Frame) | Advance | MarkFull | Signal | Reopen
    | Enter | Update | Latch
    | Attach | Take | Hand(sockets: bool) | Reply

  /** Frames whose arrival the ring has counted. */
  function Counted(s: State): int {
    |s.completed| - (if s.tasklet.Received? then 1 else 0)
  }

  /** The critical sections are closed while the callback holds the lock. */
  predicate LockFree(s: State) {
    !s.callback.Flagged?
  }

  predicate Enabled(s: State, e: Event) {
    match e
    case GpioEdge => s.intOn
    case Begin => s.pending && s.tasklet.Resting?
    case Check => s.tasklet.Begun? && LockFree(s)
    case Receive(_) => s.tasklet.Checked? && !s.tasklet.isFull
    case Advance => s.tasklet.Received? && LockFree(s)
    case MarkFull => s.tasklet.Checked? && s.tasklet.isFull
    case Signal => s.tasklet.Signalling? && LockFree(s)
    case Reopen => s.tasklet.Reopening?
    case Enter => s.callback.Waiting? && s.toKernel != []
    case Update => s.callback.Entered?
    case Latch => s.callback.Flagged?
    case Attach => s.user.Off?
    case Take => s.user.Blocked? && s.toUser != []
    case Hand(_) => s.user.Draining? && s.user.left > 0
    case Reply => s.user.Draining? && s.user.left == 0
  }

  /** What every step may rely on for its indexing. */
  predicate InRange(s: State) {
    && |s.slots| == STREAM_LEN && s.front < STREAM_LEN && s.rear < STREAM_LEN && s.lastFront < STREAM_LEN
    && (s.tasklet.Checked? ==> s.tasklet.pos < STREAM_LEN)
    && (s.tasklet.Received? ==> |s.completed| > 0)
  }

  /** `irq_handler`. */
  function GpioEdgeStep(s: State): State {
    var t := s.(intOn := false);
    if !s.full then t.(pending := true) else t.(irq := true)
  }

  function BeginStep(s: State): State {
    s.(pending := false, tasklet := Begun)
  }

  /** The first section of `tasklet_handler`; from here on `receive_data` owns the slot. */
  function CheckStep(s: State): State
    requires InRange(s)
  {
    var isFull := RingFull(s.len);
    s.(tasklet := Checked(s.rear, isFull, s.released),
       slots := if isFull then s.slots else s.slots[s.rear := Torn])
  }

  function ReceiveStep(s: State, f: Frame): State
    requires InRange(s) && s.tasklet.Checked?
  {
    s.(tasklet := Received(s.tasklet.pos), slots := s.slots[s.tasklet.pos := Whole(f)],
       completed := s.completed + [f])
  }

  /** The second section; the signal will name the slot just filled, not the one after it. */
  function AdvanceStep(s: State): State
    requires InRange(s) && s.tasklet.Received?
  {
    s.(tasklet := Signalling(s.tasklet.pos, Sent(|s.completed| - 1, false, s.released)),
       rear := (s.tasklet.pos + 1) % STREAM_LEN, len := s.len + 1)
  }

  function MarkFullStep(s: State): State
    requires s.tasklet.Checked?
  {
    s.(full := true, tasklet := Signalling(s.tasklet.pos, Sent(|s.completed|, true, s.tasklet.seen)))
  }

  /** The third section; a signal to nobody is lost. */
  function SignalStep(s: State): State
    requires s.tasklet.Signalling?
  {
    s.(tasklet := Reopening, hasSend := true,
       toUser := if s.hasSend || !s.attached then s.toUser
                 else s.toUser + [Message(s.tasklet.pos, s.tasklet.sig)])
  }

  function ReopenStep(s: State): State {
    s.(intOn := true, tasklet := Resting)
  }

  /** `netlink_recv_msg` up to its lock. */
  function EnterStep(s: State): State
    requires InRange(s) && s.toKernel != []
  {
    var m := s.toKernel[0];
    var t := s.(toKernel := s.toKernel[1..], attached := true);
    if m.value == START_CODE then t.(callback := Entered(m.value, 0, m.sig))
    else if m.value == END_CODE then t.(attached := false)
    else if m.value < STREAM_LEN then
      t.(callback := Entered(m.value, (m.value + STREAM_LEN - s.front) % STREAM_LEN, m.sig))
    else t
  }

  /** The callback's section up to its look at the latch. */
  function UpdateStep(s: State): State
    requires s.callback.Entered?
  {
    if s.callback.code == START_CODE then s.(callback := Flagged, hasSend := false, full := false)
    else s.(callback := Flagged, hasSend := false, full := false, front := s.callback.code,
            len := s.len - s.callback.frontDif, released := s.callback.sig.index)
  }

  function LatchStep(s: State): State {
    s.(callback := Waiting, irq := false, pending := s.pending || s.irq)
  }

  /** The consumer thread up to its first receive. */
  function AttachStep(s: State): State {
    s.(lastFront := s.front, toKernel := s.toKernel + [START], user := Blocked)
  }

  function TakeStep(s: State): State
    requires InRange(s) && s.toUser != []
  {
    var m := s.toUser[0];
    s.(toUser := s.toUser[1..], user := Draining((m.value + STREAM_LEN - s.lastFront) % STREAM_LEN, m.sig))
  }

  /** One turn of the consumer's inner loop: with sockets attached the frame is stamped as it goes. */
  function HandStep(s: State, sockets: bool): State
    requires InRange(s) && s.user.Draining? && s.user.left > 0
  {
    s.(handed := s.handed + [s.slots[s.lastFront]],
       slots := if sockets then s.slots[s.lastFront := Stamped(s.slots[s.lastFront])] else s.slots,
       lastFront := (s.lastFront + 1) % STREAM_LEN, user := s.user.(left := s.user.left - 1))
  }

  function ReplyStep(s: State): State
    requires s.user.Draining?
  {
    s.(toKernel := s.toKernel + [Message(s.lastFront, s.user.sig)], user := Blocked, replied := s.user.sig.index)
  }

  function Step(s: State, e: Event): State
    requires InRange(s) && Enabled(s, e)
  {
    match e
    case GpioEdge => GpioEdgeStep(s)
    case Begin => BeginStep(s)
    case Check => CheckStep(s)
    case Receive(f) => ReceiveStep(s, f)
    case Advance => AdvanceStep(s)
    case MarkFull => MarkFullStep(s)
    case Signal => SignalStep(s)
    case Reopen => ReopenStep(s)
    case Enter => EnterStep(s)
    case Update => UpdateStep(s)
    case Latch => LatchStep(s)
    case Attach => AttachStep(s)
    case Take => TakeStep(s)
    case Hand(sockets) => HandStep(s, sockets)
    case Reply => ReplyStep(s)
  }
}
