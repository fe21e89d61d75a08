/** The driver's handlers and the consumer's loop as they update the shared memory in place. */
module RingSystem {
  import opened SharedRing
  import opened RingInvariant
  import opened RingTheorems

  class System {
    // shared memory
    const dataspace: array<Slot>
    var front: nat
    var rear: nat
    var len: int
    // driver
    var full: bool
    var irq: bool
    var hasSend: bool
    var attached: bool
    var intOn: bool
    var pending: bool
    var tasklet: Tasklet
    var callback: Callback
    // netlink
    var toUser: seq<Message>
    var toKernel: seq<Message>
    // consumer
    var user: User
    var lastFront: nat
    // logs, read by no handler
    var completed: seq<Frame>
    var handed: seq<Slot>
    var released: nat
    var replied: nat

    function View(): State
      reads this, dataspace
    {
      State(front, rear, len, dataspace[..], full, irq, hasSend, attached, intOn, pending, tasklet, callback,
            toUser, toKernel, user, lastFront, completed, handed, released, replied)
    }

    /** Module load: `Sequeue_Set_Null`, `Gpio_Data_Stream_Init` and `interrupt_open`. */
    constructor (memory: array<Slot>)
      requires memory.Length == STREAM_LEN
      ensures Loaded(View()) && dataspace == memory
    {
      dataspace := memory;
      front, rear, len := 0, 0, 0;
      full, irq, hasSend, attached := false, false, false, false;
      intOn, pending, tasklet, callback := true, false, Resting, Waiting;
      toUser, toKernel, user, lastFront := [], [], Off, 0;
      completed, handed, released, replied := [], [], 0, 0;
    }

    /** `irq_handler` on a raised line. */
    method IrqHandler()
      requires intOn
      modifies this
      ensures View() == GpioEdgeStep(old(View()))
    {
      intOn := false;
      if !full {
        pending := true;
      } else {
        irq := true;
      }
    }

    /** The scheduled tasklet starts. */
    method TaskletBegin()
      requires pending && tasklet.Resting?
      modifies this
      ensures View() == BeginStep(old(View()))
    {
      pending, tasklet := false, Begun;
    }

    /** The tasklet's first section; unless the ring is full the slot now belongs to the receiver. */
    method TaskletCheck()
      requires InRange(View()) && tasklet.Begun? && !callback.Flagged?
      modifies this, dataspace
      ensures View() == CheckStep(old(View()))
    {
      var isFull := len >= STREAM_LEN - 1;
      tasklet := Checked(rear, isFull, released);
      if !isFull {
        dataspace[rear] := Torn;
      }
    }

    /** `receive_data` into the slot chosen before. */
    method TaskletReceive(f: Frame)
      requires InRange(View()) && tasklet.Checked? && !tasklet.isFull
      modifies this, dataspace
      ensures View() == ReceiveStep(old(View()), f)
    {
      dataspace[tasklet.pos] := Whole(f);
      tasklet := Received(tasklet.pos);
      completed := completed + [f];
    }

    /** The tasklet's second section, or its note that the ring was full. */
    method TaskletAdvance()
      requires InRange(View())
      requires (tasklet.Received? && !callback.Flagged?) || (tasklet.Checked? && tasklet.isFull)
      modifies this
      ensures View() == if old(tasklet).Received? then AdvanceStep(old(View())) else MarkFullStep(old(View()))
    {
      var pos := tasklet.pos;
      if tasklet.Received? {
        rear := (pos + 1) % STREAM_LEN;
        len := len + 1;
        tasklet := Signalling(pos, Sent(|completed| - 1, false, released));
      } else {
        full := true;
        tasklet := Signalling(pos, Sent(|completed|, true, tasklet.seen));
      }
    }

    /** The tasklet's third section. */
    method TaskletSignal()
      requires tasklet.Signalling? && !callback.Flagged?
      modifies this
      ensures View() == SignalStep(old(View()))
    {
      if !hasSend {
        hasSend := true;
        if attached {
          toUser := toUser + [Message(tasklet.pos, tasklet.sig)];
        }
      }
      tasklet := Reopening;
    }

    /** The tasklet's last statement opens the interrupt again. */
    method TaskletReopen()
      requires tasklet.Reopening?
      modifies this
      ensures View() == ReopenStep(old(View()))
    {
      intOn, tasklet := true, Resting;
    }

    /** `netlink_recv_msg` up to its lock: note the sender, compute the front's advance. */
    method RecvEnter()
      requires InRange(View()) && callback.Waiting? && toKernel != []
      modifies this
      ensures View() == EnterStep(old(View()))
    {
      var m := toKernel[0];
      toKernel, attached := toKernel[1..], true;
      if m.value == START_CODE {
        callback := Entered(m.value, 0, m.sig);
      } else if m.value == END_CODE {
        attached := false;
      } else if m.value < STREAM_LEN {
        callback := Entered(m.value, (m.value + STREAM_LEN - front) % STREAM_LEN, m.sig);
      }
    }

    /** Its locked section for the start message, up to the look at the latch. */
    method RecvStart()
      requires callback.Entered? && callback.code == START_CODE
      modifies this
      ensures View() == UpdateStep(old(View()))
    {
      hasSend := false;
      full := false;
      callback := Flagged;
    }

    /** Its locked section for a position, up to the look at the latch. */
    method RecvCode()
      requires callback.Entered? && callback.code != START_CODE
      modifies this
      ensures View() == UpdateStep(old(View()))
    {
      var code, frontDif, sig := callback.code, callback.frontDif, callback.sig;
      hasSend, full, callback := false, false, Flagged;
      front, len, released := code, len - frontDif, sig.index;
    }

    /** The look at the latch. */
    method RecvLatch()
      requires callback.Flagged?
      modifies this
      ensures View() == LatchStep(old(View()))
    {
      if irq {
        irq := false;
        pending := true;
      }
      callback := Waiting;
    }

    /** The consumer thread up to its loop. */
    method Attach()
      requires user.Off?
      modifies this
      ensures View() == AttachStep(old(View()))
    {
      lastFront := front;
      toKernel := toKernel + [START];
      user := Blocked;
    }

    /** The consumer receives a signal and works out how far it reaches. */
    method Take()
      requires InRange(View()) && user.Blocked? && toUser != []
      modifies this
      ensures View() == TakeStep(old(View()))
    {
      var m := toUser[0];
      toUser := toUser[1..];
      user := Draining((m.value + STREAM_LEN - lastFront) % STREAM_LEN, m.sig);
    }

    /** The body of the consumer's inner loop. */
    method Hand(sockets: bool)
      requires InRange(View()) && user.Draining? && user.left > 0
      modifies this, dataspace
      ensures View() == HandStep(old(View()), sockets)
    {
      var slot := dataspace[lastFront];
      handed := handed + [slot];
      if sockets {
        dataspace[lastFront] := Stamped(slot);
      }
      lastFront := (lastFront + 1) % STREAM_LEN;
      user := user.(left := user.left - 1);
    }

    /** The consumer names the position it has reached. */
    method Reply()
      requires user.Draining?
      modifies this
      ensures View() == ReplyStep(old(View()))
    {
      toKernel := toKernel + [Message(lastFront, user.sig)];
      replied := user.sig.index;
      user := Blocked;
    }

    /** One round of `Udp_sendThread_t` with nobody else moving. */
    method ServeSignal(sockets: bool)
      requires InRange(View()) && user.Blocked? && toUser != []
      modifies this, dataspace
      ensures View() == ReplyStep(HandAll(TakeStep(old(View())), sockets))
    {
      Take();
      ghost var taken := View();
      while user.left > 0
        invariant InRange(View()) && user.Draining?
        invariant HandAll(View(), sockets) == HandAll(taken, sockets)
        decreases if user.Draining? then user.left else 0
      {
        Hand(sockets);
      }
      Reply();
    }
  }

  /** The consumer's inner loop run to its end. */
  function HandAll(s: State, sockets: bool): (t: State)
    requires InRange(s) && s.user.Draining?
    ensures InRange(t) && t.user.Draining? && t.user.left == 0 && t.user.sig == s.user.sig
    decreases s.user.left
  {
    if s.user.left == 0 then s else HandAll(HandStep(s, sockets), sockets)
  }

  lemma {:induction false} HandAllKeepsInv(s: State, sockets: bool)
    requires Inv(s) && s.user.Draining?
    ensures InRange(s)
    ensures var t := HandAll(s, sockets);
            Inv(t) && t.completed == s.completed && t.toKernel == s.toKernel && |t.handed| == s.user.sig.index
    decreases s.user.left
  {
    InvIsInRange(s);
    if s.user.left > 0 {
      StepKeepsInv(s, Event.Hand(sockets));
      HandAllKeepsInv(HandStep(s, sockets), sockets);
    }
  }

  /**
   A round of the consumer hands over exactly the frames below the signal it took, and its reply
   repeats the signal.
   */
  lemma RoundDeliversUpToSignal(s: State, sockets: bool)
    requires Inv(s) && Enabled(s, Take)
    ensures InRange(s) && |s.handed| <= s.toUser[0].sig.index <= |s.completed|
    ensures var t := ReplyStep(HandAll(TakeStep(s), sockets));
            && Inv(t) && |t.handed| == s.toUser[0].sig.index
            && (forall i :: 0 <= i < |t.handed| ==> t.handed[i] == Whole(s.completed[i]))
            && t.toKernel == s.toKernel + [s.toUser[0]]
  {
    TakeDecodes(s);
    StepKeepsInv(s, Event.Take);
    DrainedStateIsRight(TakeStep(s), sockets);
  }

  lemma DrainedStateIsRight(s: State, sockets: bool)
    requires Inv(s) && s.user.Draining?
    ensures InRange(s)
    ensures var t := ReplyStep(HandAll(s, sockets));
            && Inv(t) && |t.handed| == s.user.sig.index <= |s.completed|
            && (forall i :: 0 <= i < |t.handed| ==> t.handed[i] == Whole(s.completed[i]))
            && (t.toKernel == s.toKernel + [Message(SlotOf(s.user.sig.index), s.user.sig)])
  {
    HandAllKeepsInv(s, sockets);
    var h := HandAll(s, sockets);
    StepKeepsInv(h, Event.Reply);
    HandedAreWhole(h);
  }
}
