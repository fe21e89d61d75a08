/** Safety and progress of the shared ring over whole runs. */
module RingTheorems {
  import opened SharedRing
  import opened RingInvariant

  /** An event that is not enabled has no effect. */
  function Apply(s: State, e: Event): State {
    if InRange(s) && Enabled(s, e) then Step(s, e) else s
  }

  /** Every interleaving is the run of some event sequence. */
  function Run(s: State, es: seq<Event>): State
    decreases |es|
  {
    if es == [] then s else Apply(Run(s, es[..|es| - 1]), es[|es| - 1])
  }

  ghost predicate Reachable(s: State) {
    exists start, es :: Loaded(start) && start.lastFront < STREAM_LEN && Run(start, es) == s
  }

  lemma ApplyKeepsInv(s: State, e: Event)
    requires Inv(s)
    ensures Inv(Apply(s, e))
  {
    if Enabled(s, e) {
      StepKeepsInv(s, e);
    }
  }

  lemma {:induction false} RunKeepsInv(s: State, es: seq<Event>)
    requires Inv(s)
    ensures Inv(Run(s, es))
    decreases |es|
  {
    if es != [] {
      RunKeepsInv(s, es[..|es| - 1]);
      ApplyKeepsInv(Run(s, es[..|es| - 1]), es[|es| - 1]);
    }
  }

  lemma ReachableSatisfiesInv(s: State)
    requires Reachable(s)
    ensures Inv(s)
  {
    var start, es :| Loaded(start) && start.lastFront < STREAM_LEN && Run(start, es) == s;
    LoadedSatisfiesInv(start);
    RunKeepsInv(start, es);
  }

  // ---- Safety

  lemma {:induction false} WholesAt(fs: seq<Frame>, i: nat)
    requires i < |fs|
    ensures Wholes(fs)[i] == Whole(fs[i])
    decreases |fs|
  {
    if i < |fs| - 1 {
      WholesAt(fs[..|fs| - 1], i);
    }
  }

  lemma HandedAreWhole(s: State)
    requires Inv(s)
    ensures |s.handed| <= |s.completed|
    ensures forall i :: 0 <= i < |s.handed| ==> s.handed[i] == Whole(s.completed[i])
  {
    forall i | 0 <= i < |s.handed|
      ensures s.handed[i] == Whole(s.completed[i])
    {
      WholesAt(s.completed, i);
      assert s.handed[i] == (s.handed + Window(s.slots, |s.handed|, |s.completed|))[i];
    }
  }

  /** The frames the events bring, in order: those received while the tasklet has found room. */
  function Arrivals(s: State, es: seq<Event>): seq<Frame>
    decreases |es|
  {
    if es == [] then []
    else
      var before, m, e := Arrivals(s, es[..|es| - 1]), Run(s, es[..|es| - 1]), es[|es| - 1];
      if e.Receive? && m.tasklet.Checked? && !m.tasklet.isFull then before + [e.frame] else before
  }

  lemma {:induction false} CompletedAreArrivals(s: State, es: seq<Event>)
    requires Inv(s)
    ensures Run(s, es).completed == s.completed + Arrivals(s, es)
    decreases |es|
  {
    if es != [] {
      var m, e := Run(s, es[..|es| - 1]), es[|es| - 1];
      CompletedAreArrivals(s, es[..|es| - 1]);
      RunKeepsInv(s, es[..|es| - 1]);
      InvIsInRange(m);
      OneArrival(m, e);
    }
  }

  lemma OneArrival(s: State, e: Event)
    requires InRange(s)
    ensures Apply(s, e).completed ==
            if e.Receive? && s.tasklet.Checked? && !s.tasklet.isFull then s.completed + [e.frame] else s.completed
  {
    if Enabled(s, e) && !e.Check? && !e.Receive? && !e.Hand? {
      OtherStepsLeaveSlots(s, e);
    }
  }

  /**
   The frames handed to the senders are the frames that arrived, in order, none lost, none repeated,
   none changed and none half written, whatever the interleaving.
   */
  lemma FramesInOrder(start: State, es: seq<Event>)
    requires Loaded(start) && start.lastFront < STREAM_LEN
    ensures Delivered(Run(start, es).handed, Arrivals(start, es))
  {
    ArrivalsAreCompleted(start, es);
    InvOfRun(start, es);
    DeliveredIfInv(Run(start, es));
  }

  predicate Delivered(handed: seq<Slot>, arrived: seq<Frame>) {
    |handed| <= |arrived| && forall i :: 0 <= i < |handed| ==> handed[i] == Whole(arrived[i])
  }

  lemma InvOfRun(start: State, es: seq<Event>)
    requires Loaded(start) && start.lastFront < STREAM_LEN
    ensures Inv(Run(start, es))
  {
    LoadedSatisfiesInv(start);
    RunKeepsInv(start, es);
  }

  lemma ArrivalsAreCompleted(start: State, es: seq<Event>)
    requires Loaded(start) && start.lastFront < STREAM_LEN
    ensures Run(start, es).completed == Arrivals(start, es)
  {
    LoadedSatisfiesInv(start);
    CompletedAreArrivals(start, es);
  }

  lemma DeliveredIfInv(s: State)
    requires Inv(s)
    ensures Delivered(s.handed, s.completed)
  {
    HandedAreWhole(s);
  }

  /**
   While `receive_data` fills a slot outside the lock, every slot the consumer may still read,
   from where it stands up to the last counted frame, is a different one.
   */
  lemma WriterAvoidsReader(s: State, i: nat)
    requires Reachable(s) && s.tasklet.Checked? && !s.tasklet.isFull
    requires |s.handed| <= i < Counted(s)
    ensures s.tasklet.pos != i % 64
    ensures s.user.Draining? ==> |s.handed| + s.user.left <= Counted(s)
  {
    ReachableSatisfiesInv(s);
    DistinctSlots(i, Counted(s));
    SlotIsRemainder(i);
    if s.user.Draining? {
      OrderedEnds(s.user.sig.index, s.toUser, SignalBound(s.tasklet, Counted(s)));
    }
  }

  /**
   Ring arithmetic: the indices stay below the ring length, the count is what lies between them,
   and the release subtraction never takes more than the ring holds.
   */
  lemma RingArithmetic(s: State)
    requires Reachable(s)
    ensures s.front < 64 && s.rear < 64 && 0 <= s.len < 64
    ensures Spans(s.front, s.len, s.rear)
    ensures IsCode(s.callback) ==> s.callback.frontDif <= s.len
  {
    ReachableSatisfiesInv(s);
    RearFollowsFront(s.front, s.rear, s.len, s.released, |s.handed|, Counted(s));
    if IsCode(s.callback) {
      CallbackBetween(s);
    }
  }

  predicate Spans(front: nat, len: int, rear: nat) {
    rear == (front + len) % 64
  }

  lemma RearFollowsFront(front: nat, rear: nat, len: int, f: nat, h: nat, p: int)
    requires RingOk(front, rear, len, f, h, p)
    ensures Spans(front, len, rear)
  {
    SlotIsRemainder(f);
    SlotIsRemainder(p);
  }

  lemma TakeSets(s: State, gap: nat)
    requires InRange(s) && s.toUser != [] && Decodes(s.lastFront, s.toUser[0].value, gap)
    ensures TakeStep(s).user == Draining(gap, s.toUser[0].sig)
  {
  }

  lemma TakeIsRight(s: State)
    requires Inv(s) && Enabled(s, Take)
    ensures InRange(s) && |s.handed| <= s.toUser[0].sig.index <= Counted(s)
    ensures TakeStep(s).user == Draining(s.toUser[0].sig.index - |s.handed|, s.toUser[0].sig)
  {
    TakeDecodes(s);
    TakeSets(s, s.toUser[0].sig.index - |s.handed|);
  }

  /** The length the consumer works out is exactly the number of unread frames below the signal. */
  lemma LengthDecodes(s: State)
    requires Reachable(s) && Enabled(s, Take)
    ensures InRange(s) && |s.handed| <= s.toUser[0].sig.index <= Counted(s)
    ensures TakeStep(s).user == Draining(s.toUser[0].sig.index - |s.handed|, s.toUser[0].sig)
  {
    ReachableSatisfiesInv(s);
    TakeIsRight(s);
  }

  /**
   A frame goes out as it was received but for its first byte, which the senders clear in the ring;
   no other slot changes, and without a socket none does.
   */
  lemma HandClearsFirstByte(s: State, sockets: bool, i: nat)
    requires InRange(s) && Enabled(s, Hand(sockets)) && i < 64
    ensures var t, f := HandStep(s, sockets), s.slots[s.lastFront];
            && |t.slots| == 64
            && (i != s.lastFront || !sockets ==> t.slots[i] == s.slots[i])
            && (i == s.lastFront && sockets && f.Whole? && f.frame.data != []
                ==> t.slots[i] == Whole(Frame(f.frame.kind, [0] + f.frame.data[1..])))
  {
  }

  /** The end message ends the session without touching the ring: signals then go to nobody. */
  lemma EndDetaches(s: State)
    requires InRange(s) && Enabled(s, Enter) && s.toKernel[0].value == 0xfffe
    ensures var t := EnterStep(s);
            && t == s.(toKernel := s.toKernel[1..], attached := false)
            && (t.tasklet.Signalling? ==> SignalStep(t).toUser == s.toUser)
  {
  }

  /** A session opens with 0xffff, which reaches the callback as the start message. */
  lemma SessionOpens(s: State)
    requires InRange(s) && s.user.Off? && s.toKernel == [] && s.callback.Waiting?
    ensures AttachStep(s).toKernel[0].value == 0xffff && AttachStep(s).lastFront == s.front
    ensures InRange(AttachStep(s)) && EnterStep(AttachStep(s)).attached
    ensures UpdateStep(EnterStep(AttachStep(s))).front == s.front && !UpdateStep(EnterStep(AttachStep(s))).full
  {
  }

  // ---- Progress

  /**
   Answering a signal of the full branch releases every frame that made the ring full: the
   front moves to sixty-three positions past where it stood when the tasklet found no room.
   */
  lemma FullSignalFreesTheRing(s: State)
    requires Reachable(s) && IsCode(s.callback) && s.callback.sig.wasFull
    ensures var t := UpdateStep(s);
            && t.released == s.callback.sig.seen + 63
            && t.front == t.released % 64
            && t.len == Counted(s) - t.released
            && !t.full && !t.hasSend
  {
    ReachableSatisfiesInv(s);
    SlotIsRemainder(s.callback.sig.index);
  }

  /**
   Why the ring counts as full at 63: the consumer's modular length is exact for up to 63 unread
   frames and for no more, so 64 could not be told from none.
   */
  lemma FullAt63IsExact(front: nat, unread: nat)
    ensures ((front + unread) % 64 + 64 - front % 64) % 64 == unread <==> unread < 64
    ensures forall len: nat :: RingFull(len) <==> len >= 63
  {
    GapDecodes(front, front + unread);
    SlotIsRemainder(front);
    SlotIsRemainder(front + unread);
  }

  /**
   Wake-ups are conserved: exactly one of an open interrupt, a pending tasklet, a running
   tasklet and the latch holds, and a latched interrupt has a message in flight.
   */
  lemma WakeUpsConserved(s: State)
    requires Reachable(s)
    ensures One(s.intOn) + One(s.pending) + One(!s.tasklet.Resting?) + One(s.irq) == 1
    ensures s.irq && LockFree(s) ==> s.full && s.hasSend
    ensures s.full && s.tasklet.Resting? ==> s.hasSend
    ensures s.irq && LockFree(s) && !s.user.Off? ==> InFlight(s) > 0
  {
    ReachableSatisfiesInv(s);
  }

  /** While the ring is marked full the tasklet neither runs nor is scheduled, past telling the consumer. */
  predicate Stopped(s: State) {
    && (s.full ==> !s.pending && (s.tasklet.Resting? || s.tasklet.Signalling? || s.tasklet.Reopening?))
    && (s.callback.Flagged? && s.full ==> s.tasklet.Signalling?)
  }

  lemma DriverStaysStopped(s: State, e: Event)
    requires InRange(s) && WakeOk(s) && Stopped(s) && Enabled(s, e)
    requires e.GpioEdge? || e.Begin? || e.Check? || e.Receive? || e.Advance? || e.MarkFull? || e.Signal? || e.Reopen?
    ensures Stopped(Step(s, e))
  {
  }

  lemma OthersStayStopped(s: State, e: Event)
    requires InRange(s) && WakeOk(s) && Stopped(s) && Enabled(s, e)
    requires e.Enter? || e.Update? || e.Latch? || e.Attach? || e.Take? || e.Hand? || e.Reply?
    ensures Stopped(Step(s, e))
  {
  }

  lemma {:induction false} RunStaysStopped(start: State, es: seq<Event>)
    requires Loaded(start) && start.lastFront < STREAM_LEN
    ensures Stopped(Run(start, es))
    decreases |es|
  {
    if es != [] {
      var m, e := Run(start, es[..|es| - 1]), es[|es| - 1];
      RunStaysStopped(start, es[..|es| - 1]);
      InvOfRun(start, es[..|es| - 1]);
      if InRange(m) && Enabled(m, e) {
        if e.Enter? || e.Update? || e.Latch? || e.Attach? || e.Take? || e.Hand? || e.Reply? {
          OthersStayStopped(m, e);
        } else {
          DriverStaysStopped(m, e);
        }
      }
    }
  }

  /**
   A full ring stops the tasklet: an interrupt that comes while the ring is marked full is latched, not
   served, and the tasklet is neither pending nor at work on a frame until the consumer has answered.
   */
  lemma FullRingWaits(start: State, es: seq<Event>)
    requires Loaded(start) && start.lastFront < STREAM_LEN && Run(start, es).full
    ensures var s := Run(start, es);
            && !s.pending && (s.tasklet.Resting? || s.tasklet.Signalling? || s.tasklet.Reopening?)
            && (s.intOn ==> GpioEdgeStep(s) == s.(intOn := false, irq := true))
  {
    RunStaysStopped(start, es);
  }

  /** The next thing the consumer or the callback can do. */
  function Service(s: State): Event {
    if s.callback.Flagged? then Latch
    else if s.callback.Entered? then Update
    else if s.toKernel != [] then Enter
    else if s.user.Draining? then (if s.user.left > 0 then Hand(true) else Reply)
    else Take
  }

  /** Service steps until the latch is looked at. */
  function Distance(s: State): nat {
    if s.callback.Flagged? then 1
    else if s.callback.Entered? then 2
    else if s.toKernel != [] then 3
    else if s.user.Draining? then 4 + s.user.left
    else 4 + STREAM_LEN
  }

  lemma ServiceAdvances(s: State)
    requires Inv(s) && s.irq && !s.user.Off?
    ensures InRange(s) && Enabled(s, Service(s))
    ensures var t := Step(s, Service(s));
            Inv(t) && Shorter(s, t)
  {
    FlowKnowsHead(s);
    assert Enabled(s, Service(s));
    StepKeepsInv(s, Service(s));
    CallbackShortens(s);
    if s.callback.Waiting? && s.toKernel == [] {
      ConsumerShortens(s);
    }
  }

  predicate Shorter(s: State, t: State) {
    !t.user.Off? && if t.irq then Distance(t) < Distance(s) else t.pending
  }

  lemma CallbackShortens(s: State)
    requires InRange(s) && HeadIsKnown(s.toKernel) && s.irq && !s.user.Off?
    ensures s.callback.Flagged? ==> Shorter(s, LatchStep(s))
    ensures s.callback.Entered? ==> Shorter(s, UpdateStep(s))
    ensures s.callback.Waiting? && s.toKernel != [] ==> Shorter(s, EnterStep(s))
  {
  }

  lemma ConsumerShortens(s: State)
    requires InRange(s) && s.irq && s.callback.Waiting? && s.toKernel == []
    ensures s.user.Draining? && s.user.left > 0 ==> Shorter(s, HandStep(s, true))
    ensures s.user.Draining? && s.user.left == 0 ==> Shorter(s, ReplyStep(s))
    ensures s.user.Blocked? && s.toUser != [] ==> Shorter(s, TakeStep(s))
  {
  }

  predicate IsService(e: Event) {
    e.Latch? || e.Update? || e.Enter? || e.Hand? || e.Reply? || e.Take?
  }

  /**
   A masked interrupt is never stuck: from any reachable state with the latch set and a session
   open, some 68 steps or fewer of the consumer and the callback schedule the tasklet.
   */
  lemma {:induction false} LatchCanBeServed(s: State) returns (es: seq<Event>)
    requires Inv(s) && s.irq && !s.user.Off?
    ensures |es| <= Distance(s) <= 68
    ensures forall i :: 0 <= i < |es| ==> IsService(es[i])
    ensures Run(s, es).pending
    decreases Distance(s)
  {
    DistanceBound(s);
    ServiceAdvances(s);
    var e := Service(s);
    var t := Step(s, e);
    var rest: seq<Event> := [];
    if t.irq {
      rest := LatchCanBeServed(t);
    }
    es := [e] + rest;
    RunFirst(s, e, rest);
  }

  lemma DistanceBound(s: State)
    requires Inv(s)
    ensures Distance(s) <= 68
  {
    if s.user.Draining? {
      OrderedEnds(s.user.sig.index, s.toUser, SignalBound(s.tasklet, Counted(s)));
    }
  }

  /** What consumer and callback still have to do; a signal counts for a whole round. */
  function Backlog(s: State): nat {
    (STREAM_LEN + 4) * |s.toUser| + (if s.user.Draining? then s.user.left + 4 else 0) + 3 * |s.toKernel|
    + (if s.callback.Entered? then 2 else if s.callback.Flagged? then 1 else 0)
  }

  predicate Served(s: State, t: State) {
    t.pending || (t.irq && !t.user.Off? && Backlog(t) < Backlog(s))
  }

  lemma CallbackServes(s: State, e: Event)
    requires InRange(s) && s.irq && !s.user.Off? && Enabled(s, e) && (e.Enter? || e.Update? || e.Latch?)
    ensures Served(s, Step(s, e))
  {
  }

  lemma ConsumerServes(s: State, e: Event)
    requires InRange(s) && s.irq && !s.user.Off? && Enabled(s, e) && (e.Take? || e.Hand? || e.Reply?)
    ensures Served(s, Step(s, e))
  {
  }

  /** While the latch is set, whatever happens next works the backlog off or schedules the tasklet. */
  lemma EveryEventServes(s: State, e: Event)
    requires Inv(s) && s.irq && !s.user.Off? && Enabled(s, e)
    ensures InRange(s) && Served(s, Step(s, e))
  {
    InvIsInRange(s);
    if e.Enter? || e.Update? || e.Latch? {
      CallbackServes(s, e);
    } else {
      ConsumerServes(s, e);
    }
  }

  predicate AllEnabled(s: State, es: seq<Event>)
    decreases |es|
  {
    es == [] || (AllEnabled(s, es[..|es| - 1]) && Enabled(Run(s, es[..|es| - 1]), es[|es| - 1]))
  }

  ghost predicate Scheduled(s: State, es: seq<Event>) {
    exists k :: 0 <= k <= |es| && Run(s, es[..k]).pending
  }

  lemma ScheduledExtends(s: State, es: seq<Event>)
    requires es != [] && Scheduled(s, es[..|es| - 1])
    ensures Scheduled(s, es)
  {
    var k :| 0 <= k <= |es| - 1 && Run(s, es[..|es| - 1][..k]).pending;
    assert es[..|es| - 1][..k] == es[..k];
  }

  lemma {:induction false} BacklogShrinks(s: State, es: seq<Event>)
    requires Inv(s) && s.irq && !s.user.Off? && AllEnabled(s, es)
    ensures Scheduled(s, es)
            || (Run(s, es).irq && !Run(s, es).user.Off? && Backlog(Run(s, es)) + |es| <= Backlog(s))
    decreases |es|
  {
    if es != [] {
      var init, e := es[..|es| - 1], es[|es| - 1];
      BacklogShrinks(s, init);
      if Scheduled(s, init) {
        ScheduledExtends(s, es);
      } else {
        RunKeepsInv(s, init);
        EveryEventServes(Run(s, init), e);
        assert es[..|es|] == es;
      }
    }
  }

  /**
   A masked interrupt is never stranded: from any reachable state with the latch set and a session
   open, every run of `Backlog(s)` enabled events, in whatever order, schedules the tasklet, and up
   to then some event is always enabled.
   */
  lemma LatchIsServed(s: State, es: seq<Event>)
    requires Reachable(s) && s.irq && !s.user.Off? && AllEnabled(s, es)
    ensures |es| >= Backlog(s) ==> Scheduled(s, es)
    ensures !Scheduled(s, es) ==> exists e :: Enabled(Run(s, es), e)
  {
    ReachableSatisfiesInv(s);
    BacklogShrinks(s, es);
    RunKeepsInv(s, es);
    if !Scheduled(s, es) {
      ServiceAdvances(Run(s, es));
      assert Enabled(Run(s, es), Service(Run(s, es)));
    }
  }

  lemma {:induction false} RunSplits(s: State, xs: seq<Event>, ys: seq<Event>)
    ensures Run(s, xs + ys) == Run(Run(s, xs), ys)
    decreases |ys|
  {
    if ys == [] {
      assert xs + ys == xs;
    } else {
      RunSplits(s, xs, ys[..|ys| - 1]);
      assert (xs + ys)[..|xs + ys| - 1] == xs + ys[..|ys| - 1];
    }
  }

  lemma RunFirst(s: State, e: Event, rest: seq<Event>)
    ensures Run(s, [e] + rest) == Run(Apply(s, e), rest)
  {
    RunSplits(s, [e], rest);
    assert [e][..0] == [];
    assert Run(s, [e]) == Apply(Run(s, []), e);
  }
}
