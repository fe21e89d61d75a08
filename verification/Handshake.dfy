/** One frame across the toggle handshake: the clocked sender against the polling receiver. */
module Handshake {
  import opened FrameSender
  import F = FrameSender
  import R = FrameReceiver

  /** A sender clock, or one operation of the driver; `noise` is what floating data pins read as. */
  datatype Event = Clock(i: Input) | Drive(noise: Octet)

  /**
   Logs: the bytes latched from `data_in`, the rises of `r_clk`, the sender clocks since the last
   acknowledge toggle, the number of events so far, and that number at the last toggle.
   */
  datatype System = System(sender: Sender, driver: R.Driver, samples: seq<Octet>, rises: nat,
                           clocks: nat, now: nat, mark: nat)

  function LineNow(s: Sender, noise: Octet): R.Line {
    R.Line(s.clkOut, match s.dataOut case Driven(b) => b case Floating => noise)
  }

  function ClockStep(s: System, i: Input): System {
    var t := F.Next(s.sender, i, s.driver.ack);
    s.(sender := t,
       samples := if s.sender.phase == Ing2 then s.samples + [i.dataIn] else s.samples,
       rises := if !s.sender.rClk && t.rClk then s.rises + 1 else s.rises,
       clocks := s.clocks + 1, now := s.now + 1)
  }

  function DriveStep(s: System, noise: Octet): System {
    var d := R.Next(s.driver, LineNow(s.sender, noise));
    var toggled := d.toggles > s.driver.toggles;
    s.(driver := d, clocks := if toggled then 0 else s.clocks,
       now := s.now + 1, mark := if toggled then s.now + 1 else s.mark)
  }

  /** The call ends with `Done`; what follows belongs to the next one. */
  function Step(s: System, e: Event): System {
    if s.driver.pc == R.Done then s
    else match e case Clock(i) => ClockStep(s, i) case Drive(noise) => DriveStep(s, noise)
  }

  function Run(s: System, es: seq<Event>): System
    decreases |es|
  {
    if es == [] then s else Step(Run(s, es[..|es| - 1]), es[|es| - 1])
  }

  /** Every clock of the frame shows the same length `n`. */
  predicate LengthHeld(es: seq<Event>, n: nat) {
    forall j :: 0 <= j < |es| && es[j].Clock? ==> es[j].i.lenIn == n
  }

  /** The sender about to start, the driver waiting for its interrupt. */
  predicate Ready(s: System) {
    && s.sender.phase == StartSave && !s.sender.clkOut && !s.sender.rClk
    && s.driver.pc == R.Armed && s.driver.data == [] && s.driver.toggles == 0 && s.driver.timer == 0
    && s.samples == [] && s.rises == 0 && s.clocks == 0 && s.now == 0 && s.mark == 0
  }

  // ---- The schedule

  function Clocks(es: seq<Event>): nat {
    if es == [] then 0 else Clocks(es[..|es| - 1]) + (if es[|es| - 1].Clock? then 1 else 0)
  }

  function Drives(es: seq<Event>): nat {
    if es == [] then 0 else Drives(es[..|es| - 1]) + (if es[|es| - 1].Drive? then 1 else 0)
  }

  /** Any 199 operations of the driver see at least five sender clocks. */
  ghost predicate Fair(es: seq<Event>) {
    forall a, b :: 0 <= a <= b <= |es| && Drives(es[a..b]) >= 199 ==> Clocks(es[a..b]) >= 5
  }

  // ---- The invariant

  /** The 32-bit length register after `k` bytes. */
  function LengthAfter(n: nat, k: nat): nat
    requires k <= Bytes(n) && n < WORD
  {
    if k == 0 then n else Bytes(n) - k
  }

  /** The bytes a length asks for: a zero wraps around before it is compared. */
  function Bytes(n: nat): nat {
    if n == 0 then WORD else n
  }

  /** Sender clocks until it has answered the last toggle: shown the next byte, or ended the frame. */
  function Answer(f: Sender): nat {
    match f.phase
    case Start2 => 5
    case Start3 => 4
    case Ing3 => if f.len == 0 then 4 else 5
    case Ing4 => if f.len == 0 then 3 else 4
    case Ing0 => 3
    case Ing1 => 2
    case Ing2 => 1
    case End => 2
    case Delay1 => 1
    case _ => 0
  }

  /** `r_clk` has risen twice for the header and once for each byte asked for. */
  predicate RisesOk(f: Sender, rises: nat, k: nat) {
    match f.phase
    case StartSave => rises == k && !f.rClk
    case Start => rises == k + 1 && f.rClk
    case Start2 => rises == k + 1 && !f.rClk
    case Start3 => rises == k + 2 && f.rClk
    case Ing0 => rises == k + 2 && !f.rClk
    case Ing1 => rises == k + 3
    case Ing2 => rises == k + 3 && !f.rClk
    case _ => rises == k + 2 && !f.rClk
  }

  predicate SenderOk(f: Sender, n: nat, k: nat) {
    && n < WORD && k <= Bytes(n) && (f.phase != StartSave ==> f.delay == 0)
    && (f.phase != StartSave && f.phase != Start ==> f.len == LengthAfter(n, k))
    && (f.phase == Ing0 || f.phase == Ing1 || f.phase == Ing2 ==> k < Bytes(n))
    && (f.phase == End || f.phase == Delay1 || f.phase == Delay2 ==> k == Bytes(n))
    && (f.phase in {StartSave, Start, Start2, Start3} ==> k == 0)
    && (f.phase == Ing3 || f.phase == Ing4 ==> k > 0)
  }

  /** The frame has not been announced yet. */
  predicate Quiet(s: System) {
    && (s.sender.phase == StartSave || s.sender.phase == Start) && !s.sender.clkOut
    && (s.sender.phase == Start ==> s.sender.ackSave == s.driver.ack && s.sender.dataOut == Driven(HEADER))
    && s.driver.pc == R.Armed && s.samples == []
  }

  /** The header is showing and has not been acknowledged. */
  predicate Announced(s: System) {
    && s.sender.phase in {Start2, Start3, Ing0, Ing1}
    && s.sender.clkOut && s.sender.dataOut == Driven(HEADER) && s.sender.ackSave == s.driver.ack
    && s.driver.pc in {R.Armed, R.Entry, R.Header}
    && (s.driver.pc == R.Header ==> s.driver.word == R.Line(true, HEADER))
    && s.samples == []
  }

  /** The driver has acknowledged everything shown; the sender has not answered yet. */
  predicate Acknowledged(s: System) {
    && s.sender.phase in {Start2, Start3, Ing0, Ing1, Ing2, Ing3, Ing4, End, Delay1, Delay2}
    && (s.sender.ackSave == s.driver.ack <==> s.sender.phase == Delay2)
    && s.driver.clkBit == s.sender.clkOut && s.samples == s.driver.data
    && (s.clocks + Answer(s.sender) <= 5 || s.sender.phase == Delay2)
  }

  /** A byte is showing and has not been acknowledged. */
  predicate Shown(s: System) {
    && s.sender.phase in {Ing3, Ing4, Ing0, Ing1, End}
    && s.sender.ackSave == s.driver.ack && s.driver.clkBit != s.sender.clkOut
    && |s.samples| > 0 && s.driver.data == s.samples[..|s.samples| - 1]
    && s.sender.dataOut == Driven(s.samples[|s.samples| - 1])
    && (if s.driver.word.clk == s.driver.clkBit then s.driver.timer < 199
        else s.driver.timer <= 199 && s.driver.word.data == s.samples[|s.samples| - 1])
  }

  /** The time-out came after the last byte, and the sender has not seen its toggle yet. */
  predicate TimedOut(s: System, n: nat) {
    && s.driver.timer == R.TIMEOUT && s.driver.data == s.samples && |s.samples| == Bytes(n) < R.DATA_LEN_MAX
    && s.sender.phase == Delay2 && s.sender.ackSave != s.driver.ack
  }

  /** The buffer was full before the frame ended. */
  predicate CutOff(s: System) {
    && |s.driver.data| == R.DATA_LEN_MAX && Acknowledged(s)
  }

  /** How the two sides can stand to each other. */
  predicate Paired(s: System, n: nat) {
    match s.driver.pc
    case Polling => s.driver.kind == HEADER && (Shown(s) || (Acknowledged(s) && s.driver.word.clk == s.driver.clkBit))
    case Done => s.driver.kind == HEADER && (TimedOut(s, n) || CutOff(s))
    case _ => Quiet(s) || Announced(s)
  }

  predicate Inv(s: System, n: nat) {
    && SenderOk(s.sender, n, |s.samples|) && RisesOk(s.sender, s.rises, |s.samples|)
    && R.Bounded(s.driver) && R.TogglesCounted(s.driver) && Paired(s, n)
  }

  /** The driver's timer and the clock count measure the window since the last toggle. */
  predicate Measured(s: System, es: seq<Event>) {
    && s.mark <= s.now == |es|
    && (s.driver.pc == R.Polling ==> Clocks(es[s.mark..]) == s.clocks
                                     && Drives(es[s.mark..]) == s.driver.timer)
  }

  /** What fairness says at this moment. */
  predicate Answered(s: System) {
    s.driver.pc == R.Polling && s.driver.timer >= 199 ==> s.clocks >= 5
  }

  // ---- A sender clock

  /** The bytes latched after this clock. */
  function Latched(f: Sender, k: nat): nat {
    if f.phase == Ing2 then k + 1 else k
  }

  lemma SenderStaysOk(f: Sender, n: nat, k: nat, i: Input, ack: bool)
    requires SenderOk(f, n, k) && i.lenIn == n && f.phase != Idle && f.phase != Delay3
    ensures SenderOk(F.Next(f, i, ack), n, Latched(f, k))
  {
  }

  lemma RisesStayOk(f: Sender, rises: nat, k: nat, i: Input, ack: bool)
    requires RisesOk(f, rises, k) && f.phase != Idle && f.phase != Delay3
    ensures var t := F.Next(f, i, ack);
            RisesOk(t, if !f.rClk && t.rClk then rises + 1 else rises, Latched(f, k))
  {
  }

  lemma ClockWhileQuiet(s: System, i: Input)
    requires Quiet(s)
    ensures Quiet(ClockStep(s, i)) || Announced(ClockStep(s, i))
  {
  }

  lemma ClockWhileAnnounced(s: System, i: Input)
    requires Announced(s)
    ensures Announced(ClockStep(s, i))
  {
  }

  lemma ClockWhileAcknowledged(s: System, i: Input)
    requires Acknowledged(s) && Answered(s) && s.driver.pc == R.Polling && s.driver.word.clk == s.driver.clkBit
    ensures Acknowledged(ClockStep(s, i)) || Shown(ClockStep(s, i))
  {
  }

  lemma ClockWhileShown(s: System, i: Input)
    requires Shown(s)
    ensures Shown(ClockStep(s, i))
  {
  }

  lemma ClockKeepsPaired(s: System, n: nat, i: Input)
    requires Paired(s, n) && Answered(s) && s.driver.pc != R.Done
    ensures Paired(ClockStep(s, i), n)
  {
    assert ClockStep(s, i).driver == s.driver;
    if s.driver.pc == R.Polling {
      if Shown(s) {
        ClockWhileShown(s, i);
      } else {
        ClockWhileAcknowledged(s, i);
      }
    } else if Quiet(s) {
      ClockWhileQuiet(s, i);
    } else {
      ClockWhileAnnounced(s, i);
    }
  }

  /** Before the call is over the sender is never idle and never in its last pause. */
  lemma SenderIsBusy(s: System, n: nat)
    requires Paired(s, n) && s.driver.pc != R.Done
    ensures s.sender.phase != Idle && s.sender.phase != Delay3
  {
  }

  lemma ClockKeepsInv(s: System, n: nat, i: Input)
    requires Inv(s, n) && Answered(s) && s.driver.pc != R.Done && i.lenIn == n
    ensures Inv(ClockStep(s, i), n)
  {
    SenderIsBusy(s, n);
    SenderStaysOk(s.sender, n, |s.samples|, i, s.driver.ack);
    RisesStayOk(s.sender, s.rises, |s.samples|, i, s.driver.ack);
    ClockKeepsPaired(s, n, i);
  }

  // ---- An operation of the driver

  lemma DriverStaysBounded(d: R.Driver, line: R.Line)
    requires R.Bounded(d) && R.TogglesCounted(d)
    ensures R.Bounded(R.Next(d, line)) && R.TogglesCounted(R.Next(d, line))
  {
    R.OperationCountsToggles(d, line);
  }

  lemma DriveBeforePolling(s: System, noise: Octet)
    requires Quiet(s) || Announced(s)
    requires R.Bounded(s.driver) && R.TogglesCounted(s.driver)
    ensures var t := DriveStep(s, noise);
            if t.driver.pc == R.Polling
            then Acknowledged(t) && t.driver.word.clk == t.driver.clkBit && t.driver.kind == HEADER
            else t.driver.pc != R.Done && (Quiet(t) || Announced(t))
  {
  }

  lemma DriveWhileShown(s: System, noise: Octet)
    requires Shown(s) && s.driver.pc == R.Polling
    requires R.Bounded(s.driver) && R.TogglesCounted(s.driver)
    ensures var t := DriveStep(s, noise);
            && t.driver.kind == s.driver.kind
            && if t.driver.pc == R.Polling then Shown(t) || (Acknowledged(t) && t.driver.word.clk == t.driver.clkBit)
               else t.driver.pc == R.Done && CutOff(t)
  {
    assert s.samples == s.driver.data + [s.samples[|s.samples| - 1]];
  }

  lemma DriveWhileAcknowledged(s: System, n: nat, noise: Octet)
    requires Acknowledged(s) && s.driver.pc == R.Polling && s.driver.word.clk == s.driver.clkBit
    requires SenderOk(s.sender, n, |s.samples|) && R.Bounded(s.driver) && Answered(s)
    ensures var t := DriveStep(s, noise);
            && t.driver.kind == s.driver.kind
            && if t.driver.pc == R.Polling then Acknowledged(t) && t.driver.word.clk == t.driver.clkBit
               else t.driver.pc == R.Done && TimedOut(t, n)
  {
  }

  lemma DriveKeepsInv(s: System, n: nat, noise: Octet)
    requires Inv(s, n) && Answered(s) && s.driver.pc != R.Done
    ensures Inv(DriveStep(s, noise), n)
  {
    DriverStaysBounded(s.driver, LineNow(s.sender, noise));
    if s.driver.pc != R.Polling {
      DriveBeforePolling(s, noise);
    } else if Shown(s) {
      DriveWhileShown(s, noise);
    } else {
      DriveWhileAcknowledged(s, n, noise);
    }
  }

  // ---- Runs

  lemma ClocksOfPrefix(es: seq<Event>, a: nat, e: Event)
    requires a <= |es|
    ensures Clocks((es + [e])[a..]) == Clocks(es[a..]) + (if e.Clock? then 1 else 0)
    ensures Drives((es + [e])[a..]) == Drives(es[a..]) + (if e.Drive? then 1 else 0)
  {
    assert (es + [e])[a..] == es[a..] + [e];
    assert (es[a..] + [e])[..|es[a..]|] == es[a..];
  }

  lemma StepKeepsMeasure(s: System, es: seq<Event>, e: Event)
    requires Measured(s, es) && s.driver.pc != R.Done
    ensures Measured(Step(s, e), es + [e])
  {
    ClocksOfPrefix(es, s.mark, e);
    assert (es + [e])[|es| + 1..] == [];
  }

  lemma FairnessAnswers(s: System, es: seq<Event>)
    requires Measured(s, es) && Fair(es)
    ensures Answered(s)
  {
    assert es[s.mark..] == es[s.mark..|es|];
  }

  lemma FairPrefix(es: seq<Event>, k: nat)
    requires Fair(es) && k <= |es|
    ensures Fair(es[..k])
  {
    forall a, b | 0 <= a <= b <= |es[..k]| && Drives(es[..k][a..b]) >= 199
      ensures Clocks(es[..k][a..b]) >= 5
    {
      assert es[..k][a..b] == es[a..b];
    }
  }

  lemma ReadySatisfiesInv(s: System, n: nat)
    requires Ready(s) && n < WORD
    ensures Inv(s, n) && Measured(s, [])
  {
  }

  lemma {:induction false} RunKeepsInv(s: System, n: nat, es: seq<Event>)
    requires Ready(s) && n < WORD && Fair(es) && LengthHeld(es, n)
    ensures Inv(Run(s, es), n)
    ensures Run(s, es).driver.pc != R.Done ==> Measured(Run(s, es), es)
    decreases |es|
  {
    if es == [] {
      ReadySatisfiesInv(s, n);
    } else {
      var init, e := es[..|es| - 1], es[|es| - 1];
      FairPrefix(es, |es| - 1);
      RunKeepsInv(s, n, init);
      var m := Run(s, init);
      if m.driver.pc != R.Done {
        FairnessAnswers(m, init);
        assert init + [e] == es;
        StepKeepsMeasure(m, init, e);
        match e
        case Clock(i) => ClockKeepsInv(m, n, i);
        case Drive(noise) => DriveKeepsInv(m, n, noise);
      }
    }
  }

  /**
   Lockstep: once the clock line has risen, the bytes shown, the header counted, are as many as
   the acknowledges or one more.
   */
  lemma Lockstep(s: System, n: nat, es: seq<Event>)
    requires Ready(s) && n < WORD && Fair(es) && LengthHeld(es, n)
    requires Run(s, es).sender.phase != StartSave && Run(s, es).sender.phase != Start
    ensures var e := Run(s, es);
            e.driver.toggles <= |e.samples| + 1 || e.driver.pc == R.Done
    ensures var e := Run(s, es);
            |e.samples| <= e.driver.toggles
  {
    RunKeepsInv(s, n, es);
  }

  /**
   The read clock rises twice for the header and once more for each byte: whenever a byte is about
   to be latched, exactly one rise lies between it and the one before.
   */
  lemma OneRisePerSample(s: System, n: nat, es: seq<Event>)
    requires Ready(s) && n < WORD && Fair(es) && LengthHeld(es, n)
    ensures var e := Run(s, es);
            && (e.sender.phase == Ing2 ==> e.rises == |e.samples| + 3)
            && (|e.samples| > 0 ==> |e.samples| + 2 <= e.rises <= |e.samples| + 3)
  {
    RunKeepsInv(s, n, es);
  }

  /**
   While a call runs, the data pins change only together with the clock line, unless every byte has
   been latched and acknowledged; before it the clock line has not risen.
   */
  lemma DataMovesWithClock(s: System, n: nat, es: seq<Event>, e: Event)
    requires Ready(s) && n < WORD && Fair(es) && LengthHeld(es, n)
    requires var m := Run(s, es);
             Step(m, e).sender.dataOut != m.sender.dataOut && Step(m, e).sender.clkOut == m.sender.clkOut
    ensures var m := Run(s, es);
            || (m.driver.pc == R.Armed && !m.sender.clkOut)
            || (m.driver.pc == R.Polling && |m.samples| == Bytes(n) && m.driver.data == m.samples)
  {
    RunKeepsInv(s, n, es);
    if e.Clock? {
      F.DataMovesWithClock(Run(s, es).sender, e.i, Run(s, es).driver.ack);
    }
  }

  // ---- The call returns

  lemma {:induction false} RunSplits(s: System, xs: seq<Event>, ys: seq<Event>)
    ensures Run(s, xs + ys) == Run(Run(s, xs), ys)
    decreases |ys|
  {
    if ys == [] {
      assert xs + ys == xs;
    } else {
      RunSplits(s, xs, ys[..|ys| - 1]);
      assert (xs + ys)[..|xs + ys| - 1] == xs + ys[..|ys| - 1];
    }
  }

  /** Before its first read the driver is armed and the frame quiet or announced; then it is running. */
  predicate Started(s: System) {
    R.Bounded(s.driver) && (s.driver.pc == R.Armed ==> Quiet(s) || Announced(s))
  }

  /** The frame has been announced, or the call is already running. */
  predicate Launched(s: System) {
    Started(s) && (s.driver.pc == R.Armed ==> Announced(s))
  }

  /** The sender clocks seen so far, as far as they matter for the announcement. */
  predicate Launching(s: System, clocks: nat) {
    && Started(s)
    && (s.driver.pc == R.Armed && !Announced(s) ==> s.sender.phase == if clocks == 0 then StartSave else Start)
  }

  lemma LaunchingClock(s: System, clocks: nat, i: Input)
    requires Launching(s, clocks) && s.driver.pc != R.Done
    ensures Launching(ClockStep(s, i), clocks + 1) && (clocks > 0 ==> Launched(ClockStep(s, i)))
  {
  }

  lemma LaunchingDrive(s: System, clocks: nat, noise: Octet)
    requires Launching(s, clocks) && s.driver.pc != R.Done
    ensures Launching(DriveStep(s, noise), clocks) && (Launched(s) ==> Launched(DriveStep(s, noise)))
  {
    if s.driver.pc != R.Armed {
      R.OperationShrinksBudget(s.driver, LineNow(s.sender, noise));
    }
  }

  /** Two sender clocks announce the frame, whatever the driver does meanwhile. */
  lemma {:induction false} TwoClocksLaunch(s: System, es: seq<Event>)
    requires Ready(s)
    ensures Launching(Run(s, es), Clocks(es)) && (Clocks(es) >= 2 ==> Launched(Run(s, es)))
    decreases |es|
  {
    if es != [] {
      var init, e := es[..|es| - 1], es[|es| - 1];
      TwoClocksLaunch(s, init);
      var m := Run(s, init);
      if m.driver.pc != R.Done {
        match e
        case Clock(i) => LaunchingClock(m, Clocks(init), i);
        case Drive(noise) => LaunchingDrive(m, Clocks(init), noise);
      }
    }
  }

  lemma DriveUsesBudget(s: System, noise: Octet)
    requires Launched(s) && s.driver.pc != R.Done
    ensures Launched(DriveStep(s, noise)) && R.Budget(DriveStep(s, noise).driver) < R.Budget(s.driver)
  {
    if s.driver.pc != R.Armed {
      R.OperationShrinksBudget(s.driver, LineNow(s.sender, noise));
    }
  }

  lemma ClockStaysLaunched(s: System, i: Input)
    requires Launched(s) && s.driver.pc != R.Done
    ensures Launched(ClockStep(s, i))
  {
  }

  /** Whatever the schedule, a launched call is over after 3 + 201 * 4000 operations of the driver. */
  lemma {:induction false} DriverReturns(s: System, es: seq<Event>)
    requires Launched(s)
    ensures var e := Run(s, es);
            Launched(e) && (e.driver.pc == R.Done || R.Budget(e.driver) + Drives(es) <= R.Budget(s.driver))
    decreases |es|
  {
    if es != [] {
      DriverReturns(s, es[..|es| - 1]);
      var m := Run(s, es[..|es| - 1]);
      if m.driver.pc != R.Done {
        match es[|es| - 1]
        case Clock(i) => ClockStaysLaunched(m, i);
        case Drive(noise) => DriveUsesBudget(m, noise);
      }
    }
  }

  /** Two sender clocks, and after them as many operations of the driver as a call can take. */
  predicate LongEnough(es: seq<Event>, k: nat) {
    k <= |es| && Clocks(es[..k]) >= 2 && Drives(es[k..]) > 3 + 201 * 4000
  }

  /** From the start of a frame, on any such schedule, fair or not and whatever the length, the call returns. */
  lemma CallReturns(s: System, es: seq<Event>, k: nat)
    requires Ready(s) && LongEnough(es, k)
    ensures Run(s, es).driver.pc == R.Done
  {
    var launched := Run(s, es[..k]);
    assert Launched(launched) by { TwoClocksLaunch(s, es[..k]); }
    assert Run(s, es) == Run(launched, es[k..]) by {
      RunSplits(s, es[..k], es[k..]);
      assert es[..k] + es[k..] == es;
    }
    DriverReturns(launched, es[k..]);
  }

  // ---- What a call brings

  /** The bytes on the sender's data input at the clocks in which it latches them, while the call lasts. */
  function Sampled(s: System, es: seq<Event>): seq<Octet>
    decreases |es|
  {
    if es == [] then []
    else
      var before, m, e := Sampled(s, es[..|es| - 1]), Run(s, es[..|es| - 1]), es[|es| - 1];
      if e.Clock? && m.sender.phase == Ing2 && m.driver.pc != R.Done then before + [e.i.dataIn] else before
  }

  lemma {:induction false} SamplesAreSampled(s: System, es: seq<Event>)
    ensures Run(s, es).samples == s.samples + Sampled(s, es)
    decreases |es|
  {
    if es != [] {
      SamplesAreSampled(s, es[..|es| - 1]);
    }
  }

  /** The whole frame has arrived: all `n` bytes the sender latched, under the header. */
  predicate Arrived(e: System, n: nat) {
    && e.driver.pc == R.Done
    && e.driver.kind == 54 && e.driver.data == e.samples && |e.samples| == n
    && e.driver.toggles == n + 2 && e.rises == n + 2
    && e.sender.phase == Delay2 && e.sender.ackSave != e.driver.ack
  }

  /**
   A frame of 1 to 3999 bytes arrives whole: on every fair schedule that gives the driver time the
   call returns; and whenever it has returned the driver holds the header as the type and exactly the
   bytes the sender latched, all `n` of them, the sender stands before its last acknowledge, and
   the line has been toggled `n + 2` times.
   */
  lemma FrameArrives(s: System, n: nat, es: seq<Event>, k: nat)
    requires Ready(s) && 1 <= n < 4000 && Fair(es) && LengthHeld(es, n)
    ensures LongEnough(es, k) ==> Arrived(Run(s, es), n)
    ensures Run(s, es).driver.pc == R.Done ==> Arrived(Run(s, es), n) && Run(s, es).driver.data == Sampled(s, es)
  {
    RunKeepsInv(s, n, es);
    SamplesAreSampled(s, es);
    if LongEnough(es, k) {
      CallReturns(s, es, k);
    }
  }

  /** The driver's buffer is full, and the sender is short of an acknowledge. */
  predicate Truncated(e: System, n: nat) {
    && n < WORD && e.driver.pc == R.Done
    && e.driver.kind == 54 && e.driver.data == e.samples && |e.samples| == 4000
    && e.driver.toggles == 4001 && Acknowledged(e) && SenderOk(e.sender, n, |e.samples|)
  }

  /** Any other length is cut off at 4000 bytes. */
  lemma FrameIsCutOff(s: System, n: nat, es: seq<Event>, k: nat)
    requires Ready(s) && n < WORD && !(1 <= n < 4000) && Fair(es) && LengthHeld(es, n)
    ensures LongEnough(es, k) ==> Truncated(Run(s, es), n)
    ensures Run(s, es).driver.pc == R.Done ==> Truncated(Run(s, es), n)
  {
    RunKeepsInv(s, n, es);
    if LongEnough(es, k) {
      CallReturns(s, es, k);
    }
  }

  // ---- After the call

  /** The sender's clocks while the driver leaves the acknowledge line alone. */
  function Idling(f: Sender, ins: seq<Input>, ack: bool): Sender
    decreases |ins|
  {
    if ins == [] then f else F.Next(Idling(f, ins[..|ins| - 1], ack), ins[|ins| - 1], ack)
  }

  lemma PauseBegins(f: Sender, i: Input, ack: bool)
    requires f.phase == Delay2 && f.ackSave != ack
    ensures var t := F.Next(f, i, ack); t.phase == Delay3 && t.delay == f.delay && t.rClk == f.rClk
  {
  }

  lemma PauseGoesOn(f: Sender, i: Input, ack: bool)
    requires f.phase == Delay3 && f.delay < DELAY_LEN
    ensures var t := F.Next(f, i, ack);
            t.phase == Delay3 && t.delay == f.delay + 1 && !t.clkOut && t.rClk == f.rClk
  {
  }

  lemma {:induction false} PauseCounts(f: Sender, ins: seq<Input>, ack: bool)
    requires f.phase == Delay2 && f.ackSave != ack && f.delay == 0 && 1 <= |ins| <= DELAY_LEN + 1
    ensures var t := Idling(f, ins, ack);
            && t.phase == Delay3 && t.delay == |ins| - 1 && t.rClk == f.rClk && (|ins| > 1 ==> !t.clkOut)
    decreases |ins|
  {
    var init, i := ins[..|ins| - 1], ins[|ins| - 1];
    if |ins| == 1 {
      assert Idling(f, init, ack) == f;
      PauseBegins(f, i, ack);
    } else {
      PauseCounts(f, init, ack);
      PauseGoesOn(Idling(f, init, ack), i, ack);
    }
  }

  /** 2002 clocks after the last toggle the sender is idle again, with its lines low. */
  lemma SenderRests(f: Sender, ins: seq<Input>, ack: bool)
    requires f.phase == Delay2 && f.ackSave != ack && f.delay == 0 && |ins| == 2002
    ensures var t := Idling(f, ins, ack);
            t.phase == Idle && !t.clkOut && t.rClk == f.rClk
  {
    PauseCounts(f, ins[..|ins| - 1], ack);
  }

  /** A sender that waits for an acknowledge it will not get. */
  predicate Stranded(f: Sender, ack: bool) {
    && f.phase in {Start2, Start3, Ing0, Ing1, Ing2, Ing3, Ing4, End, Delay1, Delay2}
    && (f.phase == Delay2 ==> f.ackSave == ack)
  }

  lemma {:induction false} StrandedStays(f: Sender, ins: seq<Input>, ack: bool)
    requires Stranded(f, ack)
    ensures Stranded(Idling(f, ins, ack), ack)
    decreases |ins|
  {
    if ins != [] {
      StrandedStays(f, ins[..|ins| - 1], ack);
    }
  }

  /**
   Exactly the frames of 1 to 3999 bytes let the sender return to rest on the acknowledges of
   one call: 2002 clocks after the call it is idle if the length was in range, and it never
   gets there if it was not.
   */
  lemma RestsExactlyInRange(s: System, n: nat, es: seq<Event>, k: nat, ins: seq<Input>)
    requires Ready(s) && n < WORD && Fair(es) && LengthHeld(es, n)
    requires LongEnough(es, k) || Run(s, es).driver.pc == R.Done
    ensures var e := Run(s, es);
            && (1 <= n < 4000 && |ins| == 2002
                ==> Idling(e.sender, ins, e.driver.ack).phase == Idle && !Idling(e.sender, ins, e.driver.ack).clkOut)
            && (!(1 <= n < 4000) ==> Idling(e.sender, ins, e.driver.ack).phase != Idle)
  {
    RunKeepsInv(s, n, es);
    var e := Run(s, es);
    if 1 <= n < 4000 {
      FrameArrives(s, n, es, k);
      if |ins| == 2002 {
        SenderRests(e.sender, ins, e.driver.ack);
      }
    } else {
      FrameIsCutOff(s, n, es, k);
      StrandedStays(e.sender, ins, e.driver.ack);
    }
  }

  /** An idle sender with its lines low is ready for a frame one enabled clock later. */
  lemma RestIsReady(f: Sender, i: Input, ack: bool)
    requires f.phase == Idle && !f.clkOut && !f.rClk && i.en
    ensures var t := F.Next(f, i, ack);
            t.phase == StartSave && !t.clkOut && !t.rClk
  {
  }

  /** The driver as its next interrupt finds it: only the level of the acknowledge line stays. */
  function Rearmed(d: R.Driver): R.Driver {
    R.Driver(R.Armed, d.word, d.clkBit, 0, d.kind, [], d.ack, 0)
  }

  /** After a frame in range, the pause, and one enabled clock, both sides are ready for the next frame. */
  lemma ReadyAgain(s: System, n: nat, es: seq<Event>, k: nat, ins: seq<Input>, i: Input)
    requires Ready(s) && 1 <= n < 4000 && Fair(es) && LengthHeld(es, n)
    requires LongEnough(es, k) || Run(s, es).driver.pc == R.Done
    requires |ins| == 2002 && i.en
    ensures var e := Run(s, es);
            var f := F.Next(Idling(e.sender, ins, e.driver.ack), i, e.driver.ack);
            Ready(System(f, Rearmed(e.driver), [], 0, 0, 0, 0))
  {
    RunKeepsInv(s, n, es);
    FrameArrives(s, n, es, k);
    var e := Run(s, es);
    SenderRests(e.sender, ins, e.driver.ack);
    RestIsReady(Idling(e.sender, ins, e.driver.ack), i, e.driver.ack);
  }
}
