/**
 One transmitter wired to one receiver. The two tick trains are free-running counters with
 unrelated phases, so the receiver drifts against the transmitter on every bit.
 */
module SerialLink {
  import opened Bits
  import T = UartTxd
  import R = UartRxd

  /** Clocks per receive tick and clocks per transmitted bit. */
  datatype Rate = Rate(rx: nat, tx: nat) {
    /** The drift bounds under which a stream of any length is recovered. */
    predicate Recoverable() {
      0 < rx && 46 * rx <= 3 * tx && 9 * tx <= 152 * rx
    }
  }

  /**
   `accepted` and `received` are logs: the bytes the transmitter took, and the bytes the
   receiver announced by raising `rdy`. They do not influence the hardware registers.
   */
  datatype Link = Link(rxAcc: nat, txAcc: nat, tx: T.Tx, rx: R.Rx,
                       accepted: seq<Byte>, received: seq<Byte>)

  datatype Write = Write(en: bool, din: Byte)

  function Wrap(acc: nat, period: nat): nat {
    if acc + 1 >= period then 0 else acc + 1
  }

  /** One edge of the common clock. */
  function Clock(r: Rate, s: Link, w: Write): Link {
    var rx := R.Next(s.rx, s.rxAcc == 0, true, s.tx.txd);
    Link(Wrap(s.rxAcc, r.rx), Wrap(s.txAcc, r.tx),
         T.Next(s.tx, s.txAcc == 0, w.en, w.din), rx,
         if T.Accepts(s.tx, w.en) then s.accepted + [w.din] else s.accepted,
         if R.Announces(s.rx, rx) then s.received + [rx.data] else s.received)
  }

  function Run(r: Rate, s: Link, ws: seq<Write>): Link
    decreases |ws|
  {
    if ws == [] then s else Clock(r, Run(r, s, ws[..|ws| - 1]), ws[|ws| - 1])
  }

  /** Both sides at rest with an idle line and empty logs; the two counters are anywhere. */
  predicate AtRest(r: Rate, s: Link) {
    && s.rxAcc < r.rx && s.txAcc < r.tx
    && s.tx.phase == T.Idle && s.tx.txd
    && s.rx.phase == R.Start && s.rx.sample == 0
    && s.accepted == [] && s.received == []
  }

  // ---- Positions within a frame

  /** Clocks since the last tick: the tick itself is due when the age is the whole period. */
  function Age(acc: nat, period: nat): nat {
    if acc == 0 then period else acc
  }

  /** Which bit slot the line shows, counting the start bit as slot 0. */
  function Slot(tx: T.Tx): nat {
    if tx.phase == T.Stop then 8 else tx.bitpos
  }

  /** Receive ticks since the start bit was noticed, that tick included. */
  function Ticks(rx: R.Rx): nat {
    match rx.phase
    case Start => rx.sample
    case Data => 16 * rx.bitpos + rx.sample + (if rx.sample <= 8 then 16 else 0)
    case Stop => 144 + rx.sample
  }

  /** The receiver is inside a frame. */
  predicate Busy(rx: R.Rx) {
    && !rx.rdy
    && match rx.phase
       case Start => rx.sample != 0
       case Data => if rx.sample <= 8 then rx.bitpos <= 7 else 1 <= rx.bitpos <= 8
       case Stop => rx.bitpos == 8
  }

  predicate Waiting(rx: R.Rx) {
    rx.phase == R.Start && rx.sample == 0
  }

  /** The bits collected so far are those of `cur`. */
  predicate Collected(rx: R.Rx, cur: Byte) {
    rx.phase != R.Start ==> forall j :: 0 <= j < rx.bitpos && j < 8 ==> rx.scratch[j] == cur[j]
  }

  predicate Sending(tx: T.Tx) {
    tx.phase == T.Data || tx.phase == T.Stop
  }

  // ---- The five situations of a link

  /** `n` frames are on their way: accepted but not yet announced. */
  predicate InFlight(s: Link, n: nat) {
    && |s.accepted| == |s.received| + n
    && s.received == s.accepted[..|s.received|]
    && (s.tx.phase != T.Idle ==> n > 0 && s.accepted[|s.accepted| - 1] == s.tx.data)
  }

  function Loaded(tx: T.Tx): nat {
    if tx.phase == T.Start then 1 else 0
  }

  predicate Quiet(r: Rate, s: Link) {
    Waiting(s.rx) && !Sending(s.tx) && InFlight(s, Loaded(s.tx))
  }

  /** The start bit is on the line and the receiver has not looked yet. */
  predicate Falling(r: Rate, s: Link) {
    && Waiting(s.rx) && s.tx.phase == T.Data && s.tx.bitpos == 0 && InFlight(s, 1)
    && Age(s.txAcc, r.tx) <= r.rx + Age(s.rxAcc, r.rx)
  }

  /** The clocks taken by `n` periods. */
  function Span(n: nat, period: nat): nat {
    if n == 0 then 0 else Span(n - 1, period) + period
  }

  /** The clocks from the start edge to the first counted low tick. */
  function Offset(r: Rate, s: Link): int {
    Span(Slot(s.tx), r.tx) + Age(s.txAcc, r.tx) + r.rx - Span(Ticks(s.rx), r.rx) - Age(s.rxAcc, r.rx)
  }

  predicate Framed(r: Rate, s: Link) {
    && Busy(s.rx) && Sending(s.tx) && InFlight(s, 1) && Collected(s.rx, s.tx.data)
    && 1 <= Offset(r, s) <= 2 * r.rx
  }

  /** The stop bit or idle line is showing while the receiver finishes the frame. */
  predicate Trailing(r: Rate, s: Link) {
    && Busy(s.rx) && s.rx.bitpos == 8 && s.rx.phase != R.Start
    && !Sending(s.tx) && InFlight(s, 1 + Loaded(s.tx))
    && Collected(s.rx, s.accepted[|s.received|])
    && Span(9, r.tx) + Age(s.txAcc, r.tx) <= Span(Ticks(s.rx), r.rx) + r.rx + Age(s.rxAcc, r.rx)
  }

  /** The next start bit is on the line while the receiver still sits in its stop state. */
  predicate Overlapped(r: Rate, s: Link) {
    && Busy(s.rx) && s.rx.phase == R.Stop && s.rx.sample >= 8
    && s.tx.phase == T.Data && s.tx.bitpos == 0 && InFlight(s, 2)
    && Collected(s.rx, s.accepted[|s.received|])
    && Age(s.txAcc, r.tx) <= Age(s.rxAcc, r.rx)
  }

  predicate Inv(r: Rate, s: Link) {
    && s.rxAcc < r.rx && s.txAcc < r.tx && T.LineShape(s.tx)
    && (Quiet(r, s) || Falling(r, s) || Framed(r, s) || Trailing(r, s) || Overlapped(r, s))
  }

  // ---- Arithmetic of the drift

  lemma {:induction false} SpanIsProduct(n: nat, period: nat)
    ensures Span(n, period) == n * period
  {
    if n > 0 {
      SpanIsProduct(n - 1, period);
    }
  }

  lemma {:induction false} SpanGrows(m: nat, n: nat, period: nat)
    requires m <= n
    ensures Span(m, period) <= Span(n, period)
  {
    if m < n {
      SpanGrows(m, n - 1, period);
    }
  }

  /** The drift over one frame stays within bit slot `k + 1` when bit `k` is sampled. */
  lemma DriftAt(r: Rate, k: nat)
    requires r.Recoverable() && k < 8
    ensures Span(k + 1, r.tx) <= Span(24 + 16 * k, r.rx)
    ensures Span(24 + 16 * k, r.rx) + 2 * r.rx <= Span(k + 2, r.tx)
  {
    match k
    case 0 => SpansAre(r, 24, 1, 2);
    case 1 => SpansAre(r, 40, 2, 3);
    case 2 => SpansAre(r, 56, 3, 4);
    case 3 => SpansAre(r, 72, 4, 5);
    case 4 => SpansAre(r, 88, 5, 6);
    case 5 => SpansAre(r, 104, 6, 7);
    case 6 => SpansAre(r, 120, 7, 8);
    case _ => SpansAre(r, 136, 8, 9);
  }

  lemma SpansAre(r: Rate, ticks: nat, from: nat, to: nat)
    ensures Span(ticks, r.rx) == ticks * r.rx
    ensures Span(from, r.tx) == from * r.tx && Span(to, r.tx) == to * r.tx
  {
    SpanIsProduct(ticks, r.rx);
    SpanIsProduct(from, r.tx);
    SpanIsProduct(to, r.tx);
  }

  /** The tick that samples bit `k` falls inside the slot that shows bit `k`. */
  lemma SampleFallsInSlot(r: Rate, slot: nat, age: nat, k: nat, offset: int)
    requires r.Recoverable() && k < 8 && 1 <= offset <= 2 * r.rx && 1 <= age <= r.tx
    requires Span(slot, r.tx) + age == Span(24 + 16 * k, r.rx) + offset
    ensures slot == k + 1
  {
    DriftAt(r, k);
    if slot < k + 1 {
      SpanGrows(slot + 1, k + 1, r.tx);
    }
    if k + 2 <= slot {
      SpanGrows(k + 2, slot, r.tx);
    }
  }

  // ---- The receiver's own steps

  /** The receiver leaves its stop state at this tick. */
  predicate Leaves(rx: R.Rx, line: bool) {
    rx.phase == R.Stop && (rx.sample == 15 || (rx.sample >= 8 && !line))
  }

  /** Inside a frame each tick counts one further and keeps the bits right. */
  lemma CountsOneTick(rx: R.Rx, line: bool, cur: Byte)
    requires Busy(rx) && Collected(rx, cur) && !Leaves(rx, line)
    requires rx.phase == R.Data && rx.sample == 8 ==> line == cur[rx.bitpos]
    ensures var n := R.Next(rx, true, true, line);
            Busy(n) && Collected(n, cur) && Ticks(n) == Ticks(rx) + 1
  {
  }

  /** Leaving the stop state announces exactly the byte that was sent. */
  lemma LeavesWithByte(rx: R.Rx, line: bool, cur: Byte)
    requires Busy(rx) && Collected(rx, cur) && Leaves(rx, line)
    ensures var n := R.Next(rx, true, true, line);
            Waiting(n) && R.Announces(rx, n) && n.data == cur
  {
    assert rx.scratch == cur;
  }

  // ---- Each situation leads to one of the five

  lemma QuietStep(r: Rate, s: Link, w: Write)
    requires r.Recoverable() && Inv(r, s) && Quiet(r, s)
    ensures Inv(r, Clock(r, s, w))
  {
  }

  lemma FallingStep(r: Rate, s: Link, w: Write)
    requires r.Recoverable() && Inv(r, s) && Falling(r, s)
    ensures Inv(r, Clock(r, s, w))
  {
    var c := Clock(r, s, w);
    assert s.txAcc != 0;
    if s.rxAcc == 0 {
      assert Span(1, r.rx) == r.rx;
      assert Framed(r, c);
    } else {
      assert Falling(r, c);
    }
  }

  /** Inside a frame the receiver moves one clock on and announces nothing. */
  lemma FramedReceiver(r: Rate, s: Link, w: Write)
    requires r.Recoverable() && Inv(r, s) && Framed(r, s)
    ensures var c := Clock(r, s, w);
            && Busy(c.rx) && Collected(c.rx, s.tx.data) && c.received == s.received
            && Span(Ticks(c.rx), r.rx) + Age(c.rxAcc, r.rx) == Span(Ticks(s.rx), r.rx) + Age(s.rxAcc, r.rx) + 1
            && (if s.rxAcc == 0 then Ticks(c.rx) == Ticks(s.rx) + 1 else c.rx == s.rx)
  {
    if s.rxAcc == 0 {
      FramedTick(r, s);
      CountsOneTick(s.rx, s.tx.txd, s.tx.data);
      assert Span(Ticks(s.rx) + 1, r.rx) == Span(Ticks(s.rx), r.rx) + r.rx;
    }
  }

  lemma FramedStep(r: Rate, s: Link, w: Write)
    requires r.Recoverable() && Inv(r, s) && Framed(r, s)
    ensures Inv(r, Clock(r, s, w))
  {
    FramedReceiver(r, s, w);
    if s.txAcc == 0 && s.tx.phase == T.Stop {
      FrameEnds(r, s, w);
    } else {
      assert Span(Slot(s.tx) + 1, r.tx) == Span(Slot(s.tx), r.tx) + r.tx;
      assert Framed(r, Clock(r, s, w));
    }
  }

  /** The stop bit begins: all eight bits have been collected by now. */
  lemma FrameEnds(r: Rate, s: Link, w: Write)
    requires r.Recoverable() && Inv(r, s) && Framed(r, s) && s.txAcc == 0 && s.tx.phase == T.Stop
    requires var c := Clock(r, s, w);
             && Busy(c.rx) && Collected(c.rx, s.tx.data) && c.received == s.received
             && Span(Ticks(c.rx), r.rx) + Age(c.rxAcc, r.rx) == Span(Ticks(s.rx), r.rx) + Age(s.rxAcc, r.rx) + 1
             && (if s.rxAcc == 0 then Ticks(c.rx) == Ticks(s.rx) + 1 else c.rx == s.rx)
    ensures Trailing(r, Clock(r, s, w))
  {
    assert Span(9, r.tx) == Span(8, r.tx) + r.tx;
    StopBitBegins(r, Ticks(s.rx), Age(s.rxAcc, r.rx));
  }

  /** At a receive tick inside the frame, the line shows what the receiver needs. */
  lemma FramedTick(r: Rate, s: Link)
    requires r.Recoverable() && Inv(r, s) && Framed(r, s) && s.rxAcc == 0
    ensures !Leaves(s.rx, s.tx.txd)
    ensures s.rx.phase == R.Data && s.rx.sample == 8 ==> s.tx.txd == s.tx.data[s.rx.bitpos]
  {
    var slot, n := Slot(s.tx), Ticks(s.rx);
    if s.rx.phase == R.Stop && s.rx.sample >= 8 {
      SpanIsProduct(152, r.rx);
      SpanGrows(152, n, r.rx);
      SpanIsProduct(8, r.tx);
      SpanGrows(slot, 8, r.tx);
      assert false;
    }
    if s.rx.phase == R.Data && s.rx.sample == 8 {
      SampleFallsInSlot(r, slot, Age(s.txAcc, r.tx), s.rx.bitpos, Offset(r, s));
    }
  }

  /** When the stop bit begins, the tick that samples the last bit has happened or is due now. */
  lemma StopBitBegins(r: Rate, n: nat, age: nat)
    requires r.Recoverable() && age <= r.rx
    requires Span(9, r.tx) <= Span(n, r.rx) + r.rx + age
    ensures n > 136 || (n == 136 && age == r.rx)
  {
    SpanIsProduct(9, r.tx);
    SpanIsProduct(136, r.rx);
    if n < 136 {
      SpanGrows(n + 1, 136, r.rx);
    }
  }

  lemma TrailingStep(r: Rate, s: Link, w: Write)
    requires r.Recoverable() && Inv(r, s) && Trailing(r, s)
    ensures Inv(r, Clock(r, s, w))
  {
    var c := Clock(r, s, w);
    var cur := s.accepted[|s.received|];
    if s.rxAcc == 0 {
      if Leaves(s.rx, true) {
        LeavesWithByte(s.rx, true, cur);
      } else {
        CountsOneTick(s.rx, true, cur);
      }
    }
    if s.txAcc == 0 && s.tx.phase == T.Start {
      NextStartBit(r, Ticks(s.rx), Age(s.rxAcc, r.rx));
      if s.rxAcc == 0 && Leaves(s.rx, true) {
        assert Falling(r, c);
      } else {
        assert Overlapped(r, c);
      }
    } else if s.rxAcc == 0 && Leaves(s.rx, true) {
      assert Quiet(r, c);
    } else {
      assert Trailing(r, c);
    }
  }

  /** By the earliest next start bit the receiver is past the middle of its stop state. */
  lemma NextStartBit(r: Rate, n: nat, age: nat)
    requires r.Recoverable() && age <= r.rx
    requires Span(9, r.tx) + r.tx <= Span(n, r.rx) + r.rx + age
    ensures n > 151 || (n == 151 && age == r.rx)
  {
    SpanIsProduct(9, r.tx);
    SpanIsProduct(151, r.rx);
    if n < 151 {
      SpanGrows(n + 1, 151, r.rx);
    }
  }

  lemma OverlappedStep(r: Rate, s: Link, w: Write)
    requires r.Recoverable() && Inv(r, s) && Overlapped(r, s)
    ensures Inv(r, Clock(r, s, w))
  {
    var c := Clock(r, s, w);
    assert s.txAcc != 0;
    if s.rxAcc == 0 {
      LeavesWithByte(s.rx, false, s.accepted[|s.received|]);
      assert Falling(r, c);
    } else {
      assert Overlapped(r, c);
    }
  }

  /** No clock edge, whatever is written, takes the link out of its five situations. */
  lemma StepKeepsInv(r: Rate, s: Link, w: Write)
    requires r.Recoverable() && Inv(r, s)
    ensures Inv(r, Clock(r, s, w))
  {
    if Quiet(r, s) {
      QuietStep(r, s, w);
    } else if Falling(r, s) {
      FallingStep(r, s, w);
    } else if Framed(r, s) {
      FramedStep(r, s, w);
    } else if Trailing(r, s) {
      TrailingStep(r, s, w);
    } else {
      OverlappedStep(r, s, w);
    }
  }

  lemma {:induction false} RunKeepsInv(r: Rate, s: Link, ws: seq<Write>)
    requires r.Recoverable() && Inv(r, s)
    ensures Inv(r, Run(r, s, ws))
    decreases |ws|
  {
    if ws != [] {
      RunKeepsInv(r, s, ws[..|ws| - 1]);
      StepKeepsInv(r, Run(r, s, ws[..|ws| - 1]), ws[|ws| - 1]);
    }
  }

  /** The bytes offered while the transmitter was not busy, in order. */
  function Offered(r: Rate, s: Link, ws: seq<Write>): seq<Byte>
    decreases |ws|
  {
    if ws == [] then []
    else
      var before, w := Offered(r, s, ws[..|ws| - 1]), ws[|ws| - 1];
      if w.en && Run(r, s, ws[..|ws| - 1]).tx.phase == T.Idle then before + [w.din] else before
  }

  lemma {:induction false} AcceptedAreOffered(r: Rate, s: Link, ws: seq<Write>)
    ensures Run(r, s, ws).accepted == s.accepted + Offered(r, s, ws)
    decreases |ws|
  {
    if ws != [] {
      AcceptedAreOffered(r, s, ws[..|ws| - 1]);
    }
  }

  /**
   Stream recovery: from any phases of the two tick trains, after any number of clocks and
   whatever is written when, the announced bytes are the bytes offered to an idle transmitter, in
   order, at most two of them still on their way; while a frame is being received the first counted
   low tick lies less than two receive ticks behind the start edge.
   */
  lemma StreamRecovered(r: Rate, start: Link, ws: seq<Write>)
    requires r.Recoverable() && AtRest(r, start)
    ensures var e := Run(r, start, ws);
            && e.received <= Offered(r, start, ws)
            && |Offered(r, start, ws)| <= |e.received| + 2
            && (Busy(e.rx) && Sending(e.tx) && InFlight(e, 1) ==> 1 <= Offset(r, e) <= 2 * r.rx)
  {
    assert Quiet(r, start);
    RunKeepsInv(r, start, ws);
    AcceptedAreOffered(r, start, ws);
    var e := Run(r, start, ws);
    assert e.accepted == Offered(r, start, ws);
    if Quiet(r, e) {
    } else if Falling(r, e) {
    } else if Framed(r, e) {
    } else if Trailing(r, e) {
    } else {
      assert Overlapped(r, e);
    }
  }

  /** With `rdy_clr` high a byte is announced for one receive tick: `rdy` falls at the first tick after it rose. */
  lemma ReadyLastsOneTick(r: Rate, start: Link, ws: seq<Write>, w: Write)
    requires r.Recoverable() && AtRest(r, start) && Run(r, start, ws).rx.rdy
    ensures var m, c := Run(r, start, ws), Clock(r, Run(r, start, ws), w);
            c.rx.rdy == (m.rxAcc != 0) && c.rx.data == m.rx.data
  {
    assert Quiet(r, start);
    RunKeepsInv(r, start, ws);
  }
}
