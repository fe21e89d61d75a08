/** The driver's polling receiver `receive_data` and the GPIO word it reads. */
module FrameReceiver {
  import opened FrameSender

  const DATA_LEN_MAX := 4000
  const TIMEOUT := 200

  /** What one read of the input register shows. */
  datatype Line = Line(clk: bool, data: Octet)

  // ---- The GPIO word

  /** GPIO 22. */
  function Clk(word: nat): bool {
    (word / 0x40_0000) % 2 == 1
  }

  /** `Gpio2Data`: bit 0 becomes bit 7, the eight bits from 11 on are added below it, in a byte. */
  function Gpio2Data(word: nat): Octet {
    ((word % 2) * 128 + (word / 2048) % 256) % 256
  }

  function LineOf(word: nat): Line {
    Line(Clk(word), Gpio2Data(word))
  }

  /** The board's wiring: bit 7 of the data on GPIO 0, bits 0 to 6 on GPIO 11 to 17. */
  function Wired(clk: bool, b: Octet): nat {
    b / 128 + 2048 * (b % 128) + (if clk then 0x40_0000 else 0)
  }

  lemma WiringSplits(clk: bool, b: Octet, low: nat)
    requires low < 1024
    ensures var w := Wired(clk, b) + 2 * low;
            w % 2 == b / 128 && w / 2048 == b % 128 + (if clk then 2048 else 0)
  {
    var rest := b / 128 + 2 * low;
    assert Wired(clk, b) + 2 * low == rest + 2048 * (b % 128 + (if clk then 2048 else 0));
  }

  /** With GPIO 18 low and any level on the unused GPIO 1 to 10, the word decodes to what was wired. */
  lemma WiringDecodes(clk: bool, b: Octet, low: nat)
    requires low < 1024
    ensures LineOf(Wired(clk, b) + 2 * low) == Line(clk, b)
  {
    WiringSplits(clk, b, low);
    TwoShifts(Wired(clk, b) + 2 * low);
  }

  lemma TwoShifts(w: nat)
    ensures w / 0x40_0000 == (w / 2048) / 2048
  {
  }

  // ---- The receiver as a machine, one operation at a time

  datatype Pc = Armed | Entry | Header | Polling | Done

  /** `ack` is the level of the acknowledge line, `toggles` how often it was flipped in this call. */
  datatype Driver = Driver(pc: Pc, word: Line, clkBit: bool, timer: nat, kind: Octet, data: seq<Octet>,
                           ack: bool, toggles: nat)

  /** The next operation reads the input register. */
  predicate Reads(d: Driver) {
    d.pc == Entry || (d.pc == Polling && d.word.clk == d.clkBit && d.timer < TIMEOUT)
  }

  function Next(d: Driver, line: Line): Driver {
    match d.pc
    case Armed => if line.clk then d.(pc := Entry) else d
    case Entry => d.(pc := Header, word := line)
    case Header =>
      d.(pc := Polling, clkBit := d.word.clk, ack := !d.ack, toggles := d.toggles + 1, kind := d.word.data, timer := 0)
    case Polling =>
      if Reads(d) then d.(word := line, timer := d.timer + 1)
      else
        var t := d.(clkBit := d.word.clk, ack := !d.ack, toggles := d.toggles + 1);
        if d.timer == TIMEOUT then t.(pc := Done)
        else
          var u := t.(data := d.data + [d.word.data]);
          if |u.data| >= DATA_LEN_MAX then u.(pc := Done) else u.(timer := 0)
    case Done => d
  }

  predicate Bounded(d: Driver) {
    |d.data| <= DATA_LEN_MAX && d.timer <= TIMEOUT && (d.pc != Done ==> |d.data| < DATA_LEN_MAX)
  }

  /** An upper bound on the operations left, and on the reads among them. */
  function Budget(d: Driver): nat
    requires Bounded(d)
  {
    match d.pc
    case Armed => 3 + 201 * DATA_LEN_MAX
    case Entry => 2 + 201 * DATA_LEN_MAX
    case Header => 1 + 201 * DATA_LEN_MAX
    case Polling => 201 * (DATA_LEN_MAX - |d.data|) - d.timer
    case Done => 0
  }

  function ReadsLeft(d: Driver): nat
    requires Bounded(d)
  {
    match d.pc
    case Entry => 1 + TIMEOUT * DATA_LEN_MAX
    case Armed => 1 + TIMEOUT * DATA_LEN_MAX
    case Header => TIMEOUT * DATA_LEN_MAX
    case Polling => TIMEOUT * (DATA_LEN_MAX - |d.data|) - d.timer
    case Done => 0
  }

  lemma OperationShrinksBudget(d: Driver, line: Line)
    requires Bounded(d) && d.pc != Armed && d.pc != Done
    ensures var t := Next(d, line);
            && Bounded(t) && Budget(t) < Budget(d)
            && ReadsLeft(t) + (if Reads(d) then 1 else 0) <= ReadsLeft(d)
            && t.pc != Armed
  {
  }

  /** The whole call, with the register showing `shown` one after the other. */
  function Finish(d: Driver, shown: seq<Line>): (t: Driver)
    requires Bounded(d) && d.pc != Armed && |shown| >= ReadsLeft(d)
    ensures Bounded(t) && t.pc == Done
    decreases Budget(d)
  {
    if d.pc == Done then d
    else if Reads(d) then
      OperationShrinksBudget(d, shown[0]);
      Finish(Next(d, shown[0]), shown[1..])
    else
      OperationShrinksBudget(d, d.word);
      Finish(Next(d, d.word), shown)
  }

  /** Acknowledge toggles so far, in every state of a call. */
  predicate TogglesCounted(d: Driver) {
    match d.pc
    case Polling => d.toggles == |d.data| + 1
    case Done => d.toggles == if |d.data| == DATA_LEN_MAX then DATA_LEN_MAX + 1 else |d.data| + 2
    case _ => d.toggles == 0 && d.data == []
  }

  lemma OperationCountsToggles(d: Driver, line: Line)
    requires Bounded(d) && TogglesCounted(d)
    ensures TogglesCounted(Next(d, line))
  {
  }

  /**
   The call acknowledges once for the header, once for each byte and once for the time-out; a
   frame cut off at 4000 bytes goes without the last.
   */
  lemma {:induction false} FinishCountsToggles(d: Driver, shown: seq<Line>)
    requires Bounded(d) && d.pc != Armed && |shown| >= ReadsLeft(d) && TogglesCounted(d)
    ensures TogglesCounted(Finish(d, shown))
    decreases Budget(d)
  {
    if d.pc != Done {
      var line := if Reads(d) then shown[0] else d.word;
      OperationCountsToggles(d, line);
      OperationShrinksBudget(d, line);
      FinishCountsToggles(Next(d, line), if Reads(d) then shown[1..] else shown);
    }
  }

  function Called(ack: bool): Driver {
    Driver(Entry, Line(false, 0), false, 0, 0, [], ack, 0)
  }

  function LinesOf(words: seq<nat>): (lines: seq<Line>)
    ensures |lines| == |words| && forall i :: 0 <= i < |words| ==> lines[i] == LineOf(words[i])
  {
    seq(|words|, i requires 0 <= i < |words| => LineOf(words[i]))
  }

  ghost predicate Finishing(d: Driver, shown: seq<Line>, whole: Driver) {
    Bounded(d) && d.pc != Armed && |shown| >= ReadsLeft(d) && Finish(d, shown) == whole
  }

  /** One read brings the machine one line further along. */
  lemma ReadsOn(d: Driver, lines: seq<Line>, used: nat, whole: Driver)
    requires used <= |lines| && Finishing(d, lines[used..], whole) && Reads(d)
    ensures used < |lines| && Finishing(Next(d, lines[used]), lines[used + 1..], whole)
    ensures ReadsLeft(Next(d, lines[used])) < ReadsLeft(d)
  {
    OperationShrinksBudget(d, lines[used]);
    assert lines[used..][1..] == lines[used + 1..];
  }

  /** Any other operation leaves the lines alone. */
  lemma ActsOn(d: Driver, shown: seq<Line>, whole: Driver)
    requires Finishing(d, shown, whole) && !Reads(d) && d.pc != Done
    ensures Finishing(Next(d, d.word), shown, whole)
    ensures ReadsLeft(Next(d, d.word)) <= ReadsLeft(d)
  {
    OperationShrinksBudget(d, d.word);
  }

  /** The machine's registers are the program's variables. */
  ghost predicate Mirrors(d: Driver, temp: nat, clkBit: bool, kind: Octet, data: seq<Octet>, toggles: nat) {
    && d.word == LineOf(temp) && d.clkBit == clkBit
    && d.kind == kind && d.data == data && d.toggles == toggles
  }

  /** The inner loop: read until the clock line moves or 200 reads have passed. */
  method WaitForClock(words: seq<nat>, temp0: nat, clkBit: bool, used0: nat, ghost d0: Driver, ghost whole: Driver)
    returns (temp: nat, timer: nat, used: nat, ghost d: Driver)
    requires used0 <= |words| && d0.pc == Polling && d0.timer == 0
    requires d0.word == LineOf(temp0) && d0.clkBit == clkBit
    requires Finishing(d0, LinesOf(words)[used0..], whole)
    ensures used == used0 + timer <= |words| && timer <= 200
    ensures Clk(temp) != clkBit || timer == 200
    ensures d == d0.(word := LineOf(temp), timer := timer)
    ensures Finishing(d, LinesOf(words)[used..], whole) && ReadsLeft(d) + timer <= ReadsLeft(d0)
  {
    ghost var lines := LinesOf(words);
    temp, timer, used, d := temp0, 0, used0, d0;
    while Clk(temp) == clkBit && timer < TIMEOUT
      invariant used == used0 + timer <= |words| && timer <= TIMEOUT
      invariant d == d0.(word := LineOf(temp), timer := timer)
      invariant Finishing(d, lines[used..], whole) && ReadsLeft(d) + timer <= ReadsLeft(d0)
      decreases TIMEOUT - timer
    {
      ReadsOn(d, lines, used, whole);
      temp := words[used];
      d := Next(d, lines[used]);
      used := used + 1;
      timer := timer + 1;
    }
  }

  /**
   `receive_data` on a register that shows `words` read after read: it always returns, within
   4000 * 200 + 1 reads, fills `data` from the front, and toggles the acknowledge line as counted.
   */
  method ReceiveData(words: seq<nat>, data: array<Octet>, ghost ack: bool)
    returns (kind: Octet, len: nat, toggles: nat, used: nat)
    requires data.Length == 4000 && |words| > 200 * 4000
    modifies data
    ensures len <= 4000 && used <= 200 * 4000 + 1
    ensures toggles == if len == 4000 then 4001 else len + 2
    ensures var f := Finish(Called(ack), LinesOf(words));
            f.kind == kind && f.data == data[..len] && f.toggles == toggles
  {
    ghost var lines := LinesOf(words);
    ghost var d := Called(ack);
    ghost var whole := Finish(d, lines);
    FinishCountsToggles(d, lines);

    var temp := words[0];
    used := 1;
    assert lines[0..] == lines;
    ReadsOn(d, lines, 0, whole);
    d := Next(d, lines[0]);
    var clkBit := Clk(temp);
    toggles := 1;
    kind := Gpio2Data(temp);
    ActsOn(d, lines[used..], whole);
    d := Next(d, d.word);
    len := 0;
    var timer := 0;
    var running := true;
    while running
      invariant used <= |words| && len <= DATA_LEN_MAX && Bounded(d)
      invariant running ==> d.pc == Polling && d.timer == 0
      invariant !running ==> d.pc == Done
      invariant Finishing(d, lines[used..], whole) && used + ReadsLeft(d) <= TIMEOUT * DATA_LEN_MAX + 1
      invariant Mirrors(d, temp, clkBit, kind, data[..len], toggles)
      decreases DATA_LEN_MAX - len, running
    {
      temp, timer, used, d := WaitForClock(words, temp, clkBit, used, d, whole);
      clkBit := Clk(temp);
      toggles := toggles + 1;
      ActsOn(d, lines[used..], whole);
      d := Next(d, d.word);
      if timer == TIMEOUT {
        running := false;
      } else {
        data[len] := Gpio2Data(temp);
        len := len + 1;
        if len >= DATA_LEN_MAX {
          running := false;
        }
      }
    }
  }
}
