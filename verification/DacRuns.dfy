/** What the refresh shows over whole runs, told from its inputs and pins alone. */
module DacRuns {
  import opened Bits
  import opened SpiOut
  import opened DacPolling
  import P = DacPolling

  // ---- The multiplexer's position

  /** The selected channel stays from the selection to the next idle clock; otherwise none is selected. */
  predicate PosOk(poll: Poll, shown: seq<Selection>) {
    match poll.phase
    case PollEnd => shown != [] && poll.pos == shown[|shown| - 1].pos
    case PollIdle => poll.pos == 7 || shown == [] || poll.pos == shown[|shown| - 1].pos
    case _ => poll.pos == 7
  }

  lemma PosStays(s: System, i: Input)
    requires P.Inv(s) && PosOk(s.poll, s.shown)
    ensures PosOk(P.Step(s, i).poll, P.Step(s, i).shown)
  {
  }

  /** The frame line is low only while a word is shifted out, once the serialiser has seen an edge. */
  predicate LineOk(spi: Spi, edges: bool) {
    edges && !spi.syncN ==> spi.phase == Send || spi.phase == SendN
  }

  predicate SomeEdge(ins: seq<Input>) {
    exists k :: 0 <= k < |ins| && ins[k].edge
  }

  lemma LineStays(s: System, i: Input, ins: seq<Input>)
    requires P.Inv(s) && LineOk(s.spi, SomeEdge(ins))
    ensures LineOk(P.Step(s, i).spi, SomeEdge(ins + [i]))
  {
    if !i.edge && SomeEdge(ins + [i]) {
      var k :| 0 <= k < |ins + [i]| && (ins + [i])[k].edge;
      assert ins[k].edge;
    }
  }

  lemma {:induction false} RunKeepsLines(start: System, ins: seq<Input>)
    requires PowerOn(start)
    ensures P.Inv(P.Run(start, ins))
    ensures PosOk(P.Run(start, ins).poll, P.Run(start, ins).shown) && LineOk(P.Run(start, ins).spi, SomeEdge(ins))
    decreases |ins|
  {
    P.RunKeepsInv(start, ins);
    if ins != [] {
      var init, i := ins[..|ins| - 1], ins[|ins| - 1];
      RunKeepsLines(start, init);
      PosStays(P.Run(start, init), i);
      LineStays(P.Run(start, init), i, init);
      assert init + [i] == ins;
    }
  }

  /**
   While a word is shifted out the multiplexer shows the spare position 7; from a selection to the
   next idle clock it shows the channel just selected.
   */
  lemma NoChannelDuringTransfer(start: System, ins: seq<Input>, i: Input)
    requires PowerOn(start)
    ensures var e := P.Run(start, ins);
            && (!e.spi.syncN && SomeEdge(ins) ==> e.poll.pos == 7)
            && (e.poll.phase == PollEnd ==>
                  && e.shown != [] && e.poll.pos == e.shown[|e.shown| - 1].pos
                  && P.Step(e, i).poll.pos == e.poll.pos)
  {
    RunKeepsLines(start, ins);
  }

  /** While it is not enabled the controller shows position 7 and starts no conversion. */
  lemma {:induction false} DisabledStaysIdle(start: System, ins: seq<Input>)
    requires PowerOn(start) && forall i :: 0 <= i < |ins| ==> !ins[i].en
    ensures var e := P.Run(start, ins);
            && e.poll.phase == PollIdle && !e.poll.spiEn && e.spi.phase == Idle && e.shown == []
            && (ins != [] ==> e.poll.pos == 7)
    decreases |ins|
  {
    if ins != [] {
      DisabledStaysIdle(start, ins[..|ins| - 1]);
      assert !ins[|ins| - 1].en;
    }
  }

  // ---- The words in terms of the inputs

  /** Between selections `j - 1` and `j` there was a clock whose input for channel `j` is this value. */
  ghost predicate WasInput(start: System, ins: seq<Input>, j: nat, value: Bits12) {
    exists k :: 0 <= k < |ins| && |P.Run(start, ins[..k]).shown| == j && value == ins[k].dataIn[j % 8]
  }

  lemma WasInputExtends(start: System, ins: seq<Input>, j: nat, value: Bits12)
    requires ins != [] && WasInput(start, ins[..|ins| - 1], j, value)
    ensures WasInput(start, ins, j, value)
  {
    var init := ins[..|ins| - 1];
    var k :| 0 <= k < |init| && |P.Run(start, init[..k]).shown| == j && value == init[k].dataIn[j % 8];
    assert init[..k] == ins[..k];
  }

  /** Every selection but the first. */
  ghost predicate WordsWere(start: System, ins: seq<Input>, shown: seq<Selection>) {
    forall j :: 1 <= j < |shown| ==> WasInput(start, ins, j, shown[j].sample.value)
  }

  /** The sample held for the next one. */
  ghost predicate SampleWas(start: System, ins: seq<Input>, s: System) {
    s.shown != [] && s.poll.phase != PollEnd ==> WasInput(start, ins, |s.shown|, s.sample.value)
  }

  lemma ShownGrows(s: System, i: Input)
    ensures var t := P.Step(s, i);
            if s.poll.phase == PollCount
            then |t.shown| == |s.shown| + 1 && t.shown[..|s.shown|] == s.shown
                 && t.shown[|s.shown|].sample == s.sample && t.poll.phase == PollEnd
            else t.shown == s.shown
  {
  }

  lemma WordsStay(start: System, ins: seq<Input>, m: System, e: System)
    requires ins != [] && m == P.Run(start, ins[..|ins| - 1]) && e == P.Step(m, ins[|ins| - 1])
    requires WordsWere(start, ins[..|ins| - 1], m.shown) && SampleWas(start, ins[..|ins| - 1], m)
    ensures WordsWere(start, ins, e.shown)
  {
    ShownGrows(m, ins[|ins| - 1]);
    forall j | 1 <= j < |e.shown|
      ensures WasInput(start, ins, j, e.shown[j].sample.value)
    {
      if j < |m.shown| {
        assert e.shown[j] == e.shown[..|m.shown|][j];
      }
      WasInputExtends(start, ins, j, e.shown[j].sample.value);
    }
  }

  lemma SampleStays(start: System, ins: seq<Input>, m: System, e: System)
    requires ins != [] && m == P.Run(start, ins[..|ins| - 1]) && e == P.Step(m, ins[|ins| - 1])
    requires SampleWas(start, ins[..|ins| - 1], m) && m.poll.counter == |m.shown| % 8
    ensures SampleWas(start, ins, e)
  {
    ShownGrows(m, ins[|ins| - 1]);
    if e.shown != [] && e.poll.phase != PollEnd {
      if m.poll.phase == PollEnd {
        assert e.sample.value == ins[|ins| - 1].dataIn[|e.shown| % 8];
      } else {
        WasInputExtends(start, ins, |e.shown|, e.sample.value);
      }
    }
  }

  lemma {:induction false} RunIsFromInputs(start: System, ins: seq<Input>)
    requires PowerOn(start)
    ensures WordsWere(start, ins, P.Run(start, ins).shown) && SampleWas(start, ins, P.Run(start, ins))
    decreases |ins|
  {
    if ins != [] {
      var m, e := P.Run(start, ins[..|ins| - 1]), P.Run(start, ins);
      RunIsFromInputs(start, ins[..|ins| - 1]);
      P.RunKeepsInv(start, ins[..|ins| - 1]);
      WordsStay(start, ins, m, e);
      SampleStays(start, ins, m, e);
    }
  }

  /**
   The word the DAC holds when channel `j` modulo 8 is selected is four zeros and a value that stood
   at that channel's input after the selection before.
   */
  lemma WordsAreInputs(start: System, ins: seq<Input>, j: nat)
    requires PowerOn(start) && 1 <= j < |P.Run(start, ins).shown|
    ensures exists value: Bits12 ::
              Shows(P.Run(start, ins).shown[j].word, value) && WasInput(start, ins, j, value)
  {
    ChannelsMatchWords(start, ins, j);
    RunIsFromInputs(start, ins);
    var sel := P.Run(start, ins).shown[j];
    assert Shows(sel.word, sel.sample.value);
  }
}
