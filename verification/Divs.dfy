/** The clock dividers. */
module Divs {
  /** A divider's counter and its output level. */
  datatype Divider = Divider(cnt: nat, level: bool)

  /** `Div_c`: the output flips when the counter has reached the step. */
  function Next(d: Divider, step: nat): Divider {
    if d.cnt >= step then Divider(0, !d.level) else Divider(d.cnt + 1, d.level)
  }

  /** `Div` with an even ratio `n` is the same divider with a fixed step. */
  function StepOf(n: nat): nat
    requires n >= 2
  {
    n / 2 - 1
  }

  predicate Rises(d: Divider, step: nat) {
    d.cnt >= step && !d.level
  }

  /** Rising edges in a run at a constant step. */
  function Edges(d: Divider, step: nat, clocks: nat): nat
    decreases clocks
  {
    if clocks == 0 then 0 else (if Rises(d, step) then 1 else 0) + Edges(Next(d, step), step, clocks - 1)
  }

  /** Clocks until the next rising edge at a constant step, that clock included. */
  function UntilRise(d: Divider, step: nat): nat {
    var flip := if d.cnt >= step then 1 else step - d.cnt + 1;
    if d.level then flip + step + 1 else flip
  }

  lemma UntilRiseCountsDown(d: Divider, step: nat)
    ensures Rises(d, step) <==> !d.level && Next(d, step).level
    ensures Rises(d, step) <==> UntilRise(d, step) == 1
    ensures UntilRise(Next(d, step), step) == if Rises(d, step) then 2 * (step + 1) else UntilRise(d, step) - 1
  {
  }

  /** The output rises exactly once in any period of `2 * (step + 1)` clocks, whatever the phase. */
  lemma {:induction false} OneEdgePerPeriod(d: Divider, step: nat, clocks: nat)
    requires clocks <= 2 * (step + 1) && d.cnt <= step
    ensures Edges(d, step, clocks) == if UntilRise(d, step) <= clocks then 1 else 0
    decreases clocks
  {
    if clocks > 0 {
      UntilRiseCountsDown(d, step);
      if Rises(d, step) {
        NoEdgeBefore(Next(d, step), step, clocks - 1);
      } else {
        OneEdgePerPeriod(Next(d, step), step, clocks - 1);
      }
    }
  }

  lemma {:induction false} NoEdgeBefore(d: Divider, step: nat, clocks: nat)
    requires clocks < UntilRise(d, step)
    ensures Edges(d, step, clocks) == 0
    decreases clocks
  {
    if clocks > 0 {
      UntilRiseCountsDown(d, step);
      NoEdgeBefore(Next(d, step), step, clocks - 1);
    }
  }

  /** The serial clock of the DAC has a period of 14 core clocks. */
  lemma SerialClockPeriod(d: Divider)
    requires d.cnt <= StepOf(14)
    ensures Edges(d, StepOf(14), 14) == 1
  {
    OneEdgePerPeriod(d, StepOf(14), 14);
  }

  class ClockDivider {
    var cnt: nat
    var clkDiv: bool

    function Registers(): Divider
      reads this
    {
      Divider(cnt, clkDiv)
    }

    constructor (level: bool)
      ensures Registers() == Divider(0, level)
    {
      cnt, clkDiv := 0, level;
    }

    method Clock(step: nat) returns (rose: bool)
      modifies this
      ensures Registers() == Next(old(Registers()), step)
      ensures rose == Rises(old(Registers()), step)
    {
      rose := false;
      if cnt >= step {
        rose := !clkDiv;
        clkDiv := !clkDiv;
        cnt := 0;
      } else {
        cnt := cnt + 1;
      }
    }
  }
}
