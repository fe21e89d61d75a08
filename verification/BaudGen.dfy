/** The tick generator UART_BAUD_GEN and the rates it computes. */
module BaudGen {
  import opened SerialLink

  const CLK_INPUT := 25000000
  const UART_BAUD := 115200
  const RX_ACC_MAX := CLK_INPUT / (UART_BAUD * 16)
  const TX_ACC_MAX := CLK_INPUT / UART_BAUD

  /** Each counter runs from 0 up to and including its maximum, so a period is one longer. */
  const BOARD_RATE := Rate(RX_ACC_MAX + 1, TX_ACC_MAX + 1)

  /**
   The generator divides 25 MHz into 14 clocks per receive tick and 218 per bit: sixteen ticks
   last 224 clocks, six more than the bit they measure, and the drift is still recoverable.
   */
  lemma BoardRateIsRecoverable()
    ensures BOARD_RATE == Rate(14, 218)
    ensures 16 * BOARD_RATE.rx == BOARD_RATE.tx + 6
    ensures BOARD_RATE.Recoverable()
  {
  }

  /** The clocks in which a counter shows its tick. */
  function Ticks(acc: nat, period: nat, clocks: nat): nat
    decreases clocks
  {
    if clocks == 0 then 0 else (if acc == 0 then 1 else 0) + Ticks(Wrap(acc, period), period, clocks - 1)
  }

  lemma {:induction false} OneTickPerPeriod(acc: nat, period: nat, clocks: nat)
    requires acc < period && clocks <= period
    ensures Ticks(acc, period, clocks) == if (if acc == 0 then 0 else period - acc) < clocks then 1 else 0
    decreases clocks
  {
    if clocks > 0 {
      OneTickPerPeriod(Wrap(acc, period), period, clocks - 1);
    }
  }

  /** Any period holds exactly one tick, from any phase. */
  lemma TicksArePeriodic(acc: nat, period: nat)
    requires acc < period
    ensures Ticks(acc, period, period) == 1
  {
    OneTickPerPeriod(acc, period, period);
  }

  /** The tick outputs are high for one clock in every `rx + 1` and `tx + 1`. */
  class Generator {
    var rxAcc: nat
    var txAcc: nat

    predicate Valid()
      reads this
    {
      rxAcc <= RX_ACC_MAX && txAcc <= TX_ACC_MAX
    }

    predicate RxEn()
      reads this
    {
      rxAcc == 0
    }

    predicate TxEn()
      reads this
    {
      txAcc == 0
    }

    constructor ()
      ensures Valid() && RxEn() && TxEn()
    {
      rxAcc, txAcc := 0, 0;
    }

    method Clock()
      requires Valid()
      modifies this
      ensures Valid()
      ensures rxAcc == Wrap(old(rxAcc), BOARD_RATE.rx)
      ensures txAcc == Wrap(old(txAcc), BOARD_RATE.tx)
      ensures RxEn() == (Wrap(old(rxAcc), 14) == 0) && TxEn() == (Wrap(old(txAcc), 218) == 0)
    {
      if rxAcc == RX_ACC_MAX {
        rxAcc := 0;
      } else {
        rxAcc := rxAcc + 1;
      }
      if txAcc == TX_ACC_MAX {
        txAcc := 0;
      } else {
        txAcc := txAcc + 1;
      }
    }
  }
}
