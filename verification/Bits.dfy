/** Bit vectors as the hardware sources use them: index i of a sequence is bit i. */
module Bits {
  type Bits = seq<bool>

  type Byte = b: Bits | |b| == 8
    witness [false, false, false, false, false, false, false, false]

  type Bits12 = b: Bits | |b| == 12 witness seq(12, _ => false)

  /** A three-bit and a four-bit register. */
  type Reg3 = n: nat | n < 8
  type Reg4 = n: nat | n < 16

  const ZERO_BYTE: Byte := [false, false, false, false, false, false, false, false]

  predicate AllOnes(b: Bits) {
    forall i :: 0 <= i < |b| ==> b[i]
  }

  predicate AllZeros(b: Bits) {
    forall i :: 0 <= i < |b| ==> !b[i]
  }

  function Bit(b: bool): nat {
    if b then 1 else 0
  }

  /** The unsigned value of a bit vector. */
  function Unsigned(b: Bits): nat {
    if b == [] then 0 else Bit(b[0]) + 2 * Unsigned(b[1..])
  }

  lemma {:induction false} UnsignedBound(b: Bits, size: nat)
    requires size == Power2(|b|)
    ensures Unsigned(b) < size
    ensures AllOnes(b) <==> Unsigned(b) == size - 1
    ensures AllZeros(b) <==> Unsigned(b) == 0
  {
    if b != [] {
      UnsignedBound(b[1..], size / 2);
      assert AllOnes(b) <==> b[0] && AllOnes(b[1..]) by { HeadAndTail(b); }
      assert AllZeros(b) <==> !b[0] && AllZeros(b[1..]) by { HeadAndTail(b); }
    }
  }

  lemma HeadAndTail(b: Bits)
    requires b != []
    ensures AllOnes(b) <==> b[0] && AllOnes(b[1..])
    ensures AllZeros(b) <==> !b[0] && AllZeros(b[1..])
  {
    assert forall i :: 0 < i < |b| ==> b[i] == b[1..][i - 1];
    assert forall i :: 0 <= i < |b| - 1 ==> b[1..][i] == b[i + 1];
  }

  function Power2(n: nat): nat {
    if n == 0 then 1 else 2 * Power2(n - 1)
  }

  lemma LowNibble(b: Byte)
    ensures Unsigned(b) == Bit(b[0]) + 2 * Bit(b[1]) + 4 * Bit(b[2]) + 8 * Bit(b[3]) + 16 * Unsigned(b[4..])
  {
    assert b[1..][1..] == b[2..] && b[2..][1..] == b[3..] && b[3..][1..] == b[4..];
    assert Unsigned(b[1..]) == Bit(b[1]) + 2 * Unsigned(b[2..]);
    assert Unsigned(b[2..]) == Bit(b[2]) + 2 * Unsigned(b[3..]);
    assert Unsigned(b[3..]) == Bit(b[3]) + 2 * Unsigned(b[4..]);
  }

  lemma Remainder2(low: nat, high: nat)
    requires low < 2
    ensures (low + 2 * high) % 2 == low
  {
  }

  lemma Remainder8(low: nat, high: nat)
    requires low < 8
    ensures (low + 8 * high) % 8 == low
  {
  }

  lemma Remainder16(low: nat, high: nat)
    requires low < 16
    ensures (low + 16 * high) % 16 == low
  {
  }

  /** The lowest bit, the three lowest and the four lowest, as remainders of the value. */
  lemma LowBits(b: Byte)
    ensures Bit(b[0]) == Unsigned(b) % 2
    ensures Low3(b) == Unsigned(b) % 8
    ensures b[0] && b[1] && b[2] && b[3] <==> Unsigned(b) % 16 == 15
  {
    LowNibble(b);
    var w, x, y, z, high := Bit(b[0]), Bit(b[1]), Bit(b[2]), Bit(b[3]), Unsigned(b[4..]);
    Remainder2(w, x + 2 * y + 4 * z + 8 * high);
    Remainder8(w + 2 * x + 4 * y, z + 2 * high);
    Remainder16(w + 2 * x + 4 * y + 8 * z, high);
  }

  /** The unsigned value of the three lowest bits. */
  function Low3(b: Bits): Reg3
    requires |b| >= 3
  {
    Bit(b[0]) + 2 * Bit(b[1]) + 4 * Bit(b[2])
  }
}
