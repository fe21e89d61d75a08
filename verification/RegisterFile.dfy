/** The board's write-only registers, stored on every rise of the decoder's ready line. */
module RegisterFile {
  import opened Bits

  type Bits16 = b: Bits | |b| == 16 witness seq(16, _ => false)

  /** One register write as the serial protocol carries it. */
  datatype Packet = Packet(address: Byte, subAddress: Byte, data: Bits16)

  datatype Regs = Regs(dacData: seq<Bits12>, adcFreq: seq<Bits16>, adcEn: bool) {
    predicate Valid() {
      |dacData| == 8 && |adcFreq| == 2
    }
  }

  /** Address 0xff, 0xfe and 0x00. */
  predicate IsDac(p: Packet) {
    AllOnes(p.address)
  }

  predicate IsFreq(p: Packet) {
    !p.address[0] && AllOnes(p.address[1..])
  }

  predicate IsEnable(p: Packet) {
    AllZeros(p.address)
  }

  function Store(f: Regs, p: Packet): (g: Regs)
    requires f.Valid()
    ensures g.Valid()
  {
    f.(dacData := if IsDac(p) then f.dacData[Low3(p.subAddress) := p.data[..12]] else f.dacData,
       adcFreq := if IsFreq(p) then f.adcFreq[Bit(p.subAddress[0]) := p.data] else f.adcFreq,
       adcEn := if IsEnable(p) then p.data[0] else f.adcEn)
  }

  /** The writes applied one after the other. */
  function StoreAll(f: Regs, ps: seq<Packet>): (g: Regs)
    requires f.Valid()
    ensures g.Valid()
    decreases |ps|
  {
    if ps == [] then f else Store(StoreAll(f, ps[..|ps| - 1]), ps[|ps| - 1])
  }

  // ---- What the registers hold, stated without replaying the writes

  datatype Register = Dac(channel: Reg3) | Freq(index: nat) | Enable

  /** Which register a write names, by the numbers of its address and sub-address. */
  predicate Hits(p: Packet, r: Register) {
    match r
    case Dac(c) => Unsigned(p.address) == 255 && Unsigned(p.subAddress) % 8 == c
    case Freq(i) => Unsigned(p.address) == 254 && Unsigned(p.subAddress) % 2 == i
    case Enable => Unsigned(p.address) == 0
  }

  /** What the store decodes from the same bits. */
  lemma NumbersOf(p: Packet)
    ensures IsDac(p) <==> Unsigned(p.address) == 255
    ensures IsFreq(p) <==> Unsigned(p.address) == 254
    ensures IsEnable(p) <==> Unsigned(p.address) == 0
    ensures Low3(p.subAddress) == Unsigned(p.subAddress) % 8
    ensures Bit(p.subAddress[0]) == Unsigned(p.subAddress) % 2
  {
    assert Power2(7) == 128 && Power2(8) == 256;
    UnsignedBound(p.address, 256);
    UnsignedBound(p.address[1..], 128);
    LowBits(p.subAddress);
  }

  function Held(f: Regs, r: Register): Bits
    requires f.Valid()
  {
    match r
    case Dac(c) => f.dacData[c]
    case Freq(i) => if i < 2 then f.adcFreq[i] else []
    case Enable => [f.adcEn]
  }

  /** The part of the packet's data that the register keeps. */
  function Kept(p: Packet, r: Register): Bits {
    match r
    case Dac(_) => p.data[..12]
    case Freq(_) => p.data
    case Enable => p.data[..1]
  }

  predicate Untouched(ps: seq<Packet>, r: Register) {
    forall j :: 0 <= j < |ps| ==> !Hits(ps[j], r)
  }

  /** A register no write names keeps its value. */
  lemma {:induction false} UntouchedKeeps(f: Regs, ps: seq<Packet>, r: Register)
    requires f.Valid() && Untouched(ps, r)
    ensures Held(StoreAll(f, ps), r) == Held(f, r)
    decreases |ps|
  {
    if ps != [] {
      UntouchedKeeps(f, ps[..|ps| - 1], r);
      StoreMisses(StoreAll(f, ps[..|ps| - 1]), ps[|ps| - 1], r);
    }
  }

  /** A register holds what the last write naming it carried. */
  lemma {:induction false} LastWriteWins(f: Regs, ps: seq<Packet>, r: Register, i: nat)
    requires f.Valid() && i < |ps| && Hits(ps[i], r) && Untouched(ps[i + 1..], r)
    ensures Held(StoreAll(f, ps), r) == Kept(ps[i], r)
    decreases |ps|
  {
    var init, last := ps[..|ps| - 1], ps[|ps| - 1];
    if i < |ps| - 1 {
      assert ps[i + 1..][|ps| - 2 - i] == last;
      assert init[i + 1..] == ps[i + 1..][..|init| - i - 1];
      LastWriteWins(f, init, r, i);
      StoreMisses(StoreAll(f, init), last, r);
    } else {
      StoreHits(StoreAll(f, init), last, r);
    }
  }

  lemma StoreHits(f: Regs, p: Packet, r: Register)
    requires f.Valid() && Hits(p, r)
    ensures Held(Store(f, p), r) == Kept(p, r)
  {
    NumbersOf(p);
  }

  lemma StoreMisses(f: Regs, p: Packet, r: Register)
    requires f.Valid() && !Hits(p, r)
    ensures Held(Store(f, p), r) == Held(f, r)
  {
    NumbersOf(p);
  }

  /** The register arrays of the top-level module. */
  class Registers {
    const dacData: array<Bits12>
    const adcFreq: array<Bits16>
    var adcEn: bool

    predicate Valid()
      reads this
    {
      dacData.Length == 8 && adcFreq.Length == 2
    }

    function Contents(): Regs
      reads this, dacData, adcFreq
    {
      Regs(dacData[..], adcFreq[..], adcEn)
    }

    constructor (dacData: array<Bits12>, adcFreq: array<Bits16>)
      requires dacData.Length == 8 && adcFreq.Length == 2
      ensures Valid() && this.dacData == dacData && this.adcFreq == adcFreq && !adcEn
    {
      this.dacData, this.adcFreq, adcEn := dacData, adcFreq, false;
    }

    /** The write performed when the decoder's ready line rises. */
    method OnReady(address: Byte, subAddress: Byte, data: Bits16)
      requires Valid()
      modifies this, dacData, adcFreq
      ensures Valid()
      ensures Contents() == Store(old(Contents()), Packet(address, subAddress, data))
    {
      if AllOnes(address) {
        dacData[Low3(subAddress)] := data[..12];
      }
      if !address[0] && AllOnes(address[1..]) {
        adcFreq[Bit(subAddress[0])] := data;
      }
      if AllZeros(address) {
        adcEn := data[0];
      }
    }
  }
}
