/** The packet decoder UART2REG and the five-byte write packet it understands. */
module Uart2Reg {
  import opened Bits
  import opened RegisterFile

  type Bits32 = b: Bits | |b| == 32 witness seq(32, _ => false)

  datatype Decoder = Decoder(ready: bool, regSave: Bits32)

  /** A byte whose low nibble is 0xf ends a packet. */
  predicate IsTerminator(b: Byte) {
    b[0] && b[1] && b[2] && b[3]
  }

  /** One rise of the receiver's `rdy` with `din` on its data output. */
  function Next(d: Decoder, din: Byte): Decoder {
    if IsTerminator(din) then d.(ready := true)
    else Decoder(false, din + d.regSave[..24])
  }

  function Address(d: Decoder, din: Byte): Byte {
    [din[7]] + d.regSave[25..32]
  }

  function SubAddress(d: Decoder, din: Byte): Byte {
    [din[6]] + d.regSave[17..24]
  }

  function Data(d: Decoder, din: Byte): Bits16 {
    [din[4]] + d.regSave[1..8] + [din[5]] + d.regSave[9..16]
  }

  /** The decoder and the register file behind it. */
  datatype Board = Board(decoder: Decoder, file: Regs)

  function Feed(b: Board, din: Byte): (c: Board)
    requires b.file.Valid()
    ensures c.file.Valid()
  {
    var d := Next(b.decoder, din);
    Board(d, if !b.decoder.ready && d.ready
             then Store(b.file, Packet(Address(d, din), SubAddress(d, din), Data(d, din)))
             else b.file)
  }

  function FeedAll(b: Board, bytes: seq<Byte>): (c: Board)
    requires b.file.Valid()
    ensures c.file.Valid()
    decreases |bytes|
  {
    if bytes == [] then b else Feed(FeedAll(b, bytes[..|bytes| - 1]), bytes[|bytes| - 1])
  }

  // ---- The packet format

  /** The low nibble of a packet's last byte, and of no other. */
  predicate Ends(b: Byte) {
    Unsigned(b) % 16 == 15
  }

  lemma NibbleEnds(b: Byte)
    ensures IsTerminator(b) <==> Ends(b)
  {
    LowBits(b);
  }

  /** `b` carries the seven upper bits of `field`; its own lowest bit means nothing. */
  predicate CarriesUpper(b: Byte, field: Byte) {
    !Ends(b) && b[1..] == field[1..]
  }

  /** Five bytes that stand for the write `p`. */
  predicate Carries(bytes: seq<Byte>, p: Packet) {
    && |bytes| == 5
    && CarriesUpper(bytes[0], p.address)
    && CarriesUpper(bytes[1], p.subAddress)
    && CarriesUpper(bytes[2], p.data[8..])
    && CarriesUpper(bytes[3], p.data[..8])
    && Ends(bytes[4])
    && bytes[4][7] == p.address[0] && bytes[4][6] == p.subAddress[0]
    && bytes[4][5] == p.data[8] && bytes[4][4] == p.data[0]
  }

  /** The packet with all its free bits clear. */
  function Encode(p: Packet): (bytes: seq<Byte>)
    ensures Carries(bytes, p)
  {
    var w, x := [false] + p.address[1..], [false] + p.subAddress[1..];
    var y, z := [false] + p.data[9..], [false] + p.data[1..8];
    var t := [true, true, true, true, p.data[0], p.data[8], p.subAddress[0], p.address[0]];
    NibbleEnds(w); NibbleEnds(x); NibbleEnds(y); NibbleEnds(z); NibbleEnds(t);
    [w, x, y, z, t]
  }

  lemma {:induction false} FeedAllSplits(b: Board, xs: seq<Byte>, ys: seq<Byte>)
    requires b.file.Valid()
    ensures FeedAll(b, xs + ys) == FeedAll(FeedAll(b, xs), ys)
    decreases |ys|
  {
    if ys == [] {
      assert xs + ys == xs;
    } else {
      FeedAllSplits(b, xs, ys[..|ys| - 1]);
      assert (xs + ys)[..|xs + ys| - 1] == xs + ys[..|ys| - 1];
    }
  }

  /** The shift register after the bytes `w`, `x`, `y`, `z` in this order. */
  function Shifted(w: Bits, x: Bits, y: Bits, z: Bits): Bits {
    z + y + x + w
  }

  /** Four plain bytes flush everything older out of the shift register. */
  lemma FourPlainBytes(b: Board, w: Byte, x: Byte, y: Byte, z: Byte)
    requires b.file.Valid()
    requires !IsTerminator(w) && !IsTerminator(x) && !IsTerminator(y) && !IsTerminator(z)
    ensures Feed(Feed(Feed(Feed(b, w), x), y), z) == Board(Decoder(false, Shifted(w, x, y, z)), b.file)
  {
    var xb: Bits, yb: Bits, r := x, y, b.decoder.regSave;
    var r1: Bits := w + r[..24];
    var r2: Bits := x + r1[..24];
    var r3: Bits := y + r2[..24];
    var r4: Bits := z + r3[..24];
    assert r2[..24] == xb + w + r[..8];
    assert r3[..24] == yb + x + w;
    assert r4 == Shifted(w, x, y, z);
  }

  /**
   A packet stores exactly its write, whatever bytes came before it: nothing happens on its
   first four bytes and `ready` rises once, on its terminator.
   */
  lemma PacketStores(b: Board, bytes: seq<Byte>, p: Packet)
    requires b.file.Valid() && Carries(bytes, p)
    ensures FeedAll(b, bytes[..4]).file == b.file && !FeedAll(b, bytes[..4]).decoder.ready
    ensures FeedAll(b, bytes).file == Store(b.file, p) && FeedAll(b, bytes).decoder.ready
  {
    var w, x, y, z, t := bytes[0], bytes[1], bytes[2], bytes[3], bytes[4];
    NibbleEnds(w); NibbleEnds(x); NibbleEnds(y); NibbleEnds(z); NibbleEnds(t);
    FeedFour(b, bytes);
    FourPlainBytes(b, w, x, y, z);
    assert FeedAll(b, bytes) == Feed(FeedAll(b, bytes[..4]), t);
    FieldsOf(bytes, p);
  }

  /** A second terminator in a row stores nothing. */
  lemma TerminatorRepeats(b: Board, bytes: seq<Byte>, p: Packet, t: Byte)
    requires b.file.Valid() && Carries(bytes, p) && Ends(t)
    ensures FeedAll(b, bytes + [t]) == FeedAll(b, bytes)
  {
    PacketStores(b, bytes, p);
    NibbleEnds(t);
    assert (bytes + [t])[..5] == bytes;
  }

  lemma FeedFour(b: Board, bytes: seq<Byte>)
    requires b.file.Valid() && |bytes| == 5
    ensures FeedAll(b, bytes[..4]) == Feed(Feed(Feed(Feed(b, bytes[0]), bytes[1]), bytes[2]), bytes[3])
  {
    assert bytes[..4][..3] == bytes[..3] && bytes[..3][..2] == bytes[..2];
    assert bytes[..2][..1] == bytes[..1] && bytes[..1][..0] == [];
    assert FeedAll(b, bytes[..1]) == Feed(b, bytes[0]);
    assert FeedAll(b, bytes[..2]) == Feed(FeedAll(b, bytes[..1]), bytes[1]);
    assert FeedAll(b, bytes[..3]) == Feed(FeedAll(b, bytes[..2]), bytes[2]);
  }

  /** The field wires show the packet's fields once its four plain bytes are in place. */
  lemma FieldsOf(bytes: seq<Byte>, p: Packet)
    requires Carries(bytes, p)
    ensures var d := Decoder(true, Shifted(bytes[0], bytes[1], bytes[2], bytes[3]));
            Packet(Address(d, bytes[4]), SubAddress(d, bytes[4]), Data(d, bytes[4])) == p
  {
    var w, x, y, z, t := bytes[0], bytes[1], bytes[2], bytes[3], bytes[4];
    var r := Shifted(w, x, y, z);
    assert r[25..32] == w[1..] && r[17..24] == x[1..] && r[9..16] == y[1..] && r[1..8] == z[1..];
    assert [t[7]] + w[1..] == p.address;
    assert [t[6]] + x[1..] == p.subAddress;
    assert [t[4]] + z[1..] + [t[5]] + y[1..] == p.data by {
      assert p.data == p.data[..8] + p.data[8..];
      assert p.data[..8] == [t[4]] + z[1..];
      assert p.data[8..] == [t[5]] + y[1..];
    }
  }

  /** A byte stream made of packets, one after the other. */
  ghost predicate Packets(bytes: seq<Byte>, ps: seq<Packet>)
    decreases |ps|
  {
    if ps == [] then bytes == []
    else |bytes| >= 5 && Carries(bytes[|bytes| - 5..], ps[|ps| - 1])
         && Packets(bytes[..|bytes| - 5], ps[..|ps| - 1])
  }

  /** A stream of packets leaves the register file as the writes in order do. */
  lemma {:induction false} StreamStores(b: Board, bytes: seq<Byte>, ps: seq<Packet>)
    requires b.file.Valid() && Packets(bytes, ps)
    ensures FeedAll(b, bytes).file == StoreAll(b.file, ps)
    decreases |ps|
  {
    if ps != [] {
      var init, last := bytes[..|bytes| - 5], bytes[|bytes| - 5..];
      StreamStores(b, init, ps[..|ps| - 1]);
      FeedAllSplits(b, init, last);
      assert init + last == bytes;
      PacketStores(FeedAll(b, init), last, ps[|ps| - 1]);
    }
  }

  class PacketDecoder {
    var ready: bool
    var regSave: Bits32

    function Registers(): Decoder
      reads this
    {
      Decoder(ready, regSave)
    }

    constructor (regSave: Bits32)
      ensures Registers() == Decoder(false, regSave)
    {
      ready, this.regSave := false, regSave;
    }

    /** The rise of `rdy_in`; reports whether the ready output rose. */
    method OnRdy(din: Byte) returns (rose: bool)
      modifies this
      ensures Registers() == Next(old(Registers()), din)
      ensures rose == (!old(ready) && ready)
    {
      rose := false;
      if din[0] && din[1] && din[2] && din[3] {
        rose := !ready;
        ready := true;
      } else {
        regSave := din + regSave[..24];
        ready := false;
      }
    }
  }
}
