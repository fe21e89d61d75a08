/** The eight-byte frame in which REG2UART reports an address and 48 register bits. */
module ReportFrame {
  import opened Bits

  type Bits48 = b: Bits | |b| == 48 witness seq(48, _ => false)

  datatype Report = Report(address: Byte, regs: Bits48)

  /** The seven upper bits of octet `i` of the registers, over a clear lowest bit. */
  function Upper(regs: Bits48, i: nat): Byte
    requires i < 6
  {
    [false] + regs[8 * i + 1..8 * i + 8]
  }

  /** The address, the six octets from the top, and a last byte with all the lowest bits. */
  function Frame(p: Report): (bytes: seq<Byte>)
    ensures |bytes| == 8
  {
    [[false] + p.address[1..], Upper(p.regs, 5), Upper(p.regs, 4), Upper(p.regs, 3),
     Upper(p.regs, 2), Upper(p.regs, 1), Upper(p.regs, 0),
     [true, p.regs[0], p.regs[8], p.regs[16], p.regs[24], p.regs[32], p.regs[40], p.address[0]]]
  }

  /** Where each bit of a report travels; the lowest bits of all fields share the last byte. */
  lemma FrameLayout(p: Report, k: nat, j: nat)
    requires 1 <= k <= 6 && 1 <= j < 8
    ensures var f := Frame(p);
            && f[0][j] == p.address[j] && f[k][j] == p.regs[8 * (6 - k) + j]
            && f[7][7 - k] == p.regs[8 * (6 - k)] && f[7][7] == p.address[0]
            && !f[0][0] && !f[k][0] && f[7][0]
  {
    assert k == 1 || k == 2 || k == 3 || k == 4 || k == 5 || k == 6;
  }

  /** The field whose upper bits `b` carries and whose lowest bit is `low`. */
  function Restore(b: Byte, low: bool): Byte {
    [low] + b[1..]
  }

  function Join(a: Bits, b: Bits, c: Bits, d: Bits, e: Bits, f: Bits): Bits {
    a + b + c + d + e + f
  }

  /** The inverse of `Frame`, on any eight bytes. */
  function Unframe(b: seq<Byte>): Report
    requires |b| == 8
  {
    Report(Restore(b[0], b[7][7]),
           Join(Restore(b[6], b[7][1]), Restore(b[5], b[7][2]), Restore(b[4], b[7][3]),
                Restore(b[3], b[7][4]), Restore(b[2], b[7][5]), Restore(b[1], b[7][6])))
  }

  lemma OctetRoundTrip(regs: Bits48, i: nat)
    requires i < 6
    ensures Restore(Upper(regs, i), regs[8 * i]) == regs[8 * i..8 * i + 8]
  {
  }

  lemma {:induction false} OctetsJoin(r: Bits48)
    ensures Join(r[0..8], r[8..16], r[16..24], r[24..32], r[32..40], r[40..48]) == r
  {
    assert r[0..8] + r[8..16] == r[0..16];
    assert r[0..16] + r[16..24] == r[0..24];
    assert r[0..24] + r[24..32] == r[0..32];
    assert r[0..32] + r[32..40] == r[0..40];
    assert r[0..40] + r[40..48] == r;
  }

  /** What the last byte of a frame says about the fields. */
  lemma LowestBits(p: Report)
    ensures var l := Frame(p)[7];
            && l[7] == p.address[0] && l[1] == p.regs[0] && l[2] == p.regs[8] && l[3] == p.regs[16]
            && l[4] == p.regs[24] && l[5] == p.regs[32] && l[6] == p.regs[40]
  {
  }

  /** A frame decodes to the report it was made from. */
  lemma FrameRoundTrip(p: Report)
    ensures Unframe(Frame(p)) == p
  {
    var r, f := p.regs, Frame(p);
    LowestBits(p);
    OctetsJoin(r);
    assert Restore(f[6], f[7][1]) == r[0..8] by { OctetRoundTrip(r, 0); }
    assert Restore(f[5], f[7][2]) == r[8..16] by { OctetRoundTrip(r, 1); }
    assert Restore(f[4], f[7][3]) == r[16..24] by { OctetRoundTrip(r, 2); }
    assert Restore(f[3], f[7][4]) == r[24..32] by { OctetRoundTrip(r, 3); }
    assert Restore(f[2], f[7][5]) == r[32..40] by { OctetRoundTrip(r, 4); }
    assert Restore(f[1], f[7][6]) == r[40..48] by { OctetRoundTrip(r, 5); }
    assert Restore(f[0], f[7][7]) == p.address;
  }
}
