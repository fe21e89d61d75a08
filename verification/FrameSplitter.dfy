/** Splitting a byte stream into eight-byte frames at its odd bytes. */
module FrameSplitter {
  import opened Bits

  predicate AllEven(bytes: seq<Byte>) {
    forall i :: 0 <= i < |bytes| ==> !bytes[i][0]
  }

  /** Eight bytes of which only the last is odd. */
  predicate IsChunk(x: seq<Byte>) {
    |x| == 8 && AllEven(x[..7]) && x[7][0]
  }

  function Concat(xs: seq<seq<Byte>>): seq<Byte>
    decreases |xs|
  {
    if xs == [] then [] else Concat(xs[..|xs| - 1]) + xs[|xs| - 1]
  }

  predicate Chunks(xs: seq<seq<Byte>>) {
    forall i :: 0 <= i < |xs| ==> IsChunk(xs[i])
  }

  /** `pending` holds the bytes since the last odd one, `frames` the whole frames seen. */
  datatype Splitter = Splitter(pending: seq<Byte>, frames: seq<seq<Byte>>)

  const FRESH := Splitter([], [])

  /** An odd byte ends a frame; anything that is not eight bytes long by then is dropped. */
  function Eat(s: Splitter, b: Byte): Splitter {
    var frame := s.pending + [b];
    if !b[0] then s.(pending := frame)
    else Splitter([], if |frame| == 8 then s.frames + [frame] else s.frames)
  }

  function Split(s: Splitter, bytes: seq<Byte>): Splitter
    decreases |bytes|
  {
    if bytes == [] then s else Eat(Split(s, bytes[..|bytes| - 1]), bytes[|bytes| - 1])
  }

  lemma {:induction false} SplitSplits(s: Splitter, xs: seq<Byte>, ys: seq<Byte>)
    ensures Split(s, xs + ys) == Split(Split(s, xs), ys)
    decreases |ys|
  {
    if ys == [] {
      assert xs + ys == xs;
    } else {
      SplitSplits(s, xs, ys[..|ys| - 1]);
      assert (xs + ys)[..|xs + ys| - 1] == xs + ys[..|ys| - 1];
    }
  }

  lemma {:induction false} EvenBytesPend(s: Splitter, bytes: seq<Byte>)
    requires AllEven(bytes)
    ensures Split(s, bytes) == s.(pending := s.pending + bytes)
    decreases |bytes|
  {
    if bytes == [] {
      assert s.pending + bytes == s.pending;
    } else {
      EvenBytesPend(s, bytes[..|bytes| - 1]);
      assert s.pending + bytes[..|bytes| - 1] + [bytes[|bytes| - 1]] == s.pending + bytes;
    }
  }

  /** A frame entered at its byte `c` is kept if entered at the start and dropped otherwise. */
  lemma ChunkFrom(s: Splitter, x: seq<Byte>, c: nat)
    requires s.pending == [] && IsChunk(x) && c < 8
    ensures Split(s, x[c..]) == s.(frames := if c == 0 then s.frames + [x] else s.frames)
  {
    assert x[c..][..7 - c] == x[..7][c..];
    EvenBytesPend(s, x[c..][..7 - c]);
    assert s.pending + x[c..][..7 - c] + [x[7]] == x[c..];
  }

  lemma {:induction false} ConcatLength(xs: seq<seq<Byte>>)
    requires Chunks(xs)
    ensures |Concat(xs)| == 8 * |xs|
    decreases |xs|
  {
    if xs != [] {
      ConcatLength(xs[..|xs| - 1]);
    }
  }

  /** `w` is the number of the first frame that lies wholly behind byte `c`. */
  predicate FirstWhole(c: nat, w: nat) {
    c <= 8 * w < c + 8
  }

  /**
   Self-synchronisation: a concatenation of frames entered at any byte splits into exactly the
   frames from the first whole one on.
   */
  lemma {:induction false} Resynchronises(xs: seq<seq<Byte>>, c: nat, w: nat)
    requires Chunks(xs) && c <= 8 * |xs| && FirstWhole(c, w)
    ensures w <= |xs| && |Concat(xs)| == 8 * |xs|
    ensures Split(FRESH, Concat(xs)[c..]) == Splitter([], xs[w..])
    decreases |xs|
  {
    ConcatLength(xs);
    if c == 8 * |xs| {
      assert Concat(xs)[c..] == [];
    } else {
      var init, last := xs[..|xs| - 1], xs[|xs| - 1];
      ConcatLength(init);
      if c <= 8 * |init| {
        Resynchronises(init, c, w);
        assert Concat(xs)[c..] == Concat(init)[c..] + last;
        SplitSplits(FRESH, Concat(init)[c..], last);
        ChunkFrom(Split(FRESH, Concat(init)[c..]), last, 0);
        assert last[0..] == last;
        assert xs[w..] == init[w..] + [last];
      } else {
        var from := c - 8 * |init|;
        assert Concat(xs)[c..] == last[from..];
        ChunkFrom(FRESH, last, from);
      }
    }
  }

  /** The tail of an unfinished frame completes nothing. */
  lemma PartialChunk(s: Splitter, x: seq<Byte>, from: nat, to: nat)
    requires IsChunk(x) && from <= to < 8
    ensures Split(s, x[from..to]).frames == s.frames
  {
    forall i | 0 <= i < to - from
      ensures !x[from..to][i][0]
    {
      assert x[from..to][i] == x[..7][from + i];
    }
    EvenBytesPend(s, x[from..to]);
  }

  lemma {:induction false} ConcatPrefix(xs: seq<seq<Byte>>, n: nat)
    requires Chunks(xs) && n <= |xs|
    ensures |Concat(xs)| == 8 * |xs| && Concat(xs)[..8 * n] == Concat(xs[..n])
    decreases |xs|
  {
    ConcatLength(xs);
    if n == |xs| {
      assert xs[..n] == xs;
    } else {
      var init := xs[..|xs| - 1];
      ConcatPrefix(init, n);
      assert init[..n] == xs[..n];
      assert Concat(xs)[..8 * n] == Concat(init)[..8 * n];
    }
  }

  lemma ConcatAt(xs: seq<seq<Byte>>, n: nat)
    requires Chunks(xs) && n < |xs|
    ensures |Concat(xs)| == 8 * |xs| && Concat(xs)[8 * n..8 * n + 8] == xs[n]
  {
    ConcatPrefix(xs, n);
    ConcatPrefix(xs, n + 1);
    assert xs[..n + 1][..n] == xs[..n];
    var big := Concat(xs)[..8 * (n + 1)];
    assert big == Concat(xs[..n]) + xs[n];
    assert Concat(xs)[8 * n..8 * n + 8] == big[8 * n..];
  }

  /** A prefix of a stream of frames, entered at byte `c`, splits into its whole frames. */
  lemma PrefixSplits(xs: seq<seq<Byte>>, bytes: seq<Byte>, c: nat, w: nat, whole: nat)
    requires Chunks(xs) && bytes <= Concat(xs) && c <= |bytes|
    requires FirstWhole(c, w) && 8 * whole <= |bytes| < 8 * whole + 8
    ensures whole <= |xs|
    ensures Split(FRESH, bytes[c..]).frames == if w <= whole then xs[w..whole] else []
  {
    ConcatLength(xs);
    var cut := 8 * whole;
    if c <= cut {
      WholePart(xs, c, w, whole);
      var head := Concat(xs)[..cut][c..];
      CutApart(Concat(xs), bytes, c, cut);
      SplitSplits(FRESH, head, bytes[cut..]);
      LastPart(Split(FRESH, head), xs, bytes, whole, cut);
    } else {
      LastPart(FRESH, xs, bytes, whole, c);
    }
  }

  lemma CutApart(all: seq<Byte>, bytes: seq<Byte>, c: nat, cut: nat)
    requires bytes <= all && c <= cut <= |bytes|
    ensures bytes[c..] == all[..cut][c..] + bytes[cut..]
  {
  }

  lemma WholePart(xs: seq<seq<Byte>>, c: nat, w: nat, whole: nat)
    requires Chunks(xs) && whole <= |xs| && c <= 8 * whole && FirstWhole(c, w)
    ensures w <= whole && |Concat(xs)| == 8 * |xs|
    ensures Split(FRESH, Concat(xs)[..8 * whole][c..]) == Splitter([], xs[w..whole])
  {
    ConcatPrefix(xs, whole);
    Resynchronises(xs[..whole], c, w);
    assert xs[..whole][w..] == xs[w..whole];
  }

  lemma LastPart(s: Splitter, xs: seq<seq<Byte>>, bytes: seq<Byte>, whole: nat, c: nat)
    requires Chunks(xs) && bytes <= Concat(xs) && 8 * whole <= c <= |bytes| < 8 * whole + 8
    ensures Split(s, bytes[c..]).frames == s.frames
  {
    ConcatLength(xs);
    if c < |bytes| {
      ConcatAt(xs, whole);
      var from, to := c - 8 * whole, |bytes| - 8 * whole;
      assert bytes[c..] == Concat(xs)[8 * whole..8 * whole + 8][from..to];
      PartialChunk(s, xs[whole], from, to);
    }
  }
}
