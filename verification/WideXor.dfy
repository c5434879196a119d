/**
 * The exclusive-or of the memory mixing step, eight, sixteen or thirty-two bytes at a time.
 * A wide register is a row of 64-bit lanes loaded in little-endian order.
 */
module WideXor {
  /** What every variant must do: XOR `len` bytes of `src` into `mem` at `base`, touch nothing else. */
  function XorInto(mem: seq<bv8>, base: nat, src: seq<bv8>, len: nat): (r: seq<bv8>)
    requires base + len <= |mem| && len <= |src|
  {
    seq(|mem|, i requires 0 <= i < |mem| =>
      if base <= i < base + len then mem[i] ^ src[i - base] else mem[i])
  }

  function LoadLane(b: seq<bv8>): bv64
    requires |b| == 8
  {
    (b[0] as bv64) | ((b[1] as bv64) << 8) | ((b[2] as bv64) << 16) | ((b[3] as bv64) << 24)
    | ((b[4] as bv64) << 32) | ((b[5] as bv64) << 40) | ((b[6] as bv64) << 48) | ((b[7] as bv64) << 56)
  }

  function StoreLane(w: bv64): (b: seq<bv8>)
    ensures |b| == 8
  {
    [(w & 0xFF) as bv8, ((w >> 8) & 0xFF) as bv8, ((w >> 16) & 0xFF) as bv8, ((w >> 24) & 0xFF) as bv8,
     ((w >> 32) & 0xFF) as bv8, ((w >> 40) & 0xFF) as bv8, ((w >> 48) & 0xFF) as bv8, (w >> 56) as bv8]
  }

  function XorBytes(x: seq<bv8>, y: seq<bv8>): (r: seq<bv8>)
    requires |x| == |y|
    ensures |r| == |x|
  {
    seq(|x|, i requires 0 <= i < |x| => x[i] ^ y[i])
  }

  /** The 64-bit XOR of two lanes is the eight byte XORs. */
  lemma LaneBytes(x: seq<bv8>, y: seq<bv8>)
    requires |x| == |y| == 8
    ensures StoreLane(LoadLane(x) ^ LoadLane(y)) ==
            [x[0] ^ y[0], x[1] ^ y[1], x[2] ^ y[2], x[3] ^ y[3],
             x[4] ^ y[4], x[5] ^ y[5], x[6] ^ y[6], x[7] ^ y[7]]
  {
  }

  lemma EightBytes(x: seq<bv8>, y: seq<bv8>, b: seq<bv8>)
    requires |x| == |y| == 8
    requires b == [x[0] ^ y[0], x[1] ^ y[1], x[2] ^ y[2], x[3] ^ y[3],
                   x[4] ^ y[4], x[5] ^ y[5], x[6] ^ y[6], x[7] ^ y[7]]
    ensures b == XorBytes(x, y)
  {
    forall i | 0 <= i < 8
      ensures b[i] == XorBytes(x, y)[i]
    {
      assert i == 0 || i == 1 || i == 2 || i == 3 || i == 4 || i == 5 || i == 6 || i == 7;
    }
  }

  method XorLane(x: seq<bv8>, y: seq<bv8>) returns (b: seq<bv8>)
    requires |x| == |y| == 8
    ensures b == XorBytes(x, y)
  {
    b := StoreLane(LoadLane(x) ^ LoadLane(y));
    LaneBytes(x, y);
    EightBytes(x, y, b);
  }

  method XorLaneAt(dst: array<bv8>, at: nat, src: seq<bv8>)
    requires |src| == 8 && at + 8 <= dst.Length
    modifies dst
    ensures dst[..] == XorInto(old(dst[..]), at, src, 8)
  {
    var b := XorLane(dst[at..at + 8], src);
    forall i | 0 <= i < 8 {
      dst[at + i] := b[i];
    }
  }

  method XorByteAt(dst: array<bv8>, at: nat, src: seq<bv8>)
    requires |src| == 1 && at < dst.Length
    modifies dst
    ensures dst[..] == XorInto(old(dst[..]), at, src, 1)
  {
    dst[at] := dst[at] ^ src[0];
  }

  /** One wide instruction: every lane of the register. */
  method XorRegister(dst: array<bv8>, at: nat, src: seq<bv8>, lanes: nat)
    requires |src| == 8 * lanes && at + |src| <= dst.Length
    modifies dst
    ensures dst[..] == XorInto(old(dst[..]), at, src, |src|)
  {
    assert dst[..] == XorInto(old(dst[..]), at, src, 0);
    for l := 0 to lanes
      invariant dst[..] == XorInto(old(dst[..]), at, src, 8 * l)
    {
      XorLaneAt(dst, at + 8 * l, src[8 * l..8 * l + 8]);
      XorIntoExtends(old(dst[..]), at, src, 8 * l, 8);
    }
  }

  lemma XorIntoExtends(mem: seq<bv8>, base: nat, src: seq<bv8>, done: nat, more: nat)
    requires done + more <= |src| && base + done + more <= |mem|
    ensures XorInto(XorInto(mem, base, src, done), base + done, src[done..done + more], more) ==
            XorInto(mem, base, src, done + more)
  {
  }

  /** Registers of `lanes` lanes while they fit, then single bytes. */
  method XorWide(dst: array<bv8>, base: nat, src: seq<bv8>, len: nat, lanes: nat)
    requires lanes > 0 && base + len <= dst.Length && len <= |src|
    modifies dst
    ensures dst[..] == XorInto(old(dst[..]), base, src, len)
  {
    var width := 8 * lanes;
    var done := 0;
    assert dst[..] == XorInto(old(dst[..]), base, src, 0);
    while done + width <= len
      invariant done <= len
      invariant dst[..] == XorInto(old(dst[..]), base, src, done)
    {
      XorRegister(dst, base + done, src[done..done + width], lanes);
      XorIntoExtends(old(dst[..]), base, src, done, width);
      done := done + width;
    }
    for i := done to len
      invariant dst[..] == XorInto(old(dst[..]), base, src, i)
    {
      XorIntoExtends(old(dst[..]), base, src, i, 1);
      XorByteAt(dst, base + i, src[i..i + 1]);
    }
  }

  datatype Cpu = Avx2 | Sse2 | Scalar

  /** The dispatcher: whichever variant the processor offers, the bytes come out the same. */
  method XorSlice(dst: array<bv8>, lo: nat, hi: nat, src: seq<bv8>, cpu: Cpu)
    requires lo <= hi <= dst.Length
    modifies dst
    ensures dst[..] == XorInto(old(dst[..]), lo, src, if hi - lo <= |src| then hi - lo else |src|)
  {
    var len := if hi - lo <= |src| then hi - lo else |src|;
    match cpu
    case Avx2 => XorWide(dst, lo, src, len, 4);
    case Sse2 => XorWide(dst, lo, src, len, 2);
    case Scalar => XorWide(dst, lo, src, len, 1);
  }
}
