/**
 * The memory-hard hash of Stream B. The source fills and mixes one reused scratch buffer in place;
 * the specification below never mentions what the buffer held before.
 */
module MemHash {
  import opened Types
  import opened Header
  import opened WideXor

  const PASSES: nat := 2
  const MEMORY_SIZE: nat := 262144

  /** The k-th seed of the fill pass. */
  function FillSeed(h: Hasher, input: seq<bv8>, k: nat): Hash {
    if k == 0 then h(input) else h(FillSeed(h, input, k - 1) + input)
  }

  /** The memory after filling: byte i comes from the seed of its 32-byte chunk. */
  function Filled(h: Hasher, input: seq<bv8>, n: nat): (m: seq<bv8>)
    ensures |m| == n
  {
    seq(n, i requires 0 <= i < n => FillSeed(h, input, i / 32 + 1)[i % 32])
  }

  /** The k-th 32-byte chunk; the last one may be shorter. */
  function Chunk(mem: seq<bv8>, k: nat): seq<bv8>
    requires 32 * k <= |mem|
  {
    mem[32 * k..Min(32 * k + 32, |mem|)]
  }

  /** The seed a mixing pass holds before chunk k, chained through the chunks before the pass. */
  function MixSeed(h: Hasher, input: seq<bv8>, pass: U64, mem: seq<bv8>, k: nat): Hash
    requires 32 * (k - 1) <= |mem|
  {
    if k == 0 then h(input + Le64(pass))
    else h(MixSeed(h, input, pass, mem, k - 1) + Chunk(mem, k - 1) + input)
  }

  /** One mixing pass, all bytes at once. */
  function Mixed(h: Hasher, input: seq<bv8>, pass: U64, mem: seq<bv8>): (m: seq<bv8>)
    ensures |m| == |mem|
  {
    seq(|mem|, i requires 0 <= i < |mem| => mem[i] ^ MixSeed(h, input, pass, mem, i / 32 + 1)[i % 32])
  }

  function Passes(h: Hasher, input: seq<bv8>, count: nat, mem: seq<bv8>): (m: seq<bv8>)
    requires count <= PASSES
    ensures |m| == |mem|
  {
    if count == 0 then mem else Mixed(h, input, count - 1, Passes(h, input, count - 1, mem))
  }

  /** The hash as a function of the header bytes and the size of the memory alone. */
  function Digest(h: Hasher, input: seq<bv8>, size: nat): Hash {
    h(input + Passes(h, input, PASSES, Filled(h, input, size)))
  }

  // ---------------------------------------------------------------- what the memory holds

  /** Chunk k is the hash of the chunk before it and the input, cut short at the end of the memory. */
  ghost predicate FillLink(h: Hasher, input: seq<bv8>, m: seq<bv8>, k: nat)
    requires 32 * k < |m|
  {
    Chunk(m, k) == h((if k == 0 then h(input) else Chunk(m, k - 1)) + input)[..|Chunk(m, k)|]
  }

  ghost predicate FillChain(h: Hasher, input: seq<bv8>, m: seq<bv8>) {
    forall k: nat | 32 * k < |m| :: FillLink(h, input, m, k)
  }

  lemma ChunkOfFilled(h: Hasher, input: seq<bv8>, n: nat, k: nat)
    requires 32 * k < n
    ensures Chunk(Filled(h, input, n), k) == FillSeed(h, input, k + 1)[..Min(32, n - 32 * k)]
  {
    var c := Chunk(Filled(h, input, n), k);
    forall i | 0 <= i < |c|
      ensures c[i] == FillSeed(h, input, k + 1)[i]
    {
      assert (32 * k + i) / 32 == k && (32 * k + i) % 32 == i;
    }
  }

  lemma SameChunks(a: seq<bv8>, b: seq<bv8>)
    requires |a| == |b| && forall k: nat | 32 * k < |a| :: Chunk(a, k) == Chunk(b, k)
    ensures a == b
  {
    forall i | 0 <= i < |a|
      ensures a[i] == b[i]
    {
      var k := i / 32;
      assert Chunk(a, k)[i - 32 * k] == a[i] && Chunk(b, k)[i - 32 * k] == b[i];
    }
  }

  lemma Whole(s: Hash)
    ensures s[..32] == s
  {
  }

  lemma {:induction false} ChainIsSeeds(h: Hasher, input: seq<bv8>, m: seq<bv8>, k: nat)
    requires FillChain(h, input, m) && 32 * k < |m|
    ensures Chunk(m, k) == FillSeed(h, input, k + 1)[..Min(32, |m| - 32 * k)]
  {
    assert FillLink(h, input, m, k);
    if k > 0 {
      ChainIsSeeds(h, input, m, k - 1);
      Whole(FillSeed(h, input, k));
    }
  }

  lemma FilledLinks(h: Hasher, input: seq<bv8>, n: nat, k: nat)
    requires 32 * k < n
    ensures FillLink(h, input, Filled(h, input, n), k)
  {
    ChunkOfFilled(h, input, n, k);
    if k > 0 {
      ChunkOfFilled(h, input, n, k - 1);
      Whole(FillSeed(h, input, k));
    }
  }

  /** The fill is the one memory of its size that holds the chain started by the hash of the input. */
  lemma FilledExactly(h: Hasher, input: seq<bv8>, m: seq<bv8>)
    ensures m == Filled(h, input, |m|) <==> FillChain(h, input, m)
  {
    var filled := Filled(h, input, |m|);
    forall k: nat | 32 * k < |m|
      ensures FillLink(h, input, filled, k) && (FillChain(h, input, m) ==> Chunk(m, k) == Chunk(filled, k))
    {
      FilledLinks(h, input, |m|, k);
      if FillChain(h, input, m) {
        ChainIsSeeds(h, input, m, k);
        ChunkOfFilled(h, input, |m|, k);
      }
    }
    if FillChain(h, input, m) {
      SameChunks(m, filled);
    }
  }

  /** What a pass put on chunk k. */
  function Mask(mem: seq<bv8>, m: seq<bv8>, k: nat): (r: seq<bv8>)
    requires |m| == |mem| && 32 * k < |mem|
    ensures |r| == |Chunk(mem, k)|
  {
    XorBytes(Chunk(m, k), Chunk(mem, k))
  }

  /**
   * What a pass put on chunk k is the hash of what it put on the chunk before, the chunk as it was, and the input; the
   * first follows the hash of the input and the number of the pass.
   */
  ghost predicate MixLink(h: Hasher, input: seq<bv8>, pass: U64, mem: seq<bv8>, m: seq<bv8>, k: nat)
    requires |m| == |mem| && 32 * k < |mem|
  {
    var before := if k == 0 then h(input + Le64(pass)) else Mask(mem, m, k - 1);
    Mask(mem, m, k) == h(before + Chunk(mem, k) + input)[..|Chunk(mem, k)|]
  }

  ghost predicate MixChain(h: Hasher, input: seq<bv8>, pass: U64, mem: seq<bv8>, m: seq<bv8>) {
    |m| == |mem| && forall k: nat | 32 * k < |mem| :: MixLink(h, input, pass, mem, m, k)
  }

  lemma XorTwice(a: bv8, b: bv8)
    ensures (a ^ b) ^ a == b
  {
  }

  lemma XorUndone(a: seq<bv8>, b: seq<bv8>, c: seq<bv8>)
    requires |a| == |b| == |c| && c == XorBytes(a, b)
    ensures XorBytes(c, a) == b
  {
    forall i | 0 <= i < |a|
      ensures XorBytes(c, a)[i] == b[i]
    {
      XorTwice(a[i], b[i]);
    }
  }

  lemma XorSwap(a: seq<bv8>, b: seq<bv8>)
    requires |a| == |b|
    ensures XorBytes(a, b) == XorBytes(b, a)
  {
    forall i | 0 <= i < |a|
      ensures XorBytes(a, b)[i] == XorBytes(b, a)[i]
    {
      XorEither(a[i], b[i]);
    }
  }

  lemma XorEither(a: bv8, b: bv8)
    ensures a ^ b == b ^ a
  {
  }

  lemma MixedAt(h: Hasher, input: seq<bv8>, pass: U64, mem: seq<bv8>, k: nat, i: nat)
    requires i < 32 && 32 * k + i < |mem|
    ensures Mixed(h, input, pass, mem)[32 * k + i] == mem[32 * k + i] ^ MixSeed(h, input, pass, mem, k + 1)[i]
  {
    var j := 32 * k + i;
    assert j / 32 == k && j % 32 == i;
  }

  lemma ChunkXored(mem: seq<bv8>, m: seq<bv8>, seed: Hash, k: nat)
    requires |m| == |mem| && 32 * k < |mem|
    requires forall i | 0 <= i < Min(32, |mem| - 32 * k) :: m[32 * k + i] == mem[32 * k + i] ^ seed[i]
    ensures Chunk(m, k) == XorBytes(Chunk(mem, k), seed[..Min(32, |mem| - 32 * k)])
  {
    forall i | 0 <= i < |Chunk(m, k)|
      ensures Chunk(m, k)[i] == Chunk(mem, k)[i] ^ seed[i]
    {
      assert Chunk(m, k)[i] == m[32 * k + i] && Chunk(mem, k)[i] == mem[32 * k + i];
    }
  }

  lemma ChunkOfMixed(h: Hasher, input: seq<bv8>, pass: U64, mem: seq<bv8>, k: nat)
    requires 32 * k < |mem|
    ensures Chunk(Mixed(h, input, pass, mem), k) ==
            XorBytes(Chunk(mem, k), MixSeed(h, input, pass, mem, k + 1)[..Min(32, |mem| - 32 * k)])
  {
    var m, seed := Mixed(h, input, pass, mem), MixSeed(h, input, pass, mem, k + 1);
    forall i | 0 <= i < Min(32, |mem| - 32 * k)
      ensures m[32 * k + i] == mem[32 * k + i] ^ seed[i]
    {
      MixedAt(h, input, pass, mem, k, i);
    }
    ChunkXored(mem, m, seed, k);
  }

  lemma MaskOfMixed(h: Hasher, input: seq<bv8>, pass: U64, mem: seq<bv8>, k: nat)
    requires 32 * k < |mem|
    ensures Mask(mem, Mixed(h, input, pass, mem), k) ==
            MixSeed(h, input, pass, mem, k + 1)[..Min(32, |mem| - 32 * k)]
  {
    ChunkOfMixed(h, input, pass, mem, k);
    XorUndone(Chunk(mem, k), MixSeed(h, input, pass, mem, k + 1)[..Min(32, |mem| - 32 * k)],
              Chunk(Mixed(h, input, pass, mem), k));
  }

  lemma {:induction false} MasksAreSeeds(h: Hasher, input: seq<bv8>, pass: U64, mem: seq<bv8>, m: seq<bv8>, k: nat)
    requires MixChain(h, input, pass, mem, m) && 32 * k < |mem|
    ensures Mask(mem, m, k) == MixSeed(h, input, pass, mem, k + 1)[..Min(32, |mem| - 32 * k)]
  {
    assert MixLink(h, input, pass, mem, m, k);
    if k > 0 {
      MasksAreSeeds(h, input, pass, mem, m, k - 1);
      Whole(MixSeed(h, input, pass, mem, k));
    }
  }

  lemma MixedLinks(h: Hasher, input: seq<bv8>, pass: U64, mem: seq<bv8>, k: nat)
    requires 32 * k < |mem|
    ensures MixLink(h, input, pass, mem, Mixed(h, input, pass, mem), k)
  {
    MaskOfMixed(h, input, pass, mem, k);
    if k > 0 {
      MaskOfMixed(h, input, pass, mem, k - 1);
      Whole(MixSeed(h, input, pass, mem, k));
    }
  }

  lemma SameMasks(mem: seq<bv8>, a: seq<bv8>, b: seq<bv8>, k: nat)
    requires |a| == |b| == |mem| && 32 * k < |mem| && Mask(mem, a, k) == Mask(mem, b, k)
    ensures Chunk(a, k) == Chunk(b, k)
  {
    XorSwap(Chunk(a, k), Chunk(mem, k));
    XorSwap(Chunk(b, k), Chunk(mem, k));
    XorUndone(Chunk(mem, k), Chunk(a, k), Mask(mem, a, k));
    XorUndone(Chunk(mem, k), Chunk(b, k), Mask(mem, b, k));
  }

  /** A mixing pass gives the one memory that leaves the chain of masks. */
  lemma MixedExactly(h: Hasher, input: seq<bv8>, pass: U64, mem: seq<bv8>, m: seq<bv8>)
    ensures m == Mixed(h, input, pass, mem) <==> MixChain(h, input, pass, mem, m)
  {
    var mixed := Mixed(h, input, pass, mem);
    forall k: nat | 32 * k < |mem|
      ensures MixLink(h, input, pass, mem, mixed, k)
      ensures MixChain(h, input, pass, mem, m) ==> Chunk(m, k) == Chunk(mixed, k)
    {
      MixedLinks(h, input, pass, mem, k);
      if MixChain(h, input, pass, mem, m) {
        MasksAreSeeds(h, input, pass, mem, m, k);
        MaskOfMixed(h, input, pass, mem, k);
        SameMasks(mem, m, mixed, k);
      }
    }
    if MixChain(h, input, pass, mem, m) {
      SameChunks(m, mixed);
    }
  }

  /**
   * The whole hash, told by its memories: the answer is the hash of the input followed by the memory that two passes,
   * numbered 0 and 1, leave of the filled one, and those three memories are the only ones with their chains.
   */
  lemma DigestExactly(h: Hasher, input: seq<bv8>, filled: seq<bv8>, once: seq<bv8>, twice: seq<bv8>)
    requires FillChain(h, input, filled) && MixChain(h, input, 0, filled, once) && MixChain(h, input, 1, once, twice)
    ensures Digest(h, input, |filled|) == h(input + twice)
  {
    FilledExactly(h, input, filled);
    MixedExactly(h, input, 0, filled, once);
    MixedExactly(h, input, 1, once, twice);
    assert Passes(h, input, 1, filled) == Mixed(h, input, 0, Passes(h, input, 0, filled));
    assert Passes(h, input, 2, filled) == Mixed(h, input, 1, Passes(h, input, 1, filled));
  }

  // ---------------------------------------------------------------- the loops

  method Fill(h: Hasher, input: seq<bv8>, memory: array<bv8>)
    modifies memory
    ensures memory[..] == Filled(h, input, memory.Length)
  {
    var seed := h(input);
    var k := 0;
    while 32 * k < memory.Length
      invariant seed == FillSeed(h, input, k)
      invariant forall i | 0 <= i < memory.Length && i < 32 * k :: memory[i] == FillSeed(h, input, i / 32 + 1)[i % 32]
      decreases memory.Length - 32 * k
    {
      seed := h(seed + input);
      var lo, hi := 32 * k, Min(32 * k + 32, memory.Length);
      forall i | lo <= i < hi {
        memory[i] := seed[i - lo];
      }
      k := k + 1;
    }
  }

  /** How far a mixing pass over `start` has come when the first k chunks are done. */
  ghost predicate MixedUpTo(h: Hasher, input: seq<bv8>, pass: U64, start: seq<bv8>, k: nat, now: seq<bv8>) {
    && |now| == |start|
    && (forall i | 0 <= i < |start| && i < 32 * k ::
          now[i] == start[i] ^ MixSeed(h, input, pass, start, i / 32 + 1)[i % 32])
    && (forall i | 32 * k <= i < |start| :: now[i] == start[i])
  }

  lemma MixStep(h: Hasher, input: seq<bv8>, pass: U64, start: seq<bv8>, k: nat, now: seq<bv8>)
    requires 32 * k < |start| && MixedUpTo(h, input, pass, start, k, now)
    ensures Chunk(now, k) == Chunk(start, k)
    ensures MixedUpTo(h, input, pass, start, k + 1,
                      XorInto(now, 32 * k, MixSeed(h, input, pass, start, k + 1), Min(32, |start| - 32 * k)))
  {
  }

  lemma MixDone(h: Hasher, input: seq<bv8>, pass: U64, start: seq<bv8>, k: nat, now: seq<bv8>)
    requires |start| <= 32 * k && MixedUpTo(h, input, pass, start, k, now)
    ensures now == Mixed(h, input, pass, start)
  {
  }

  method MixChunk(h: Hasher, input: seq<bv8>, ghost pass: U64, ghost start: seq<bv8>, memory: array<bv8>,
                  k: nat, seed: Hash, cpu: Cpu)
    returns (next: Hash)
    requires 32 * k < memory.Length && |start| == memory.Length
    requires seed == MixSeed(h, input, pass, start, k)
    requires MixedUpTo(h, input, pass, start, k, memory[..])
    modifies memory
    ensures next == MixSeed(h, input, pass, start, k + 1)
    ensures MixedUpTo(h, input, pass, start, k + 1, memory[..])
  {
    var hi := Min(32 * k + 32, memory.Length);
    MixStep(h, input, pass, start, k, memory[..]);
    assert memory[32 * k..hi] == Chunk(memory[..], k);
    next := h(seed + memory[32 * k..hi] + input);
    XorSlice(memory, 32 * k, hi, next, cpu);
  }

  method Mix(h: Hasher, input: seq<bv8>, pass: U64, memory: array<bv8>, cpu: Cpu)
    modifies memory
    ensures memory[..] == Mixed(h, input, pass, old(memory[..]))
  {
    ghost var start := memory[..];
    var seed := h(input + Le64(pass));
    var k := 0;
    while 32 * k < memory.Length
      invariant 32 * (k - 1) <= memory.Length
      invariant seed == MixSeed(h, input, pass, start, k)
      invariant MixedUpTo(h, input, pass, start, k, memory[..])
      decreases memory.Length - 32 * k
    {
      seed := MixChunk(h, input, pass, start, memory, k, seed, cpu);
      k := k + 1;
    }
    MixDone(h, input, pass, start, k, memory[..]);
  }

  /** Whatever the buffer held and whichever XOR the processor offers, the result is the same. */
  method HashWithBuffer(h: Hasher, input: seq<bv8>, memory: array<bv8>, cpu: Cpu) returns (result: Hash)
    modifies memory
    ensures result == Digest(h, input, memory.Length)
    ensures memory[..] == Passes(h, input, PASSES, Filled(h, input, memory.Length))
    ensures result == h(input + memory[..])
  {
    Fill(h, input, memory);
    for pass := 0 to PASSES
      invariant memory[..] == Passes(h, input, pass, Filled(h, input, memory.Length))
    {
      Mix(h, input, pass, memory, cpu);
    }
    result := h(input + memory[..]);
  }
}
