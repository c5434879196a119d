/**
 * Sequential nonce search over a pre-computed header buffer, and the processor's recheck of a mined block.
 */
module Mine {
  import opened Types
  import opened Header
  import opened Difficulty
  import opened MemHash
  import opened WideXor

  /** The hash of a header in the algorithm of a stream. */
  function PowHash(h: Hasher, header: BlockHeader, root: Hash, stream: Stream): Hash {
    if stream == StreamB then Digest(h, Encode(header, root), MEMORY_SIZE) else h(Encode(header, root))
  }

  /** The hash a nonce gives on a header template. */
  function Trial(h: Hasher, template: BlockHeader, root: Hash, stream: Stream, nonce: U64): Hash {
    PowHash(h, template.(nonce := nonce), root, stream)
  }

  predicate Solves(h: Hasher, template: BlockHeader, root: Hash, stream: Stream, nonce: U64) {
    Meets(Trial(h, template, root, stream, nonce), template.difficulty)
  }

  /**
   * The processor's check before it adds a mined block: recompute the hash from the block itself.
   * Block zero is let through. Stream C blocks are hashed by another function, given as `sealed`.
   */
  predicate PassesRecheck(h: Hasher, sealed: BlockHeader -> Hash, header: BlockHeader, root: Hash, hash: Hash) {
    header.number == 0 ||
    match header.stream
    case StreamA => hash == PowHash(h, header, root, StreamA)
    case StreamB => hash == PowHash(h, header, root, StreamB)
    case StreamC => hash == sealed(header)
  }

  /**
   * Streams A and C hash the header's bytes; stream B hashes them followed by the memory two passes leave of a filled
   * one, told by the chains that memory holds.
   */
  lemma StreamHashes(h: Hasher, header: BlockHeader, root: Hash, filled: seq<bv8>, once: seq<bv8>, twice: seq<bv8>)
    requires var input := Encode(header, root);
             && |filled| == MEMORY_SIZE && FillChain(h, input, filled)
             && MixChain(h, input, 0, filled, once) && MixChain(h, input, 1, once, twice)
    ensures PowHash(h, header, root, StreamA) == PowHash(h, header, root, StreamC) == h(Encode(header, root))
    ensures PowHash(h, header, root, StreamB) == h(Encode(header, root) + twice)
  {
    DigestExactly(h, Encode(header, root), filled, once, twice);
  }

  function NonceOffset(template: BlockHeader): nat {
    32 * |template.parents| + 24
  }

  lemma PatchIsEncode(buf: seq<bv8>, template: BlockHeader, root: Hash, last: U64, nonce: U64)
    requires buf == Encode(template.(nonce := last), root)
    ensures buf[..NonceOffset(template)] + Le64(nonce) + buf[NonceOffset(template) + 8..] ==
            Encode(template.(nonce := nonce), root)
  {
    var g := template.(nonce := last);
    assert buf[..NonceOffset(template)] == Prefix(g);
    assert buf[NonceOffset(template) + 8..] == Suffix(g, root);
  }

  method CopyInto(buf: array<bv8>, o: nat, bytes: seq<bv8>)
    requires o + |bytes| <= buf.Length
    modifies buf
    ensures buf[..] == old(buf[..])[..o] + bytes + old(buf[..])[o + |bytes|..]
  {
    forall i | 0 <= i < |bytes| {
      buf[o + i] := bytes[i];
    }
  }

  /** Overwrite the eight nonce bytes; the buffer is then the whole header with the new nonce. */
  method Patch(buf: array<bv8>, template: BlockHeader, root: Hash, ghost last: U64, nonce: U64)
    requires buf[..] == Encode(template.(nonce := last), root)
    modifies buf
    ensures buf[..] == Encode(template.(nonce := nonce), root)
  {
    PatchIsEncode(buf[..], template, root, last, nonce);
    CopyInto(buf, NonceOffset(template), Le64(nonce));
  }

  method FromBytes(bytes: seq<bv8>) returns (a: array<bv8>)
    ensures fresh(a) && a[..] == bytes
  {
    a := new bv8[|bytes|](i requires 0 <= i < |bytes| => bytes[i]);
  }

  /** One hash of the search: A and C hash the patched buffer, B the header through the scratch memory. */
  method HashTrial(h: Hasher, template: BlockHeader, root: Hash, stream: Stream, nonce: U64,
                   buf: array<bv8>, memory: array<bv8>, cpu: Cpu)
    returns (hash: Hash)
    requires buf[..] == Encode(template.(nonce := nonce), root)
    requires memory.Length == MEMORY_SIZE && memory != buf
    modifies memory
    ensures hash == Trial(h, template, root, stream, nonce)
  {
    match stream
    case StreamA => hash := h(buf[..]);
    case StreamB => hash := HashWithBuffer(h, Encode(template.(nonce := nonce), root), memory, cpu);
    case StreamC => hash := h(buf[..]);
  }

  /** Nonces tried before giving up: the limit, but never fewer than one. */
  function Tries(limit: Option<U64>): nat {
    match limit
    case None => TWO_64 - 1
    case Some(n) => Max(1, n)
  }

  /**
   * The search returns the least nonce that solves the header, and gives up exactly when none within
   * the limit does. A block of Stream A or B built from the result passes the processor's recheck.
   */
  method MineBlock(h: Hasher, template: BlockHeader, root: Hash, stream: Stream, limit: Option<U64>,
                   memory: array<bv8>, cpu: Cpu)
    returns (found: Option<(U64, Hash)>)
    requires memory.Length == MEMORY_SIZE
    modifies memory
    ensures found.None? ==> forall n: U64 | n < Tries(limit) :: !Solves(h, template, root, stream, n)
    ensures found.Some? ==>
              var (nonce, hash) := found.value;
              && nonce < Tries(limit)
              && hash == Trial(h, template, root, stream, nonce)
              && Meets(hash, template.difficulty)
              && (forall n: U64 | n < nonce :: !Solves(h, template, root, stream, n))
    ensures found.Some? && stream == template.stream && stream != StreamC ==>
              forall sealed ::
                PassesRecheck(h, sealed, template.(nonce := found.value.0), root, found.value.1)
  {
    var maxNonce: U64 := if limit.Some? then limit.value else TWO_64 - 1;
    var buf := FromBytes(Prefix(template) + Le64(0) + Suffix(template, root));
    assert buf[..] == Encode(template.(nonce := 0), root);
    var nonce: U64 := 0;
    ghost var last: U64 := 0;
    while true
      invariant buf[..] == Encode(template.(nonce := last), root)
      invariant nonce < Tries(limit) && nonce <= maxNonce
      invariant nonce > 0 ==> nonce < maxNonce
      invariant fresh(buf)
      invariant forall n: U64 | n < nonce :: !Solves(h, template, root, stream, n)
      decreases Tries(limit) - nonce
    {
      Patch(buf, template, root, last, nonce);
      last := nonce;
      var hash := HashTrial(h, template, root, stream, nonce, buf, memory, cpu);
      var ok := MeetsDifficulty(hash, template.difficulty);
      if ok {
        return Some((nonce, hash));
      }
      nonce := nonce + 1;
      if nonce >= maxNonce {
        return None;
      }
    }
  }
}
