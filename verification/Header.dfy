/** Numbers below 256 as bytes. */
module Bytes {
  lemma ByteRoundTrip(n: int)
    requires 0 <= n < 256
    ensures (n as bv8) as int == n
  {
  }

  lemma ByteInjective(a: int, b: int)
    requires 0 <= a < 256 && 0 <= b < 256 && a as bv8 == b as bv8
    ensures a == b
  {
    ByteRoundTrip(a);
    ByteRoundTrip(b);
  }
}

/**
 * The byte string a block header commits to, and what it determines.
 */
module Header {
  import opened Types
  import opened Bytes

  datatype BlockHeader = BlockHeader(
    parents: seq<Hash>,
    number: U64,
    stream: Stream,
    difficulty: U64,
    timestamp: U64,
    nonce: U64,
    hashVersion: bv8,
    baseFee: nat,
    pqSignature: Option<seq<bv8>>,
    minerPqPubkey: Option<seq<bv8>>)

  /** The header with what is not hashed taken from another: base fee, signature and signer's key. */
  function Unhashed(h: BlockHeader, g: BlockHeader): BlockHeader {
    h.(baseFee := g.baseFee, pqSignature := g.pqSignature, minerPqPubkey := g.minerPqPubkey)
  }

  /** k little-endian bytes of n. */
  function LittleEndian(n: nat, k: nat): (s: seq<bv8>)
    ensures |s| == k
  {
    if k == 0 then [] else [(n % 256) as bv8] + LittleEndian(n / 256, k - 1)
  }

  function Le64(n: U64): (s: seq<bv8>)
    ensures |s| == 8
  {
    LittleEndian(n, 8)
  }

  function StreamByte(s: Stream): bv8 {
    match s
    case StreamA => 0
    case StreamB => 1
    case StreamC => 2
  }

  function Concat(parents: seq<Hash>): (s: seq<bv8>)
    ensures |s| == 32 * |parents|
  {
    if parents == [] then [] else parents[0] + Concat(parents[1..])
  }

  /** Everything before the nonce. */
  function Prefix(h: BlockHeader): (s: seq<bv8>)
    ensures |s| == 32 * |h.parents| + 24
  {
    Concat(h.parents) + Le64(h.number) + Le64(h.difficulty) + Le64(h.timestamp)
  }

  /** Everything after the nonce. */
  function Suffix(h: BlockHeader, root: Hash): (s: seq<bv8>)
    ensures |s| == 34
  {
    [StreamByte(h.stream)] + root + [h.hashVersion]
  }

  /** The bytes the hashers are fed, field by field. */
  function Encode(h: BlockHeader, root: Hash): (s: seq<bv8>)
    ensures |s| == 32 * |h.parents| + 66
  {
    Prefix(h) + Le64(h.nonce) + Suffix(h, root)
  }

  function Pow256(k: nat): nat {
    if k == 0 then 1 else 256 * Pow256(k - 1)
  }

  lemma {:induction false} LittleEndianInjective(a: nat, b: nat, k: nat)
    requires a < Pow256(k) && b < Pow256(k)
    requires LittleEndian(a, k) == LittleEndian(b, k)
    ensures a == b
  {
    if k > 0 {
      assert LittleEndian(a, k)[0] == LittleEndian(b, k)[0];
      assert LittleEndian(a, k)[1..] == LittleEndian(b, k)[1..];
      LittleEndianInjective(a / 256, b / 256, k - 1);
      ByteInjective(a % 256, b % 256);
    }
  }

  lemma Le64Injective(a: U64, b: U64)
    requires Le64(a) == Le64(b)
    ensures a == b
  {
    assert Pow256(4) == 0x1_0000_0000;
    assert Pow256(6) == 0x1_0000_0000_0000;
    assert Pow256(8) == TWO_64;
    LittleEndianInjective(a, b, 8);
  }

  lemma {:induction false} ConcatInjective(a: seq<Hash>, b: seq<Hash>)
    requires Concat(a) == Concat(b)
    ensures a == b
  {
    if a != [] {
      assert b != [];
      assert Concat(a)[..32] == a[0] && Concat(b)[..32] == b[0];
      assert Concat(a)[32..] == Concat(a[1..]) && Concat(b)[32..] == Concat(b[1..]);
      ConcatInjective(a[1..], b[1..]);
    }
  }

  lemma SplitEqual<T>(a: seq<T>, b: seq<T>, c: seq<T>, d: seq<T>)
    requires |a| == |c| && a + b == c + d
    ensures a == c && b == d
  {
    assert a == (a + b)[..|a|] && c == (c + d)[..|c|];
    assert b == (a + b)[|a|..] && d == (c + d)[|c|..];
  }

  /**
   * The encoding commits to every header field except the base fee, the post-quantum signature and its key, and
   * to nothing else: it has no ambiguity between fields, even when the numbers of parents differ.
   */
  lemma EncodeDetermines(g: BlockHeader, r: Hash, h: BlockHeader, t: Hash)
    ensures Encode(g, r) == Encode(h, t) <==> g == Unhashed(h, g) && r == t
  {
    if Encode(g, r) == Encode(h, t) {
      assert |g.parents| == |h.parents|;
      SplitEqual(Prefix(g) + Le64(g.nonce), Suffix(g, r), Prefix(h) + Le64(h.nonce), Suffix(h, t));
      SplitEqual(Prefix(g), Le64(g.nonce), Prefix(h), Le64(h.nonce));
      Le64Injective(g.nonce, h.nonce);
      PrefixDetermines(g, h);
      SuffixDetermines(g, r, h, t);
    }
  }

  // ---------------------------------------------------------------- reading it back

  /** The number whose little-endian bytes these are. */
  function FromLittleEndian(s: seq<bv8>): nat {
    if s == [] then 0 else s[0] as nat + 256 * FromLittleEndian(s[1..])
  }

  lemma {:induction false} LittleEndianRead(n: nat, k: nat)
    requires n < Pow256(k)
    ensures FromLittleEndian(LittleEndian(n, k)) == n
  {
    if k > 0 {
      LittleEndianRead(n / 256, k - 1);
      assert LittleEndian(n, k)[1..] == LittleEndian(n / 256, k - 1);
      ByteRoundTrip(n % 256);
    }
  }

  lemma Le64Read(n: U64)
    ensures FromLittleEndian(Le64(n)) == n
  {
    assert Pow256(4) == 0x1_0000_0000;
    assert Pow256(8) == TWO_64;
    LittleEndianRead(n, 8);
  }

  lemma {:induction false} ConcatAt(parents: seq<Hash>, i: nat)
    requires i < |parents|
    ensures Concat(parents)[32 * i..32 * i + 32] == parents[i]
  {
    var rest := Concat(parents[1..]);
    if i > 0 {
      ConcatAt(parents[1..], i - 1);
      assert Concat(parents)[32 * i..32 * i + 32] == rest[32 * (i - 1)..32 * (i - 1) + 32];
    }
  }

  /** The part of a longer string that is one of its pieces. */
  lemma Piece(a: seq<bv8>, b: seq<bv8>, c: seq<bv8>)
    ensures (a + b + c)[|a|..|a| + |b|] == b
  {
  }

  /**
   * The layout, for a reader of the bytes: the parents in order, then number, difficulty, timestamp and nonce as eight
   * little-endian bytes each, then the stream, the transactions root and the hash version.
   */
  lemma EncodeLayout(h: BlockHeader, root: Hash)
    ensures var s, p := Encode(h, root), 32 * |h.parents|;
            && (forall i | 0 <= i < |h.parents| :: s[32 * i..32 * i + 32] == h.parents[i])
            && FromLittleEndian(s[p..p + 8]) == h.number && FromLittleEndian(s[p + 8..p + 16]) == h.difficulty
            && FromLittleEndian(s[p + 16..p + 24]) == h.timestamp && FromLittleEndian(s[p + 24..p + 32]) == h.nonce
            && s[p + 32] == (match h.stream case StreamA => 0 case StreamB => 1 case StreamC => 2)
            && s[p + 33..p + 65] == root && s[p + 65] == h.hashVersion && |s| == p + 66
  {
    ParentsRead(h, root);
    PrefixRead(h);
    EncodeParts(h, root);
    Le64Read(h.number);
    Le64Read(h.difficulty);
    Le64Read(h.timestamp);
    Le64Read(h.nonce);
  }

  lemma PrefixRead(h: BlockHeader)
    ensures var s, p := Prefix(h), 32 * |h.parents|;
            && s[p..p + 8] == Le64(h.number) && s[p + 8..p + 16] == Le64(h.difficulty)
            && s[p + 16..p + 24] == Le64(h.timestamp)
  {
    var c, n, d, t := Concat(h.parents), Le64(h.number), Le64(h.difficulty), Le64(h.timestamp);
    assert Prefix(h) == c + n + (d + t);
    Piece(c, n, d + t);
    Piece(c + n, d, t);
    assert Prefix(h) == (c + n + d) + t + [];
    Piece(c + n + d, t, []);
  }

  lemma EncodeParts(h: BlockHeader, root: Hash)
    ensures var s, p := Encode(h, root), 32 * |h.parents|;
            && s[p..p + 8] == Prefix(h)[p..p + 8] && s[p + 8..p + 16] == Prefix(h)[p + 8..p + 16]
            && s[p + 16..p + 24] == Prefix(h)[p + 16..p + 24] && s[p + 24..p + 32] == Le64(h.nonce)
            && s[p + 32] == StreamByte(h.stream) && s[p + 33..p + 65] == root && s[p + 65] == h.hashVersion
  {
    var s, p := Encode(h, root), 32 * |h.parents|;
    assert s[..p + 24] == Prefix(h);
    assert s[p..p + 8] == s[..p + 24][p..p + 8];
    assert s[p + 8..p + 16] == s[..p + 24][p + 8..p + 16];
    assert s[p + 16..p + 24] == s[..p + 24][p + 16..p + 24];
    Piece(Prefix(h), Le64(h.nonce), Suffix(h, root));
    assert s[p + 32..] == Suffix(h, root);
    assert s[p + 33..p + 65] == s[p + 32..][1..33];
  }

  lemma ParentsRead(h: BlockHeader, root: Hash)
    ensures forall i | 0 <= i < |h.parents| :: Encode(h, root)[32 * i..32 * i + 32] == h.parents[i]
  {
    var s, c := Encode(h, root), Concat(h.parents);
    forall i | 0 <= i < |h.parents|
      ensures s[32 * i..32 * i + 32] == h.parents[i]
    {
      ConcatAt(h.parents, i);
      assert s[..|c|] == c;
      assert s[32 * i..32 * i + 32] == s[..|c|][32 * i..32 * i + 32];
    }
  }

  lemma PrefixDetermines(g: BlockHeader, h: BlockHeader)
    requires Prefix(g) == Prefix(h)
    ensures g.parents == h.parents && g.number == h.number
    ensures g.difficulty == h.difficulty && g.timestamp == h.timestamp
  {
    var (c, d) := (Concat(g.parents), Concat(h.parents));
    SplitEqual(c + Le64(g.number) + Le64(g.difficulty), Le64(g.timestamp),
               d + Le64(h.number) + Le64(h.difficulty), Le64(h.timestamp));
    SplitEqual(c + Le64(g.number), Le64(g.difficulty), d + Le64(h.number), Le64(h.difficulty));
    SplitEqual(c, Le64(g.number), d, Le64(h.number));
    ConcatInjective(g.parents, h.parents);
    Le64Injective(g.number, h.number);
    Le64Injective(g.difficulty, h.difficulty);
    Le64Injective(g.timestamp, h.timestamp);
  }

  lemma SuffixDetermines(g: BlockHeader, r: Hash, h: BlockHeader, t: Hash)
    requires Suffix(g, r) == Suffix(h, t)
    ensures g.stream == h.stream && r == t && g.hashVersion == h.hashVersion
  {
    SplitEqual([StreamByte(g.stream)] + r, [g.hashVersion], [StreamByte(h.stream)] + t, [h.hashVersion]);
    SplitEqual([StreamByte(g.stream)], r, [StreamByte(h.stream)], t);
    assert [StreamByte(g.stream)][0] == [StreamByte(h.stream)][0];
  }
}
