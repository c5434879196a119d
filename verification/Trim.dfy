/**
 * Trimming a block to the size limit: an estimate caps a binary search over prefixes.
 * The serialized size of a block with given transactions is a parameter; it may fail.
 */
module Trim {
  import opened Types

  const MAX_BLOCK_SIZE: nat := 4194304

  predicate Fits<T>(size: seq<T> -> Option<nat>, txs: seq<T>, k: nat)
    requires k <= |txs|
  {
    size(txs[..k]).Some? && size(txs[..k]).value <= MAX_BLOCK_SIZE
  }

  /** How many transactions the average size suggests, at least one. */
  function Estimate(total: nat, count: nat): (n: nat)
    requires count > 0
    ensures n > 0
  {
    var average := total / count;
    assert average * count <= total;
    var header := total - average * count;
    Max(SaturatingSub(MAX_BLOCK_SIZE, header) / Max(average, 1), 1)
  }

  /** The largest prefix the search looks at. */
  function Cap(total: nat, count: nat): nat
    requires count > 0
  {
    Min(Estimate(total, count), count)
  }

  /** Every prefix serializes, and a longer one is no smaller. */
  ghost predicate Growing<T>(size: seq<T> -> Option<nat>, txs: seq<T>) {
    && (forall k | 0 <= k <= |txs| :: size(txs[..k]).Some?)
    && (forall j, k | 0 <= j <= k <= |txs| :: size(txs[..j]).value <= size(txs[..k]).value)
  }

  /** k is the longest fitting prefix up to the cap, or one transaction if not even that fits. */
  ghost predicate LongestUpTo<T>(size: seq<T> -> Option<nat>, txs: seq<T>, cap: nat, k: nat)
    requires cap <= |txs|
  {
    && 1 <= k <= cap
    && (k == 1 || Fits(size, txs, k))
    && forall j | k < j <= cap :: !Fits(size, txs, j)
  }

  method Search<T>(size: seq<T> -> Option<nat>, txs: seq<T>, cap: nat) returns (best: nat)
    requires 1 <= cap <= |txs|
    ensures 1 <= best <= cap
    ensures Growing(size, txs) ==> LongestUpTo(size, txs, cap, best)
  {
    var low, high := 1, cap;
    best := low;
    while low <= high
      invariant 1 <= low <= high + 1 <= cap + 1
      invariant best == Max(1, low - 1)
      invariant low > 1 ==> Fits(size, txs, low - 1)
      invariant Growing(size, txs) ==> forall j | high < j <= cap :: !Fits(size, txs, j)
      decreases high - low + 1
    {
      var mid := (low + high) / 2;
      match size(txs[..mid])
      case Some(bytes) =>
        if bytes <= MAX_BLOCK_SIZE {
          best := mid;
          low := mid + 1;
        } else {
          high := mid - 1;
        }
      case None => return;
    }
  }

  /**
   * The trimmed block is a prefix, empty only for no transactions, and whole if the whole block fits.
   * When sizes grow it is the longest fitting prefix up to the cap, or one transaction.
   * When the full block does not serialize it is half the transactions, at least one.
   */
  method TrimTransactions<T>(size: seq<T> -> Option<nat>, txs: seq<T>) returns (kept: seq<T>)
    ensures kept <= txs && (kept == [] <==> txs == [])
    ensures txs != [] && Fits(size, txs, |txs|) ==> kept == txs
    ensures txs != [] && size(txs).Some? && !Fits(size, txs, |txs|) && Growing(size, txs) ==>
              LongestUpTo(size, txs, Cap(size(txs).value, |txs|), |kept|)
    ensures txs != [] && size(txs).None? ==> |kept| == Max(1, |txs| / 2)
  {
    if txs == [] {
      return [];
    }
    assert txs[..|txs|] == txs;
    match size(txs)
    case Some(bytes) =>
      if bytes <= MAX_BLOCK_SIZE {
        return txs;
      }
      var best := Search(size, txs, Cap(bytes, |txs|));
      return txs[..best];
    case None =>
      return txs[..Max(1, |txs| / 2)];
  }

  /**
   * Exactly when the trimmed block is the longest fitting prefix of all:
   * the cap is the whole list, or the prefix just past the cap does not fit.
   */
  lemma GloballyLongestExactly<T>(size: seq<T> -> Option<nat>, txs: seq<T>, cap: nat, k: nat)
    requires 0 < cap <= |txs| && Growing(size, txs) && Fits(size, txs, 1) && LongestUpTo(size, txs, cap, k)
    ensures Fits(size, txs, k)
    ensures (forall j | k < j <= |txs| :: !Fits(size, txs, j)) <==> cap == |txs| || !Fits(size, txs, cap + 1)
  {
    if cap < |txs| && !Fits(size, txs, cap + 1) {
      forall j | k < j <= |txs|
        ensures !Fits(size, txs, j)
      {
        if j > cap {
          assert size(txs[..cap + 1]).value <= size(txs[..j]).value;
        }
      }
    }
  }

  /** A header of h bytes and c bytes for every transaction. */
  ghost predicate Uniform<T>(size: seq<T> -> Option<nat>, txs: seq<T>, h: nat, c: nat) {
    forall k | 0 <= k <= |txs| :: size(txs[..k]) == Some(h + c * k)
  }

  lemma AverageOf(h: nat, c: nat, n: nat)
    requires n > 0
    ensures (h + c * n) / n == c + h / n
    ensures h + c * n - (c + h / n) * n == h % n
  {
    var q := h / n;
    assert (c + q) * n == c * n + q * n;
    Quotient(h + c * n, n, c + q);
  }

  lemma SpreadHeader(h: nat, c: nat, n: nat, k: nat, q: nat, r: nat)
    requires k <= n && h == q * n + r && h + c * k <= MAX_BLOCK_SIZE
    ensures k * (c + q) <= MAX_BLOCK_SIZE - r
  {
    MulOrder(k, n, q);
    assert k * (c + q) == c * k + k * q;
  }

  lemma PositiveAverage(h: nat, c: nat, n: nat, k: nat)
    requires 0 < k <= n && h + c * k <= MAX_BLOCK_SIZE < h + c * n
    ensures c > 0
  {
  }

  /** With equal transaction sizes the estimate never excludes a prefix that fits. */
  lemma EstimateKeepsOptimum(h: nat, c: nat, n: nat, k: nat)
    requires 0 < k <= n && h + c * k <= MAX_BLOCK_SIZE < h + c * n
    ensures k <= Estimate(h + c * n, n)
  {
    PositiveAverage(h, c, n, k);
    SpreadHeader(h, c, n, k, h / n, h % n);
    AverageOf(h, c, n);
    QuotientAtLeast(MAX_BLOCK_SIZE - h % n, c + h / n, k);
  }

  /** With equal transaction sizes trimming keeps the longest prefix that fits at all. */
  lemma UniformTrimIsOptimal<T>(size: seq<T> -> Option<nat>, txs: seq<T>, h: nat, c: nat, k: nat)
    requires txs != [] && Uniform(size, txs, h, c) && !Fits(size, txs, |txs|) && size(txs).Some?
    requires LongestUpTo(size, txs, Cap(size(txs).value, |txs|), k)
    ensures forall j | k < j <= |txs| :: !Fits(size, txs, j)
  {
    assert txs[..|txs|] == txs;
    forall j | k < j <= |txs|
      ensures !Fits(size, txs, j)
    {
      if Fits(size, txs, j) {
        EstimateKeepsOptimum(h, c, |txs|, j);
      }
    }
  }

  function TotalSize(sizes: seq<nat>): nat {
    if sizes == [] then 0 else sizes[0] + TotalSize(sizes[1..])
  }

  function ByteCount(sizes: seq<nat>): Option<nat> {
    Some(TotalSize(sizes))
  }

  const SMALL_THEN_LARGE: seq<nat> := [1, 1, 1, 8388608]

  /** With unequal sizes it may not: three one-byte transactions fit, and only one is kept. */
  lemma EstimateCanCutShort(k: nat)
    requires LongestUpTo(ByteCount, SMALL_THEN_LARGE, Cap(TotalSize(SMALL_THEN_LARGE), 4), k)
    ensures k == 1 && Fits(ByteCount, SMALL_THEN_LARGE, 3)
  {
    var txs := SMALL_THEN_LARGE;
    assert TotalSize(txs[3..]) == 8388608 by { assert txs[3..][1..] == []; }
    assert TotalSize(txs[2..]) == 8388609 by { assert txs[2..][1..] == txs[3..]; }
    assert TotalSize(txs[1..]) == 8388610 by { assert txs[1..][1..] == txs[2..]; }
    assert TotalSize(txs) == 8388611;
    assert txs[..3] == [1, 1, 1] && [1, 1, 1][1..] == [1, 1] && [1, 1][1..] == [1];
    assert TotalSize([1]) == 1 && TotalSize([1, 1]) == 2 && TotalSize([1, 1, 1]) == 3;
  }
}
