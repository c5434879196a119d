/**
 * Binary trees over any kind of node, built in two ways: recursively from the top,
 * and level by level from the leaves.
 */
module MerkleTree {
  import opened Types

  /**
   * The reference: a tree of the given height over at most 2^height leaves.
   * A subtree with no leaves of its own is a copy of its left sibling.
   */
  function Tree<T>(p: (T, T) -> T, leaves: seq<T>, height: nat): T
    requires 0 < |leaves| <= Pow2(height)
    decreases height
  {
    if height == 0 then leaves[0]
    else
      var half := Pow2(height - 1);
      if |leaves| <= half then
        var left := Tree(p, leaves, height - 1);
        p(left, left)
      else
        p(Tree(p, leaves[..half], height - 1), Tree(p, leaves[half..], height - 1))
  }

  /** The least height whose tree has room for n leaves. */
  function Height(n: nat): (h: nat)
    requires n > 0
    ensures n <= Pow2(h)
    ensures h > 0 ==> Pow2(h - 1) < n
  {
    if n == 1 then 0 else Height((n + 1) / 2) + 1
  }

  function Top<T>(p: (T, T) -> T, leaves: seq<T>): T
    requires leaves != []
  {
    Tree(p, leaves, Height(|leaves|))
  }

  function HalfUp(n: nat): (h: nat)
    ensures 2 * h == n || 2 * h == n + 1
  {
    (n + 1) / 2
  }

  /** One level up: pairs from the left, an odd last node paired with itself. */
  function LevelUp<T>(p: (T, T) -> T, level: seq<T>): (up: seq<T>)
    ensures |up| == HalfUp(|level|)
  {
    seq(HalfUp(|level|), i requires 0 <= i < HalfUp(|level|) =>
      p(level[2 * i], if 2 * i + 1 < |level| then level[2 * i + 1] else level[2 * i]))
  }

  lemma LevelUpJoins<T>(p: (T, T) -> T, l: seq<T>, r: seq<T>)
    requires |l| % 2 == 0
    ensures LevelUp(p, l + r) == LevelUp(p, l) + LevelUp(p, r)
  {
  }

  lemma TreeOfPair<T>(p: (T, T) -> T, leaves: seq<T>)
    requires 0 < |leaves| <= Pow2(1)
    ensures Tree(p, leaves, 1) == Tree(p, LevelUp(p, leaves), 0)
  {
    assert Pow2(1) == 2;
  }

  lemma TreeOfHalves<T>(p: (T, T) -> T, l: seq<T>, r: seq<T>, height: nat)
    requires |l| == Pow2(height) && 0 < |r| <= Pow2(height)
    ensures Tree(p, l + r, height + 1) == p(Tree(p, l, height), Tree(p, r, height))
  {
    assert (l + r)[..|l|] == l && (l + r)[|l|..] == r;
  }

  lemma TreeOfCopies<T>(p: (T, T) -> T, leaves: seq<T>, height: nat)
    requires height > 0 && 0 < |leaves| <= Pow2(height - 1)
    ensures Tree(p, leaves, height) == p(Tree(p, leaves, height - 1), Tree(p, leaves, height - 1))
  {
  }

  lemma LevelUpFits(n: nat, height: nat)
    requires 0 < n <= Pow2(height + 1)
    ensures 0 < HalfUp(n) <= Pow2(height)
    ensures n == Pow2(height + 1) ==> HalfUp(n) == Pow2(height)
  {
  }

  /** Two halves that agree one level up make a whole that agrees one level up. */
  lemma HalvesUp<T>(p: (T, T) -> T, l: seq<T>, r: seq<T>, height: nat, a: T, b: T)
    requires |l| == Pow2(height + 1) && 0 < |r| <= Pow2(height + 1)
    requires |LevelUp(p, l)| == Pow2(height) && 0 < |LevelUp(p, r)| <= Pow2(height)
    requires a == Tree(p, l, height + 1) == Tree(p, LevelUp(p, l), height)
    requires b == Tree(p, r, height + 1) == Tree(p, LevelUp(p, r), height)
    ensures Tree(p, l + r, height + 2) == p(a, b)
    ensures Tree(p, LevelUp(p, l) + LevelUp(p, r), height + 1) == p(a, b)
  {
    TreeOfHalves(p, l, r, height + 1);
    TreeOfHalves(p, LevelUp(p, l), LevelUp(p, r), height);
  }

  /** Pairing up the leaves and building a tree one lower gives the same node. */
  lemma {:induction false} TreeOfLevelUp<T>(p: (T, T) -> T, leaves: seq<T>, height: nat)
    requires 0 < |leaves| <= Pow2(height + 1)
    ensures 0 < |LevelUp(p, leaves)| <= Pow2(height)
    ensures Tree(p, leaves, height + 1) == Tree(p, LevelUp(p, leaves), height)
    decreases height, 1
  {
    LevelUpFits(|leaves|, height);
    if height == 0 {
      TreeOfPair(p, leaves);
    } else if |leaves| <= Pow2(height) {
      TreeOfLevelUp(p, leaves, height - 1);
      TreeOfCopies(p, leaves, height + 1);
      TreeOfCopies(p, LevelUp(p, leaves), height);
    } else {
      var half := Pow2(height);
      assert leaves == leaves[..half] + leaves[half..];
      WideTreeOfLevelUp(p, leaves[..half], leaves[half..], height - 1);
    }
  }

  lemma HalvesFit<T>(p: (T, T) -> T, l: seq<T>, r: seq<T>, height: nat)
    requires |l| == Pow2(height + 1) && 0 < |r| <= Pow2(height + 1)
    ensures |LevelUp(p, l)| == Pow2(height) && 0 < |LevelUp(p, r)| <= Pow2(height)
    ensures LevelUp(p, l + r) == LevelUp(p, l) + LevelUp(p, r) && 0 < |LevelUp(p, l + r)| <= Pow2(height + 1)
  {
    LevelUpFits(|l|, height);
    LevelUpFits(|r|, height);
    LevelUpJoins(p, l, r);
  }

  lemma {:induction false} WideTreeOfLevelUp<T>(p: (T, T) -> T, l: seq<T>, r: seq<T>, height: nat)
    requires |l| == Pow2(height + 1) && 0 < |r| <= Pow2(height + 1)
    ensures 0 < |LevelUp(p, l + r)| <= Pow2(height + 1)
    ensures Tree(p, l + r, height + 2) == Tree(p, LevelUp(p, l + r), height + 1)
    decreases height + 1, 0
  {
    HalvesFit(p, l, r, height);
    TreeOfLevelUp(p, l, height);
    TreeOfLevelUp(p, r, height);
    HalvesUp(p, l, r, height, Tree(p, l, height + 1), Tree(p, r, height + 1));
  }

  lemma TopOfLevelUp<T>(p: (T, T) -> T, level: seq<T>)
    requires |level| > 1
    ensures Top(p, LevelUp(p, level)) == Top(p, level)
  {
    TreeOfLevelUp(p, level, Height(HalfUp(|level|)));
  }

  /** One pass of the inner loop. */
  method NextLevel<T>(p: (T, T) -> T, level: seq<T>) returns (next: seq<T>)
    ensures next == LevelUp(p, level)
  {
    next := [];
    var i := 0;
    while i < |level|
      invariant i == 2 * |next| && i <= |level| + 1
      invariant next == LevelUp(p, level)[..|next|]
    {
      var right := if i + 1 < |level| then level[i + 1] else level[i];
      next := next + [p(level[i], right)];
      i := i + 2;
    }
  }

  /** The loop over levels ends at the top of the recursive tree. */
  method Climb<T>(p: (T, T) -> T, leaves: seq<T>) returns (top: T)
    requires leaves != []
    ensures top == Top(p, leaves)
  {
    var level := leaves;
    while |level| > 1
      invariant level != [] && Top(p, level) == Top(p, leaves)
      decreases |level|
    {
      TopOfLevelUp(p, level);
      level := NextLevel(p, level);
    }
    return level[0];
  }

  /** No two different pairs of children share a parent. */
  ghost predicate Injective<T(!new)>(p: (T, T) -> T) {
    forall a, b, c, d | p(a, b) == p(c, d) :: a == c && b == d
  }

  lemma {:induction false} TreeDetermines<T(!new)>(p: (T, T) -> T, x: seq<T>, y: seq<T>, height: nat)
    requires 0 < |x| <= Pow2(height) && |x| == |y| && Tree(p, x, height) == Tree(p, y, height) && Injective(p)
    ensures x == y
    decreases height
  {
    if height == 0 {
      assert x == [x[0]] && y == [y[0]];
    } else {
      var half := Pow2(height - 1);
      if |x| <= half {
        TreeDetermines(p, x, y, height - 1);
      } else {
        TreeDetermines(p, x[..half], y[..half], height - 1);
        TreeDetermines(p, x[half..], y[half..], height - 1);
        assert x == x[..half] + x[half..] && y == y[..half] + y[half..];
      }
    }
  }
}

/**
 * The transactions root of a block.
 */
module Merkle {
  import opened Types
  import opened MerkleTree

  function Parent(k: Hasher): (Hash, Hash) -> Hash {
    (l: Hash, r: Hash) => k(l + r)
  }

  /** The hash of 32 zero bytes for an empty list, the top of the tree otherwise. */
  function Root(k: Hasher, leaves: seq<Hash>): Hash {
    if leaves == [] then k(seq(32, _ => 0)) else Top(Parent(k), leaves)
  }

  /** The loop terminates and computes the root of the recursive tree, for every list. */
  method TransactionsRoot(k: Hasher, leaves: seq<Hash>) returns (root: Hash)
    ensures root == Root(k, leaves)
  {
    if leaves == [] {
      return k(seq(32, _ => 0));
    }
    if |leaves| == 1 {
      return leaves[0];
    }
    root := Climb(Parent(k), leaves);
  }

  /** The hash of a node and the one to its right, or of the node twice where there is none. */
  function Paired(k: Hasher, level: seq<Hash>, i: nat): Hash
    requires i < |level|
  {
    var left: seq<bv8>, right: seq<bv8> := level[i], level[Min(i + 1, |level| - 1)];
    k(left + right)
  }

  /**
   * The root, told level by level: none is the hash of zeros, one leaf is its own root, and more have the root of their
   * pairs, each the hash of left and right, an odd last leaf paired with itself.
   */
  lemma RootClimbs(k: Hasher, leaves: seq<Hash>, level: seq<Hash>)
    requires |level| == (|leaves| + 1) / 2
    requires forall i | 0 <= i < |level| :: level[i] == Paired(k, leaves, 2 * i)
    ensures |leaves| == 0 ==> Root(k, leaves) == k(seq(32, _ => 0))
    ensures |leaves| == 1 ==> Root(k, leaves) == leaves[0]
    ensures |leaves| > 1 ==> Root(k, leaves) == Root(k, level)
  {
    if |leaves| > 1 {
      assert level == LevelUp(Parent(k), leaves);
      TopOfLevelUp(Parent(k), leaves);
    }
  }

  /** Two different 64-byte strings with the same hash. */
  ghost predicate Collision(k: Hasher, x: seq<bv8>, y: seq<bv8>) {
    |x| == 64 && |y| == 64 && x != y && k(x) == k(y)
  }

  ghost predicate HasCollision(k: Hasher) {
    exists x, y :: Collision(k, x, y)
  }

  lemma ParentInjective(k: Hasher)
    requires !HasCollision(k)
    ensures Injective(Parent(k))
  {
    forall a: Hash, b: Hash, c: Hash, d: Hash | Parent(k)(a, b) == Parent(k)(c, d)
      ensures a == c && b == d
    {
      assert !Collision(k, a + b, c + d);
      assert a == (a + b)[..32] && c == (c + d)[..32];
      assert b == (a + b)[32..] && d == (c + d)[32..];
    }
  }

  /** Equal roots of equally long lists mean equal lists, unless the pair hash itself collides. */
  lemma RootDetermines(k: Hasher, x: seq<Hash>, y: seq<Hash>)
    requires |x| == |y| && Root(k, x) == Root(k, y)
    ensures x == y || HasCollision(k)
  {
    if x != [] && !HasCollision(k) {
      ParentInjective(k);
      TreeDetermines(Parent(k), x, y, Height(|x|));
    }
  }

  /** Without the length the root does not determine the list: doubling an odd last leaf keeps it. */
  lemma DoubledLastLeaf(k: Hasher, x: seq<Hash>)
    requires |x| > 1 && |x| % 2 == 1
    ensures Root(k, x + [x[|x| - 1]]) == Root(k, x)
  {
    var y := x + [x[|x| - 1]];
    assert LevelUp(Parent(k), y) == LevelUp(Parent(k), x);
    TopOfLevelUp(Parent(k), x);
    TopOfLevelUp(Parent(k), y);
  }
}
