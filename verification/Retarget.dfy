/**
 * Difficulty adjustment after each block: scaled by target time over actual time, damped and clamped.
 */
module Retarget {
  import opened Types

  const MAX_DIFFICULTY: nat := 21

  /** Target over actual time in thousandths, kept between 0.667 and 1.5. */
  function Factor(target: nat, actual: nat): nat
    requires actual > 0
  {
    Min(Max(target * 1000 / actual, 667), 1500)
  }

  function Scale(difficulty: nat, factor: nat): nat {
    Max(Min(difficulty * factor / 1000, MAX_DIFFICULTY), 1)
  }

  function Adjust(difficulty: U64, target: U64, actual: U64): U64 {
    if actual == 0 then difficulty else Scale(difficulty, Factor(target, actual))
  }

  lemma QuotientOrder(x: nat, d: nat, e: nat)
    requires 0 < d <= e
    ensures x / e <= x / d
  {
    MulOrder(d, e, x / e);
    assert d * (x / e) == (x / e) * d && e * (x / e) == (x / e) * e;
    assert e * (x / e) <= x;
    QuotientAtLeast(x, d, x / e);
  }

  lemma ScaleOrder(difficulty: nat, a: nat, b: nat)
    requires a <= b
    ensures Scale(difficulty, a) <= Scale(difficulty, b)
  {
    MulOrder(a, b, difficulty);
    assert a * difficulty == difficulty * a && b * difficulty == difficulty * b;
  }

  /** Target over actual time in thousandths, rounded down and kept between 667 and 1500. */
  ghost predicate Damped(target: nat, actual: nat, factor: nat) {
    && 667 <= factor <= 1500
    && (1000 * target < 667 * actual ==> factor == 667) && (1000 * target >= 1500 * actual ==> factor == 1500)
    && (667 * actual <= 1000 * target < 1500 * actual ==> factor * actual <= 1000 * target < (factor + 1) * actual)
  }

  lemma FactorDamped(target: nat, actual: nat)
    requires actual > 0
    ensures Damped(target, actual, Factor(target, actual))
  {
    var x, q := target * 1000, target * 1000 / actual;
    if x < 667 * actual {
      MulOrder(667, q, actual);
    } else {
      QuotientAtLeast(x, actual, 667);
    }
    if x >= 1500 * actual {
      QuotientAtLeast(x, actual, 1500);
    } else {
      MulOrder(1500, q, actual);
    }
  }

  /** The new difficulty is the old one times the damped factor, rounded down and kept between 1 and 21. */
  lemma AdjustExact(difficulty: U64, target: U64, actual: U64) returns (factor: nat)
    ensures actual == 0 ==> Adjust(difficulty, target, actual) == difficulty
    ensures actual > 0 ==>
              var r := Adjust(difficulty, target, actual);
              && Damped(target, actual, factor) && 1 <= r <= 21
              && (difficulty * factor < 2_000 ==> r == 1) && (difficulty * factor >= 21_000 ==> r == 21)
              && (1_000 <= difficulty * factor < 22_000 ==> 1_000 * r <= difficulty * factor < 1_000 * (r + 1))
  {
    factor := 0;
    if actual > 0 {
      factor := Factor(target, actual);
      FactorDamped(target, actual);
    }
  }

  /** A slower block never leads to a higher difficulty. */
  lemma SlowerNeverHarder(difficulty: U64, target: U64, fast: U64, slow: U64)
    requires 0 < fast <= slow
    ensures Adjust(difficulty, target, slow) <= Adjust(difficulty, target, fast)
  {
    QuotientOrder(target * 1000, fast, slow);
    ScaleOrder(difficulty, Factor(target, slow), Factor(target, fast));
  }

  /** A block on target changes nothing, for every difficulty in range. */
  lemma OnTargetKeeps(difficulty: U64, time: U64)
    requires 1 <= difficulty <= MAX_DIFFICULTY && time > 0
    ensures Adjust(difficulty, time, time) == difficulty
  {
    Quotient(time * 1000, time, 1000);
  }

  lemma FactorAt(target: U64)
    ensures Factor(target, 1) == Min(Max(target * 1000, 667), 1500)
  {
  }

  /**
   * One difficulty, and only one, is kept whatever the block times: 1, because one and a half times 1 is
   * rounded back down.
   */
  lemma OnlyOneIsStuck(difficulty: U64)
    ensures (forall target: U64, actual: U64 :: Adjust(difficulty, target, actual) == difficulty) <==> difficulty == 1
  {
    FactorAt(0);
    FactorAt(2);
    if difficulty == 1 {
      assert forall f | 667 <= f <= 1500 :: Scale(1, f) == 1;
    } else if difficulty < MAX_DIFFICULTY {
      assert Adjust(difficulty, 2, 1) != difficulty;
    } else {
      assert Adjust(difficulty, 0, 1) != difficulty;
    }
  }

  datatype Timing = Timing(target: U64, actual: U64)

  function After(difficulty: U64, times: seq<Timing>): U64
    decreases |times|
  {
    if times == [] then difficulty else After(Adjust(difficulty, times[0].target, times[0].actual), times[1..])
  }

  /** Over every run of blocks the difficulty stays in range, and once it is 1 it is 1 for ever. */
  lemma {:induction false} RunInRange(difficulty: U64, times: seq<Timing>)
    requires 1 <= difficulty <= MAX_DIFFICULTY
    ensures 1 <= After(difficulty, times) <= MAX_DIFFICULTY
    ensures difficulty == 1 ==> After(difficulty, times) == 1
    decreases |times|
  {
    if times != [] {
      OnlyOneIsStuck(difficulty);
      RunInRange(Adjust(difficulty, times[0].target, times[0].actual), times[1..]);
    }
  }

  function Sum(times: seq<U64>): nat {
    if times == [] then 0 else Sum(times[..|times| - 1]) + times[|times| - 1]
  }

  /** The moving-average form is the single-block form applied to the average time. */
  method AdjustMovingAverage(difficulty: U64, target: U64, times: seq<U64>) returns (r: U64)
    ensures times == [] ==> r == difficulty
    ensures times != [] ==> Sum(times) / |times| < TWO_64 && r == Adjust(difficulty, target, Sum(times) / |times|)
  {
    if times == [] {
      return difficulty;
    }
    var sum, i := 0, 0;
    while i < |times|
      invariant i <= |times| && sum == Sum(times[..i]) <= i * (TWO_64 - 1)
    {
      assert times[..i + 1][..i] == times[..i];
      sum := sum + times[i];
      i := i + 1;
    }
    assert times[..i] == times;
    AverageFits(sum, |times|);
    var average: U64 := sum / |times|;
    r := if average == 0 then difficulty else Scale(difficulty, Factor(target, average));
  }

  lemma AverageFits(sum: nat, n: nat)
    requires n > 0 && sum <= n * (TWO_64 - 1)
    ensures sum / n < TWO_64
  {
    MulOrder(TWO_64, sum / n, n);
  }
}
