/**
 * The halving schedule, and the bound it puts on everything that can ever be minted
 * when no block number is rewarded twice.
 */
module Rewards {
  import opened Types

  const STREAM_A_REWARD: nat := 50_000_000_000_000_000_000
  const STREAM_B_REWARD: nat := 25_000_000_000_000_000_000
  const HALVING_INTERVAL: nat := 12_614_400
  const MAX_SUPPLY: nat := 10_000_000_000_000_000_000_000_000_000

  /** A right shift by `n` bits. */
  function ShiftRight(x: nat, n: nat): nat {
    if n == 0 then x else ShiftRight(x, n - 1) / 2
  }

  function BlockReward(height: nat, stream: Stream): nat {
    var era := height / HALVING_INTERVAL;
    if stream == StreamC || era >= 64 then 0
    else ShiftRight(if stream == StreamA then STREAM_A_REWARD else STREAM_B_REWARD, era)
  }

  lemma HalfOfQuotient(x: nat, p: nat)
    requires p > 0
    ensures x / p / 2 == x / (2 * p)
  {
    var y := x / p;
    MulOrder(2 * (y / 2), y, p);
    MulOrder(y + 1, 2 * (y / 2) + 2, p);
    assert (y / 2) * (2 * p) == 2 * (y / 2) * p;
    assert (y / 2) * (2 * p) + 2 * p == (2 * (y / 2) + 2) * p;
    Quotient(x, 2 * p, y / 2);
  }

  /** The shift is the quotient by the power of two. */
  lemma {:induction false} ShiftIsQuotient(x: nat, n: nat)
    ensures ShiftRight(x, n) == x / Pow2(n)
  {
    if n > 0 {
      ShiftIsQuotient(x, n - 1);
      HalfOfQuotient(x, Pow2(n - 1));
    }
  }

  lemma {:induction false} ShiftOrder(x: nat, y: nat, n: nat)
    requires x <= y
    ensures ShiftRight(x, n) <= ShiftRight(y, n)
  {
    if n > 0 {
      ShiftOrder(x, y, n - 1);
    }
  }

  /** The schedule itself: streams A and B halve once per era and end with era 64; stream C is never paid. */
  lemma RewardExact(height: nat)
    ensures var era := height / HALVING_INTERVAL;
            && BlockReward(height, StreamA) == (if era < 64 then STREAM_A_REWARD / Pow2(era) else 0)
            && BlockReward(height, StreamB) == (if era < 64 then STREAM_B_REWARD / Pow2(era) else 0)
            && BlockReward(height, StreamC) == 0
  {
    ShiftIsQuotient(STREAM_A_REWARD, height / HALVING_INTERVAL);
    ShiftIsQuotient(STREAM_B_REWARD, height / HALVING_INTERVAL);
  }

  /** Stream A pays the most at every height. */
  lemma StreamAPaysMost(height: nat, stream: Stream)
    ensures BlockReward(height, stream) <= BlockReward(height, StreamA)
  {
    if height / HALVING_INTERVAL < 64 {
      ShiftOrder(STREAM_B_REWARD, STREAM_A_REWARD, height / HALVING_INTERVAL);
    }
  }

  // ---------------------------------------------------------------- the schedule as a whole

  /** Rewards of all heights below n, if Stream A took every one. */
  function Schedule(n: nat): nat {
    if n == 0 then 0 else Schedule(n - 1) + BlockReward(n - 1, StreamA)
  }

  /** One reward of each of the first `eras` eras. */
  function EraSum(eras: nat): nat {
    if eras == 0 then 0 else EraSum(eras - 1) + ShiftRight(STREAM_A_REWARD, eras - 1)
  }

  /** The eras add up to less than twice the first: what is missing is at least the last one. */
  lemma {:induction false} EraSumBound(eras: nat)
    requires eras > 0
    ensures EraSum(eras) + ShiftRight(STREAM_A_REWARD, eras - 1) <= 2 * STREAM_A_REWARD
  {
    if eras > 1 {
      EraSumBound(eras - 1);
    } else {
      assert EraSum(1) == EraSum(0) + ShiftRight(STREAM_A_REWARD, 0);
    }
  }

  lemma {:induction false} ScheduleOfEras(era: nat, rest: nat)
    requires era < 64 && rest <= HALVING_INTERVAL
    ensures Schedule(era * HALVING_INTERVAL + rest) ==
            HALVING_INTERVAL * EraSum(era) + rest * ShiftRight(STREAM_A_REWARD, era)
    decreases era, rest
  {
    if rest > 0 {
      ScheduleOfEras(era, rest - 1);
      var h := era * HALVING_INTERVAL + (rest - 1);
      Quotient(h, HALVING_INTERVAL, era);
      assert rest * ShiftRight(STREAM_A_REWARD, era) ==
             (rest - 1) * ShiftRight(STREAM_A_REWARD, era) + ShiftRight(STREAM_A_REWARD, era);
    } else if era > 0 {
      ScheduleOfEras(era - 1, HALVING_INTERVAL);
      assert (era - 1) * HALVING_INTERVAL + HALVING_INTERVAL == era * HALVING_INTERVAL;
    }
  }

  lemma ShiftPositive(x: nat, n: nat)
    requires x >= Pow2(n)
    ensures ShiftRight(x, n) > 0
  {
    ShiftIsQuotient(x, n);
    QuotientAtLeast(x, Pow2(n), 1);
  }

  lemma Pow2Byte(n: nat)
    ensures Pow2(n + 8) == 256 * Pow2(n)
  {
    assert Pow2(n + 4) == 2 * Pow2(n + 3) == 4 * Pow2(n + 2) == 8 * Pow2(n + 1) == 16 * Pow2(n);
    assert Pow2(n + 8) == 2 * Pow2(n + 7) == 4 * Pow2(n + 6) == 8 * Pow2(n + 5) == 16 * Pow2(n + 4);
  }

  lemma TwoTo64()
    ensures Pow2(64) == TWO_64
  {
    Pow2Byte(0);
    Pow2Byte(8);
    Pow2Byte(16);
    Pow2Byte(24);
    Pow2Byte(32);
    Pow2Byte(40);
    Pow2Byte(48);
    Pow2Byte(56);
  }

  lemma RewardNeverExhaustedEarly(era: nat)
    requires era < 64
    ensures ShiftRight(STREAM_A_REWARD, era) > 0
  {
    TwoTo64();
    Pow2Monotone(era + 1, 64);
    ShiftPositive(STREAM_A_REWARD, era);
  }

  lemma EraScheduleBound(era: nat, rest: nat)
    requires era < 64 && rest <= HALVING_INTERVAL
    ensures Schedule(era * HALVING_INTERVAL + rest) < 2 * HALVING_INTERVAL * STREAM_A_REWARD
  {
    var a := ShiftRight(STREAM_A_REWARD, era);
    ScheduleOfEras(era, rest);
    EraSumBound(era + 1);
    RewardNeverExhaustedEarly(era);
    MulOrder(rest, HALVING_INTERVAL, a);
    assert HALVING_INTERVAL * EraSum(era) + HALVING_INTERVAL * a == HALVING_INTERVAL * EraSum(era + 1);
  }

  lemma {:induction false} ScheduleEnds(n: nat)
    requires n >= 64 * HALVING_INTERVAL
    ensures Schedule(n) == Schedule(64 * HALVING_INTERVAL)
  {
    if n > 64 * HALVING_INTERVAL {
      ScheduleEnds(n - 1);
    }
  }

  lemma ScheduleBound(n: nat)
    ensures Schedule(n) < 2 * HALVING_INTERVAL * STREAM_A_REWARD
  {
    if n < 64 * HALVING_INTERVAL {
      EraScheduleBound(n / HALVING_INTERVAL, n % HALVING_INTERVAL);
    } else {
      ScheduleEnds(n);
      EraScheduleBound(63, HALVING_INTERVAL);
    }
  }

  // ---------------------------------------------------------------- any set of rewarded blocks

  datatype Credit = Credit(height: nat, stream: Stream)

  /** Total subsidy of a list of rewarded blocks. */
  function Minted(credits: seq<Credit>): nat {
    if credits == [] then 0 else BlockReward(credits[0].height, credits[0].stream) + Minted(credits[1..])
  }

  ghost predicate DistinctHeights(credits: seq<Credit>) {
    forall i, j | 0 <= i < j < |credits| :: credits[i].height != credits[j].height
  }

  lemma {:induction false} MintedWithout(credits: seq<Credit>, i: nat)
    requires i < |credits|
    ensures Minted(credits) ==
            Minted(credits[..i] + credits[i + 1..]) + BlockReward(credits[i].height, credits[i].stream)
    decreases |credits|
  {
    if i == 0 {
      assert credits[..0] + credits[1..] == credits[1..];
    } else {
      MintedWithout(credits[1..], i - 1);
      var rest := credits[..i] + credits[i + 1..];
      assert rest[1..] == credits[1..][..i - 1] + credits[1..][i..];
    }
  }

  /** Distinct heights below n earn at most the schedule up to n. */
  lemma {:induction false} MintedWithinSchedule(credits: seq<Credit>, n: nat)
    requires DistinctHeights(credits) && forall i | 0 <= i < |credits| :: credits[i].height < n
    ensures Minted(credits) <= Schedule(n)
    decreases n
  {
    if n == 0 {
      assert credits == [];
    } else if i :| 0 <= i < |credits| && credits[i].height == n - 1 {
      var rest := credits[..i] + credits[i + 1..];
      MintedWithout(credits, i);
      StreamAPaysMost(n - 1, credits[i].stream);
      assert forall j | 0 <= j < |rest| :: rest[j] == credits[if j < i then j else j + 1];
      MintedWithinSchedule(rest, n - 1);
    } else {
      MintedWithinSchedule(credits, n - 1);
    }
  }

  function Above(credits: seq<Credit>): (n: nat)
    ensures forall i | 0 <= i < |credits| :: credits[i].height < n
  {
    if credits == [] then 0 else Max(credits[0].height + 1, Above(credits[1..]))
  }

  /**
   * However many blocks are rewarded and whichever stream gets each, distinct numbers mint less than
   * two intervals of full Stream A rewards, which is below the maximum supply.
   */
  lemma SupplyBound(credits: seq<Credit>)
    requires DistinctHeights(credits)
    ensures Minted(credits) < 2 * HALVING_INTERVAL * STREAM_A_REWARD < MAX_SUPPLY
  {
    MintedWithinSchedule(credits, Above(credits));
    ScheduleBound(Above(credits));
  }

  // ---------------------------------------------------------------- numbers rewarded more than once

  function Heights(cs: seq<Credit>): (hs: seq<nat>)
    ensures |hs| == |cs| && forall i | 0 <= i < |cs| :: hs[i] == cs[i].height
  {
    seq(|cs|, i requires 0 <= i < |cs| => cs[i].height)
  }

  /** The first block of each height, in order. */
  function Firsts(cs: seq<Credit>): seq<Credit> {
    if cs == [] then []
    else
      var init, c := cs[..|cs| - 1], cs[|cs| - 1];
      Firsts(init) + if c.height in Heights(init) then [] else [c]
  }

  /** All the others. */
  function Repeats(cs: seq<Credit>): seq<Credit> {
    if cs == [] then []
    else
      var init, c := cs[..|cs| - 1], cs[|cs| - 1];
      Repeats(init) + if c.height in Heights(init) then [c] else []
  }

  lemma MintedPush(cs: seq<Credit>, c: Credit)
    ensures Minted(cs + [c]) == Minted(cs) + BlockReward(c.height, c.stream)
  {
    MintedWithout(cs + [c], |cs|);
    assert (cs + [c])[..|cs|] + (cs + [c])[|cs| + 1..] == cs;
  }

  lemma {:induction false} MintedSplit(cs: seq<Credit>)
    ensures Minted(cs) == Minted(Firsts(cs)) + Minted(Repeats(cs))
  {
    if cs != [] {
      var init, c := cs[..|cs| - 1], cs[|cs| - 1];
      assert cs == init + [c];
      MintedSplit(init);
      MintedPush(init, c);
      MintedPush(Firsts(init), c);
      MintedPush(Repeats(init), c);
      assert Firsts(init) + [] == Firsts(init) && Repeats(init) + [] == Repeats(init);
    }
  }

  lemma HeightsPush(cs: seq<Credit>, c: Credit, n: nat)
    ensures multiset(Heights(cs + [c]))[n] == multiset(Heights(cs))[n] + if c.height == n then 1 else 0
  {
    assert Heights(cs + [c]) == Heights(cs) + [c.height];
  }

  lemma {:induction false} SplitCounts(cs: seq<Credit>, n: nat)
    ensures multiset(Heights(Firsts(cs)))[n] == Min(multiset(Heights(cs))[n], 1)
    ensures multiset(Heights(Repeats(cs)))[n] == multiset(Heights(cs))[n] - Min(multiset(Heights(cs))[n], 1)
  {
    if cs != [] {
      var init, c := cs[..|cs| - 1], cs[|cs| - 1];
      assert cs == init + [c];
      SplitCounts(init, n);
      HeightsPush(init, c, n);
      HeightsPush(Firsts(init), c, n);
      HeightsPush(Repeats(init), c, n);
      assert c.height in Heights(init) <==> multiset(Heights(init))[c.height] > 0;
      assert Firsts(init) + [] == Firsts(init) && Repeats(init) + [] == Repeats(init);
    }
  }

  ghost predicate AtMost(cs: seq<Credit>, m: nat) {
    forall n :: multiset(Heights(cs))[n] <= m
  }

  lemma DistinctIfOnce(cs: seq<Credit>)
    requires AtMost(cs, 1)
    ensures DistinctHeights(cs)
  {
    var hs := Heights(cs);
    forall i, j | 0 <= i < j < |cs|
      ensures hs[i] != hs[j]
    {
      assert hs == hs[..j] + [hs[j]] + hs[j + 1..];
      assert hs[i] in hs[..j];
      assert multiset(hs)[hs[j]] == multiset(hs[..j])[hs[j]] + 1 + multiset(hs[j + 1..])[hs[j]];
    }
  }

  lemma SplitAtMost(cs: seq<Credit>, m: nat)
    requires AtMost(cs, m + 1)
    ensures AtMost(Firsts(cs), 1) && AtMost(Repeats(cs), m)
  {
    forall n
      ensures multiset(Heights(Firsts(cs)))[n] <= 1 && multiset(Heights(Repeats(cs)))[n] <= m
    {
      SplitCounts(cs, n);
    }
  }

  /** All an endless schedule of stream A rewards comes to, at most. */
  const ONE_SCHEDULE: nat := 2 * HALVING_INTERVAL * STREAM_A_REWARD

  lemma OnceSupply(cs: seq<Credit>)
    requires AtMost(cs, 1)
    ensures Minted(cs) < ONE_SCHEDULE
  {
    DistinctIfOnce(cs);
    SupplyBound(cs);
  }

  lemma OneMore(a: nat, b: nat, m: nat, one: nat)
    requires a < one && b <= m * one
    ensures a + b < (m + 1) * one
  {
  }

  lemma NoneMinted(cs: seq<Credit>)
    requires AtMost(cs, 0)
    ensures cs == []
  {
    assert multiset(Heights(cs)) == multiset{};
    assert |multiset(Heights(cs))| == |Heights(cs)|;
  }

  /** When no number is rewarded more than m + 1 times, less than m + 1 schedules are paid. */
  lemma {:induction false} RepeatedSupply(cs: seq<Credit>, m: nat)
    requires AtMost(cs, m + 1)
    ensures Minted(cs) < (m + 1) * ONE_SCHEDULE
    decreases m
  {
    MintedSplit(cs);
    SplitAtMost(cs, m);
    OnceSupply(Firsts(cs));
    if m == 0 {
      NoneMinted(Repeats(cs));
    } else {
      RepeatedSupply(Repeats(cs), m - 1);
    }
    OneMore(Minted(Firsts(cs)), Minted(Repeats(cs)), m, ONE_SCHEDULE);
  }

  lemma SevenSchedulesFit(k: nat)
    requires k <= 6
    ensures (k + 1) * ONE_SCHEDULE < MAX_SUPPLY
  {
    MulOrder(k + 1, 7, ONE_SCHEDULE);
  }
}
