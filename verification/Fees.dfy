/**
 * The fee market: the base fee rule over chains of blocks, and the settlement of a block's fees.
 */
module Fees {
  import opened Types

  datatype Transaction = Transaction(
    hash: Hash,
    sender: nat,
    nonce: nat,
    fee: nat,
    gasLimit: nat,
    maxFeePerGas: Option<nat>,
    maxPriorityFeePerGas: Option<nat>)

  const BASE_FEE_INITIAL: nat := 1_000_000_000
  const BASE_FEE_MAX_CHANGE_DENOMINATOR: nat := 8
  const ELASTICITY_MULTIPLIER: nat := 2

  // ---------------------------------------------------------------- base fee

  function Target(gasLimit: nat): nat {
    gasLimit / ELASTICITY_MULTIPLIER
  }

  /** An eighth of the fee, in proportion to the distance from the target. */
  function Change(fee: nat, distance: nat, target: nat): nat
    requires target > 0
  {
    fee * distance / target / BASE_FEE_MAX_CHANGE_DENOMINATOR
  }

  /** The source divides by the target, so a limit below two is not usable. */
  function BaseFee(parent: nat, gasUsed: nat, gasLimit: nat): nat
    requires gasLimit >= 2
  {
    var target := Target(gasLimit);
    if gasUsed == target then parent
    else if gasUsed > target then parent + Max(Change(parent, gasUsed - target, target), 1)
    else SaturatingSub(parent, Change(parent, target - gasUsed, target))
  }

  lemma DivOrder(x: nat, y: nat, d: nat)
    requires x <= y && d > 0
    ensures x / d <= y / d
  {
    MulOrder(y / d + 1, x / d, d);
  }

  lemma ChangeOrder(fee: nat, near: nat, far: nat, target: nat)
    requires near <= far && target > 0
    ensures Change(fee, near, target) <= Change(fee, far, target)
  {
    MulOrder(near, far, fee);
    DivOrder(fee * near, fee * far, target);
  }

  lemma ChangeAtMost(fee: nat, distance: nat, target: nat)
    requires distance <= target && target > 0
    ensures Change(fee, distance, target) <= fee / 8
  {
    ChangeOrder(fee, distance, target, target);
    Quotient(fee * target, target, fee);
  }

  /** The two roundings together round the exact eighth-share down once. */
  lemma ChangeIsFloor(fee: nat, distance: nat, target: nat)
    requires target > 0
    ensures var c := Change(fee, distance, target);
            (8 * c) * target <= fee * distance < (8 * c + 8) * target
  {
    var x := fee * distance;
    var a := x / target;
    MulOrder(8 * (a / 8), a, target);
    MulOrder(a + 1, 8 * (a / 8) + 8, target);
  }

  lemma ChangePositive(fee: nat, distance: nat, target: nat)
    requires target > 0
    ensures Change(fee, distance, target) > 0 <==> fee * distance >= 8 * target
  {
    var x := fee * distance;
    if x >= 8 * target {
      QuotientAtLeast(x, target, 8);
    } else {
      MulOrder(8, x / target, target);
    }
  }

  /** No block lowers the fee by more than an eighth; one of at most twice the target raises it by an eighth or one. */
  lemma BaseFeeMovesSlowly(parent: nat, gasUsed: nat, gasLimit: nat)
    requires gasLimit >= 2
    ensures BaseFee(parent, gasUsed, gasLimit) >= parent - parent / 8
    ensures gasUsed <= 2 * Target(gasLimit) ==> BaseFee(parent, gasUsed, gasLimit) <= parent + Max(1, parent / 8)
  {
    var target := Target(gasLimit);
    if gasUsed < target {
      ChangeAtMost(parent, target - gasUsed, target);
    } else if gasUsed <= 2 * target {
      ChangeAtMost(parent, gasUsed - target, target);
    }
  }

  /**
   * The rule of the Specification section of EIP-1559, for the fee itself. Above the target it rises by the eighth
   * share rounded down, and by one where that is nothing; below the target it falls by the eighth share rounded down;
   * on the target it stays.
   */
  lemma BaseFeeExact(parent: nat, gasUsed: nat, gasLimit: nat)
    requires gasLimit >= 2
    ensures var t, f := gasLimit / 2, BaseFee(parent, gasUsed, gasLimit);
            && (gasUsed == t ==> f == parent)
            && (gasUsed > t ==>
                  && f > parent && parent * (gasUsed - t) < (8 * (f - parent) + 8) * t
                  && (f == parent + 1 || 8 * (f - parent) * t <= parent * (gasUsed - t)))
            && (gasUsed < t ==>
                  8 * (parent - f) * t <= parent * (t - gasUsed) < (8 * (parent - f) + 8) * t)
  {
    var t := Target(gasLimit);
    if gasUsed > t {
      ChangeIsFloor(parent, gasUsed - t, t);
      RisesByOne(Change(parent, gasUsed - t, t), t);
    } else if gasUsed < t {
      ChangeIsFloor(parent, t - gasUsed, t);
      ChangeAtMost(parent, t - gasUsed, t);
    }
  }

  lemma RisesByOne(change: nat, t: nat)
    ensures (8 * change + 8) * t <= (8 * Max(change, 1) + 8) * t
  {
    MulOrder(8 * change + 8, 8 * Max(change, 1) + 8, t);
  }

  /** A fuller parent block never gives a lower fee. */
  lemma BaseFeeMonotone(parent: nat, less: nat, more: nat, gasLimit: nat)
    requires gasLimit >= 2 && less <= more
    ensures BaseFee(parent, less, gasLimit) <= BaseFee(parent, more, gasLimit)
  {
    var target := Target(gasLimit);
    if more < target {
      ChangeOrder(parent, target - more, target - less, target);
    } else if less > target {
      ChangeOrder(parent, less - target, more - target, target);
    }
  }

  /** Exactly when the fee rises, and exactly when it falls: a small fee can stay put under an empty block. */
  lemma BaseFeeDirection(parent: nat, gasUsed: nat, gasLimit: nat)
    requires gasLimit >= 2
    ensures BaseFee(parent, gasUsed, gasLimit) > parent <==> gasUsed > Target(gasLimit)
    ensures BaseFee(parent, gasUsed, gasLimit) < parent <==>
              gasUsed < Target(gasLimit) && parent * (Target(gasLimit) - gasUsed) >= 8 * Target(gasLimit)
  {
    var target := Target(gasLimit);
    if gasUsed < target {
      ChangeAtMost(parent, target - gasUsed, target);
      ChangePositive(parent, target - gasUsed, target);
    }
  }

  /** The fee after a chain of blocks with the given gas totals. */
  function FeeAfter(fee: nat, gas: seq<nat>, gasLimit: nat): nat
    requires gasLimit >= 2
    decreases |gas|
  {
    if gas == [] then fee else FeeAfter(BaseFee(fee, gas[0], gasLimit), gas[1..], gasLimit)
  }

  /** Over every chain, full or empty blocks in any order, the fee never falls below seven. */
  lemma {:induction false} BaseFeeFloor(fee: nat, gas: seq<nat>, gasLimit: nat)
    requires gasLimit >= 2 && fee >= 7
    ensures FeeAfter(fee, gas, gasLimit) >= 7
    decreases |gas|
  {
    if gas != [] {
      BaseFeeMovesSlowly(fee, gas[0], gasLimit);
      BaseFeeFloor(BaseFee(fee, gas[0], gasLimit), gas[1..], gasLimit);
    }
  }

  lemma EmptyBlock(fee: nat, gasLimit: nat)
    requires gasLimit >= 2
    ensures BaseFee(fee, 0, gasLimit) == fee - fee / 8
  {
    Quotient(fee * Target(gasLimit), Target(gasLimit), fee);
  }

  function EmptyBlocks(n: nat): seq<nat> {
    seq(n, _ => 0)
  }

  /** Seven is the exact floor: enough empty blocks bring every higher fee to exactly seven, and leave it there. */
  lemma {:induction false} FloorReached(fee: nat, n: nat, gasLimit: nat)
    requires gasLimit >= 2 && fee >= 7 && n >= fee - 7
    ensures FeeAfter(fee, EmptyBlocks(n), gasLimit) == 7
    decreases n
  {
    if n > 0 {
      EmptyBlock(fee, gasLimit);
      assert EmptyBlocks(n)[1..] == EmptyBlocks(n - 1);
      FloorReached(fee - fee / 8, n - 1, gasLimit);
    }
  }

  // ---------------------------------------------------------------- one transaction

  /** The gas price of a legacy transaction; zero without gas. */
  function LegacyPrice(tx: Transaction): nat {
    if tx.gasLimit > 0 then tx.fee / tx.gasLimit else 0
  }

  function PriorityCap(tx: Transaction): nat {
    if tx.maxPriorityFeePerGas.Some? then tx.maxPriorityFeePerGas.value else 0
  }

  function EffectiveTip(tx: Transaction, baseFee: nat): nat {
    match tx.maxFeePerGas
    case Some(maxFee) => Min(PriorityCap(tx), SaturatingSub(maxFee, baseFee))
    case None => SaturatingSub(LegacyPrice(tx), baseFee)
  }

  function TotalFee(tx: Transaction, baseFee: nat): nat {
    match tx.maxFeePerGas
    case Some(maxFee) => Min(maxFee, baseFee + PriorityCap(tx)) * tx.gasLimit
    case None => tx.fee
  }

  predicate CanAfford(tx: Transaction, baseFee: nat) {
    match tx.maxFeePerGas
    case Some(maxFee) => maxFee >= baseFee
    case None => LegacyPrice(tx) >= baseFee
  }

  /** What `calculate_total_fee` puts on it, less what does not divide by a legacy transaction's gas. */
  function Priced(tx: Transaction, baseFee: nat): nat {
    if tx.maxFeePerGas.Some? then TotalFee(tx, baseFee) else LegacyPrice(tx) * tx.gasLimit
  }

  /** What the processor hands out for it: base fee and tip, for all its gas. */
  function Settled(tx: Transaction, baseFee: nat): nat {
    baseFee * tx.gasLimit + EffectiveTip(tx, baseFee) * tx.gasLimit
  }

  /** A tip within the sender's caps: at most the priority fee offered, none without one, and within the fee cap. */
  predicate WithinCaps(tx: Transaction, baseFee: nat, tip: nat) {
    && tx.maxFeePerGas.Some? && (tip > 0 ==> baseFee + tip <= tx.maxFeePerGas.value)
    && (if tx.maxPriorityFeePerGas.Some? then tip <= tx.maxPriorityFeePerGas.value else tip == 0)
  }

  /** The tip is the largest the sender's caps allow; a legacy transaction tips what its gas price leaves. */
  lemma TipIsLargest(tx: Transaction, baseFee: nat, tip: nat)
    ensures tx.maxFeePerGas.Some? ==>
              && WithinCaps(tx, baseFee, EffectiveTip(tx, baseFee))
              && (WithinCaps(tx, baseFee, tip) ==> tip <= EffectiveTip(tx, baseFee))
    ensures tx.maxFeePerGas.None? && tx.gasLimit > 0 && tx.fee >= baseFee * tx.gasLimit ==>
              (baseFee + EffectiveTip(tx, baseFee)) * tx.gasLimit <= tx.fee
              < (baseFee + EffectiveTip(tx, baseFee) + 1) * tx.gasLimit
    ensures tx.maxFeePerGas.None? && (tx.gasLimit == 0 || tx.fee < baseFee * tx.gasLimit) ==>
              EffectiveTip(tx, baseFee) == 0
  {
    if tx.maxFeePerGas.None? && tx.gasLimit > 0 {
      var price := tx.fee / tx.gasLimit;
      MulOrder(price + 1, baseFee, tx.gasLimit);
      MulOrder(baseFee, price, tx.gasLimit);
    }
  }

  /** A legacy fee exceeds its gas price times its gas by less than the gas limit. */
  lemma LegacyRemainder(tx: Transaction, baseFee: nat)
    requires tx.maxFeePerGas.None? && tx.gasLimit > 0
    ensures Priced(tx, baseFee) <= TotalFee(tx, baseFee) < Priced(tx, baseFee) + tx.gasLimit
  {
  }

  /** Base fee and tip add up to the calculated price exactly when the transaction can afford the base fee. */
  lemma PriceSplit(tx: Transaction, baseFee: nat)
    ensures var price := if tx.maxFeePerGas.Some? then Min(tx.maxFeePerGas.value, baseFee + PriorityCap(tx))
                         else LegacyPrice(tx);
            && Priced(tx, baseFee) == price * tx.gasLimit
            && price <= baseFee + EffectiveTip(tx, baseFee)
            && (price == baseFee + EffectiveTip(tx, baseFee) <==> CanAfford(tx, baseFee))
  {
  }

  lemma SettledExactly(tx: Transaction, baseFee: nat)
    ensures Priced(tx, baseFee) <= Settled(tx, baseFee)
    ensures Priced(tx, baseFee) == Settled(tx, baseFee) <==> CanAfford(tx, baseFee) || tx.gasLimit == 0
  {
    PriceSplit(tx, baseFee);
    var price := if tx.maxFeePerGas.Some? then Min(tx.maxFeePerGas.value, baseFee + PriorityCap(tx))
                 else LegacyPrice(tx);
    var paid := baseFee + EffectiveTip(tx, baseFee);
    assert Settled(tx, baseFee) == paid * tx.gasLimit;
    ScaledCompare(price, paid, tx.gasLimit);
  }

  lemma ScaledCompare(a: nat, b: nat, k: nat)
    requires a <= b
    ensures a * k <= b * k && (a * k == b * k <==> a == b || k == 0)
  {
    MulOrder(a, b, k);
    if a < b && k > 0 {
      MulOrder(a + 1, b, k);
      assert (a + 1) * k == a * k + k;
    }
  }

  // ---------------------------------------------------------------- a block

  function SettledTotal(txs: seq<Transaction>, baseFee: nat): nat {
    if txs == [] then 0 else SettledTotal(txs[..|txs| - 1], baseFee) + Settled(txs[|txs| - 1], baseFee)
  }

  function PricedTotal(txs: seq<Transaction>, baseFee: nat): nat {
    if txs == [] then 0 else PricedTotal(txs[..|txs| - 1], baseFee) + Priced(txs[|txs| - 1], baseFee)
  }

  /** The base fee on all the gas of the block. */
  function BaseTotal(txs: seq<Transaction>, baseFee: nat): nat {
    if txs == [] then 0 else BaseTotal(txs[..|txs| - 1], baseFee) + baseFee * txs[|txs| - 1].gasLimit
  }

  /** All the tips of the block. */
  function TipTotal(txs: seq<Transaction>, baseFee: nat): nat {
    if txs == [] then 0
    else
      var init, tx := txs[..|txs| - 1], txs[|txs| - 1];
      TipTotal(init, baseFee) + EffectiveTip(tx, baseFee) * tx.gasLimit
  }

  lemma {:induction false} SettledIsBaseAndTips(txs: seq<Transaction>, baseFee: nat)
    ensures SettledTotal(txs, baseFee) == BaseTotal(txs, baseFee) + TipTotal(txs, baseFee)
  {
    if txs != [] {
      SettledIsBaseAndTips(txs[..|txs| - 1], baseFee);
    }
  }

  /** Unsigned 128-bit arithmetic, wrapping. */
  function Wrap128(x: nat): nat {
    x % (U128_MAX + 1)
  }

  lemma WrapSum(x: nat, y: nat)
    ensures Wrap128(Wrap128(x) + Wrap128(y)) == Wrap128(x + y)
  {
  }

  /** The block's burned amount and its tips fit in 128 bits. */
  predicate SumsFit(txs: seq<Transaction>, baseFee: nat) {
    var tips := TipTotal(txs, baseFee);
    tips <= U128_MAX && BaseTotal(txs, baseFee) + (tips - tips / 2) <= U128_MAX
  }

  method SumFees(txs: seq<Transaction>, baseFee: nat) returns (totalBase: nat, totalTips: nat)
    ensures totalBase == Wrap128(BaseTotal(txs, baseFee)) && totalTips == Wrap128(TipTotal(txs, baseFee))
  {
    totalBase, totalTips := 0, 0;
    for i := 0 to |txs|
      invariant totalBase == Wrap128(BaseTotal(txs[..i], baseFee)) && totalTips == Wrap128(TipTotal(txs[..i], baseFee))
    {
      assert txs[..i + 1][..i] == txs[..i];
      WrapSum(BaseTotal(txs[..i], baseFee), baseFee * txs[i].gasLimit);
      WrapSum(TipTotal(txs[..i], baseFee), EffectiveTip(txs[i], baseFee) * txs[i].gasLimit);
      totalBase := Wrap128(totalBase + Wrap128(baseFee * txs[i].gasLimit));
      totalTips := Wrap128(totalTips + Wrap128(EffectiveTip(txs[i], baseFee) * txs[i].gasLimit));
    }
    assert txs[..|txs|] == txs;
  }

  /**
   * The processor's settlement, in wrapping 128-bit arithmetic. Everything settled is either burned or the miner's
   * exactly when the sums fit; then the base fee is burned whole and the tips are halved, the odd unit burned.
   */
  method SettleBlock(txs: seq<Transaction>, baseFee: nat) returns (burned: nat, minerShare: nat)
    ensures burned + minerShare == SettledTotal(txs, baseFee) <==> SumsFit(txs, baseFee)
    ensures burned + minerShare <= SettledTotal(txs, baseFee)
    ensures SumsFit(txs, baseFee) ==>
              var burnedTips := burned - BaseTotal(txs, baseFee);
              burnedTips + minerShare == TipTotal(txs, baseFee) && 0 <= burnedTips - minerShare <= 1
  {
    var totalBase, totalTips := SumFees(txs, baseFee);
    SettledIsBaseAndTips(txs, baseFee);
    SplitExactly(BaseTotal(txs, baseFee), TipTotal(txs, baseFee));
    minerShare := totalTips / 2;
    burned := Wrap128(totalBase + (totalTips - minerShare));
  }

  lemma SplitExactly(base: nat, tips: nat)
    ensures var b, p := Wrap128(base), Wrap128(tips);
            var burned := Wrap128(b + (p - p / 2));
            && burned + p / 2 <= base + tips
            && (burned + p / 2 == base + tips <==> tips <= U128_MAX && base + (tips - tips / 2) <= U128_MAX)
            && (tips <= U128_MAX && base + (tips - tips / 2) <= U128_MAX ==>
                  b == base && p == tips && burned == b + (p - p / 2))
  {
  }

  /** The block settles its calculated total fees exactly when each can afford the base fee or has no gas. */
  lemma {:induction false} SettlementConserves(txs: seq<Transaction>, baseFee: nat)
    ensures PricedTotal(txs, baseFee) <= SettledTotal(txs, baseFee)
    ensures PricedTotal(txs, baseFee) == SettledTotal(txs, baseFee) <==>
              forall tx | tx in txs :: CanAfford(tx, baseFee) || tx.gasLimit == 0
    decreases |txs|
  {
    if txs != [] {
      var (init, last) := (txs[..|txs| - 1], txs[|txs| - 1]);
      assert txs == init + [last];
      SettlementConserves(init, baseFee);
      SettledExactly(last, baseFee);
    }
  }

  // ---------------------------------------------------------------- what the chain debits

  /** The chain takes a transaction's `fee` from its sender or sponsor, whatever its caps say. */
  function DebitedTotal(txs: seq<Transaction>): nat {
    if txs == [] then 0 else DebitedTotal(txs[..|txs| - 1]) + txs[|txs| - 1].fee
  }

  /** An affordable transaction pays for what is settled exactly when it is legacy or its fee covers its price. */
  lemma PaidForExactly(tx: Transaction, baseFee: nat)
    requires CanAfford(tx, baseFee)
    ensures Settled(tx, baseFee) <= tx.fee <==> tx.maxFeePerGas.None? || TotalFee(tx, baseFee) <= tx.fee
  {
    SettledExactly(tx, baseFee);
    if tx.maxFeePerGas.None? && tx.gasLimit > 0 {
      LegacyRemainder(tx, baseFee);
    }
  }

  /** Settled beyond what was debited, transaction by transaction. */
  function Unpaid(txs: seq<Transaction>, baseFee: nat): int {
    if txs == [] then 0
    else
      var init, tx := txs[..|txs| - 1], txs[|txs| - 1];
      Unpaid(init, baseFee) + (Settled(tx, baseFee) - tx.fee)
  }

  lemma {:induction false} UnpaidIsTheGap(txs: seq<Transaction>, baseFee: nat)
    ensures SettledTotal(txs, baseFee) - DebitedTotal(txs) == Unpaid(txs, baseFee)
  {
    if txs != [] {
      UnpaidIsTheGap(txs[..|txs| - 1], baseFee);
    }
  }

  /**
   * A block of affordable transactions, and every block made of some of them, settles no more than is debited
   * exactly when each is legacy or carries a fee that covers its price.
   */
  lemma BlockPaidForExactly(txs: seq<Transaction>, baseFee: nat)
    requires forall tx | tx in txs :: CanAfford(tx, baseFee)
    ensures (forall some | PartOf(some, txs) :: SettledTotal(some, baseFee) <= DebitedTotal(some)) <==>
            (forall tx | tx in txs :: tx.maxFeePerGas.None? || TotalFee(tx, baseFee) <= tx.fee)
  {
    if forall tx | tx in txs :: tx.maxFeePerGas.None? || TotalFee(tx, baseFee) <= tx.fee {
      forall some | PartOf(some, txs)
        ensures SettledTotal(some, baseFee) <= DebitedTotal(some)
      {
        PaidForTogether(some, baseFee);
      }
    } else {
      var tx :| tx in txs && !(tx.maxFeePerGas.None? || TotalFee(tx, baseFee) <= tx.fee);
      PaidForExactly(tx, baseFee);
      assert PartOf([tx], txs);
      OneInABlock(tx, baseFee);
    }
  }

  lemma OneInABlock(tx: Transaction, baseFee: nat)
    ensures SettledTotal([tx], baseFee) == Settled(tx, baseFee) && DebitedTotal([tx]) == tx.fee
  {
    assert [tx][..0] == [];
    assert SettledTotal([], baseFee) == 0 && DebitedTotal([]) == 0;
  }

  ghost predicate PartOf(some: seq<Transaction>, txs: seq<Transaction>) {
    forall i | 0 <= i < |some| :: some[i] in txs
  }

  lemma {:induction false} PaidForTogether(txs: seq<Transaction>, baseFee: nat)
    requires forall i | 0 <= i < |txs| :: CanAfford(txs[i], baseFee)
    requires forall i | 0 <= i < |txs| :: txs[i].maxFeePerGas.None? || TotalFee(txs[i], baseFee) <= txs[i].fee
    ensures SettledTotal(txs, baseFee) <= DebitedTotal(txs)
  {
    if txs != [] {
      PaidForTogether(txs[..|txs| - 1], baseFee);
      PaidForExactly(txs[|txs| - 1], baseFee);
    }
  }

  /** A transaction with a fee of 1 and ample caps: affordable, and 42,000,000,000,000 is settled for it. */
  lemma SettledOutOfNothing(hash: Hash)
    ensures var tx := Transaction(hash, 0, 0, 1, 21_000, Some(2_000_000_000), Some(1_000_000_000));
            && CanAfford(tx, 1_000_000_000)
            && SettledTotal([tx], 1_000_000_000) == 42_000_000_000_000 && DebitedTotal([tx]) == 1
  {
    var tx := Transaction(hash, 0, 0, 1, 21_000, Some(2_000_000_000), Some(1_000_000_000));
    OneInABlock(tx, 1_000_000_000);
  }
}
