/**
 * Gas sponsorship: per-sponsor policies with a daily budget kept in a spend window.
 */
module Sponsor {
  import opened Types

  const BLOCKS_PER_DAY: nat := 17_280

  datatype Policy = Policy(
    active: bool,
    allowed: Option<seq<nat>>,
    maxFeePerTx: Option<nat>,
    expiresAt: Option<nat>,
    dailyLimit: Option<nat>,
    windowStart: nat,
    spent: nat)

  datatype Refusal = NoPolicy | Paused | Expired | NotAllowed | FeeTooHigh | OverDailyLimit

  /** Unsigned 128-bit addition that stops at the largest value. */
  function SaturatingAdd(a: nat, b: nat): nat {
    Min(a + b, U128_MAX)
  }

  predicate InWindow(p: Policy, block: nat) {
    SaturatingSub(block, p.windowStart) < BLOCKS_PER_DAY
  }

  predicate WithinDailyLimit(p: Policy, fee: nat, block: nat) {
    p.dailyLimit.None? || SaturatingAdd(if InWindow(p, block) then p.spent else 0, fee) <= p.dailyLimit.value
  }

  function Check(policies: map<nat, Policy>, sponsor: nat, sender: nat, fee: nat, block: nat): Result<(), Refusal> {
    if sponsor !in policies then Err(NoPolicy)
    else
      var p := policies[sponsor];
      if !p.active then Err(Paused)
      else if p.expiresAt.Some? && block > p.expiresAt.value then Err(Expired)
      else if p.allowed.Some? && sender !in p.allowed.value then Err(NotAllowed)
      else if p.maxFeePerTx.Some? && fee > p.maxFeePerTx.value then Err(FeeTooHigh)
      else if !WithinDailyLimit(p, fee, block) then Err(OverDailyLimit)
      else Ok(())
  }

  /** Which rule a refusal names: the first of six that the request breaks. */
  lemma RefusalNamed(policies: map<nat, Policy>, sponsor: nat, sender: nat, fee: nat, block: nat)
    ensures var r := Check(policies, sponsor, sender, fee, block);
            && (r == Err(NoPolicy) <==> sponsor !in policies)
            && (sponsor in policies ==>
                  var p := policies[sponsor];
                  var open := p.expiresAt.None? || block <= p.expiresAt.value;
                  var allowed := p.allowed.None? || sender in p.allowed.value;
                  var small := p.maxFeePerTx.None? || fee <= p.maxFeePerTx.value;
                  && (r == Err(Paused) <==> !p.active)
                  && (r == Err(Expired) <==> p.active && !open)
                  && (r == Err(NotAllowed) <==> p.active && open && !allowed)
                  && (r == Err(FeeTooHigh) <==> p.active && open && allowed && !small)
                  && (r == Err(OverDailyLimit) ==> p.active && open && allowed && small && p.dailyLimit.Some?))
  {
  }

  function RecordSpend(p: Policy, fee: nat, block: nat): Policy {
    if !InWindow(p, block) then p.(windowStart := block, spent := fee)
    else p.(spent := SaturatingAdd(p.spent, fee))
  }

  class SponsorRegistry {
    var policies: map<nat, Policy>

    constructor ()
      ensures policies == map[]
    {
      policies := map[];
    }

    method Register(sponsor: nat, policy: Policy)
      modifies this
      ensures policies == old(policies)[sponsor := policy]
    {
      policies := policies[sponsor := policy];
    }

    method Deregister(sponsor: nat) returns (existed: bool)
      modifies this
      ensures policies == old(policies) - {sponsor} && existed == (sponsor in old(policies))
    {
      existed := sponsor in policies;
      policies := policies - {sponsor};
    }

    /** A request passes exactly when the sponsor's policy is in force, covers it, and has the budget for it. */
    method CheckRequest(sponsor: nat, sender: nat, fee: nat, block: nat) returns (r: Result<(), Refusal>)
      ensures r == Check(policies, sponsor, sender, fee, block)
      ensures r.Ok? <==>
        && sponsor in policies && policies[sponsor].active
        && (policies[sponsor].expiresAt.Some? ==> block <= policies[sponsor].expiresAt.value)
        && (policies[sponsor].allowed.Some? ==> sender in policies[sponsor].allowed.value)
        && (policies[sponsor].maxFeePerTx.Some? ==> fee <= policies[sponsor].maxFeePerTx.value)
        && WithinDailyLimit(policies[sponsor], fee, block)
    {
      if sponsor !in policies {
        return Err(NoPolicy);
      }
      var p := policies[sponsor];
      if !p.active {
        return Err(Paused);
      }
      if p.expiresAt.Some? && block > p.expiresAt.value {
        return Err(Expired);
      }
      if p.allowed.Some? && sender !in p.allowed.value {
        return Err(NotAllowed);
      }
      if p.maxFeePerTx.Some? && fee > p.maxFeePerTx.value {
        return Err(FeeTooHigh);
      }
      r := if WithinDailyLimit(p, fee, block) then Ok(()) else Err(OverDailyLimit);
    }

    method RecordSponsored(sponsor: nat, fee: nat, block: nat)
      modifies this
      ensures policies == if sponsor in old(policies)
                          then old(policies)[sponsor := RecordSpend(old(policies)[sponsor], fee, block)]
                          else old(policies)
    {
      if sponsor in policies {
        policies := policies[sponsor := RecordSpend(policies[sponsor], fee, block)];
      }
    }
  }

  // ---------------------------------------------------------------- runs

  datatype Request = Request(sponsor: nat, sender: nat, fee: nat, block: nat)

  /** The policies with the list of requests approved so far. */
  datatype Book = Book(policies: map<nat, Policy>, approved: seq<Request>)

  function Serve(k: Book, q: Request): Book {
    if Check(k.policies, q.sponsor, q.sender, q.fee, q.block).Err? then k
    else Book(k.policies[q.sponsor := RecordSpend(k.policies[q.sponsor], q.fee, q.block)], k.approved + [q])
  }

  function Run(k: Book, qs: seq<Request>): Book
    decreases |qs|
  {
    if qs == [] then k else Run(Serve(k, qs[0]), qs[1..])
  }

  /** A policy covers a request: in force, for this sender and fee, and with the budget left in the window. */
  predicate Covers(p: Policy, q: Request) {
    && p.active && (p.expiresAt.None? || q.block <= p.expiresAt.value)
    && (p.allowed.None? || q.sender in p.allowed.value)
    && (p.maxFeePerTx.None? || q.fee <= p.maxFeePerTx.value)
    && (p.dailyLimit.None? || p.dailyLimit.value >= U128_MAX ||
        (if q.block < p.windowStart + 17_280 then p.spent else 0) + q.fee <= p.dailyLimit.value)
  }

  /**
   * A request is approved exactly when its sponsor's policy covers it. Then only that policy's window changes: it gains
   * the fee, or starts anew with it once a day of blocks has passed.
   */
  lemma ServedExactly(k: Book, q: Request)
    ensures var r := Serve(k, q);
            var approved := q.sponsor in k.policies && Covers(k.policies[q.sponsor], q);
            && (!approved ==> r == k)
            && (approved ==>
                  var p := k.policies[q.sponsor];
                  && r.approved == k.approved + [q] && r.policies - {q.sponsor} == k.policies - {q.sponsor}
                  && q.sponsor in r.policies
                  && r.policies[q.sponsor] ==
                     if q.block < p.windowStart + 17_280 then p.(spent := Min(p.spent + q.fee, U128_MAX))
                     else p.(windowStart := q.block, spent := q.fee))
  {
  }

  /** What a sponsor paid for blocks in [lo, hi). */
  function Paid(qs: seq<Request>, sponsor: nat, lo: nat, hi: nat): nat {
    if qs == [] then 0
    else
      var q := qs[|qs| - 1];
      Paid(qs[..|qs| - 1], sponsor, lo, hi) + if q.sponsor == sponsor && lo <= q.block < hi then q.fee else 0
  }

  /** No block comes more than `slack` below the highest before it, `top` at the start. */
  ghost predicate NearlyOrdered(qs: seq<Request>, top: nat, slack: nat) {
    && (forall i | 0 <= i < |qs| :: top <= qs[i].block + slack)
    && (forall i, j | 0 <= i < j < |qs| :: qs[i].block <= qs[j].block + slack)
  }

  ghost predicate Budgeted(p: Policy, limit: nat) {
    p.dailyLimit == Some(limit) && p.spent <= limit && limit < U128_MAX
  }

  /** Twice the limit when blocks never go back by more than one, three times it up to a day. */
  function DayBound(limit: nat, slack: nat): nat {
    if slack <= 1 then 2 * limit else 3 * limit
  }

  /**
   * How much of the payments for [b, b + one day) can be outstanding, by how many windows took part: none, the current
   * one, the current and the one before, and so on. A window after the first began at a block already seen, and a
   * window that began late enough takes no more of the day's payments.
   */
  ghost predicate Outstanding(paid: nat, spent: nat, start: nat, limit: nat, b: nat, top: nat, slack: nat) {
    || paid == 0
    || (paid <= spent && start + BLOCKS_PER_DAY > b)
    || (paid <= limit + spent && b < start <= top)
    || (paid <= Min(2 * limit + spent, DayBound(limit, slack)) && b + BLOCKS_PER_DAY < start <= top)
    || (paid <= DayBound(limit, slack) && b + 2 * BLOCKS_PER_DAY < start <= top)
  }

  ghost predicate Bounded(k: Book, sponsor: nat, limit: nat, b: nat, top: nat, slack: nat) {
    && sponsor in k.policies && Budgeted(k.policies[sponsor], limit)
    && Outstanding(Paid(k.approved, sponsor, b, b + BLOCKS_PER_DAY), k.policies[sponsor].spent,
                   k.policies[sponsor].windowStart, limit, b, top, slack)
  }

  lemma PaidPush(qs: seq<Request>, q: Request, sponsor: nat, lo: nat, hi: nat)
    ensures Paid(qs + [q], sponsor, lo, hi) ==
            Paid(qs, sponsor, lo, hi) + if q.sponsor == sponsor && lo <= q.block < hi then q.fee else 0
  {
    assert (qs + [q])[..|qs|] == qs;
  }

  lemma RecordBudgeted(p: Policy, fee: nat, block: nat, limit: nat)
    requires Budgeted(p, limit) && WithinDailyLimit(p, fee, block)
    ensures var r := RecordSpend(p, fee, block);
            && Budgeted(r, limit)
            && r.spent == (if InWindow(p, block) then p.spent else 0) + fee
            && r.windowStart == if InWindow(p, block) then p.windowStart else block
  {
  }

  lemma SpendOutstanding(paid: nat, p: Policy, fee: nat, block: nat, limit: nat, b: nat, top: nat, slack: nat)
    requires Budgeted(p, limit) && WithinDailyLimit(p, fee, block) && top <= block + slack && slack < BLOCKS_PER_DAY
    requires Outstanding(paid, p.spent, p.windowStart, limit, b, top, slack)
    ensures var r := RecordSpend(p, fee, block);
            Outstanding(paid + if b <= block < b + BLOCKS_PER_DAY then fee else 0, r.spent, r.windowStart,
                        limit, b, Max(top, block), slack)
  {
    RecordBudgeted(p, fee, block, limit);
  }

  lemma ServeBounded(k: Book, q: Request, sponsor: nat, limit: nat, b: nat, top: nat, slack: nat)
    requires Bounded(k, sponsor, limit, b, top, slack) && top <= q.block + slack && slack < BLOCKS_PER_DAY
    ensures Bounded(Serve(k, q), sponsor, limit, b, Max(top, q.block), slack)
  {
    PaidPush(k.approved, q, sponsor, b, b + BLOCKS_PER_DAY);
    if q.sponsor == sponsor && Check(k.policies, q.sponsor, q.sender, q.fee, q.block).Ok? {
      var p := k.policies[sponsor];
      RecordBudgeted(p, q.fee, q.block, limit);
      SpendOutstanding(Paid(k.approved, sponsor, b, b + BLOCKS_PER_DAY), p, q.fee, q.block, limit, b, top, slack);
    }
  }

  lemma {:induction false} RunBounded(k: Book, qs: seq<Request>, sponsor: nat, limit: nat, b: nat, top: nat, slack: nat)
    returns (end: nat)
    requires Bounded(k, sponsor, limit, b, top, slack) && NearlyOrdered(qs, top, slack) && slack < BLOCKS_PER_DAY
    ensures Bounded(Run(k, qs), sponsor, limit, b, end, slack)
    decreases |qs|
  {
    end := top;
    if qs != [] {
      ServeBounded(k, qs[0], sponsor, limit, b, top, slack);
      end := RunBounded(Serve(k, qs[0]), qs[1..], sponsor, limit, b, Max(top, qs[0].block), slack);
    }
  }

  /**
   * Over every run of requests, by any senders and for any sponsors, a sponsor with a daily limit below the 128-bit
   * maximum never has more than the limit in its window, and over any 17,280 consecutive blocks never pays more than
   * twice the limit when blocks go back by at most one, or three times it when they go back by less than a day.
   */
  lemma SponsorBudget(policies: map<nat, Policy>, qs: seq<Request>, sponsor: nat, limit: nat, b: nat, slack: nat)
    requires sponsor in policies && Budgeted(policies[sponsor], limit)
    requires NearlyOrdered(qs, 0, slack) && slack < BLOCKS_PER_DAY
    ensures var k := Run(Book(policies, []), qs);
            && sponsor in k.policies && k.policies[sponsor].spent <= limit
            && Paid(k.approved, sponsor, b, b + BLOCKS_PER_DAY) <= DayBound(limit, slack)
  {
    var end := RunBounded(Book(policies, []), qs, sponsor, limit, b, 0, slack);
  }

  lemma RunTwo(k: Book, q: Request, r: Request)
    ensures Run(k, [q, r]) == Serve(Serve(k, q), r)
  {
    assert [q, r][1..] == [r];
    assert Run(Serve(k, q), [r]) == Run(Serve(Serve(k, q), r), []);
  }

  function OpenPolicy(limit: nat, start: nat): Policy {
    Policy(true, None, None, None, Some(limit), start, 0)
  }

  /**
   * Twice the limit is reached within two consecutive blocks: the window does not slide, so the last block of one
   * window and the first of the next each take a whole day's budget.
   */
  lemma TwiceInTwoBlocks(limit: nat, start: nat)
    requires limit < U128_MAX
    ensures var end := start + BLOCKS_PER_DAY;
            var k := Run(Book(map[0 := OpenPolicy(limit, start)], []),
                         [Request(0, 0, limit, end - 1), Request(0, 0, limit, end)]);
            Paid(k.approved, 0, end - 1, end + 1) == 2 * limit
  {
    var end := start + BLOCKS_PER_DAY;
    var q, r := Request(0, 0, limit, end - 1), Request(0, 0, limit, end);
    var k := Book(map[0 := OpenPolicy(limit, start)], []);
    RunTwo(k, q, r);
    assert Serve(k, q).approved == [] + [q];
    assert Serve(Serve(k, q), r).approved == [] + [q] + [r];
    PaidPush([] + [q], r, 0, end - 1, end + 1);
    PaidPush([], q, 0, end - 1, end + 1);
  }

  lemma {:induction false} RunAppend(k: Book, xs: seq<Request>, ys: seq<Request>)
    ensures Run(k, xs + ys) == Run(Run(k, xs), ys)
    decreases |xs|
  {
    if xs == [] {
      assert xs + ys == ys;
    } else {
      assert (xs + ys)[1..] == xs[1..] + ys;
      RunAppend(Serve(k, xs[0]), xs[1..], ys);
    }
  }

  /**
   * Two blocks back are enough to reach three times the limit: a request that opens a new window is followed by one
   * for an earlier block, which the new window takes although the day before it is used up.
   */
  lemma ThriceWhenTwoBack(limit: nat)
    requires limit < U128_MAX
    ensures var d := BLOCKS_PER_DAY;
            var qs := [Request(0, 0, limit, d), Request(0, 0, limit, d + 1)]
                      + [Request(0, 0, 0, 2 * d + 1), Request(0, 0, limit, 2 * d - 1)];
            && NearlyOrdered(qs, 0, 2)
            && Paid(Run(Book(map[0 := OpenPolicy(limit, 1)], []), qs).approved, 0, d, 2 * d) == 3 * limit
  {
    var d := BLOCKS_PER_DAY;
    var x, y := Request(0, 0, limit, d), Request(0, 0, limit, d + 1);
    var z, v := Request(0, 0, 0, 2 * d + 1), Request(0, 0, limit, 2 * d - 1);
    var k := Book(map[0 := OpenPolicy(limit, 1)], []);
    RunAppend(k, [x, y], [z, v]);
    SecondWindow(limit);
    ThirdWindow(limit, [x, y]);
    assert [] + [x] == [x] && [x] + [y] == [x, y];
    PaidPush([], x, 0, d, 2 * d);
    PaidPush([x], y, 0, d, 2 * d);
    PaidPush([x, y], z, 0, d, 2 * d);
    PaidPush([x, y] + [z], v, 0, d, 2 * d);
  }

  /** The last block of the first window takes a whole limit, and so does the first of the second. */
  lemma SecondWindow(limit: nat)
    requires limit < U128_MAX
    ensures var d := BLOCKS_PER_DAY;
            var x, y := Request(0, 0, limit, d), Request(0, 0, limit, d + 1);
            Run(Book(map[0 := OpenPolicy(limit, 1)], []), [x, y]) ==
            Book(map[0 := OpenPolicy(limit, d + 1).(spent := limit)], [x, y])
  {
    var d := BLOCKS_PER_DAY;
    var x, y := Request(0, 0, limit, d), Request(0, 0, limit, d + 1);
    var k := Book(map[0 := OpenPolicy(limit, 1)], []);
    RunTwo(k, x, y);
    assert [] + [x] == [x] && [x] + [y] == [x, y];
    assert Serve(k, x) == Book(map[0 := OpenPolicy(limit, 1).(spent := limit)], [x]);
  }

  /** A request for nothing opens the third window, and one for an earlier block is then charged to it. */
  lemma ThirdWindow(limit: nat, before: seq<Request>)
    requires limit < U128_MAX
    ensures var d := BLOCKS_PER_DAY;
            var z, v := Request(0, 0, 0, 2 * d + 1), Request(0, 0, limit, 2 * d - 1);
            var k := Book(map[0 := OpenPolicy(limit, d + 1).(spent := limit)], before);
            Run(k, [z, v]).approved == before + [z] + [v]
  {
    var d := BLOCKS_PER_DAY;
    var z, v := Request(0, 0, 0, 2 * d + 1), Request(0, 0, limit, 2 * d - 1);
    var k := Book(map[0 := OpenPolicy(limit, d + 1).(spent := limit)], before);
    RunTwo(k, z, v);
    assert Serve(k, z) == Book(map[0 := OpenPolicy(limit, 2 * d + 1)], before + [z]);
  }

  /** A policy without a ceiling, an end or a list, and with no daily limit or the largest there is. */
  predicate Limitless(k: Book, sponsor: nat) {
    sponsor in k.policies &&
    var p := k.policies[sponsor];
    && p.active && p.allowed.None? && p.maxFeePerTx.None? && p.expiresAt.None?
    && (p.dailyLimit == None || p.dailyLimit == Some(U128_MAX))
  }

  /** A limit equal to the 128-bit maximum bounds no more than none at all: all is approved under either. */
  lemma {:induction false} MaximumIsNoLimit(k: Book, qs: seq<Request>, sponsor: nat)
    requires Limitless(k, sponsor) && forall i | 0 <= i < |qs| :: qs[i].sponsor == sponsor
    ensures Run(k, qs).approved == k.approved + qs
    decreases |qs|
  {
    if qs != [] {
      assert Serve(k, qs[0]).approved == k.approved + [qs[0]];
      MaximumIsNoLimit(Serve(k, qs[0]), qs[1..], sponsor);
      assert [qs[0]] + qs[1..] == qs;
    } else {
      assert k.approved + qs == k.approved;
    }
  }

  /** Three requests for the maximum in one block break the bound every lower limit keeps. */
  lemma MaximumThrice(start: nat)
    ensures var q := Request(0, 0, U128_MAX, start);
            var k := Run(Book(map[0 := OpenPolicy(U128_MAX, start)], []), [q, q, q]);
            Paid(k.approved, 0, start, start + 1) == 3 * U128_MAX
  {
    var q := Request(0, 0, U128_MAX, start);
    MaximumIsNoLimit(Book(map[0 := OpenPolicy(U128_MAX, start)], []), [q, q, q], 0);
    assert [] + [q, q, q] == [] + [q] + [q] + [q];
    PaidPush([], q, 0, start, start + 1);
    PaidPush([] + [q], q, 0, start, start + 1);
    PaidPush([] + [q] + [q], q, 0, start, start + 1);
  }

  /**
   * Between two window changes the budget is exact: while a sponsor's window start does not move, what it paid is
   * what its window total grew by, so the limit holds for that stretch.
   */
  lemma {:induction false} SameWindowExact(k: Book, qs: seq<Request>, sponsor: nat, limit: nat, hi: nat)
    requires sponsor in k.policies && Budgeted(k.policies[sponsor], limit)
    requires forall i | 0 <= i < |qs| :: InWindow(k.policies[sponsor], qs[i].block) && qs[i].block < hi
    ensures var r := Run(k, qs);
            && sponsor in r.policies && Budgeted(r.policies[sponsor], limit)
            && r.policies[sponsor].windowStart == k.policies[sponsor].windowStart
            && Paid(r.approved, sponsor, 0, hi) - Paid(k.approved, sponsor, 0, hi) ==
               r.policies[sponsor].spent - k.policies[sponsor].spent
    decreases |qs|
  {
    if qs != [] {
      PaidPush(k.approved, qs[0], sponsor, 0, hi);
      assert InWindow(k.policies[sponsor], qs[0].block);
      SameWindowExact(Serve(k, qs[0]), qs[1..], sponsor, limit, hi);
    }
  }
}
