/**
 * Two more laws of every pipeline run: pool counters match their pools up to pushes not yet counted, and,
 * while the number counter is never set back, no block number is rewarded twice, which bounds all subsidy ever paid.
 */
module Ledger {
  import opened Types
  import opened Pools
  import opened Mempool
  import opened Holdings
  import opened Pipeline
  import Admission
  import Allocator
  import Rewards

  // ---------------------------------------------------------------- counters

  lemma PermutedLength(a: seq<Pooled>, b: seq<Pooled>)
    requires multiset(a) == multiset(b)
    ensures |a| == |b|
  {
    assert |multiset(a)| == |a| && |multiset(b)| == |b|;
  }

  ghost function OwedShares(us: seq<Admission.Submission>): (ms: seq<multiset<Stream>>)
    ensures |ms| == |us| && forall i | 0 <= i < |us| :: ms[i] == Admission.Owes(us[i])
  {
    seq(|us|, i requires 0 <= i < |us| => Admission.Owes(us[i]))
  }

  /** Pushes made and not yet counted, by stream. */
  ghost function Owed(s: Sys): multiset<Stream> {
    Total(OwedShares(s.submissions))
  }

  /** Each counter is behind its pool by exactly the pushes not yet counted. */
  ghost predicate Reckoned(s: Sys) {
    Counted(s.mem.legacy) && forall t: Stream :: Admission.Gap(s.mem, t) == Owed(s)[t]
  }

  /** The worker steps that touch a pool. */
  predicate TouchesPool(op: Op) {
    op.Start? || op.Claim? || op.Clean? || op.PutBack?
  }

  lemma PoolGap(s: Sys, op: Op, t: Stream)
    requires TouchesPool(op) && WorkerEnabled(s, op)
    ensures Admission.Gap(ApplyWorker(s, op).mem, t) == Admission.Gap(s.mem, t)
  {
    if op.Start? {
      PermutedLength(op.sorted, Of(s.mem.pools, s.workers[op.w].stream).txs);
    }
  }

  lemma PoolsKept(s: Sys, op: Op)
    requires WorkerOp(op) && WorkerEnabled(s, op)
    ensures var r := ApplyWorker(s, op);
            && r.mem.legacy == s.mem.legacy && r.submissions == s.submissions
            && (!TouchesPool(op) ==> r.mem.pools == s.mem.pools)
  {
  }

  lemma WorkerGap(s: Sys, op: Op, t: Stream)
    requires WorkerOp(op) && WorkerEnabled(s, op)
    ensures var r := ApplyWorker(s, op);
            && Admission.Gap(r.mem, t) == Admission.Gap(s.mem, t)
            && r.mem.legacy == s.mem.legacy && r.submissions == s.submissions
  {
    PoolsKept(s, op);
    if TouchesPool(op) {
      PoolGap(s, op, t);
    }
  }

  lemma OutsideGap(s: Sys, op: Op, t: Stream)
    requires !WorkerOp(op) && !op.Submit? && Enabled(s, op)
    ensures var r := Apply(s, op);
            && Admission.Gap(r.mem, t) == Admission.Gap(s.mem, t) && r.submissions == s.submissions
            && (Counted(s.mem.legacy) ==> Counted(r.mem.legacy))
  {
  }

  lemma SubmitGap(s: Sys, u: nat, input: Admission.Input, t: Stream)
    requires u < |s.submissions|
    ensures var r := SubmitStep(s, u, input);
            && Admission.Gap(r.mem, t) - Owed(r)[t] == Admission.Gap(s.mem, t) - Owed(s)[t]
            && r.mem.legacy == s.mem.legacy
  {
    var r := SubmitStep(s, u, input);
    var ms, v := OwedShares(s.submissions), Admission.Owes(r.submissions[u]);
    Admission.AdvanceGap(Admission.Moment(s.mem, s.submissions[u]), input, t);
    assert OwedShares(r.submissions) == ms[u := v];
    TotalUpdate(ms, u, v);
    assert (Total(ms[u := v]) + ms[u])[t] == (Total(ms) + v)[t];
  }

  lemma StepReckoned(s: Sys, op: Op)
    requires Enabled(s, op) && Reckoned(s)
    ensures Reckoned(Apply(s, op))
  {
    forall t: Stream
      ensures Admission.Gap(Apply(s, op).mem, t) == Owed(Apply(s, op))[t] && Counted(Apply(s, op).mem.legacy)
    {
      if WorkerOp(op) {
        WorkerGap(s, op, t);
      } else if op.Submit? {
        SubmitGap(s, op.u, op.input, t);
      } else {
        OutsideGap(s, op, t);
      }
    }
    assert Admission.Gap(Apply(s, op).mem, StreamA) == Owed(Apply(s, op))[StreamA];
  }

  /**
   * In every run each stream counter is behind its pool's length by exactly the pushes whose increment is still to
   * come, so with none outstanding all counters match; the legacy counter always matches.
   */
  lemma {:induction false} RunReckoned(s: Sys, ops: seq<Op>)
    requires Runs(s, ops) && Reckoned(s)
    ensures Reckoned(After(s, ops))
    ensures Owed(After(s, ops)) == multiset{} ==> AllCounted(After(s, ops).mem)
    decreases |ops|
  {
    if ops != [] {
      StepReckoned(s, ops[0]);
      RunReckoned(Apply(s, ops[0]), ops[1..]);
    } else {
      assert Admission.Gap(s.mem, StreamA) == Owed(s)[StreamA] && Admission.Gap(s.mem, StreamB) == Owed(s)[StreamB]
          && Admission.Gap(s.mem, StreamC) == Owed(s)[StreamC];
    }
  }

  lemma RunCounted(s: Sys, ops: seq<Op>, t: Stream)
    requires Initial(s) && Runs(s, ops)
    ensures var r := After(s, ops);
            && Of(r.mem.pools, t).size + Owed(r)[t] == |Of(r.mem.pools, t).txs| && Counted(r.mem.legacy)
            && (Of(r.mem.pools, t).size < 0 <==> Owed(r)[t] > |Of(r.mem.pools, t).txs|)
  {
    TotalOfNothing(OwedShares(s.submissions));
    assert Reckoned(s);
    RunReckoned(s, ops);
    assert Admission.Gap(After(s, ops).mem, t) == Owed(After(s, ops))[t];
  }

  // ---------------------------------------------------------------- numbers

  function PhaseNumber(p: Phase): multiset<nat> {
    if p.Mining? then multiset{p.number} else multiset{}
  }

  ghost function WorkerNumbers(ws: seq<Worker>): (ms: seq<multiset<nat>>)
    ensures |ms| == |ws| && forall i | 0 <= i < |ws| :: ms[i] == PhaseNumber(ws[i].phase)
  {
    seq(|ws|, i requires 0 <= i < |ws| => PhaseNumber(ws[i].phase))
  }

  ghost function BlockNumbers(q: seq<Block>): (ms: seq<multiset<nat>>)
    ensures |ms| == |q| && forall i | 0 <= i < |q| :: ms[i] == multiset{q[i].number}
  {
    seq(|q|, i requires 0 <= i < |q| => multiset{q[i].number})
  }

  /** Every number in play: being mined, queued, or already rewarded. */
  ghost function InPlay(s: Sys): multiset<nat> {
    Total(WorkerNumbers(s.workers)) + Total(BlockNumbers(s.queue)) + multiset(Rewards.Heights(s.credits))
  }

  /**
   * No number was issued more than once for every time the counter was set back, and once more if it is below the
   * counter now; without set-backs the issued numbers increase.
   */
  ghost predicate Issuing(s: Sys) {
    && s.alloc.free == []
    && (forall n :: multiset(s.issued)[n] <= s.setbacks + if n < s.alloc.next then 1 else 0)
    && (s.setbacks == 0 ==> Allocator.Increasing(s.issued))
  }

  ghost predicate Numbered(s: Sys) {
    Issuing(s) && InPlay(s) <= multiset(s.issued)
  }

  lemma TurnNumbers(s: Sys, r: Sys, w: nat, phase: Phase)
    requires w < |s.workers| && r.workers == Turn(s, w, phase).workers && r.queue == s.queue && r.credits == s.credits
    ensures InPlay(r) + PhaseNumber(s.workers[w].phase) == InPlay(s) + PhaseNumber(phase)
  {
    var ms, v := WorkerNumbers(s.workers), PhaseNumber(phase);
    assert WorkerNumbers(r.workers) == ms[w := v];
    var rest := Total(BlockNumbers(s.queue)) + multiset(Rewards.Heights(s.credits));
    TotalExchange(ms, w, v, rest);
    assert InPlay(r) == rest + Total(ms[w := v]) && InPlay(s) == rest + Total(ms);
  }

  lemma CarryInPlay(s: Sys, op: Op)
    requires WorkerOp(op) && WorkerEnabled(s, op) && !op.Reserve? && !op.Mined?
    ensures InPlay(ApplyWorker(s, op)) <= InPlay(s)
  {
    var r := ApplyWorker(s, op);
    var phase := r.workers[op.w].phase;
    assert r.workers == Turn(s, op.w, phase).workers && r.queue == s.queue && r.credits == s.credits;
    assert PhaseNumber(phase) <= PhaseNumber(s.workers[op.w].phase);
    TurnNumbers(s, r, op.w, phase);
    Shrinks(InPlay(r), InPlay(s), PhaseNumber(s.workers[op.w].phase), PhaseNumber(phase));
  }

  lemma CarryNumbers(s: Sys, op: Op)
    requires WorkerOp(op) && WorkerEnabled(s, op) && Numbered(s) && !op.Reserve? && !op.Mined?
    ensures Numbered(ApplyWorker(s, op))
  {
    CarryInPlay(s, op);
  }

  lemma ReserveIssues(s: Sys, w: nat, now: nat)
    requires w < |s.workers| && s.workers[w].phase.Assembled? && Issuing(s)
    ensures Issuing(ReserveStep(s, w, now)) && ReserveStep(s, w, now).issued == s.issued + [s.alloc.next]
  {
    var r, n := ReserveStep(s, w, now), s.alloc.next;
    assert multiset(s.issued + [n]) == multiset(s.issued) + multiset{n};
    if s.setbacks == 0 {
      forall i | 0 <= i < |s.issued|
        ensures s.issued[i] < n
      {
        assert s.issued[i] in multiset(s.issued);
        assert multiset(s.issued)[s.issued[i]] > 0;
      }
    }
  }

  lemma ReserveNumbers(s: Sys, w: nat, now: nat)
    requires w < |s.workers| && s.workers[w].phase.Assembled? && Numbered(s)
    ensures Numbered(ReserveStep(s, w, now))
  {
    var r, n := ReserveStep(s, w, now), s.alloc.next;
    ReserveIssues(s, w, now);
    TurnNumbers(s, r, w, Mining(n, s.workers[w].phase.txs));
    assert InPlay(r) == InPlay(s) + multiset{n};
    assert multiset(r.issued) == multiset(s.issued) + multiset{n};
  }

  lemma QueueNumbers(s: Sys, r: Sys, b: Block)
    requires r.workers == s.workers && r.credits == s.credits && r.queue == s.queue + [b]
    ensures InPlay(r) == InPlay(s) + multiset{b.number}
  {
    assert BlockNumbers(r.queue) == BlockNumbers(s.queue) + [multiset{b.number}];
    TotalPush(BlockNumbers(s.queue), multiset{b.number});
  }

  lemma MinedNumbers(s: Sys, w: nat, delivered: bool)
    requires w < |s.workers| && s.workers[w].phase.Mining? && Numbered(s)
    ensures Numbered(MinedStep(s, w, delivered))
  {
    var k, r, idle := s.workers[w], MinedStep(s, w, delivered), Turn(s, w, Idle);
    TurnNumbers(s, idle, w, Idle);
    Shrinks(InPlay(idle), InPlay(s), multiset{k.phase.number}, multiset{});
    if delivered {
      QueueNumbers(idle, r, Block(k.phase.number, k.stream, k.phase.txs));
    }
  }

  lemma TakeNumbers(s: Sys, r: Sys)
    requires s.queue != [] && r.workers == s.workers && r.queue == s.queue[1..]
    ensures r.credits == s.credits ==> InPlay(r) <= InPlay(s)
    ensures r.credits == s.credits + [Rewards.Credit(s.queue[0].number, s.queue[0].stream)] ==> InPlay(r) == InPlay(s)
  {
    var ms, n := BlockNumbers(s.queue), s.queue[0].number;
    assert BlockNumbers(r.queue) == ms[1..];
    assert Total(ms) == multiset{n} + Total(ms[1..]);
    if r.credits == s.credits + [Rewards.Credit(n, s.queue[0].stream)] {
      assert Rewards.Heights(r.credits) == Rewards.Heights(s.credits) + [n];
    }
  }

  /** Steps that move no number between hands, and do not set the counter back. */
  ghost predicate NumbersStay(s: Sys, r: Sys) {
    && r.workers == s.workers && r.queue == s.queue && r.credits == s.credits && r.issued == s.issued
    && (s.alloc.free == [] ==> r.alloc.free == []) && r.alloc.next >= s.alloc.next && r.setbacks == s.setbacks
  }

  predicate SetsBack(s: Sys, op: Op) {
    op.TooFarAhead? || (op.SetNext? && op.n < s.alloc.next)
  }

  lemma OutsideStays(s: Sys, op: Op)
    requires !WorkerOp(op) && Enabled(s, op) && !SetsBack(s, op) && !op.Refuse? && !op.Commit?
    ensures NumbersStay(s, Apply(s, op))
  {
  }

  lemma StaysNumbered(s: Sys, r: Sys)
    requires Numbered(s) && NumbersStay(s, r)
    ensures Numbered(r)
  {
  }

  lemma SetBackNumbered(s: Sys, r: Sys)
    requires Numbered(s) && InPlay(r) <= InPlay(s) && r.issued == s.issued && r.alloc.free == s.alloc.free
    requires r.setbacks == s.setbacks + 1
    ensures Numbered(r)
  {
  }

  lemma SetBack(s: Sys, op: Op)
    requires Enabled(s, op) && SetsBack(s, op) && Numbered(s)
    ensures Numbered(Apply(s, op))
  {
    var r := Apply(s, op);
    if op.TooFarAhead? {
      TakeNumbers(s, r);
    }
    SetBackNumbered(s, r);
  }

  lemma WorkerNumbered(s: Sys, op: Op)
    requires WorkerOp(op) && WorkerEnabled(s, op) && Numbered(s)
    ensures Numbered(ApplyWorker(s, op))
  {
    if op.Reserve? {
      ReserveNumbers(s, op.w, op.now);
    } else if op.Mined? {
      MinedNumbers(s, op.w, op.delivered);
    } else {
      CarryNumbers(s, op);
    }
  }

  lemma StepNumbered(s: Sys, op: Op)
    requires Enabled(s, op) && Numbered(s)
    ensures Numbered(Apply(s, op))
  {
    if WorkerOp(op) {
      WorkerNumbered(s, op);
    } else if op.Refuse? || op.Commit? {
      TakeNumbers(s, Apply(s, op));
    } else if SetsBack(s, op) {
      SetBack(s, op);
    } else {
      OutsideStays(s, op);
      StaysNumbered(s, Apply(s, op));
    }
  }

  /** In every run the numbers being mined, queued and rewarded are issued ones, none more often than it was issued. */
  lemma {:induction false} RunNumbered(s: Sys, ops: seq<Op>)
    requires Runs(s, ops) && Numbered(s)
    ensures Numbered(After(s, ops))
    decreases |ops|
  {
    if ops != [] {
      StepNumbered(s, ops[0]);
      RunNumbered(Apply(s, ops[0]), ops[1..]);
    }
  }

  // ---------------------------------------------------------------- supply

  lemma CreditsIssued(r: Sys)
    requires Numbered(r)
    ensures Rewards.AtMost(r.credits, r.setbacks + 1)
  {
    forall n
      ensures multiset(Rewards.Heights(r.credits))[n] <= r.setbacks + 1
    {
      assert multiset(Rewards.Heights(r.credits))[n] <= InPlay(r)[n] <= multiset(r.issued)[n];
    }
  }

  /** What k set-backs allow: no number rewarded more than k + 1 times, and less than k + 1 schedules paid. */
  ghost predicate SupplyBounded(credits: seq<Rewards.Credit>, k: nat) {
    && Rewards.AtMost(credits, k + 1)
    && (k == 0 ==> Rewards.DistinctHeights(credits))
    && Rewards.Minted(credits) < (k + 1) * Rewards.ONE_SCHEDULE
    && (k <= 6 ==> Rewards.Minted(credits) < Rewards.MAX_SUPPLY)
  }

  lemma SupplyOf(credits: seq<Rewards.Credit>, k: nat)
    requires Rewards.AtMost(credits, k + 1)
    ensures SupplyBounded(credits, k)
  {
    if k == 0 {
      Rewards.DistinctIfOnce(credits);
    }
    Rewards.RepeatedSupply(credits, k);
    if k <= 6 {
      Rewards.SevenSchedulesFit(k);
    }
  }

  lemma InitialNumbered(s: Sys)
    requires Initial(s)
    ensures Numbered(s)
  {
    TotalOfNothing(WorkerNumbers(s.workers));
    assert InPlay(s) == multiset{};
  }

  /**
   * In every run, if the number counter was set back k times, no number is rewarded more than k + 1 times and the
   * subsidy paid stays below k + 1 times twice the first era's worth of stream A rewards, however many blocks are
   * mined and whichever stream gets each number: below the maximum supply for up to six set-backs.
   */
  lemma RunSupply(s: Sys, ops: seq<Op>)
    requires Initial(s) && Runs(s, ops)
    ensures SupplyBounded(After(s, ops).credits, After(s, ops).setbacks)
  {
    InitialNumbered(s);
    RunNumbered(s, ops);
    CreditsIssued(After(s, ops));
    SupplyOf(After(s, ops).credits, After(s, ops).setbacks);
  }
}
