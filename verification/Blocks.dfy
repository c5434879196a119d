/**
 * The blocks themselves over every run: how large they get, in what order they are processed, which are rewarded, and
 * for which stream their numbers are reserved.
 */
module Blocks {
  import opened Types
  import opened Pipeline
  import Allocator
  import Ledger
  import Rewards

  // ---------------------------------------------------------------- size

  function SizeLimit(t: Stream): nat {
    match t
    case StreamA => 10_000
    case StreamB => 5_000
    case StreamC => 1_000
  }

  /** What a worker holds, or may still take, is within its stream's limit. */
  predicate WorkerWithin(k: Worker) {
    match k.phase
    case Idle => true
    case Looking(count, _) => count <= SizeLimit(k.stream)
    case Draining(count, _, txs) => |txs| <= count <= SizeLimit(k.stream)
    case _ => |k.phase.txs| <= SizeLimit(k.stream)
  }

  ghost predicate Within(s: Sys) {
    && (forall i | 0 <= i < |s.workers| :: WorkerWithin(s.workers[i]))
    && (forall i | 0 <= i < |s.queue| :: |s.queue[i].txs| <= SizeLimit(s.queue[i].stream))
  }

  lemma StepWorker(s: Sys, op: Op)
    requires WorkerOp(op) && WorkerEnabled(s, op)
    ensures var r := ApplyWorker(s, op);
            && r.workers == s.workers[op.w := Worker(s.workers[op.w].stream, r.workers[op.w].phase)]
            && (!op.Mined? ==> r.queue == s.queue)
  {
  }

  lemma WorkerStaysWithin(s: Sys, op: Op)
    requires WorkerOp(op) && WorkerEnabled(s, op) && WorkerWithin(s.workers[op.w])
    ensures WorkerWithin(ApplyWorker(s, op).workers[op.w])
  {
    if op.Order? {
      Ledger.PermutedLength(op.ordered, s.workers[op.w].phase.txs);
    }
  }

  /** A worker touches the allocator only to reserve or release, and never the credits or the count of set-backs. */
  lemma WorkerElsewhere(s: Sys, op: Op)
    requires WorkerOp(op) && WorkerEnabled(s, op)
    ensures var r := ApplyWorker(s, op);
            && r.credits == s.credits && r.setbacks == s.setbacks
            && (!op.Reserve? && !op.MiningFailed? ==> r.alloc == s.alloc) && (!op.Reserve? ==> r.issued == s.issued)
  {
  }

  lemma StepWithin(s: Sys, op: Op)
    requires Enabled(s, op) && Within(s)
    ensures Within(Apply(s, op))
  {
    if WorkerOp(op) {
      StepWorker(s, op);
      WorkerStaysWithin(s, op);
    } else {
      OutsideBlocks(s, op);
    }
  }

  lemma OutsideBlocks(s: Sys, op: Op)
    requires !WorkerOp(op) && Enabled(s, op)
    ensures Apply(s, op).workers == s.workers
    ensures Apply(s, op).queue == if Taken(s, op) == [] then s.queue else s.queue[1..]
  {
  }

  lemma {:induction false} RunStaysWithin(s: Sys, ops: seq<Op>)
    requires Runs(s, ops) && Within(s)
    ensures Within(After(s, ops))
    decreases |ops|
  {
    if ops != [] {
      StepWithin(s, ops[0]);
      RunStaysWithin(Apply(s, ops[0]), ops[1..]);
    }
  }

  /** In every run no block holds more than 10,000, 5,000 or 1,000 transactions, by its stream. */
  lemma RunWithin(s: Sys, ops: seq<Op>)
    requires Initial(s) && Runs(s, ops)
    ensures Within(After(s, ops))
  {
    RunStaysWithin(s, ops);
  }

  // ---------------------------------------------------------------- order and rewards

  /** The block a step hands to the processor. */
  function Delivered(s: Sys, op: Op): seq<Block>
    requires Enabled(s, op)
  {
    if op.Mined? && op.delivered then
      var k := s.workers[op.w];
      [Block(k.phase.number, k.stream, k.phase.txs)]
    else []
  }

  /** The block a step takes off the queue. */
  function Taken(s: Sys, op: Op): seq<Block>
    requires Enabled(s, op)
  {
    if op.Refuse? || op.TooFarAhead? || op.Commit? then [s.queue[0]] else []
  }

  function DeliveredIn(s: Sys, ops: seq<Op>): seq<Block>
    requires Runs(s, ops)
    decreases |ops|
  {
    if ops == [] then [] else Delivered(s, ops[0]) + DeliveredIn(Apply(s, ops[0]), ops[1..])
  }

  function TakenIn(s: Sys, ops: seq<Op>): seq<Block>
    requires Runs(s, ops)
    decreases |ops|
  {
    if ops == [] then [] else Taken(s, ops[0]) + TakenIn(Apply(s, ops[0]), ops[1..])
  }

  lemma StepQueue(s: Sys, op: Op)
    requires Enabled(s, op)
    ensures s.queue + Delivered(s, op) == Taken(s, op) + Apply(s, op).queue
  {
    if op.Mined? {
      MinedQueue(s, op.w, op.delivered);
    } else if WorkerOp(op) {
      StepWorker(s, op);
    } else {
      OutsideBlocks(s, op);
    }
  }

  lemma MinedQueue(s: Sys, w: nat, delivered: bool)
    requires WorkerEnabled(s, Mined(w, delivered))
    ensures s.queue + Delivered(s, Mined(w, delivered)) == [] + MinedStep(s, w, delivered).queue
  {
  }

  lemma Regroup<T>(q: seq<T>, d: seq<T>, t: seq<T>, r: seq<T>, d2: seq<T>, t2: seq<T>, e: seq<T>)
    requires q + d == t + r && r + d2 == t2 + e
    ensures q + (d + d2) == (t + t2) + e
  {
    assert q + (d + d2) == (q + d) + d2;
    assert (t + r) + d2 == t + (r + d2);
    assert t + (t2 + e) == (t + t2) + e;
  }

  /** Blocks are processed in the order in which they were delivered, and none is lost or doubled on the way. */
  lemma {:induction false} RunQueue(s: Sys, ops: seq<Op>)
    requires Runs(s, ops)
    ensures s.queue + DeliveredIn(s, ops) == TakenIn(s, ops) + After(s, ops).queue
    decreases |ops|
  {
    if ops != [] {
      var r, rest := Apply(s, ops[0]), ops[1..];
      StepQueue(s, ops[0]);
      RunQueue(r, rest);
      Regroup(s.queue, Delivered(s, ops[0]), Taken(s, ops[0]), r.queue, DeliveredIn(r, rest), TakenIn(r, rest),
              After(r, rest).queue);
    }
  }

  /** The subsidy of the blocks a run commits, each at its own number and for its own stream. */
  function SubsidyIn(s: Sys, ops: seq<Op>): nat
    requires Runs(s, ops)
    decreases |ops|
  {
    if ops == [] then 0
    else
      (if ops[0].Commit? then Rewards.BlockReward(s.queue[0].number, s.queue[0].stream) else 0)
      + SubsidyIn(Apply(s, ops[0]), ops[1..])
  }

  lemma StepCredits(s: Sys, op: Op)
    requires Enabled(s, op) && !op.Commit?
    ensures Apply(s, op).credits == s.credits
  {
    if WorkerOp(op) {
      WorkerElsewhere(s, op);
    }
  }

  lemma {:induction false} CreditAdds(cs: seq<Rewards.Credit>, c: Rewards.Credit)
    ensures Rewards.Minted(cs + [c]) == Rewards.Minted(cs) + Rewards.BlockReward(c.height, c.stream)
  {
    if cs == [] {
      assert ([] + [c])[1..] == [];
    } else {
      CreditAdds(cs[1..], c);
      assert (cs + [c])[1..] == cs[1..] + [c];
    }
  }

  /** What is credited over a run is exactly the subsidy of the blocks committed in it. */
  lemma {:induction false} RunSubsidy(s: Sys, ops: seq<Op>)
    requires Runs(s, ops)
    ensures Rewards.Minted(After(s, ops).credits) == Rewards.Minted(s.credits) + SubsidyIn(s, ops)
    decreases |ops|
  {
    if ops != [] {
      if ops[0].Commit? {
        CreditAdds(s.credits, Rewards.Credit(s.queue[0].number, s.queue[0].stream));
      } else {
        StepCredits(s, ops[0]);
      }
      RunSubsidy(Apply(s, ops[0]), ops[1..]);
    }
  }

  // ---------------------------------------------------------------- reservations

  /** A reservation, while it lasts, is for the stream of the block that has its number. */
  ghost predicate Matches(s: Sys) {
    && (forall i | 0 <= i < |s.workers| && s.workers[i].phase.Mining? ::
          ReservedFor(s.alloc, s.workers[i].phase.number, s.workers[i].stream))
    && (forall i | 0 <= i < |s.queue| :: ReservedFor(s.alloc, s.queue[i].number, s.queue[i].stream))
  }

  predicate ReservedFor(a: Allocator.Alloc, n: nat, t: Stream) {
    n in a.pending ==> a.pending[n].stream == t
  }

  /** The pending map lost entries at most. */
  ghost predicate Fewer(a: Allocator.Alloc, b: Allocator.Alloc) {
    forall n | n in b.pending :: n in a.pending && b.pending[n] == a.pending[n]
  }

  lemma StepFewer(s: Sys, op: Op)
    requires Enabled(s, op) && !op.Reserve?
    ensures Fewer(s.alloc, Apply(s, op).alloc)
  {
    if WorkerOp(op) {
      WorkerElsewhere(s, op);
    }
  }

  lemma ReserveMatches(s: Sys, w: nat, now: nat)
    requires WorkerEnabled(s, Reserve(w, now)) && Matches(s) && Ledger.Numbered(s) && s.setbacks == 0
    ensures Matches(ReserveStep(s, w, now))
  {
    var n, r := s.alloc.next, ReserveStep(s, w, now);
    assert multiset(s.issued)[n] == 0;
    assert n !in Ledger.InPlay(s);
    forall i | 0 <= i < |s.workers| && s.workers[i].phase.Mining?
      ensures s.workers[i].phase.number != n
    {
      Ledger.Holdings.TotalHas(Ledger.WorkerNumbers(s.workers), i);
    }
    forall i | 0 <= i < |s.queue|
      ensures s.queue[i].number != n
    {
      Ledger.Holdings.TotalHas(Ledger.BlockNumbers(s.queue), i);
    }
  }

  /** Blocks that were there before, beside a pending map that lost entries at most. */
  lemma CarriedOver(s: Sys, r: Sys)
    requires Matches(s) && Fewer(s.alloc, r.alloc) && |r.workers| == |s.workers|
    requires forall i | 0 <= i < |r.workers| && r.workers[i].phase.Mining? ::
               && r.workers[i].stream == s.workers[i].stream && s.workers[i].phase.Mining?
               && r.workers[i].phase.number == s.workers[i].phase.number
    requires forall i | 0 <= i < |r.queue| :: ReservedFor(s.alloc, r.queue[i].number, r.queue[i].stream)
    ensures Matches(r)
  {
  }

  lemma WorkerCarries(s: Sys, op: Op)
    requires WorkerOp(op) && WorkerEnabled(s, op) && !op.Reserve? && !op.Mined? && Matches(s)
    ensures Matches(ApplyWorker(s, op))
  {
    StepFewer(s, op);
    StepWorker(s, op);
    MiningFrom(s, op);
    CarriedOver(s, ApplyWorker(s, op));
  }

  lemma MinedMatches(s: Sys, w: nat, delivered: bool)
    requires WorkerEnabled(s, Mined(w, delivered)) && Matches(s)
    ensures Matches(MinedStep(s, w, delivered))
  {
    CarriedOver(s, MinedStep(s, w, delivered));
  }

  lemma OutsideMatches(s: Sys, op: Op)
    requires !WorkerOp(op) && Enabled(s, op) && Matches(s)
    ensures Matches(Apply(s, op))
  {
    StepFewer(s, op);
    OutsideBlocks(s, op);
    CarriedOver(s, Apply(s, op));
  }

  lemma CarriedMatches(s: Sys, op: Op)
    requires Enabled(s, op) && !op.Reserve? && Matches(s)
    ensures Matches(Apply(s, op))
  {
    if op.Mined? {
      MinedMatches(s, op.w, op.delivered);
    } else if WorkerOp(op) {
      WorkerCarries(s, op);
    } else {
      OutsideMatches(s, op);
    }
  }

  lemma MiningFrom(s: Sys, op: Op)
    requires WorkerOp(op) && WorkerEnabled(s, op) && !op.Reserve?
    ensures var p, q := s.workers[op.w].phase, ApplyWorker(s, op).workers[op.w].phase;
            q.Mining? ==> p.Mining? && q.number == p.number
  {
  }

  lemma {:induction false} RunStaysMatched(s: Sys, ops: seq<Op>)
    requires Runs(s, ops) && Matches(s) && Ledger.Numbered(s) && After(s, ops).setbacks == 0
    ensures Matches(After(s, ops))
    decreases |ops|
  {
    SetbacksGrow(s, ops);
    if ops != [] {
      if ops[0].Reserve? {
        ReserveMatches(s, ops[0].w, ops[0].now);
      } else {
        CarriedMatches(s, ops[0]);
      }
      Ledger.StepNumbered(s, ops[0]);
      RunStaysMatched(Apply(s, ops[0]), ops[1..]);
    }
  }

  lemma StepSetbacks(s: Sys, op: Op)
    requires Enabled(s, op)
    ensures Apply(s, op).setbacks >= s.setbacks
  {
    if WorkerOp(op) {
      WorkerElsewhere(s, op);
    }
  }

  lemma {:induction false} SetbacksGrow(s: Sys, ops: seq<Op>)
    requires Runs(s, ops)
    ensures After(s, ops).setbacks >= s.setbacks
    decreases |ops|
  {
    if ops != [] {
      StepSetbacks(s, ops[0]);
      SetbacksGrow(Apply(s, ops[0]), ops[1..]);
    }
  }

  /** In every run without set-backs each reservation is for the stream of the block being mined or queued under it. */
  lemma RunMatches(s: Sys, ops: seq<Op>)
    requires Initial(s) && Runs(s, ops) && After(s, ops).setbacks == 0
    ensures Matches(After(s, ops))
  {
    Ledger.InitialNumbered(s);
    RunStaysMatched(s, ops);
  }

  /**
   * A block too far ahead of the chain is refused, and the three accesses of the reset leave nothing reserved and the
   * number after the chain's height as the next one.
   */
  lemma TooFarResets(s: Sys, height: nat)
    requires Enabled(s, TooFarAhead(height))
    ensures var a := Apply(s, TooFarAhead(height));
            && Enabled(a, ResetFree) && Enabled(Apply(a, ResetFree), ResetPending)
            && var r := Apply(Apply(a, ResetFree), ResetPending);
               && s.queue[0].number > height + 50 && r.proc == Refused(s.queue[0].txs)
               && r.alloc.pending == map[] && Allocator.Offered(r.alloc) == height + 1
  {
  }

  // ---------------------------------------------------------------- the allocator

  /** What a step asks of the allocator. */
  function Asks(s: Sys, op: Op): seq<Allocator.Op>
    requires Enabled(s, op)
  {
    match op
    case Reserve(w, now) => [Allocator.DoReserve(s.workers[w].stream, now)]
    case MiningFailed(w) => [Allocator.DoRelease(s.workers[w].phase.number)]
    case Refuse => [Allocator.DoRelease(s.queue[0].number)]
    case TooFarAhead(height) => [Allocator.DoSetNext(height + 1)]
    case ResetFree => [Allocator.DoClearFree]
    case ResetPending => [Allocator.DoClearPending]
    case Close => [Allocator.DoConfirm(s.proc.number)]
    case Stale(now, counted) => [Allocator.DoCleanup(now, counted)]
    case SetNext(n) => [Allocator.DoSetNext(n)]
    case _ => []
  }

  function AsksIn(s: Sys, ops: seq<Op>): seq<Allocator.Op>
    requires Runs(s, ops)
    decreases |ops|
  {
    if ops == [] then [] else Asks(s, ops[0]) + AsksIn(Apply(s, ops[0]), ops[1..])
  }

  /** The allocator's own record follows the pipeline: the same state, and it handed out the numbers issued. */
  ghost predicate Follows(s: Sys, h: Allocator.History) {
    h.alloc == s.alloc && h.reserved == s.issued
  }

  lemma StepFollows(s: Sys, op: Op, h: Allocator.History)
    requires Enabled(s, op) && Follows(s, h)
    ensures Follows(Apply(s, op), Allocator.Run(h, Asks(s, op)))
  {
    if Asks(s, op) == [] {
      AllocatorUntouched(s, op);
    } else {
      Allocator.RunFirst(h, Asks(s, op)[0], []);
      assert Asks(s, op) == [Asks(s, op)[0]] + [];
    }
  }

  lemma AllocatorUntouched(s: Sys, op: Op)
    requires Enabled(s, op) && Asks(s, op) == []
    ensures Apply(s, op).alloc == s.alloc && Apply(s, op).issued == s.issued
  {
    if WorkerOp(op) {
      WorkerElsewhere(s, op);
    }
  }

  /**
   * The pipeline refines the allocator: over every run its allocator is where the requests made in it, in order, take
   * the allocator alone, so every law of allocator runs holds of it.
   */
  lemma {:induction false} RunFollows(s: Sys, ops: seq<Op>, h: Allocator.History)
    requires Runs(s, ops) && Follows(s, h)
    ensures Follows(After(s, ops), Allocator.Run(h, AsksIn(s, ops)))
    decreases |ops|
  {
    if ops != [] {
      StepFollows(s, ops[0], h);
      RunFollows(Apply(s, ops[0]), ops[1..], Allocator.Run(h, Asks(s, ops[0])));
      Allocator.RunAppend(h, Asks(s, ops[0]), AsksIn(Apply(s, ops[0]), ops[1..]));
    }
  }
}
