/**
 * The allocator's pending map and the pipeline agree: a number is pending exactly while a block that was given
 * it is being mined, queued or processed.
 */
module Reservations {
  import opened Types
  import opened Holdings
  import opened Pipeline
  import opened Ledger
  import Admission
  import Allocator

  /** A committed block keeps its number until it is confirmed. */
  function NumberOf(p: Processor): Option<nat> {
    if p.Committed? || p.Closing? || p.Confirming? then Some(p.number) else None
  }

  function ProcNumber(p: Processor): multiset<nat> {
    if NumberOf(p).Some? then multiset{NumberOf(p).value} else multiset{}
  }

  ghost function Live(s: Sys): multiset<nat> {
    Total(WorkerNumbers(s.workers)) + Total(BlockNumbers(s.queue)) + ProcNumber(s.proc)
  }

  ghost predicate Agrees(s: Sys) {
    && s.alloc.free == []
    && (forall n | n in s.alloc.pending :: n < s.alloc.next)
    && Live(s) == multiset(s.alloc.pending.Keys)
  }

  /** Steps under which reservations stay exact: no stale clean-up, undelivered block, reset or counter set back. */
  predicate Orderly(s: Sys, op: Op)
    requires Enabled(s, op)
  {
    && !op.Stale? && !op.TooFarAhead? && !op.ResetPending?
    && (op.Mined? ==> op.delivered) && (op.SetNext? ==> op.n >= s.alloc.next)
  }

  lemma KeyGone(keys: set<nat>, n: nat, rest: multiset<nat>)
    requires rest + multiset{n} == multiset(keys)
    ensures n in keys && rest == multiset(keys - {n})
  {
    assert multiset(keys)[n] == rest[n] + 1;
    assert multiset(keys - {n}) + multiset{n} == multiset(keys);
    assert (rest + multiset{n}) - multiset{n} == rest;
    assert (multiset(keys - {n}) + multiset{n}) - multiset{n} == multiset(keys - {n});
  }

  lemma TurnLive(s: Sys, r: Sys, w: nat, phase: Phase)
    requires w < |s.workers| && r.workers == Turn(s, w, phase).workers && r.queue == s.queue && r.proc == s.proc
    ensures Live(r) + PhaseNumber(s.workers[w].phase) == Live(s) + PhaseNumber(phase)
  {
    var ms, v := WorkerNumbers(s.workers), PhaseNumber(phase);
    assert WorkerNumbers(r.workers) == ms[w := v];
    var rest := Total(BlockNumbers(s.queue)) + ProcNumber(s.proc);
    TotalExchange(ms, w, v, rest);
    assert Live(r) == rest + Total(ms[w := v]) && Live(s) == rest + Total(ms);
  }

  lemma ReserveAgrees(s: Sys, w: nat, now: nat)
    requires w < |s.workers| && s.workers[w].phase.Assembled? && Agrees(s)
    ensures Agrees(ReserveStep(s, w, now))
  {
    var r, n, keys := ReserveStep(s, w, now), s.alloc.next, s.alloc.pending.Keys;
    TurnLive(s, r, w, Mining(n, s.workers[w].phase.txs));
    assert r.alloc.pending.Keys == keys + {n};
    assert multiset(keys + {n}) == multiset(keys) + multiset{n};
    assert Live(r) == Live(s) + multiset{n};
  }

  lemma FailedAgrees(s: Sys, w: nat)
    requires w < |s.workers| && s.workers[w].phase.Mining? && Agrees(s)
    ensures Agrees(MiningFailedStep(s, w))
  {
    var r, p := MiningFailedStep(s, w), s.workers[w].phase;
    TurnLive(s, r, w, Returning(p.txs));
    KeyGone(s.alloc.pending.Keys, p.number, Live(r));
    assert r.alloc.pending.Keys == s.alloc.pending.Keys - {p.number};
  }

  lemma DeliveredAgrees(s: Sys, w: nat)
    requires w < |s.workers| && s.workers[w].phase.Mining? && Agrees(s)
    ensures Agrees(MinedStep(s, w, true))
  {
    var k, r, idle := s.workers[w], MinedStep(s, w, true), Turn(s, w, Idle);
    TurnLive(s, idle, w, Idle);
    var v := multiset{k.phase.number};
    assert BlockNumbers(r.queue) == BlockNumbers(s.queue) + [v];
    TotalPush(BlockNumbers(s.queue), v);
    assert Live(r) == Live(idle) + v;
  }

  lemma CarryAgrees(s: Sys, op: Op)
    requires WorkerOp(op) && WorkerEnabled(s, op) && Agrees(s) && !op.Reserve? && !op.Mined? && !op.MiningFailed?
    ensures Agrees(ApplyWorker(s, op))
  {
    var r := ApplyWorker(s, op);
    var phase := r.workers[op.w].phase;
    assert r.workers == Turn(s, op.w, phase).workers && r.queue == s.queue && r.proc == s.proc && r.alloc == s.alloc;
    assert PhaseNumber(phase) == PhaseNumber(s.workers[op.w].phase);
    TurnLive(s, r, op.w, phase);
    SameRest(Live(r), Live(s), PhaseNumber(phase));
  }

  lemma RefuseAgrees(s: Sys)
    requires s.proc.Ready? && s.queue != [] && Agrees(s)
    ensures Agrees(RefuseStep(s, Allocator.Release(s.alloc, s.queue[0].number)))
  {
    var n := s.queue[0].number;
    var r := RefuseStep(s, Allocator.Release(s.alloc, n));
    assert BlockNumbers(r.queue) == BlockNumbers(s.queue)[1..];
    assert Total(BlockNumbers(s.queue)) == multiset{n} + Total(BlockNumbers(r.queue));
    assert Live(r) + multiset{n} == Live(s);
    KeyGone(s.alloc.pending.Keys, n, Live(r));
    assert r.alloc.pending.Keys == s.alloc.pending.Keys - {n};
  }

  lemma CommitAgrees(s: Sys)
    requires s.proc.Ready? && s.queue != [] && Agrees(s)
    ensures Agrees(CommitStep(s))
  {
    var r := CommitStep(s);
    assert BlockNumbers(r.queue) == BlockNumbers(s.queue)[1..];
    assert Total(BlockNumbers(s.queue)) == multiset{s.queue[0].number} + Total(BlockNumbers(r.queue));
  }

  /** Closing a committed block finds its number still reserved, so the confirmation never fails. */
  lemma CloseAgrees(s: Sys)
    requires s.proc.Confirming? && Agrees(s)
    ensures s.proc.number in s.alloc.pending && Agrees(CloseStep(s))
  {
    var r := CloseStep(s);
    assert Live(r) + multiset{s.proc.number} == Live(s);
    KeyGone(s.alloc.pending.Keys, s.proc.number, Live(r));
    assert r.alloc.pending.Keys == s.alloc.pending.Keys - {s.proc.number};
  }

  lemma WorkerAgrees(s: Sys, op: Op)
    requires WorkerOp(op) && Enabled(s, op) && Orderly(s, op) && Agrees(s)
    ensures Agrees(ApplyWorker(s, op))
  {
    if op.Reserve? {
      ReserveAgrees(s, op.w, op.now);
    } else if op.MiningFailed? {
      FailedAgrees(s, op.w);
    } else if op.Mined? {
      DeliveredAgrees(s, op.w);
    } else {
      CarryAgrees(s, op);
    }
  }

  /** Nobody's number changes hands, and the counter does not go back. */
  ghost predicate Untouched(s: Sys, r: Sys) {
    && r.workers == s.workers && r.queue == s.queue && NumberOf(r.proc) == NumberOf(s.proc)
    && r.alloc.pending == s.alloc.pending && (s.alloc.free == [] ==> r.alloc.free == []) && r.alloc.next >= s.alloc.next
  }

  lemma UntouchedAgrees(s: Sys, r: Sys)
    requires Agrees(s) && Untouched(s, r)
    ensures Agrees(r)
  {
  }

  lemma SubmitUntouched(s: Sys, u: nat, input: Admission.Input)
    requires u < |s.submissions|
    ensures Untouched(s, SubmitStep(s, u, input))
  {
  }

  predicate Upkeep(op: Op) {
    op.ExpirePool? || op.ExpireOldest? || op.ExpireFutures? || op.SetNext?
  }

  lemma UpkeepUntouched(s: Sys, op: Op)
    requires Upkeep(op) && Orderly(s, op)
    ensures Untouched(s, Apply(s, op))
  {
  }

  predicate HandsBack(op: Op) {
    op.ResetFree? || op.ToLegacy? || op.DropClaims? || op.ClearCommitted? || op.Forget?
  }

  lemma ProcUntouched(s: Sys, op: Op)
    requires HandsBack(op) && Enabled(s, op)
    ensures Untouched(s, Apply(s, op))
  {
  }

  lemma OutsideAgrees(s: Sys, op: Op)
    requires !WorkerOp(op) && Enabled(s, op) && Orderly(s, op) && Agrees(s)
    ensures Agrees(Apply(s, op))
  {
    if op.Refuse? {
      RefuseAgrees(s);
    } else if op.Commit? {
      CommitAgrees(s);
    } else if op.Close? {
      CloseAgrees(s);
    } else if op.Submit? {
      SubmitUntouched(s, op.u, op.input);
      UntouchedAgrees(s, Apply(s, op));
    } else {
      if Upkeep(op) {
        UpkeepUntouched(s, op);
      } else {
        ProcUntouched(s, op);
      }
      UntouchedAgrees(s, Apply(s, op));
    }
  }

  ghost predicate OrderlyRun(s: Sys, ops: seq<Op>)
    requires Runs(s, ops)
    decreases |ops|
  {
    ops != [] ==> Orderly(s, ops[0]) && OrderlyRun(Apply(s, ops[0]), ops[1..])
  }

  /** Over every orderly run, the pending numbers are exactly those of live blocks, each held by one block. */
  lemma {:induction false} RunAgrees(s: Sys, ops: seq<Op>)
    requires Runs(s, ops) && OrderlyRun(s, ops) && Agrees(s)
    ensures Agrees(After(s, ops))
    decreases |ops|
  {
    if ops != [] {
      if WorkerOp(ops[0]) {
        WorkerAgrees(s, ops[0]);
      } else {
        OutsideAgrees(s, ops[0]);
      }
      RunAgrees(Apply(s, ops[0]), ops[1..]);
    }
  }
}
