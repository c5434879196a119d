/**
 * The in-flight set is exact: exactly three steps leave hashes in it that nobody holds.
 */
module Leaks {
  import opened Types
  import opened Pools
  import opened Mempool
  import opened Pipeline
  import opened Exclusion

  /** The set holds exactly the hashes in somebody's hands, each once. */
  ghost predicate Balanced(s: Sys) {
    Held(s) == multiset(s.mem.inFlight)
  }

  /**
   * Letting transactions go without taking back their claims: no parents to build on, a trimmed tail, or a mined
   * block that cannot be delivered.
   */
  predicate LetsGo(s: Sys, op: Op)
    requires Enabled(s, op)
  {
    match op
    case NoParents(w) => s.workers[w].phase.txs != []
    case Trim(w, keep) => keep < |s.workers[w].phase.txs|
    case Mined(w, delivered) => !delivered && s.workers[w].phase.txs != []
    case _ => false
  }

  lemma ClearExact(rest: multiset<Hash>, xs: seq<Pooled>, inFlight: set<Hash>)
    requires rest + Hashes(xs) == multiset(inFlight)
    ensures rest == multiset(inFlight - HashSet(xs))
  {
    forall h
      ensures rest[h] == multiset(inFlight - HashSet(xs))[h]
    {
      HashSetIs(xs, h);
      assert (rest + Hashes(xs))[h] == multiset(inFlight)[h] <= 1;
    }
  }

  lemma HashesSize(xs: seq<Pooled>)
    ensures |Hashes(xs)| == |xs|
  {
    assert |multiset(HashesOf(xs))| == |HashesOf(xs)|;
  }

  /** A worker's holding changes from `a` to `b` while the set stays: balanced after exactly when they are equal. */
  lemma MoveExact(s: Sys, r: Sys, w: nat, phase: Phase)
    requires Balanced(s) && r.mem.inFlight == s.mem.inFlight
    requires w < |s.workers| && r.workers == Turn(s, w, phase).workers && r.queue == s.queue && r.proc == s.proc
    ensures Balanced(r) <==> Hashes(PhaseTxs(phase)) == Hashes(PhaseTxs(s.workers[w].phase))
  {
    TurnHeld(s, r, w, phase);
    SameExactly(Held(r), Held(s), Hashes(PhaseTxs(s.workers[w].phase)), Hashes(PhaseTxs(phase)));
  }

  lemma SameExactly(r: multiset<Hash>, s: multiset<Hash>, a: multiset<Hash>, b: multiset<Hash>)
    requires r + a == s + b
    ensures r == s <==> a == b
  {
    if a == b {
      assert (r + a) - a == r && (s + b) - b == s;
    }
    if r == s {
      assert (r + a) - r == a && (s + b) - s == b;
    }
  }

  lemma ClaimBalanced(s: Sys, w: nat)
    requires w < |s.workers| && Looping(s, s.workers[w]) && Balanced(s) && !Wipes(s, s.workers[w])
    ensures Balanced(ClaimStep(s, w))
  {
    var k, r := s.workers[w], ClaimStep(s, w);
    var p := Of(s.mem.pools, k.stream).txs[0];
    var claimed := ClaimEffect(s, w);
    if claimed {
      GainHeld(s, r, w, Draining(k.phase.count, k.phase.now, k.phase.txs + [p]), p);
      assert multiset(s.mem.inFlight + {p.tx.hash}) == multiset(s.mem.inFlight) + multiset{p.tx.hash};
    } else {
      MoveExact(s, r, w, k.phase);
    }
  }

  lemma ClearBalanced(s: Sys, w: nat)
    requires w < |s.workers| && s.workers[w].phase.Clearing? && Balanced(s)
    ensures Balanced(ClearStep(s, w))
  {
    ClearStepHeld(s, w);
    ClearExact(Held(ClearStep(s, w)), s.workers[w].phase.txs, s.mem.inFlight);
  }

  lemma TrimBalanced(s: Sys, w: nat, keep: nat)
    requires w < |s.workers| && s.workers[w].phase.Mining? && keep <= |s.workers[w].phase.txs| && Balanced(s)
    ensures Balanced(ApplyWorker(s, Trim(w, keep))) <==> keep == |s.workers[w].phase.txs|
  {
    var txs := s.workers[w].phase.txs;
    MoveExact(s, ApplyWorker(s, Trim(w, keep)), w, Mining(s.workers[w].phase.number, txs[..keep]));
    HashesSize(txs);
    HashesSize(txs[..keep]);
    if keep == |txs| {
      assert txs[..keep] == txs;
    }
  }

  lemma DroppedExactly(s: Sys, r: Sys, w: nat)
    requires Balanced(s) && r.mem.inFlight == s.mem.inFlight && w < |s.workers|
    requires !s.workers[w].phase.Idle? && !s.workers[w].phase.Looking?
    requires r.workers == Turn(s, w, Idle).workers && r.queue == s.queue && r.proc == s.proc
    ensures Balanced(r) <==> s.workers[w].phase.txs == []
  {
    MoveExact(s, r, w, Idle);
    HashesSize(s.workers[w].phase.txs);
    assert Hashes([]) == multiset{};
  }

  lemma CarryBalanced(s: Sys, op: Op)
    requires Carries(op) && !op.NoParents? && WorkerEnabled(s, op) && Balanced(s)
    ensures Balanced(ApplyWorker(s, op))
  {
    var r := ApplyWorker(s, op);
    CarryEffect(s, op);
    MoveExact(s, r, op.w, r.workers[op.w].phase);
  }

  lemma MinedBalanced(s: Sys, w: nat, delivered: bool)
    requires w < |s.workers| && s.workers[w].phase.Mining? && Balanced(s)
    ensures Balanced(MinedStep(s, w, delivered)) <==> delivered || s.workers[w].phase.txs == []
  {
    if delivered {
      MinedHeld(s, w, true);
    } else {
      DroppedExactly(s, MinedStep(s, w, false), w);
    }
  }

  lemma OrderBalanced(s: Sys, w: nat, ordered: seq<Pooled>)
    requires WorkerEnabled(s, Order(w, ordered)) && Balanced(s)
    ensures Balanced(Turn(s, w, Assembled(ordered)))
  {
    HashesPermuted(ordered, s.workers[w].phase.txs);
    MoveExact(s, Turn(s, w, Assembled(ordered)), w, Assembled(ordered));
  }

  lemma KeptBalanced(s: Sys, op: Op)
    requires WorkerOp(op) && Enabled(s, op) && Balanced(s) && (op.Claim? ==> !Wipes(s, s.workers[op.w]))
    requires !op.NoParents? && !op.Trim? && !op.Mined?
    ensures Balanced(ApplyWorker(s, op))
  {
    if op.Claim? {
      ClaimBalanced(s, op.w);
    } else if op.Clear? {
      ClearBalanced(s, op.w);
    } else if op.Order? {
      OrderBalanced(s, op.w, op.ordered);
    } else {
      CarryBalanced(s, op);
    }
  }

  lemma WorkerBalanced(s: Sys, op: Op)
    requires WorkerOp(op) && Enabled(s, op) && Balanced(s) && (op.Claim? ==> !Wipes(s, s.workers[op.w]))
    ensures Balanced(ApplyWorker(s, op)) <==> !LetsGo(s, op)
  {
    if op.Trim? {
      TrimBalanced(s, op.w, op.keep);
    } else if op.NoParents? {
      DroppedExactly(s, Turn(s, op.w, Idle), op.w);
    } else if op.Mined? {
      MinedBalanced(s, op.w, op.delivered);
    } else {
      KeptBalanced(s, op);
    }
  }

  lemma ProcClearBalanced(s: Sys, r: Sys)
    requires Balanced(s) && r.workers == s.workers && r.queue == s.queue && ProcTxs(r.proc) == []
    requires r.mem.inFlight == s.mem.inFlight - HashSet(ProcTxs(s.proc))
    ensures Balanced(r)
  {
    ProcClearHeld(s, r);
    ClearExact(Held(r), ProcTxs(s.proc), s.mem.inFlight);
  }

  lemma OutsideBalanced(s: Sys, op: Op)
    requires !WorkerOp(op) && Enabled(s, op) && Balanced(s)
    ensures Balanced(Apply(s, op))
  {
    var r := Apply(s, op);
    if Takes(op) {
      TakeEffect(s, op);
      TakeHeld(s, r);
    } else if GivesBack(op) {
      ProcClearBalanced(s, r);
    } else {
      QuietEffect(s, op);
      QuietHeld(s, r);
    }
  }

  /** From a balanced state, a step that does not wipe the set keeps the balance exactly when it lets nothing go. */
  lemma StepBalancedExactly(s: Sys, op: Op)
    requires Enabled(s, op) && Balanced(s) && (op.Claim? ==> !Wipes(s, s.workers[op.w]))
    ensures Balanced(Apply(s, op)) <==> !LetsGo(s, op)
  {
    if WorkerOp(op) {
      WorkerBalanced(s, op);
    } else {
      OutsideBalanced(s, op);
    }
  }

  /** No step of the run wipes the set or lets transactions go. */
  ghost predicate Tidy(s: Sys, ops: seq<Op>)
    requires Runs(s, ops)
    decreases |ops|
  {
    ops != [] ==>
      && !LetsGo(s, ops[0])
      && (ops[0].Claim? ==> !Wipes(s, s.workers[ops[0].w]))
      && Tidy(Apply(s, ops[0]), ops[1..])
  }

  /** Over every tidy run nothing leaks: the in-flight set is always exactly what is held. */
  lemma {:induction false} RunBalanced(s: Sys, ops: seq<Op>)
    requires Runs(s, ops) && Tidy(s, ops) && Balanced(s)
    ensures Balanced(After(s, ops))
    decreases |ops|
  {
    if ops != [] {
      StepBalancedExactly(s, ops[0]);
      RunBalanced(Apply(s, ops[0]), ops[1..]);
    }
  }

  // ---------------------------------------------------------------- a leak is for good

  /** In flight, and in nobody's hands. */
  ghost predicate Leaked(s: Sys, h: Hash) {
    h in s.mem.inFlight && Held(s)[h] == 0
  }

  lemma ClaimLeaked(s: Sys, w: nat, h: Hash)
    requires w < |s.workers| && Looping(s, s.workers[w]) && !Wipes(s, s.workers[w]) && Leaked(s, h)
    ensures Leaked(ClaimStep(s, w), h)
  {
    var k, r := s.workers[w], ClaimStep(s, w);
    var p := Of(s.mem.pools, k.stream).txs[0];
    var claimed := ClaimEffect(s, w);
    if claimed {
      GainHeld(s, r, w, Draining(k.phase.count, k.phase.now, k.phase.txs + [p]), p);
    } else {
      ShrinkHeld(s, r, w, k.phase);
    }
  }

  /** Giving back some holder's claims leaves a leaked hash where it is. */
  lemma GivingBackLeaked(s: Sys, r: Sys, xs: seq<Pooled>, h: Hash)
    requires Leaked(s, h) && Held(s) == Held(r) + Hashes(xs) && r.mem.inFlight == s.mem.inFlight - HashSet(xs)
    ensures Leaked(r, h)
  {
    HashSetIs(xs, h);
    assert Held(s)[h] == Held(r)[h] + Hashes(xs)[h];
  }

  lemma WorkerLeaked(s: Sys, op: Op, h: Hash)
    requires WorkerOp(op) && WorkerEnabled(s, op) && Leaked(s, h) && !ApplyWorker(s, op).cleared
    ensures Leaked(ApplyWorker(s, op), h)
  {
    if op.Claim? {
      ClaimLeaked(s, op.w, h);
    } else if op.Clear? {
      ClearStepHeld(s, op.w);
      GivingBackLeaked(s, ClearStep(s, op.w), s.workers[op.w].phase.txs, h);
    } else {
      WorkerHeld(s, op);
    }
  }

  lemma OutsideLeaked(s: Sys, op: Op, h: Hash)
    requires !WorkerOp(op) && Enabled(s, op) && Leaked(s, h)
    ensures Leaked(Apply(s, op), h)
  {
    var r := Apply(s, op);
    if Takes(op) {
      TakeEffect(s, op);
      TakeHeld(s, r);
    } else if GivesBack(op) {
      ProcClearHeld(s, r);
      GivingBackLeaked(s, r, ProcTxs(s.proc), h);
    } else {
      QuietEffect(s, op);
      QuietHeld(s, r);
    }
  }

  lemma {:induction false} WipeRemembered(s: Sys, ops: seq<Op>)
    requires Runs(s, ops) && s.cleared
    ensures After(s, ops).cleared
    decreases |ops|
  {
    if ops != [] {
      WipeRemembered(Apply(s, ops[0]), ops[1..]);
    }
  }

  /**
   * Until the set is wiped a leak is for good: a hash in flight and in nobody's hands stays there, and nobody ever
   * holds it again, so its transaction cannot be mined.
   */
  lemma {:induction false} RunLeaked(s: Sys, ops: seq<Op>, h: Hash)
    requires Runs(s, ops) && Leaked(s, h) && !After(s, ops).cleared
    ensures Leaked(After(s, ops), h)
    decreases |ops|
  {
    if ops != [] {
      var r := Apply(s, ops[0]);
      if r.cleared {
        WipeRemembered(r, ops[1..]);
      }
      if WorkerOp(ops[0]) {
        WorkerLeaked(s, ops[0], h);
      } else {
        OutsideLeaked(s, ops[0], h);
      }
      RunLeaked(r, ops[1..], h);
    }
  }
}
