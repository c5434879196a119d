/**
 * No transaction is in two candidate blocks at once: what the workers, the queued blocks and the processor
 * hold is, hash by hash, within the in-flight set.
 */
module Exclusion {
  import opened Types
  import opened Pools
  import opened Mempool
  import opened Holdings
  import opened Pipeline
  import Admission

  ghost function Hashes(xs: seq<Pooled>): multiset<Hash> {
    multiset(HashesOf(xs))
  }

  function PhaseTxs(p: Phase): seq<Pooled> {
    if p.Idle? || p.Looking? then [] else p.txs
  }

  /** What the processor still claims: a block's hashes leave the in-flight set before it is closed. */
  function ProcTxs(p: Processor): seq<Pooled> {
    if p.Ready? || p.Closing? || p.Confirming? then [] else p.txs
  }

  ghost function WorkerShares(ws: seq<Worker>): (ms: seq<multiset<Hash>>)
    ensures |ms| == |ws| && forall i | 0 <= i < |ws| :: ms[i] == Hashes(PhaseTxs(ws[i].phase))
  {
    seq(|ws|, i requires 0 <= i < |ws| => Hashes(PhaseTxs(ws[i].phase)))
  }

  ghost function BlockShares(q: seq<Block>): (ms: seq<multiset<Hash>>)
    ensures |ms| == |q| && forall i | 0 <= i < |q| :: ms[i] == Hashes(q[i].txs)
  {
    seq(|q|, i requires 0 <= i < |q| => Hashes(q[i].txs))
  }

  ghost function Held(s: Sys): multiset<Hash> {
    Total(WorkerShares(s.workers)) + Total(BlockShares(s.queue)) + Hashes(ProcTxs(s.proc))
  }

  ghost predicate Exclusive(s: Sys) {
    Held(s) <= multiset(s.mem.inFlight)
  }

  // ---------------------------------------------------------------- hashes of lists

  lemma HashesPush(xs: seq<Pooled>, x: Pooled)
    ensures Hashes(xs + [x]) == Hashes(xs) + multiset{x.tx.hash}
  {
    assert HashesOf(xs + [x]) == HashesOf(xs) + [x.tx.hash];
  }

  lemma HashesPrefix(xs: seq<Pooled>, k: nat)
    requires k <= |xs|
    ensures Hashes(xs[..k]) <= Hashes(xs)
  {
    assert HashesOf(xs) == HashesOf(xs[..k]) + HashesOf(xs[k..]);
  }

  lemma HashesWithout(ys: seq<Pooled>, j: nat)
    requires j < |ys|
    ensures Hashes(ys) == multiset{ys[j].tx.hash} + Hashes(ys[..j] + ys[j + 1..])
  {
    assert HashesOf(ys) == HashesOf(ys[..j]) + [ys[j].tx.hash] + HashesOf(ys[j + 1..]);
    assert HashesOf(ys[..j] + ys[j + 1..]) == HashesOf(ys[..j]) + HashesOf(ys[j + 1..]);
  }

  lemma MiddleOut(a: seq<Pooled>, x: Pooled, b: seq<Pooled>)
    ensures multiset(a + [x] + b) == multiset(a + b) + multiset{x}
  {
  }

  /** Two lists that agree as multisets still do after one copy of an entry is taken from each. */
  lemma TakeOut(xs: seq<Pooled>, ys: seq<Pooled>) returns (j: nat)
    requires xs != [] && multiset(xs) == multiset(ys)
    ensures j < |ys| && ys[j] == xs[0] && multiset(xs[1..]) == multiset(ys[..j] + ys[j + 1..])
  {
    assert xs[0] in multiset(ys);
    j :| 0 <= j < |ys| && ys[j] == xs[0];
    assert xs == [] + [xs[0]] + xs[1..] && [] + xs[1..] == xs[1..];
    assert ys == ys[..j] + [ys[j]] + ys[j + 1..];
    MiddleOut([], xs[0], xs[1..]);
    MiddleOut(ys[..j], ys[j], ys[j + 1..]);
    SameRest(multiset(xs[1..]), multiset(ys[..j] + ys[j + 1..]), multiset{xs[0]});
  }

  lemma {:induction false} HashesPermuted(xs: seq<Pooled>, ys: seq<Pooled>)
    requires multiset(xs) == multiset(ys)
    ensures Hashes(xs) == Hashes(ys)
  {
    if xs == [] {
      assert |multiset(ys)| == |ys| == 0;
    } else {
      var j := TakeOut(xs, ys);
      HashesPermuted(xs[1..], ys[..j] + ys[j + 1..]);
      HashesWithout(ys, j);
      HashesHead(xs);
    }
  }

  lemma HashesHead(xs: seq<Pooled>)
    requires xs != []
    ensures Hashes(xs) == multiset{xs[0].tx.hash} + Hashes(xs[1..])
  {
    assert HashesOf(xs) == [xs[0].tx.hash] + HashesOf(xs[1..]);
  }

  lemma HashSetIs(xs: seq<Pooled>, h: Hash)
    ensures h in HashSet(xs) <==> Hashes(xs)[h] > 0
  {
    assert h in HashSet(xs) <==> h in HashesOf(xs);
    assert h in HashesOf(xs) <==> h in multiset(HashesOf(xs));
  }

  /** Dropping a share and taking its hashes out of the set keeps the rest within it. */
  lemma ClearKeeps(rest: multiset<Hash>, xs: seq<Pooled>, inFlight: set<Hash>)
    requires rest + Hashes(xs) <= multiset(inFlight)
    ensures rest <= multiset(inFlight - HashSet(xs))
  {
    forall h
      ensures rest[h] <= multiset(inFlight - HashSet(xs))[h]
    {
      HashSetIs(xs, h);
      assert (rest + Hashes(xs))[h] <= multiset(inFlight)[h] <= 1;
    }
  }

  // ---------------------------------------------------------------- one worker moves

  lemma TurnHeld(s: Sys, r: Sys, w: nat, phase: Phase)
    requires w < |s.workers| && r.workers == Turn(s, w, phase).workers && r.queue == s.queue && r.proc == s.proc
    ensures Held(r) + Hashes(PhaseTxs(s.workers[w].phase)) == Held(s) + Hashes(PhaseTxs(phase))
  {
    var ms, v := WorkerShares(s.workers), Hashes(PhaseTxs(phase));
    assert WorkerShares(r.workers) == ms[w := v];
    var rest := Total(BlockShares(s.queue)) + Hashes(ProcTxs(s.proc));
    TotalExchange(ms, w, v, rest);
    assert Held(r) == rest + Total(ms[w := v]) && Held(s) == rest + Total(ms);
  }

  /** A worker that keeps no more than it had. */
  lemma ShrinkHeld(s: Sys, r: Sys, w: nat, phase: Phase)
    requires w < |s.workers| && r.workers == Turn(s, w, phase).workers && r.queue == s.queue && r.proc == s.proc
    requires Hashes(PhaseTxs(phase)) <= Hashes(PhaseTxs(s.workers[w].phase))
    ensures Held(r) <= Held(s)
  {
    TurnHeld(s, r, w, phase);
    Shrinks(Held(r), Held(s), Hashes(PhaseTxs(s.workers[w].phase)), Hashes(PhaseTxs(phase)));
  }

  /** A claim that does not wipe the set either changes no holding, or moves one new hash into both. */
  lemma ClaimEffect(s: Sys, w: nat) returns (claimed: bool)
    requires w < |s.workers| && Looping(s, s.workers[w]) && !Wipes(s, s.workers[w])
    ensures var k, r, p := s.workers[w], ClaimStep(s, w), Of(s.mem.pools, s.workers[w].stream).txs[0];
            var txs := if claimed then k.phase.txs + [p] else k.phase.txs;
            && r.workers == Turn(s, w, Draining(k.phase.count, k.phase.now, txs)).workers
            && r.queue == s.queue && r.proc == s.proc
            && (claimed ==> p.tx.hash !in s.mem.inFlight)
            && r.mem.inFlight == if claimed then s.mem.inFlight + {p.tx.hash} else s.mem.inFlight
  {
    var k, p := s.workers[w], Of(s.mem.pools, s.workers[w].stream).txs[0];
    claimed := !IsExpired(p, k.phase.now) && p.tx.hash !in s.mem.inFlight;
  }

  /** A worker gains one transaction: so does the total. */
  lemma GainHeld(s: Sys, r: Sys, w: nat, phase: Phase, p: Pooled)
    requires w < |s.workers| && r.workers == Turn(s, w, phase).workers && r.queue == s.queue && r.proc == s.proc
    requires PhaseTxs(phase) == PhaseTxs(s.workers[w].phase) + [p]
    ensures Held(r) == Held(s) + multiset{p.tx.hash}
  {
    TurnHeld(s, r, w, phase);
    HashesPush(PhaseTxs(s.workers[w].phase), p);
    Cancel(Held(r), Held(s), Hashes(PhaseTxs(s.workers[w].phase)), multiset{p.tx.hash});
  }

  lemma ClaimKeeps(s: Sys, w: nat)
    requires w < |s.workers| && Looping(s, s.workers[w]) && Exclusive(s) && !Wipes(s, s.workers[w])
    ensures Exclusive(ClaimStep(s, w))
  {
    var k, r := s.workers[w], ClaimStep(s, w);
    var p := Of(s.mem.pools, k.stream).txs[0];
    var claimed := ClaimEffect(s, w);
    if claimed {
      GainHeld(s, r, w, Draining(k.phase.count, k.phase.now, k.phase.txs + [p]), p);
      assert multiset(s.mem.inFlight + {p.tx.hash}) == multiset(s.mem.inFlight) + multiset{p.tx.hash};
    } else {
      ShrinkHeld(s, r, w, k.phase);
    }
  }

  lemma ClearStepHeld(s: Sys, w: nat)
    requires w < |s.workers| && s.workers[w].phase.Clearing?
    ensures Held(s) == Held(ClearStep(s, w)) + Hashes(s.workers[w].phase.txs)
  {
    TurnHeld(s, ClearStep(s, w), w, Idle);
    assert Hashes([]) == multiset{};
  }

  lemma ClearStepKeeps(s: Sys, w: nat)
    requires w < |s.workers| && s.workers[w].phase.Clearing? && Exclusive(s)
    ensures Exclusive(ClearStep(s, w))
  {
    ClearStepHeld(s, w);
    ClearKeeps(Held(ClearStep(s, w)), s.workers[w].phase.txs, s.mem.inFlight);
  }

  lemma MinedHeld(s: Sys, w: nat, delivered: bool)
    requires w < |s.workers| && s.workers[w].phase.Mining?
    ensures Held(MinedStep(s, w, delivered)) <= Held(s)
    ensures delivered ==> Held(MinedStep(s, w, delivered)) == Held(s)
  {
    var k, r := s.workers[w], MinedStep(s, w, delivered);
    var idle := Turn(s, w, Idle);
    TurnHeld(s, idle, w, Idle);
    assert Hashes([]) == multiset{};
    if delivered {
      var v := Hashes(k.phase.txs);
      assert BlockShares(r.queue) == BlockShares(s.queue) + [v];
      TotalPush(BlockShares(s.queue), v);
      assert Held(r) == Held(idle) + v;
    } else {
      Shrinks(Held(idle), Held(s), Hashes(k.phase.txs), multiset{});
    }
  }

  lemma MinedKeeps(s: Sys, w: nat, delivered: bool)
    requires w < |s.workers| && s.workers[w].phase.Mining? && Exclusive(s)
    ensures Exclusive(MinedStep(s, w, delivered))
  {
    MinedHeld(s, w, delivered);
  }

  /** The steps in which a worker keeps, or lets go of, what it holds. */
  predicate Carries(op: Op) {
    WorkerOp(op) && !op.Claim? && !op.Clear? && !op.Mined? && !op.Trim? && !op.Order?
  }

  lemma CarryEffect(s: Sys, op: Op)
    requires Carries(op) && WorkerEnabled(s, op)
    ensures var r := ApplyWorker(s, op);
            && |r.workers| == |s.workers|
            && r.workers == Turn(s, op.w, r.workers[op.w].phase).workers
            && r.queue == s.queue && r.proc == s.proc && r.mem.inFlight == s.mem.inFlight
            && PhaseTxs(r.workers[op.w].phase) == if op.NoParents? then [] else PhaseTxs(s.workers[op.w].phase)
  {
  }

  lemma CarryHeld(s: Sys, op: Op)
    requires Carries(op) && WorkerEnabled(s, op)
    ensures Held(ApplyWorker(s, op)) <= Held(s)
  {
    var r := ApplyWorker(s, op);
    CarryEffect(s, op);
    assert Hashes([]) == multiset{};
    ShrinkHeld(s, r, op.w, r.workers[op.w].phase);
  }

  lemma TrimHeld(s: Sys, w: nat, keep: nat)
    requires w < |s.workers| && s.workers[w].phase.Mining? && keep <= |s.workers[w].phase.txs|
    ensures Held(Turn(s, w, Mining(s.workers[w].phase.number, s.workers[w].phase.txs[..keep]))) <= Held(s)
  {
    var txs := s.workers[w].phase.txs;
    var phase := Mining(s.workers[w].phase.number, txs[..keep]);
    HashesPrefix(txs, keep);
    ShrinkHeld(s, Turn(s, w, phase), w, phase);
  }

  lemma OrderHeld(s: Sys, w: nat, ordered: seq<Pooled>)
    requires w < |s.workers| && s.workers[w].phase.Cleaning? && multiset(ordered) == multiset(s.workers[w].phase.txs)
    ensures Held(Turn(s, w, Assembled(ordered))) <= Held(s)
  {
    HashesPermuted(ordered, s.workers[w].phase.txs);
    ShrinkHeld(s, Turn(s, w, Assembled(ordered)), w, Assembled(ordered));
  }

  /** Only a claim adds to what is held; only clearing, besides, touches the in-flight set. */
  lemma WorkerHeld(s: Sys, op: Op)
    requires WorkerOp(op) && WorkerEnabled(s, op) && !op.Claim? && !op.Clear?
    ensures Held(ApplyWorker(s, op)) <= Held(s) && ApplyWorker(s, op).mem.inFlight == s.mem.inFlight
  {
    if op.Mined? {
      MinedHeld(s, op.w, op.delivered);
    } else if op.Trim? {
      TrimHeld(s, op.w, op.keep);
    } else if op.Order? {
      OrderHeld(s, op.w, op.ordered);
    } else {
      CarryEffect(s, op);
      CarryHeld(s, op);
    }
  }

  lemma WorkerKeeps(s: Sys, op: Op)
    requires WorkerOp(op) && WorkerEnabled(s, op) && Exclusive(s) && !ApplyWorker(s, op).cleared
    ensures Exclusive(ApplyWorker(s, op))
  {
    if op.Claim? {
      ClaimKeeps(s, op.w);
    } else if op.Clear? {
      ClearStepKeeps(s, op.w);
    } else {
      WorkerHeld(s, op);
    }
  }

  // ---------------------------------------------------------------- the processor moves

  lemma TakeHeld(s: Sys, r: Sys)
    requires s.queue != [] && s.proc.Ready? && r.workers == s.workers && r.queue == s.queue[1..]
    requires ProcTxs(r.proc) == s.queue[0].txs
    ensures Held(r) == Held(s)
  {
    var ms := BlockShares(s.queue);
    assert BlockShares(r.queue) == ms[1..];
    assert Hashes([]) == multiset{};
    assert Total(ms) == ms[0] + Total(ms[1..]);
  }

  lemma ProcClearHeld(s: Sys, r: Sys)
    requires r.workers == s.workers && r.queue == s.queue && ProcTxs(r.proc) == []
    ensures Held(s) == Held(r) + Hashes(ProcTxs(s.proc))
  {
    assert Hashes([]) == multiset{};
  }

  lemma ProcClearKeeps(s: Sys, r: Sys)
    requires Exclusive(s) && r.workers == s.workers && r.queue == s.queue && ProcTxs(r.proc) == []
    requires r.mem.inFlight == s.mem.inFlight - HashSet(ProcTxs(s.proc))
    ensures Exclusive(r)
  {
    ProcClearHeld(s, r);
    ClearKeeps(Held(r), ProcTxs(s.proc), s.mem.inFlight);
  }

  /** Processor steps that take a block off the queue, and those that give its claims back. */
  predicate Takes(op: Op) {
    op.Refuse? || op.TooFarAhead? || op.Commit?
  }

  predicate GivesBack(op: Op) {
    op.DropClaims? || op.ClearCommitted?
  }

  ghost predicate Quiet(s: Sys, r: Sys) {
    && r.workers == s.workers && r.queue == s.queue && ProcTxs(r.proc) == ProcTxs(s.proc)
    && r.mem.inFlight == s.mem.inFlight
  }

  lemma TakeEffect(s: Sys, op: Op)
    requires Takes(op) && Enabled(s, op)
    ensures var r := Apply(s, op);
            && s.queue != [] && s.proc.Ready? && r.workers == s.workers && r.queue == s.queue[1..]
            && ProcTxs(r.proc) == s.queue[0].txs && r.mem == s.mem
  {
  }

  lemma QuietEffect(s: Sys, op: Op)
    requires !WorkerOp(op) && !Takes(op) && !GivesBack(op) && Enabled(s, op)
    ensures Quiet(s, Apply(s, op))
  {
    if op.Submit? {
      Admission.AdvanceInFlight(Admission.Moment(s.mem, s.submissions[op.u]), op.input);
    }
  }

  lemma QuietHeld(s: Sys, r: Sys)
    requires Quiet(s, r)
    ensures Held(r) == Held(s)
  {
  }

  lemma OutsideKeeps(s: Sys, op: Op)
    requires !WorkerOp(op) && Enabled(s, op) && Exclusive(s)
    ensures Exclusive(Apply(s, op))
  {
    var r := Apply(s, op);
    if Takes(op) {
      TakeEffect(s, op);
      TakeHeld(s, r);
    } else if GivesBack(op) {
      ProcClearKeeps(s, r);
    } else {
      QuietEffect(s, op);
      QuietHeld(s, r);
    }
  }

  // ---------------------------------------------------------------- whole runs

  lemma {:induction false} RunKeeps(s: Sys, ops: seq<Op>)
    requires Runs(s, ops) && (s.cleared || Exclusive(s))
    ensures After(s, ops).cleared || Exclusive(After(s, ops))
    decreases |ops|
  {
    if ops != [] {
      var op := ops[0];
      var r := Apply(s, op);
      if !r.cleared {
        if WorkerOp(op) {
          WorkerKeeps(s, op);
        } else {
          OutsideKeeps(s, op);
        }
      }
      RunKeeps(r, ops[1..]);
    }
  }

  // ---------------------------------------------------------------- what exclusion means

  /** Everyone who may hold transactions: the workers, then the queued blocks, then the processor. */
  function Holders(s: Sys): seq<seq<Pooled>> {
    WorkerLists(s.workers) + BlockLists(s.queue) + [ProcTxs(s.proc)]
  }

  function WorkerLists(ws: seq<Worker>): (xs: seq<seq<Pooled>>)
    ensures |xs| == |ws| && forall i | 0 <= i < |ws| :: xs[i] == PhaseTxs(ws[i].phase)
  {
    seq(|ws|, i requires 0 <= i < |ws| => PhaseTxs(ws[i].phase))
  }

  function BlockLists(q: seq<Block>): (xs: seq<seq<Pooled>>)
    ensures |xs| == |q| && forall i | 0 <= i < |q| :: xs[i] == q[i].txs
  {
    seq(|q|, i requires 0 <= i < |q| => q[i].txs)
  }

  /** Every list is duplicate-free and within the in-flight set, and no two lists share a hash. */
  ghost predicate Separate(holders: seq<seq<Pooled>>, inFlight: set<Hash>) {
    && (forall a | 0 <= a < |holders| :: Distinct(HashesOf(holders[a])) && HashSet(holders[a]) <= inFlight)
    && (forall a, b | 0 <= a < b < |holders| :: HashSet(holders[a]) !! HashSet(holders[b]))
  }

  ghost function Shares(holders: seq<seq<Pooled>>): (ms: seq<multiset<Hash>>)
    ensures |ms| == |holders| && forall i | 0 <= i < |ms| :: ms[i] == Hashes(holders[i])
  {
    seq(|holders|, i requires 0 <= i < |holders| => Hashes(holders[i]))
  }

  lemma SharesConcat(xs: seq<seq<Pooled>>, ys: seq<seq<Pooled>>)
    ensures Shares(xs + ys) == Shares(xs) + Shares(ys)
  {
  }

  lemma SharesTotal(s: Sys)
    ensures Total(Shares(Holders(s))) == Held(s)
  {
    var ws, bs, p := WorkerShares(s.workers), BlockShares(s.queue), Hashes(ProcTxs(s.proc));
    var xs, ys := WorkerLists(s.workers), BlockLists(s.queue);
    assert Shares(xs) == ws && Shares(ys) == bs;
    SharesConcat(xs, ys);
    SharesConcat(xs + ys, [ProcTxs(s.proc)]);
    assert Shares([ProcTxs(s.proc)]) == [p];
    TotalPush(ws + bs, p);
    TotalConcat(ws, bs);
  }

  lemma DistinctIfSingle(hs: seq<Hash>)
    requires forall h :: multiset(hs)[h] <= 1
    ensures Distinct(hs)
  {
    forall i, j | 0 <= i < j < |hs|
      ensures hs[i] != hs[j]
    {
      assert hs == hs[..j] + [hs[j]] + hs[j + 1..];
      assert hs[i] in hs[..j];
      assert multiset(hs)[hs[j]] == multiset(hs[..j])[hs[j]] + 1 + multiset(hs[j + 1..])[hs[j]];
    }
  }

  lemma OneHolder(holders: seq<seq<Pooled>>, inFlight: set<Hash>, a: nat)
    requires a < |holders| && Total(Shares(holders)) <= multiset(inFlight)
    ensures Distinct(HashesOf(holders[a])) && HashSet(holders[a]) <= inFlight
  {
    TotalHas(Shares(holders), a);
    forall h
      ensures Hashes(holders[a])[h] <= multiset(inFlight)[h] <= 1
    {
    }
    DistinctIfSingle(HashesOf(holders[a]));
    forall h | h in HashSet(holders[a])
      ensures h in inFlight
    {
      HashSetIs(holders[a], h);
    }
  }

  lemma TwoHolders(holders: seq<seq<Pooled>>, inFlight: set<Hash>, a: nat, b: nat)
    requires a < b < |holders| && Total(Shares(holders)) <= multiset(inFlight)
    ensures HashSet(holders[a]) !! HashSet(holders[b])
  {
    TotalHasTwo(Shares(holders), a, b);
    forall h
      ensures h !in HashSet(holders[a]) || h !in HashSet(holders[b])
    {
      HashSetIs(holders[a], h);
      HashSetIs(holders[b], h);
      assert (Hashes(holders[a]) + Hashes(holders[b]))[h] <= multiset(inFlight)[h] <= 1;
    }
  }

  lemma SeparateIfExclusive(s: Sys)
    requires Exclusive(s)
    ensures Separate(Holders(s), s.mem.inFlight)
  {
    SharesTotal(s);
    forall a | 0 <= a < |Holders(s)|
      ensures Distinct(HashesOf(Holders(s)[a])) && HashSet(Holders(s)[a]) <= s.mem.inFlight
    {
      OneHolder(Holders(s), s.mem.inFlight, a);
    }
    forall a, b | 0 <= a < b < |Holders(s)|
      ensures HashSet(Holders(s)[a]) !! HashSet(Holders(s)[b])
    {
      TwoHolders(Holders(s), s.mem.inFlight, a, b);
    }
  }

  /**
   * In every run of the pipeline in which the in-flight set was never wiped, the transactions being assembled,
   * mined, returned, queued and processed are duplicate-free, pairwise disjoint and all in the in-flight set.
   */
  lemma RunExclusion(s: Sys, ops: seq<Op>)
    requires Initial(s) && Runs(s, ops) && !After(s, ops).cleared
    ensures Separate(Holders(After(s, ops)), After(s, ops).mem.inFlight)
  {
    assert Hashes([]) == multiset{};
    TotalOfNothing(WorkerShares(s.workers));
    assert Held(s) == multiset{};
    RunKeeps(s, ops);
    SeparateIfExclusive(After(s, ops));
  }

  // ---------------------------------------------------------------- the wipe

  lemma ClaimHeld(s: Sys, w: nat)
    requires w < |s.workers| && Looping(s, s.workers[w]) && Wipes(s, s.workers[w])
    ensures var h, r := Of(s.mem.pools, s.workers[w].stream).txs[0].tx.hash, ClaimStep(s, w);
            Held(r) == Held(s) + multiset{h} && r.mem.inFlight == {h}
  {
    var k, r := s.workers[w], ClaimStep(s, w);
    var p := Of(s.mem.pools, k.stream).txs[0];
    TurnHeld(s, r, w, Draining(k.phase.count, k.phase.now, k.phase.txs + [p]));
    HashesPush(k.phase.txs, p);
    Cancel(Held(r), Held(s), Hashes(k.phase.txs), multiset{p.tx.hash});
  }

  /**
   * A claim keeps every holder within the in-flight set exactly when the set is not over its limit, or nobody
   * holds anything; and a claim that wipes the set puts a transaction into two blocks exactly when the
   * transaction it takes was already held.
   */
  lemma ClaimExclusiveExactly(s: Sys, w: nat)
    requires w < |s.workers| && Looping(s, s.workers[w]) && Exclusive(s)
    requires !IsExpired(Of(s.mem.pools, s.workers[w].stream).txs[0], s.workers[w].phase.now)
    ensures Exclusive(ClaimStep(s, w)) <==> |s.mem.inFlight| <= IN_FLIGHT_LIMIT || Held(s) == multiset{}
    ensures (forall g :: Held(ClaimStep(s, w))[g] <= 1) <==>
            |s.mem.inFlight| <= IN_FLIGHT_LIMIT || Of(s.mem.pools, s.workers[w].stream).txs[0].tx.hash !in Held(s)
  {
    var r := ClaimStep(s, w);
    if |s.mem.inFlight| <= IN_FLIGHT_LIMIT {
      ClaimKeeps(s, w);
      assert forall g :: Held(r)[g] <= multiset(r.mem.inFlight)[g] <= 1;
    } else {
      ClaimHeld(s, w);
      WipeExact(Held(s), Of(s.mem.pools, s.workers[w].stream).txs[0].tx.hash, s.mem.inFlight);
    }
  }

  lemma WipeExact(held: multiset<Hash>, h: Hash, inFlight: set<Hash>)
    requires held <= multiset(inFlight)
    ensures held + multiset{h} <= multiset({h}) <==> held == multiset{}
    ensures (forall g :: (held + multiset{h})[g] <= 1) <==> h !in held
  {
    assert forall g :: held[g] <= multiset(inFlight)[g] <= 1;
    if held + multiset{h} <= multiset({h}) {
      forall g
        ensures held[g] == 0
      {
        assert (held + multiset{h})[g] <= multiset({h})[g];
      }
    }
    if h in held {
      assert (held + multiset{h})[h] > 1;
    }
  }
}
