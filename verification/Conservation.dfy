/**
 * Where every transaction is: in a pool, in a queue, or in somebody's hands. Each step moves transactions about, and
 * what enters, what goes to the chain and what is lost is named step by step, copy for copy.
 */
module Conservation {
  import opened Types
  import opened Fees
  import opened Pools
  import opened Mempool
  import opened Pipeline
  import Admission
  import Holdings

  // ---------------------------------------------------------------- copies in a list

  /** How many entries carry the transaction. */
  function Count(xs: seq<Pooled>, tx: Transaction): nat {
    if xs == [] then 0
    else
      var n := |xs| - 1;
      Count(xs[..n], tx) + if xs[n].tx == tx then 1 else 0
  }

  lemma {:induction false} CountJoin(xs: seq<Pooled>, ys: seq<Pooled>, tx: Transaction)
    ensures Count(xs + ys, tx) == Count(xs, tx) + Count(ys, tx)
  {
    if ys == [] {
      assert xs + ys == xs;
    } else {
      var n := |ys| - 1;
      CountJoin(xs, ys[..n], tx);
      assert (xs + ys)[..|xs| + n] == xs + ys[..n];
      assert (xs + ys)[|xs| + n] == ys[n];
    }
  }

  lemma CountPush(xs: seq<Pooled>, x: Pooled, tx: Transaction)
    ensures Count(xs + [x], tx) == Count(xs, tx) + if x.tx == tx then 1 else 0
  {
    assert (xs + [x])[..|xs|] == xs;
  }

  lemma CountCut(xs: seq<Pooled>, k: nat, tx: Transaction)
    requires k <= |xs|
    ensures Count(xs, tx) == Count(xs[..k], tx) + Count(xs[k..], tx)
  {
    assert xs == xs[..k] + xs[k..];
    CountJoin(xs[..k], xs[k..], tx);
  }

  /** Taking one entry out of the middle. */
  lemma CountWithout(a: seq<Pooled>, x: Pooled, b: seq<Pooled>, tx: Transaction)
    ensures Count(a + [x] + b, tx) == Count(a + b, tx) + if x.tx == tx then 1 else 0
  {
    CountJoin(a + [x], b, tx);
    CountPush(a, x, tx);
    CountJoin(a, b, tx);
  }

  lemma {:induction false} CountPermuted(xs: seq<Pooled>, ys: seq<Pooled>, tx: Transaction)
    requires multiset(xs) == multiset(ys)
    ensures Count(xs, tx) == Count(ys, tx)
  {
    if xs == [] {
      assert |ys| == |multiset(ys)| == 0;
    } else {
      var n := |xs| - 1;
      assert xs == xs[..n] + [xs[n]];
      assert xs[n] in multiset(ys);
      var j :| 0 <= j < |ys| && ys[j] == xs[n];
      assert ys == ys[..j] + [ys[j]] + ys[j + 1..];
      RestPermuted(xs[..n], xs[n], ys[..j], ys[j + 1..]);
      CountPermuted(xs[..n], ys[..j] + ys[j + 1..], tx);
      CountWithout(ys[..j], ys[j], ys[j + 1..], tx);
    }
  }

  lemma RestPermuted(front: seq<Pooled>, x: Pooled, a: seq<Pooled>, b: seq<Pooled>)
    requires multiset(front + [x]) == multiset(a + [x] + b)
    ensures multiset(front) == multiset(a + b)
  {
    assert multiset(front) + multiset{x} == multiset(a + b) + multiset{x};
    Holdings.SameRest(multiset(front), multiset(a + b), multiset{x});
  }

  lemma CountSwapRemove(xs: seq<Pooled>, i: nat, tx: Transaction)
    requires i < |xs|
    ensures Count(xs, tx) == Count(SwapRemove(xs, i), tx) + if xs[i].tx == tx then 1 else 0
  {
    SwapRemoveMultiset(xs, i);
    CountPermuted(xs, SwapRemove(xs, i) + [xs[i]], tx);
    CountPush(SwapRemove(xs, i), xs[i], tx);
  }

  /** What is kept and what is not make up the whole. */
  lemma {:induction false} CountRetained(xs: seq<Pooled>, keep: Pooled -> bool, drop: Pooled -> bool, tx: Transaction)
    requires forall x :: drop(x) == !keep(x)
    ensures Count(xs, tx) == Count(Retained(xs, keep), tx) + Count(Retained(xs, drop), tx)
  {
    if xs != [] {
      var n := |xs| - 1;
      CountRetained(xs[..n], keep, drop, tx);
      CountPush(Retained(xs[..n], keep), xs[n], tx);
      CountPush(Retained(xs[..n], drop), xs[n], tx);
      assert Retained(xs[..n], keep) + [] == Retained(xs[..n], keep);
      assert Retained(xs[..n], drop) + [] == Retained(xs[..n], drop);
    }
  }

  lemma {:induction false} CountWrapped(xs: seq<Pooled>, now: nat, tx: Transaction)
    ensures Count(Wrapped(xs, now), tx) == Count(xs, tx)
  {
    if xs != [] {
      var n := |xs| - 1;
      CountWrapped(xs[..n], now, tx);
      assert Wrapped(xs, now)[..n] == Wrapped(xs[..n], now);
    }
  }

  // ---------------------------------------------------------------- sums

  function Sum(ns: seq<nat>): nat {
    if ns == [] then 0 else ns[0] + Sum(ns[1..])
  }

  lemma {:induction false} SumUpdate(ns: seq<nat>, i: nat, v: nat)
    requires i < |ns|
    ensures Sum(ns[i := v]) + ns[i] == Sum(ns) + v
  {
    if i == 0 {
      assert ns[0 := v][1..] == ns[1..];
    } else {
      SumUpdate(ns[1..], i - 1, v);
      assert ns[i := v][1..] == ns[1..][i - 1 := v];
    }
  }

  lemma {:induction false} SumPush(ns: seq<nat>, v: nat)
    ensures Sum(ns + [v]) == Sum(ns) + v
  {
    if ns != [] {
      SumPush(ns[1..], v);
      assert (ns + [v])[1..] == ns[1..] + [v];
    }
  }

  // ---------------------------------------------------------------- copies in the system

  /** Every queued transaction is filed under its own sender and nonce. */
  ghost predicate Filed(f: map<nat, Queue>) {
    forall s, n | s in f && n in f[s] :: f[s][n].tx.sender == s && f[s][n].tx.nonce == n
  }

  predicate Queued(f: map<nat, Queue>, tx: Transaction) {
    tx.sender in f && tx.nonce in f[tx.sender] && f[tx.sender][tx.nonce].tx == tx
  }

  function If(b: bool): nat {
    if b then 1 else 0
  }

  function InPools(m: State, tx: Transaction): nat {
    Count(m.pools.a.txs, tx) + Count(m.pools.b.txs, tx) + Count(m.pools.c.txs, tx) + Count(m.legacy.txs, tx)
    + If(Queued(m.futures, tx))
  }

  /** What a worker has taken out of its pool and not put back or handed on. */
  function WorkerHas(p: Phase): seq<Pooled> {
    match p
    case Draining(_, _, txs) => txs
    case Cleaning(txs, _) => txs
    case Assembled(txs) => txs
    case Mining(_, txs) => txs
    case Returning(txs) => txs
    case _ => []
  }

  /** What the processor has taken off its queue and neither committed nor handed back. */
  function ProcessorHas(p: Processor): seq<Pooled> {
    match p
    case Resetting(txs) => txs
    case Forgetting(txs) => txs
    case Refused(txs) => txs
    case _ => []
  }

  /** Whether a submission is still to place the transaction. */
  predicate Carries(p: Admission.Submission, tx: Transaction) {
    match p
    case Off => false
    case Entered(own) => own == tx
    case Owing(_, _) => false
    case Promoting(_, _) => false
    case _ => p.x.tx == tx
  }

  function WorkerParts(ws: seq<Worker>, tx: Transaction): (ns: seq<nat>)
    ensures |ns| == |ws|
  {
    seq(|ws|, i requires 0 <= i < |ws| => Count(WorkerHas(ws[i].phase), tx))
  }

  function BlockParts(bs: seq<Block>, tx: Transaction): (ns: seq<nat>)
    ensures |ns| == |bs|
  {
    seq(|bs|, i requires 0 <= i < |bs| => Count(bs[i].txs, tx))
  }

  function SubmissionParts(us: seq<Admission.Submission>, tx: Transaction): (ns: seq<nat>)
    ensures |ns| == |us|
  {
    seq(|us|, i requires 0 <= i < |us| => If(Carries(us[i], tx)))
  }

  function InHands(s: Sys, tx: Transaction): nat {
    Sum(WorkerParts(s.workers, tx)) + Sum(BlockParts(s.queue, tx)) + Count(ProcessorHas(s.proc), tx)
    + Sum(SubmissionParts(s.submissions, tx))
  }

  /** All the copies of a transaction the system has. */
  function Copies(s: Sys, tx: Transaction): nat {
    InPools(s.mem, tx) + InHands(s, tx)
  }

  // ---------------------------------------------------------------- what comes and goes

  /** A submission of a hash not seen yet brings its transaction in. */
  predicate Enters(m: State, p: Admission.Submission, i: Admission.Input, tx: Transaction) {
    p.Off? && i.tx == tx && tx.hash !in m.members
  }

  function Comes(s: Sys, op: Op, tx: Transaction): nat
    requires Enabled(s, op)
  {
    if op.Submit? then If(Enters(s.mem, s.submissions[op.u], op.input, tx)) else 0
  }

  /** A committed block's transactions are the chain's. */
  function Settles(s: Sys, op: Op, tx: Transaction): nat
    requires Enabled(s, op)
  {
    if op.Commit? then Count(s.queue[0].txs, tx) else 0
  }

  /** A submission loses its transaction to a rejection, and an eviction the first entry that pays least. */
  predicate SubmissionLoses(m: State, p: Admission.Submission, i: Admission.Input, tx: Transaction) {
    match p
    case Entered(own) => own == tx && Admission.Rejected(m, tx, i)
    case Evicting(t, _, _) =>
      var txs := Of(m.pools, t).txs;
      txs != [] && txs[Lowest(txs)].tx == tx
    case _ => false
  }

  function WorkerLoses(s: Sys, op: Op, tx: Transaction): nat
    requires WorkerOp(op) && WorkerEnabled(s, op)
  {
    var k := s.workers[op.w];
    if op.Claim? then
      var x := Of(s.mem.pools, k.stream).txs[0];
      If(x.tx == tx && (IsExpired(x, k.phase.now) || tx.hash in Flying(s.mem.inFlight)))
    else if op.Clean? then
      var gone := HashSet(k.phase.txs);
      Count(Retained(Of(s.mem.pools, k.phase.left[0]).txs, (x: Pooled) => x.tx.hash in gone), tx)
    else if op.Trim? then Count(k.phase.txs[op.keep..], tx)
    else if op.NoParents? || (op.Mined? && !op.delivered) then Count(k.phase.txs, tx)
    else 0
  }

  /**
   * What a step loses: a popped entry too old or already in flight, copies of claimed transactions in other pools, a
   * block without parents, a trimmed tail, a block nobody receives, a rejected or evicted transaction, and what a
   * sweep finds too old.
   */
  function Loses(s: Sys, op: Op, tx: Transaction): nat
    requires Enabled(s, op)
  {
    if WorkerOp(op) then WorkerLoses(s, op, tx)
    else if op.Submit? then If(SubmissionLoses(s.mem, s.submissions[op.u], op.input, tx))
    else if op.ExpirePool? then Count(Retained(Of(s.mem.pools, op.t).txs, (x: Pooled) => !Current(x, op.now)), tx)
    else if op.ExpireOldest? then Count(Retained(s.mem.legacy.txs, (x: Pooled) => !Current(x, op.now)), tx)
    else if op.ExpireFutures? then
      If(Queued(s.mem.futures, tx) && Age(op.now, s.mem.futures[tx.sender][tx.nonce]) >= FUTURE_TX_TTL_SECS)
    else 0
  }

  // ---------------------------------------------------------------- parts of a step

  /** Exchanging one stream's pool. */
  lemma PoolExchange(m: State, r: State, t: Stream, p: Pool, tx: Transaction)
    requires r.pools == With(m.pools, t, p) && r.legacy == m.legacy && r.futures == m.futures
    ensures InPools(r, tx) + Count(Of(m.pools, t).txs, tx) == InPools(m, tx) + Count(p.txs, tx)
  {
  }

  lemma TurnHands(s: Sys, r: Sys, w: nat, phase: Phase, tx: Transaction)
    requires w < |s.workers| && r.workers == Turn(s, w, phase).workers
    requires r.queue == s.queue && r.proc == s.proc && r.submissions == s.submissions
    ensures InHands(r, tx) + Count(WorkerHas(s.workers[w].phase), tx) == InHands(s, tx) + Count(WorkerHas(phase), tx)
  {
    var ns := WorkerParts(s.workers, tx);
    assert WorkerParts(r.workers, tx) == ns[w := Count(WorkerHas(phase), tx)];
    SumUpdate(ns, w, Count(WorkerHas(phase), tx));
  }

  lemma TakeHands(s: Sys, r: Sys, tx: Transaction)
    requires s.queue != [] && r.queue == s.queue[1..] && r.workers == s.workers && r.submissions == s.submissions
    requires s.proc.Ready?
    ensures InHands(r, tx) + Count(s.queue[0].txs, tx) == InHands(s, tx) + Count(ProcessorHas(r.proc), tx)
  {
    assert BlockParts(s.queue, tx)[1..] == BlockParts(s.queue[1..], tx);
  }

  lemma QueueHands(s: Sys, r: Sys, b: Block, tx: Transaction)
    requires r.queue == s.queue + [b] && r.workers == s.workers && r.submissions == s.submissions && r.proc == s.proc
    ensures InHands(r, tx) == InHands(s, tx) + Count(b.txs, tx)
  {
    assert BlockParts(r.queue, tx) == BlockParts(s.queue, tx) + [Count(b.txs, tx)];
    SumPush(BlockParts(s.queue, tx), Count(b.txs, tx));
  }

  lemma SubmissionHands(s: Sys, r: Sys, u: nat, p: Admission.Submission, tx: Transaction)
    requires u < |s.submissions| && r.submissions == s.submissions[u := p]
    requires r.queue == s.queue && r.proc == s.proc && r.workers == s.workers
    ensures InHands(r, tx) + If(Carries(s.submissions[u], tx)) == InHands(s, tx) + If(Carries(p, tx))
  {
    var ns := SubmissionParts(s.submissions, tx);
    assert SubmissionParts(r.submissions, tx) == ns[u := If(Carries(p, tx))];
    SumUpdate(ns, u, If(Carries(p, tx)));
  }

  /** The books of one step, for one transaction. */
  ghost predicate Conserves(s: Sys, op: Op, r: Sys, tx: Transaction)
    requires Enabled(s, op)
  {
    Copies(r, tx) + Loses(s, op, tx) + Settles(s, op, tx) == Copies(s, tx) + Comes(s, op, tx)
  }

  // ---------------------------------------------------------------- worker steps

  lemma ClaimEffect(s: Sys, w: nat)
    requires w < |s.workers| && Looping(s, s.workers[w])
    ensures var r, k := ClaimStep(s, w), s.workers[w];
            var pool := Of(s.mem.pools, k.stream);
            var x := pool.txs[0];
            && r.mem.pools == With(s.mem.pools, k.stream, Pool(SwapRemove(pool.txs, 0), pool.size - 1))
            && r.mem.legacy == s.mem.legacy && r.mem.futures == s.mem.futures
            && r.workers == Turn(s, w, r.workers[w].phase).workers
            && r.queue == s.queue && r.proc == s.proc && r.submissions == s.submissions
            && r.workers[w].phase.Draining?
            && r.workers[w].phase.txs ==
               if IsExpired(x, k.phase.now) || x.tx.hash in Flying(s.mem.inFlight) then k.phase.txs
               else k.phase.txs + [x]
  {
  }

  lemma ClaimConserves(s: Sys, w: nat, tx: Transaction)
    requires w < |s.workers| && Looping(s, s.workers[w])
    ensures Conserves(s, Claim(w), ClaimStep(s, w), tx)
  {
    var r, k := ClaimStep(s, w), s.workers[w];
    var pool := Of(s.mem.pools, k.stream);
    ClaimEffect(s, w);
    PoolExchange(s.mem, r.mem, k.stream, Pool(SwapRemove(pool.txs, 0), pool.size - 1), tx);
    CountSwapRemove(pool.txs, 0, tx);
    CountPush(k.phase.txs, pool.txs[0], tx);
    TurnHands(s, r, w, r.workers[w].phase, tx);
  }

  lemma StartConserves(s: Sys, w: nat, sorted: seq<Pooled>, tx: Transaction)
    requires WorkerEnabled(s, Start(w, sorted))
    ensures Conserves(s, Start(w, sorted), StartStep(s, w, sorted), tx)
  {
    var r, t := StartStep(s, w, sorted), s.workers[w].stream;
    PoolExchange(s.mem, r.mem, t, Of(r.mem.pools, t), tx);
    CountPermuted(sorted, Of(s.mem.pools, t).txs, tx);
    TurnHands(s, r, w, r.workers[w].phase, tx);
  }

  lemma CleanedPools(m: State, t: Stream, gone: set<Hash>, tx: Transaction)
    ensures InPools(m.(pools := With(m.pools, t, Without(Of(m.pools, t), gone))), tx)
            + Count(Retained(Of(m.pools, t).txs, (x: Pooled) => x.tx.hash in gone), tx) == InPools(m, tx)
  {
    var p := Without(Of(m.pools, t), gone);
    PoolExchange(m, m.(pools := With(m.pools, t, p)), t, p, tx);
    CountRetained(Of(m.pools, t).txs, (x: Pooled) => x.tx.hash !in gone, (x: Pooled) => x.tx.hash in gone, tx);
  }

  lemma CleanConserves(s: Sys, w: nat, tx: Transaction)
    requires WorkerEnabled(s, Clean(w))
    ensures Conserves(s, Clean(w), CleanStep(s, w), tx)
  {
    var p := s.workers[w].phase;
    CleanedPools(s.mem, p.left[0], HashSet(p.txs), tx);
    TurnHands(s, CleanStep(s, w), w, Cleaning(p.txs, p.left[1..]), tx);
  }

  lemma ReturnPools(m: State, t: Stream, xs: seq<Pooled>, now: nat, tx: Transaction)
    ensures InPools(Return(m, t, xs, now), tx) == InPools(m, tx) + Count(xs, tx)
  {
    var r := Return(m, t, xs, now);
    PoolExchange(m, r, t, Of(r.pools, t), tx);
    CountJoin(Of(m.pools, t).txs, Wrapped(xs, now), tx);
    CountWrapped(xs, now, tx);
  }

  lemma PutBackConserves(s: Sys, w: nat, now: nat, tx: Transaction)
    requires WorkerEnabled(s, PutBack(w, now))
    ensures Conserves(s, PutBack(w, now), PutBackStep(s, w, now), tx)
  {
    var r, k := PutBackStep(s, w, now), s.workers[w];
    ReturnPools(s.mem, k.stream, k.phase.txs, now, tx);
    TurnHands(s, r, w, Clearing(k.phase.txs), tx);
  }

  lemma MinedConserves(s: Sys, w: nat, delivered: bool, tx: Transaction)
    requires WorkerEnabled(s, Mined(w, delivered))
    ensures Conserves(s, Mined(w, delivered), MinedStep(s, w, delivered), tx)
  {
    var r, k, idle := MinedStep(s, w, delivered), s.workers[w], Turn(s, w, Idle);
    TurnHands(s, idle, w, Idle, tx);
    if delivered {
      QueueHands(idle, r, Block(k.phase.number, k.stream, k.phase.txs), tx);
    }
  }

  predicate InHandOnly(op: Op) {
    WorkerOp(op) && !op.Claim? && !op.Start? && !op.Clean? && !op.PutBack? && !op.Mined?
  }

  lemma InHandEffect(s: Sys, op: Op)
    requires InHandOnly(op) && WorkerEnabled(s, op)
    ensures var r := ApplyWorker(s, op);
            && r.workers == Turn(s, op.w, r.workers[op.w].phase).workers
            && r.queue == s.queue && r.proc == s.proc && r.submissions == s.submissions
            && r.mem.pools == s.mem.pools && r.mem.legacy == s.mem.legacy && r.mem.futures == s.mem.futures
  {
  }

  lemma SameInHand(s: Sys, op: Op)
    requires InHandOnly(op) && WorkerEnabled(s, op) && !op.Order? && !op.Trim? && !op.NoParents?
    ensures WorkerHas(ApplyWorker(s, op).workers[op.w].phase) == WorkerHas(s.workers[op.w].phase)
  {
  }

  lemma InHandKept(s: Sys, op: Op, tx: Transaction)
    requires InHandOnly(op) && WorkerEnabled(s, op)
    ensures Count(WorkerHas(ApplyWorker(s, op).workers[op.w].phase), tx) + WorkerLoses(s, op, tx)
            == Count(WorkerHas(s.workers[op.w].phase), tx)
  {
    if op.Order? {
      CountPermuted(op.ordered, s.workers[op.w].phase.txs, tx);
    } else if op.Trim? {
      CountCut(s.workers[op.w].phase.txs, op.keep, tx);
    } else if !op.NoParents? {
      SameInHand(s, op);
    }
  }

  lemma InHandConserves(s: Sys, op: Op, tx: Transaction)
    requires InHandOnly(op) && WorkerEnabled(s, op)
    ensures Conserves(s, op, ApplyWorker(s, op), tx)
  {
    var r := ApplyWorker(s, op);
    InHandEffect(s, op);
    InHandKept(s, op, tx);
    TurnHands(s, r, op.w, r.workers[op.w].phase, tx);
  }

  lemma WorkerConserves(s: Sys, op: Op, tx: Transaction)
    requires WorkerOp(op) && WorkerEnabled(s, op)
    ensures Conserves(s, op, ApplyWorker(s, op), tx)
  {
    if op.Claim? {
      ClaimConserves(s, op.w, tx);
    } else if op.Start? {
      StartConserves(s, op.w, op.sorted, tx);
    } else if op.Clean? {
      CleanConserves(s, op.w, tx);
    } else if op.PutBack? {
      PutBackConserves(s, op.w, op.now, tx);
    } else if op.Mined? {
      MinedConserves(s, op.w, op.delivered, tx);
    } else {
      InHandConserves(s, op, tx);
    }
  }

  lemma WorkerElsewhere(s: Sys, op: Op)
    requires WorkerOp(op) && WorkerEnabled(s, op)
    ensures ApplyWorker(s, op).mem.futures == s.mem.futures && ApplyWorker(s, op).mem.legacy == s.mem.legacy
  {
    if InHandOnly(op) {
      InHandEffect(s, op);
    } else if op.Claim? {
      ClaimEffect(s, op.w);
    } else if op.Mined? {
      assert MinedStep(s, op.w, op.delivered).mem == s.mem;
    }
  }

  // ---------------------------------------------------------------- submissions

  /** The books of one submission beside the pools. */
  ghost predicate Places(s: Admission.Moment, i: Admission.Input, tx: Transaction) {
    var r := Admission.Advance(s, i);
    InPools(r.mem, tx) + If(Carries(r.at, tx)) + If(SubmissionLoses(s.mem, s.at, i, tx))
    == InPools(s.mem, tx) + If(Carries(s.at, tx)) + If(Enters(s.mem, s.at, i, tx))
  }

  lemma EvictedPools(m: State, t: Stream, tx: Transaction)
    requires Of(m.pools, t).txs != []
    ensures var txs := Of(m.pools, t).txs;
            InPools(Admission.EvictNow(m, t), tx) + If(txs[Lowest(txs)].tx == tx) == InPools(m, tx)
  {
    var p := Of(m.pools, t);
    var l := Lowest(p.txs);
    PoolExchange(m, Admission.EvictNow(m, t), t, Pool(SwapRemove(p.txs, l), p.size - 1), tx);
    CountSwapRemove(p.txs, l, tx);
  }

  lemma EvictPlaces(s: Admission.Moment, i: Admission.Input, tx: Transaction)
    requires s.at.Evicting?
    ensures Places(s, i, tx)
  {
    if Of(s.mem.pools, s.at.t).txs != [] {
      EvictedPools(s.mem, s.at.t, tx);
    }
  }

  lemma PushedPools(m: State, t: Stream, x: Pooled, tx: Transaction)
    ensures InPools(Admission.PushOnly(m, t, x), tx) == InPools(m, tx) + If(x.tx == tx)
  {
    var p := Of(m.pools, t);
    PoolExchange(m, Admission.PushOnly(m, t, x), t, Pool(p.txs + [x], p.size), tx);
    CountPush(p.txs, x, tx);
  }

  lemma CountedPools(m: State, t: Stream, tx: Transaction)
    ensures InPools(Admission.CountOne(m, t), tx) == InPools(m, tx)
  {
    PoolExchange(m, Admission.CountOne(m, t), t, Pool(Of(m.pools, t).txs, Of(m.pools, t).size + 1), tx);
  }

  lemma PushPlaces(s: Admission.Moment, i: Admission.Input, tx: Transaction)
    requires s.at.Pushing?
    ensures Places(s, i, tx)
  {
    PushedPools(s.mem, s.at.t, s.at.x, tx);
    assert Admission.Advance(s, i).mem == Admission.PushOnly(s.mem, s.at.t, s.at.x);
  }

  lemma OwePlaces(s: Admission.Moment, i: Admission.Input, tx: Transaction)
    requires s.at.Owing?
    ensures Places(s, i, tx)
  {
    CountedPools(s.mem, s.at.t, tx);
    assert Admission.Advance(s, i).mem == Admission.CountOne(s.mem, s.at.t);
  }

  lemma JudgePlaces(s: Admission.Moment, i: Admission.Input, tx: Transaction)
    requires s.at.Entered? && Filed(s.mem.futures)
    ensures Places(s, i, tx) && Filed(Admission.Advance(s, i).mem.futures)
  {
  }

  lemma PromoteFiled(s: Admission.Moment, i: Admission.Input)
    requires s.at.Promoting? && Filed(s.mem.futures)
    ensures Filed(Admission.Advance(s, i).mem.futures)
  {
  }

  lemma PromotePlaces(s: Admission.Moment, i: Admission.Input, tx: Transaction)
    requires s.at.Promoting? && Filed(s.mem.futures)
    ensures Places(s, i, tx)
  {
  }

  lemma OtherPlaces(s: Admission.Moment, i: Admission.Input, tx: Transaction)
    requires s.at.Off? || s.at.Choosing? || s.at.Sizing? || s.at.Weighing? || s.at.Routing?
    ensures Places(s, i, tx)
  {
  }

  lemma AdvancePlaces(s: Admission.Moment, i: Admission.Input, tx: Transaction)
    requires Filed(s.mem.futures)
    ensures Places(s, i, tx) && Filed(Admission.Advance(s, i).mem.futures)
  {
    if s.at.Entered? {
      JudgePlaces(s, i, tx);
    } else if s.at.Evicting? {
      EvictPlaces(s, i, tx);
    } else if s.at.Pushing? {
      PushPlaces(s, i, tx);
    } else if s.at.Owing? {
      OwePlaces(s, i, tx);
    } else if s.at.Promoting? {
      PromoteFiled(s, i);
      PromotePlaces(s, i, tx);
    } else {
      OtherPlaces(s, i, tx);
    }
  }

  lemma SubmitConserves(s: Sys, u: nat, i: Admission.Input, tx: Transaction)
    requires u < |s.submissions| && Filed(s.mem.futures)
    ensures Conserves(s, Submit(u, i), SubmitStep(s, u, i), tx) && Filed(SubmitStep(s, u, i).mem.futures)
  {
    var r := SubmitStep(s, u, i);
    AdvancePlaces(Admission.Moment(s.mem, s.submissions[u]), i, tx);
    SubmissionHands(s, r, u, r.submissions[u], tx);
  }

  // ---------------------------------------------------------------- sweeps

  lemma SweptPools(m: State, t: Stream, now: nat, tx: Transaction)
    ensures InPools(ExpireStream(m, t, now), tx)
            + Count(Retained(Of(m.pools, t).txs, (x: Pooled) => !Current(x, now)), tx) == InPools(m, tx)
  {
    var r := ExpireStream(m, t, now);
    PoolExchange(m, r, t, Of(r.pools, t), tx);
    CountRetained(Of(m.pools, t).txs, (x: Pooled) => Current(x, now), (x: Pooled) => !Current(x, now), tx);
  }

  lemma SweepConserves(s: Sys, t: Stream, now: nat, tx: Transaction)
    ensures Conserves(s, ExpirePool(t, now), Apply(s, ExpirePool(t, now)), tx)
  {
    SweptPools(s.mem, t, now, tx);
    assert InHands(Apply(s, ExpirePool(t, now)), tx) == InHands(s, tx);
  }

  lemma LegacySwept(m: State, now: nat, tx: Transaction)
    ensures InPools(ExpireLegacy(m, now), tx) + Count(Retained(m.legacy.txs, (x: Pooled) => !Current(x, now)), tx)
            == InPools(m, tx)
  {
    CountRetained(m.legacy.txs, (x: Pooled) => Current(x, now), (x: Pooled) => !Current(x, now), tx);
  }

  lemma LegacySweepConserves(s: Sys, now: nat, tx: Transaction)
    ensures Conserves(s, ExpireOldest(now), Apply(s, ExpireOldest(now)), tx)
  {
    LegacySwept(s.mem, now, tx);
    assert InHands(Apply(s, ExpireOldest(now)), tx) == InHands(s, tx);
  }

  lemma QueueSwept(f: map<nat, Queue>, now: nat, tx: Transaction)
    requires Filed(f)
    ensures var g := CurrentQueues(f, now);
            Filed(g) &&
            (Queued(g, tx) <==> Queued(f, tx) && Age(now, f[tx.sender][tx.nonce]) < FUTURE_TX_TTL_SECS)
  {
    if Queued(f, tx) && Age(now, f[tx.sender][tx.nonce]) < FUTURE_TX_TTL_SECS {
      assert tx.nonce in CurrentQueue(f[tx.sender], now);
    }
  }

  lemma QueueSweepConserves(s: Sys, now: nat, tx: Transaction)
    requires Filed(s.mem.futures)
    ensures var r := Apply(s, ExpireFutures(now));
            Conserves(s, ExpireFutures(now), r, tx) && Filed(r.mem.futures)
  {
    QueueSwept(s.mem.futures, now, tx);
  }

  // ---------------------------------------------------------------- the processor

  /** A refused block's transactions go to the legacy pool, with a fresh arrival time, and are counted. */
  lemma RefusedToLegacy(s: Sys, now: nat)
    requires s.proc.Refused?
    ensures var r := Apply(s, ToLegacy(now)).mem;
            && |r.legacy.txs| == |s.mem.legacy.txs| + |s.proc.txs| && s.mem.legacy.txs <= r.legacy.txs
            && (forall i | 0 <= i < |s.proc.txs| ::
                  r.legacy.txs[|s.mem.legacy.txs| + i] == Pooled(s.proc.txs[i].tx, now))
            && r == s.mem.(legacy := r.legacy) && r.legacy.size == s.mem.legacy.size + |s.proc.txs|
  {
  }

  lemma ToLegacyConserves(s: Sys, now: nat, tx: Transaction)
    requires s.proc.Refused?
    ensures Conserves(s, ToLegacy(now), ToLegacyStep(s, now), tx)
  {
    CountJoin(s.mem.legacy.txs, Wrapped(s.proc.txs, now), tx);
    CountWrapped(s.proc.txs, now, tx);
  }

  predicate Takes(op: Op) {
    op.Refuse? || op.TooFarAhead? || op.Commit?
  }

  lemma TakeConserves(s: Sys, op: Op, tx: Transaction)
    requires Takes(op) && Enabled(s, op)
    ensures Conserves(s, op, Apply(s, op), tx) && Apply(s, op).mem == s.mem
  {
    TakeHands(s, Apply(s, op), tx);
  }

  predicate Upkeep(op: Op) {
    op.ResetFree? || op.ResetPending? || op.DropClaims? || op.ClearCommitted? || op.Forget? || op.Close? || op.Stale? ||
    op.SetNext?
  }

  lemma UpkeepEffect(s: Sys, op: Op)
    requires Upkeep(op) && Enabled(s, op)
    ensures var r := Apply(s, op);
            && r.mem.pools == s.mem.pools && r.mem.legacy == s.mem.legacy && r.mem.futures == s.mem.futures
            && r.workers == s.workers && r.queue == s.queue && r.submissions == s.submissions
            && ProcessorHas(r.proc) == ProcessorHas(s.proc)
  {
  }

  lemma UpkeepConserves(s: Sys, op: Op, tx: Transaction)
    requires Upkeep(op) && Enabled(s, op)
    ensures Conserves(s, op, Apply(s, op), tx) && Apply(s, op).mem.futures == s.mem.futures
  {
    UpkeepEffect(s, op);
  }

  /** Every step accounts for every copy of every transaction. */
  lemma StepConserves(s: Sys, op: Op, tx: Transaction)
    requires Enabled(s, op) && Filed(s.mem.futures)
    ensures Conserves(s, op, Apply(s, op), tx) && Filed(Apply(s, op).mem.futures)
  {
    if WorkerOp(op) {
      WorkerConserves(s, op, tx);
      WorkerElsewhere(s, op);
    } else if op.Submit? {
      SubmitConserves(s, op.u, op.input, tx);
    } else if op.ExpirePool? {
      SweepConserves(s, op.t, op.now, tx);
    } else if op.ExpireOldest? {
      LegacySweepConserves(s, op.now, tx);
    } else if op.ExpireFutures? {
      QueueSweepConserves(s, op.now, tx);
    } else if op.ToLegacy? {
      ToLegacyConserves(s, op.now, tx);
    } else if Takes(op) {
      TakeConserves(s, op, tx);
    } else {
      UpkeepConserves(s, op, tx);
    }
  }

  // ---------------------------------------------------------------- runs

  function CameIn(s: Sys, ops: seq<Op>, tx: Transaction): nat
    requires Runs(s, ops)
    decreases |ops|
  {
    if ops == [] then 0 else Comes(s, ops[0], tx) + CameIn(Apply(s, ops[0]), ops[1..], tx)
  }

  function LostIn(s: Sys, ops: seq<Op>, tx: Transaction): nat
    requires Runs(s, ops)
    decreases |ops|
  {
    if ops == [] then 0 else Loses(s, ops[0], tx) + LostIn(Apply(s, ops[0]), ops[1..], tx)
  }

  function SettledIn(s: Sys, ops: seq<Op>, tx: Transaction): nat
    requires Runs(s, ops)
    decreases |ops|
  {
    if ops == [] then 0 else Settles(s, ops[0], tx) + SettledIn(Apply(s, ops[0]), ops[1..], tx)
  }

  /**
   * Over every run, copy for copy: what the system has at the end, what was lost on the way and what went to the chain
   * is what it had at the start and what was submitted.
   */
  lemma {:induction false} RunConserves(s: Sys, ops: seq<Op>, tx: Transaction)
    requires Runs(s, ops) && Filed(s.mem.futures)
    ensures Copies(After(s, ops), tx) + LostIn(s, ops, tx) + SettledIn(s, ops, tx) == Copies(s, tx) + CameIn(s, ops, tx)
    decreases |ops|
  {
    if ops != [] {
      StepConserves(s, ops[0], tx);
      RunConserves(Apply(s, ops[0]), ops[1..], tx);
    }
  }

  // ---------------------------------------------------------------- handed back

  /** No sweep of the legacy pool in the run comes late enough to take an entry that arrived at `now`. */
  predicate SweepsSpare(ops: seq<Op>, now: nat) {
    forall i | 0 <= i < |ops| && ops[i].ExpireOldest? :: SaturatingSub(ops[i].now, now) / NANOS < TX_TTL_SECS
  }

  /** All the entries in `xs`, which arrived at `now`, are in the legacy pool. */
  ghost predicate InLegacy(m: State, xs: seq<Pooled>, now: nat) {
    multiset(Wrapped(xs, now)) <= multiset(m.legacy.txs)
  }

  lemma StepKeepsLegacy(s: Sys, op: Op, xs: seq<Pooled>, now: nat)
    requires Enabled(s, op) && InLegacy(s.mem, xs, now)
    requires op.ExpireOldest? ==> SaturatingSub(op.now, now) / NANOS < TX_TTL_SECS
    ensures InLegacy(Apply(s, op).mem, xs, now)
  {
    if op.ExpireOldest? {
      SweepKeepsLegacy(s.mem, xs, now, op.now);
    } else if op.ToLegacy? {
      assert multiset(s.mem.legacy.txs) <= multiset(Apply(s, op).mem.legacy.txs);
    } else {
      LegacyUntouched(s, op);
    }
  }

  lemma LegacyUntouched(s: Sys, op: Op)
    requires Enabled(s, op) && !op.ExpireOldest? && !op.ToLegacy?
    ensures Apply(s, op).mem.legacy == s.mem.legacy
  {
    if WorkerOp(op) {
      WorkerElsewhere(s, op);
    } else if op.Submit? {
      Admission.AdvanceGap(Admission.Moment(s.mem, s.submissions[op.u]), op.input, StreamA);
    }
  }

  lemma SweepKeepsLegacy(m: State, xs: seq<Pooled>, now: nat, later: nat)
    requires InLegacy(m, xs, now) && SaturatingSub(later, now) / NANOS < TX_TTL_SECS
    ensures InLegacy(ExpireLegacy(m, later), xs, now)
  {
    var ys := Wrapped(xs, now);
    forall x
      ensures multiset(ys)[x] <= multiset(ExpireLegacy(m, later).legacy.txs)[x]
    {
      ExpireExact(m.legacy, later, x);
      if x in multiset(ys) {
        assert x in ys;
      }
    }
  }

  lemma {:induction false} RunKeepsLegacy(s: Sys, ops: seq<Op>, xs: seq<Pooled>, now: nat)
    requires Runs(s, ops) && InLegacy(s.mem, xs, now) && SweepsSpare(ops, now)
    ensures InLegacy(After(s, ops).mem, xs, now)
    decreases |ops|
  {
    if ops != [] {
      StepKeepsLegacy(s, ops[0], xs, now);
      RunKeepsLegacy(Apply(s, ops[0]), ops[1..], xs, now);
    }
  }

  /**
   * A refused block's transactions are never lost: whatever run follows their hand-back, the dropping of their claims
   * included, all of them are in the legacy pool until a sweep finds them too old.
   */
  lemma RefusedKept(s: Sys, now: nat, ops: seq<Op>)
    requires s.proc.Refused? && Runs(Apply(s, ToLegacy(now)), ops) && SweepsSpare(ops, now)
    ensures multiset(Wrapped(s.proc.txs, now)) <= multiset(After(Apply(s, ToLegacy(now)), ops).mem.legacy.txs)
  {
    RunKeepsLegacy(Apply(s, ToLegacy(now)), ops, s.proc.txs, now);
  }

  /** Whenever the processor is about to drop a refused block's claims, its transactions are in the legacy pool. */
  ghost predicate HandedBack(s: Sys) {
    s.proc.Dropping? ==> forall tx :: Count(s.proc.txs, tx) <= Count(s.mem.legacy.txs, tx)
  }

  lemma StepHandsBack(s: Sys, op: Op)
    requires Enabled(s, op) && HandedBack(s) && !op.ExpireOldest?
    ensures HandedBack(Apply(s, op))
  {
    if op.ToLegacy? {
      forall tx
        ensures Count(s.proc.txs, tx) <= Count(Apply(s, op).mem.legacy.txs, tx)
      {
        CountJoin(s.mem.legacy.txs, Wrapped(s.proc.txs, op.now), tx);
        CountWrapped(s.proc.txs, op.now, tx);
      }
    } else {
      LegacyUntouched(s, op);
    }
  }

  /** Over every run in which the legacy pool is not swept. */
  lemma {:induction false} RunHandsBack(s: Sys, ops: seq<Op>)
    requires Runs(s, ops) && HandedBack(s) && forall i | 0 <= i < |ops| :: !ops[i].ExpireOldest?
    ensures HandedBack(After(s, ops))
    decreases |ops|
  {
    if ops != [] {
      StepHandsBack(s, ops[0]);
      RunHandsBack(Apply(s, ops[0]), ops[1..]);
    }
  }
}
