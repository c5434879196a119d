/**
 * The block pipeline as a step system: any number of mining workers, each with a stream, any number of
 * submissions under way, one block processor, and the pools, in-flight set and number allocator they share.
 * One step is one locked region or one atomic access.
 */
module Pipeline {
  import opened Types
  import opened Pools
  import opened Mempool
  import Admission
  import Allocator
  import Rewards

  const MAX_BLOCK_NUMBER_GAP: nat := 50

  datatype Phase =
    | Idle
    | Looking(count: nat, now: nat)
    | Draining(count: nat, now: nat, txs: seq<Pooled>)
    | Cleaning(txs: seq<Pooled>, left: seq<Stream>)
    | Assembled(txs: seq<Pooled>)
    | Mining(number: nat, txs: seq<Pooled>)
    | Returning(txs: seq<Pooled>)
    | Clearing(txs: seq<Pooled>)

  datatype Worker = Worker(stream: Stream, phase: Phase)

  datatype Block = Block(number: nat, stream: Stream, txs: seq<Pooled>)

  /** The processor: waiting, handing a refused block's transactions back, or finishing a committed one. */
  datatype Processor =
    | Ready
    | Resetting(txs: seq<Pooled>)
    | Forgetting(txs: seq<Pooled>)
    | Refused(txs: seq<Pooled>)
    | Dropping(txs: seq<Pooled>)
    | Committed(number: nat, txs: seq<Pooled>)
    | Closing(number: nat, txs: seq<Pooled>)
    | Confirming(number: nat)

  /**
   * `issued`, `cleared` and `setbacks` are history: numbers given out, whether the in-flight set was emptied, and how
   * often the number counter was set back.
   */
  datatype Sys = Sys(
    mem: State,
    alloc: Allocator.Alloc,
    workers: seq<Worker>,
    submissions: seq<Admission.Submission>,
    queue: seq<Block>,
    proc: Processor,
    credits: seq<Rewards.Credit>,
    issued: seq<nat>,
    cleared: bool,
    setbacks: nat)

  datatype Op =
    // workers
    | Look(w: nat, now: nat)
    | Start(w: nat, sorted: seq<Pooled>)
    | Claim(w: nat)
    | EndDrain(w: nat)
    | Clean(w: nat)
    | Order(w: nat, ordered: seq<Pooled>)
    | NoParents(w: nat)
    | BadParents(w: nat)
    | Reserve(w: nat, now: nat)
    | Trim(w: nat, keep: nat)
    | Mined(w: nat, delivered: bool)
    | MiningFailed(w: nat)
    | PutBack(w: nat, now: nat)
    | Clear(w: nat)
    // processor
    | Refuse
    | TooFarAhead(height: nat)
    | ResetFree
    | ResetPending
    | Commit
    | ToLegacy(now: nat)
    | DropClaims
    | ClearCommitted
    | Forget
    | Close
    // everything else
    | Submit(u: nat, input: Admission.Input)
    | ExpirePool(t: Stream, now: nat)
    | ExpireOldest(now: nat)
    | ExpireFutures(now: nat)
    | Stale(now: nat, counted: bool)
    | SetNext(n: nat)

  function Others(s: Stream): seq<Stream> {
    match s
    case StreamA => [StreamB, StreamC]
    case StreamB => [StreamA, StreamC]
    case StreamC => [StreamA, StreamB]
  }

  predicate WorkerOp(op: Op) {
    op.Look? || op.Start? || op.Claim? || op.EndDrain? || op.Clean? || op.Order? || op.NoParents? || op.BadParents? ||
    op.Reserve? || op.Trim? || op.Mined? || op.MiningFailed? || op.PutBack? || op.Clear?
  }

  predicate Looping(s: Sys, k: Worker) {
    k.phase.Draining? && |k.phase.txs| < k.phase.count && Of(s.mem.pools, k.stream).txs != []
  }

  predicate WorkerEnabled(s: Sys, op: Op)
    requires WorkerOp(op)
  {
    op.w < |s.workers| &&
    var k := s.workers[op.w];
    match op
    case Look(_, _) => k.phase.Idle?
    case Start(_, sorted) =>
      k.phase.Looking? && multiset(sorted) == multiset(Of(s.mem.pools, k.stream).txs) && Descending(sorted)
    case Claim(_) => Looping(s, k)
    case EndDrain(_) => k.phase.Draining? && !Looping(s, k)
    case Clean(_) => k.phase.Cleaning? && k.phase.left != []
    case Order(_, ordered) => k.phase.Cleaning? && k.phase.left == [] && multiset(ordered) == multiset(k.phase.txs)
    case NoParents(_) => k.phase.Assembled?
    case BadParents(_) => k.phase.Assembled?
    case Reserve(_, _) => k.phase.Assembled?
    case Trim(_, keep) => k.phase.Mining? && keep <= |k.phase.txs|
    case Mined(_, _) => k.phase.Mining?
    case MiningFailed(_) => k.phase.Mining?
    case PutBack(_, _) => k.phase.Returning?
    case Clear(_) => k.phase.Clearing?
  }

  predicate Enabled(s: Sys, op: Op) {
    if WorkerOp(op) then WorkerEnabled(s, op)
    else
      match op
      case Refuse => s.proc.Ready? && s.queue != []
      case TooFarAhead(height) => s.proc.Ready? && s.queue != [] && s.queue[0].number > height + MAX_BLOCK_NUMBER_GAP
      case ResetFree => s.proc.Resetting?
      case ResetPending => s.proc.Forgetting?
      case Commit => s.proc.Ready? && s.queue != []
      case ToLegacy(_) => s.proc.Refused?
      case DropClaims => s.proc.Dropping?
      case ClearCommitted => s.proc.Committed?
      case Forget => s.proc.Closing?
      case Close => s.proc.Confirming?
      case Submit(u, _) => u < |s.submissions|
      case _ => true
  }

  // ---------------------------------------------------------------- worker steps

  function Turn(s: Sys, w: nat, phase: Phase): Sys
    requires w < |s.workers|
  {
    s.(workers := s.workers[w := s.workers[w].(phase := phase)])
  }

  /** The counter is read before the pool is locked. */
  function LookStep(s: Sys, w: nat, now: nat): Sys
    requires w < |s.workers|
  {
    var t := s.workers[w].stream;
    Turn(s, w, Looking(Min(Load(Of(s.mem.pools, t)), BlockLimit(t)), now))
  }

  function StartStep(s: Sys, w: nat, sorted: seq<Pooled>): Sys
    requires w < |s.workers| && s.workers[w].phase.Looking?
  {
    var k := s.workers[w];
    Turn(s, w, Draining(k.phase.count, k.phase.now, [])).(
      mem := s.mem.(pools := With(s.mem.pools, k.stream, Pool(sorted, Of(s.mem.pools, k.stream).size))))
  }

  /** The drain a worker is in the middle of, seen from its own pool. */
  function DrainAt(s: Sys, k: Worker): Drain
    requires k.phase.Draining?
  {
    Drain(Of(s.mem.pools, k.stream), s.mem.inFlight, s.mem.members, k.phase.txs, [], [])
  }

  predicate Wipes(s: Sys, k: Worker)
    requires Looping(s, k)
  {
    !IsExpired(Of(s.mem.pools, k.stream).txs[0], k.phase.now) && |s.mem.inFlight| > IN_FLIGHT_LIMIT
  }

  function ClaimStep(s: Sys, w: nat): Sys
    requires w < |s.workers| && Looping(s, s.workers[w])
  {
    var k := s.workers[w];
    var d := Pop(DrainAt(s, k), k.phase.now);
    Turn(s, w, Draining(k.phase.count, k.phase.now, d.claimed)).(
      mem := s.mem.(pools := With(s.mem.pools, k.stream, d.pool), inFlight := d.inFlight, members := d.members),
      cleared := s.cleared || Wipes(s, k))
  }

  function EndDrainStep(s: Sys, w: nat): Sys
    requires w < |s.workers| && s.workers[w].phase.Draining?
  {
    var k := s.workers[w];
    Turn(s, w, Cleaning(k.phase.txs, if k.phase.txs == [] then [] else Others(k.stream)))
  }

  function CleanStep(s: Sys, w: nat): Sys
    requires w < |s.workers| && s.workers[w].phase.Cleaning? && s.workers[w].phase.left != []
  {
    var p := s.workers[w].phase;
    Turn(s, w, Cleaning(p.txs, p.left[1..])).(
      mem := s.mem.(pools := With(s.mem.pools, p.left[0], Without(Of(s.mem.pools, p.left[0]), HashSet(p.txs)))))
  }

  function ReserveStep(s: Sys, w: nat, now: nat): Sys
    requires w < |s.workers| && s.workers[w].phase.Assembled?
  {
    var n := Allocator.Offered(s.alloc);
    Turn(s, w, Mining(n, s.workers[w].phase.txs)).(
      alloc := Allocator.Reserve(s.alloc, s.workers[w].stream, now), issued := s.issued + [n])
  }

  function MinedStep(s: Sys, w: nat, delivered: bool): Sys
    requires w < |s.workers| && s.workers[w].phase.Mining?
  {
    var k := s.workers[w];
    Turn(s, w, Idle).(
      queue := if delivered then s.queue + [Block(k.phase.number, k.stream, k.phase.txs)] else s.queue)
  }

  function MiningFailedStep(s: Sys, w: nat): Sys
    requires w < |s.workers| && s.workers[w].phase.Mining?
  {
    var p := s.workers[w].phase;
    Turn(s, w, Returning(p.txs)).(alloc := Allocator.Release(s.alloc, p.number))
  }

  function PutBackStep(s: Sys, w: nat, now: nat): Sys
    requires w < |s.workers| && s.workers[w].phase.Returning?
  {
    var k := s.workers[w];
    Turn(s, w, Clearing(k.phase.txs)).(mem := Return(s.mem, k.stream, k.phase.txs, now))
  }

  function ClearStep(s: Sys, w: nat): Sys
    requires w < |s.workers| && s.workers[w].phase.Clearing?
  {
    Turn(s, w, Idle).(mem := ClearInFlight(s.mem, s.workers[w].phase.txs))
  }

  function ApplyWorker(s: Sys, op: Op): Sys
    requires WorkerOp(op) && WorkerEnabled(s, op)
  {
    match op
    case Look(w, now) => LookStep(s, w, now)
    case Start(w, sorted) => StartStep(s, w, sorted)
    case Claim(w) => ClaimStep(s, w)
    case EndDrain(w) => EndDrainStep(s, w)
    case Clean(w) => CleanStep(s, w)
    case Order(w, ordered) => Turn(s, w, Assembled(ordered))
    case NoParents(w) => Turn(s, w, Idle)
    case BadParents(w) => Turn(s, w, Returning(s.workers[w].phase.txs))
    case Reserve(w, now) => ReserveStep(s, w, now)
    case Trim(w, keep) => Turn(s, w, Mining(s.workers[w].phase.number, s.workers[w].phase.txs[..keep]))
    case Mined(w, delivered) => MinedStep(s, w, delivered)
    case MiningFailed(w) => MiningFailedStep(s, w)
    case PutBack(w, now) => PutBackStep(s, w, now)
    case Clear(w) => ClearStep(s, w)
  }

  // ---------------------------------------------------------------- processor and outside steps

  function RefuseStep(s: Sys, alloc: Allocator.Alloc): Sys
    requires s.queue != []
  {
    s.(queue := s.queue[1..], proc := Refused(s.queue[0].txs), alloc := alloc)
  }

  function CommitStep(s: Sys): Sys
    requires s.queue != []
  {
    var b := s.queue[0];
    s.(queue := s.queue[1..], proc := Committed(b.number, b.txs),
       credits := s.credits + [Rewards.Credit(b.number, b.stream)])
  }

  function ToLegacyStep(s: Sys, now: nat): Sys
    requires s.proc.Refused?
  {
    var xs := s.proc.txs;
    s.(proc := Dropping(xs),
       mem := s.mem.(legacy := Pool(s.mem.legacy.txs + Wrapped(xs, now), s.mem.legacy.size + |xs|)))
  }

  function CloseStep(s: Sys): Sys
    requires s.proc.Confirming?
  {
    s.(proc := Ready, alloc := Allocator.Confirm(s.alloc, s.proc.number))
  }

  function SubmitStep(s: Sys, u: nat, input: Admission.Input): Sys
    requires u < |s.submissions|
  {
    var r := Admission.Advance(Admission.Moment(s.mem, s.submissions[u]), input);
    s.(mem := r.mem, submissions := s.submissions[u := r.at])
  }

  function Apply(s: Sys, op: Op): Sys
    requires Enabled(s, op)
  {
    if WorkerOp(op) then ApplyWorker(s, op)
    else
      match op
      case Refuse => RefuseStep(s, Allocator.Release(s.alloc, s.queue[0].number))
      case TooFarAhead(height) =>
        s.(queue := s.queue[1..], proc := Resetting(s.queue[0].txs),
           alloc := Allocator.SetNext(s.alloc, height + 1), setbacks := s.setbacks + 1)
      case ResetFree => s.(proc := Forgetting(s.proc.txs), alloc := Allocator.ClearFree(s.alloc))
      case ResetPending => s.(proc := Refused(s.proc.txs), alloc := Allocator.ClearPending(s.alloc))
      case Commit => CommitStep(s)
      case ToLegacy(now) => ToLegacyStep(s, now)
      case DropClaims => s.(proc := Ready, mem := ClearInFlight(s.mem, s.proc.txs))
      case ClearCommitted => s.(proc := Closing(s.proc.number, s.proc.txs), mem := ClearInFlight(s.mem, s.proc.txs))
      case Forget =>
        s.(proc := Confirming(s.proc.number), mem := s.mem.(members := s.mem.members - HashSet(s.proc.txs)))
      case Close => CloseStep(s)
      case Submit(u, input) => SubmitStep(s, u, input)
      case ExpirePool(t, now) => s.(mem := ExpireStream(s.mem, t, now))
      case ExpireOldest(now) => s.(mem := ExpireLegacy(s.mem, now))
      case ExpireFutures(now) => s.(mem := ExpireQueues(s.mem, now))
      case Stale(now, counted) => s.(alloc := Allocator.Cleanup(s.alloc, now, counted))
      case SetNext(n) =>
        s.(alloc := Allocator.SetNext(s.alloc, n), setbacks := s.setbacks + if n < s.alloc.next then 1 else 0)
  }

  // ---------------------------------------------------------------- runs

  ghost predicate Initial(s: Sys) {
    && AllCounted(s.mem) && s.alloc.free == []
    && (forall i | 0 <= i < |s.workers| :: s.workers[i].phase == Idle)
    && (forall i | 0 <= i < |s.submissions| :: s.submissions[i] == Admission.Off)
    && s.queue == [] && s.proc == Ready && s.credits == [] && s.issued == [] && !s.cleared && s.setbacks == 0
  }

  predicate Runs(s: Sys, ops: seq<Op>)
    decreases |ops|
  {
    ops == [] || (Enabled(s, ops[0]) && Runs(Apply(s, ops[0]), ops[1..]))
  }

  function After(s: Sys, ops: seq<Op>): Sys
    requires Runs(s, ops)
    decreases |ops|
  {
    if ops == [] then s else After(Apply(s, ops[0]), ops[1..])
  }

  ghost predicate Reaches(s: Sys, r: Sys) {
    exists ops :: Runs(s, ops) && After(s, ops) == r
  }

  lemma {:induction false} RunsAppend(s: Sys, xs: seq<Op>, ys: seq<Op>)
    requires Runs(s, xs) && Runs(After(s, xs), ys)
    ensures Runs(s, xs + ys) && After(s, xs + ys) == After(After(s, xs), ys)
    decreases |xs|
  {
    if xs == [] {
      assert xs + ys == ys;
    } else {
      assert (xs + ys)[0] == xs[0] && (xs + ys)[1..] == xs[1..] + ys;
      RunsAppend(Apply(s, xs[0]), xs[1..], ys);
    }
  }

  lemma ReachesSelf(s: Sys)
    ensures Reaches(s, s)
  {
    assert Runs(s, []) && After(s, []) == s;
  }

  lemma ReachesThen(s: Sys, q: Sys, r: Sys)
    requires Reaches(s, q) && Reaches(q, r)
    ensures Reaches(s, r)
  {
    var xs :| Runs(s, xs) && After(s, xs) == q;
    var ys :| Runs(q, ys) && After(q, ys) == r;
    RunsAppend(s, xs, ys);
  }

  lemma ReachesStep(s: Sys, q: Sys, op: Op)
    requires Reaches(s, q) && Enabled(q, op)
    ensures Reaches(s, Apply(q, op))
  {
    var r := Apply(q, op);
    assert [op][0] == op && [op][1..] == [];
    assert Runs(r, []) && After(r, []) == r;
    assert Runs(q, [op]) && After(q, [op]) == After(r, []);
    ReachesThen(s, q, r);
  }
}
