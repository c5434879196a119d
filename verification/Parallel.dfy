/**
 * The threaded nonce search as a step system: one step per atomic access or hash, in every interleaving.
 * The shared cells are the found flag, the stored nonce and the stored hash, written separately.
 */
module Parallel {
  import opened Types

  /** A search: how the nonces are shared out, what each hashes to and which ones solve the header. */
  datatype Config = Config(
    threads: nat,
    batchSize: nat,
    maxBatches: nat,
    trial: nat -> Hash,
    solves: nat -> bool)

  datatype Pc = AtCheck | AtTry | AtFound | AtNonce | AtHash | Quit | Won

  datatype Worker = Worker(next: nat, pc: Pc)

  /**
   * `base` is the first nonce of the current batch, `batches` counts the joined ones. `trials` logs every nonce
   * hashed, and the three `By` fields which worker last wrote each shared cell; no step reads them.
   */
  datatype State = State(
    found: bool,
    nonce: nat,
    hash: Hash,
    base: nat,
    batches: nat,
    running: bool,
    workers: seq<Worker>,
    trials: seq<nat>,
    foundBy: Option<nat>,
    nonceBy: Option<nat>,
    hashBy: Option<nat>)

  datatype Step = Spawn | Run(t: nat) | Join

  function Share(c: Config): nat
    requires c.threads > 0
  {
    c.batchSize / c.threads
  }

  /** Thread t of the batch that starts at `base` gets the nonces from Start up to, not including, End. */
  function Start(c: Config, base: nat, t: nat): nat
    requires c.threads > 0
  {
    base + t * Share(c)
  }

  function End(c: Config, base: nat, t: nat): nat
    requires c.threads > 0
  {
    Start(c, base, t) + Share(c)
  }

  function Init(): State {
    State(false, 0, seq(32, _ => 0), 0, 0, false, [], [], None, None, None)
  }

  predicate Enabled(c: Config, s: State, step: Step) {
    match step
    case Spawn => !s.running && !s.found && s.batches < c.maxBatches
    case Run(t) => s.running && t < |s.workers| && !s.workers[t].pc.Quit? && !s.workers[t].pc.Won?
    case Join => s.running && forall w | w in s.workers :: w.pc.Quit? || w.pc.Won?
  }

  /** One access of worker t: loop head, hash, or one of the three stores. */
  function RunWorker(c: Config, s: State, t: nat): State
    requires c.threads > 0 && Enabled(c, s, Run(t))
  {
    var w := s.workers[t];
    match w.pc
    case AtCheck =>
      if w.next < End(c, s.base, t) && !s.found then s.(workers := s.workers[t := w.(pc := AtTry)])
      else s.(workers := s.workers[t := w.(pc := Quit)])
    case AtTry =>
      s.(workers := s.workers[t := if c.solves(w.next) then w.(pc := AtFound) else Worker(w.next + 1, AtCheck)],
         trials := s.trials + [w.next])
    case AtFound => s.(found := true, foundBy := Some(t), workers := s.workers[t := w.(pc := AtNonce)])
    case AtNonce => s.(nonce := w.next, nonceBy := Some(t), workers := s.workers[t := w.(pc := AtHash)])
    case AtHash => s.(hash := c.trial(w.next), hashBy := Some(t), workers := s.workers[t := w.(pc := Won)])
  }

  function Do(c: Config, s: State, step: Step): State
    requires c.threads > 0 && Enabled(c, s, step)
  {
    match step
    case Spawn => s.(running := true,
                     workers := seq(c.threads, t requires 0 <= t => Worker(Start(c, s.base, t), AtCheck)))
    case Run(t) => RunWorker(c, s, t)
    case Join => s.(running := false, base := s.base + c.batchSize, batches := s.batches + 1)
  }

  function Exec(c: Config, s: State, steps: seq<Step>): Option<State>
    requires c.threads > 0
    decreases |steps|
  {
    if steps == [] then Some(s)
    else if Enabled(c, s, steps[0]) then Exec(c, Do(c, s, steps[0]), steps[1..])
    else None
  }

  ghost predicate Reaches(c: Config, s: State, r: State)
    requires c.threads > 0
  {
    exists steps :: Exec(c, s, steps) == Some(r)
  }

  predicate Finished(c: Config, s: State) {
    !s.running && (s.found || s.batches >= c.maxBatches)
  }

  // ---------------------------------------------------------------- invariant

  predicate Solved(w: Worker) {
    w.pc.AtFound? || w.pc.AtNonce? || w.pc.AtHash? || w.pc.Won?
  }

  /** The base of the batch the workers on record belong to. */
  function Current(c: Config, s: State): int {
    if !s.running && s.found then s.base - c.batchSize else s.base
  }

  /** One worker has tried exactly the failing nonces before `next`, and `next` itself once it solved. */
  ghost predicate WorkerOk(c: Config, base: nat, found: bool, t: nat, w: Worker)
    requires c.threads > 0
  {
    && Start(c, base, t) <= w.next <= End(c, base, t)
    && (w.pc.AtTry? || Solved(w) ==> w.next < End(c, base, t))
    && (forall n | Start(c, base, t) <= n < w.next :: !c.solves(n))
    && (Solved(w) ==> c.solves(w.next))
    && (w.pc.AtNonce? || w.pc.AtHash? || w.pc.Won? ==> found)
    && (w.pc.Quit? && !found ==> w.next == End(c, base, t))
  }

  ghost predicate WorkersOk(c: Config, s: State)
    requires c.threads > 0
  {
    s.running || s.found ==>
      && Current(c, s) >= 0
      && |s.workers| == c.threads
      && (!s.running ==> forall t | 0 <= t < c.threads :: s.workers[t].pc.Quit? || s.workers[t].pc.Won?)
      && forall t | 0 <= t < c.threads :: WorkerOk(c, Current(c, s), s.found, t, s.workers[t])
  }

  /** Each cell holds what its last writer wrote, and every worker past a store left a writer behind. */
  ghost predicate CellsOk(c: Config, s: State) {
    && (s.found <==> s.foundBy.Some?)
    && (s.foundBy.Some? ==> s.foundBy.value < |s.workers| && Past(s.workers[s.foundBy.value], 1))
    && (s.nonceBy.Some? ==> s.nonceBy.value < |s.workers| && Past(s.workers[s.nonceBy.value], 2)
                            && s.nonce == s.workers[s.nonceBy.value].next)
    && (s.hashBy.Some? ==> s.hashBy.value < |s.workers| && Past(s.workers[s.hashBy.value], 3)
                           && s.hash == c.trial(s.workers[s.hashBy.value].next))
    && (!s.found ==> s.nonceBy.None? && s.hashBy.None?)
    && (s.running || s.found ==>
          forall t | 0 <= t < |s.workers| ::
            && (Past(s.workers[t], 1) ==> s.found)
            && (Past(s.workers[t], 2) ==> s.nonceBy.Some?)
            && (Past(s.workers[t], 3) ==> s.hashBy.Some?))
  }

  /** The worker has done its first k stores. */
  predicate Past(w: Worker, k: nat) {
    match w.pc
    case AtNonce => k <= 1
    case AtHash => k <= 2
    case Won => true
    case _ => k == 0
  }

  /** Worker t of the current batch has hashed n. */
  ghost predicate Tried(c: Config, s: State, t: nat, n: nat)
    requires c.threads > 0 && Current(c, s) >= 0
  {
    && t < |s.workers| && t < c.threads
    && Start(c, Current(c, s), t) <= n
    && (n < s.workers[t].next || (n == s.workers[t].next && Solved(s.workers[t])))
  }

  ghost predicate TrialsOk(c: Config, s: State)
    requires c.threads > 0
  {
    && (forall i, j | 0 <= i < j < |s.trials| :: s.trials[i] != s.trials[j])
    && (forall n | n in s.trials ::
          n < Current(c, s) || ((s.running || s.found) && Current(c, s) >= 0 && exists t :: Tried(c, s, t, n)))
  }

  /** No thread of the batch that starts at `base` was given a solution. */
  ghost predicate BatchFails(c: Config, base: nat)
    requires c.threads > 0
  {
    forall t: nat, n | t < c.threads && Start(c, base, t) <= n < End(c, base, t) :: !c.solves(n)
  }

  /** Every batch before the current one was swept without success. */
  ghost predicate EarlierFailed(c: Config, s: State)
    requires c.threads > 0
  {
    && s.base == s.batches * c.batchSize
    && s.batches <= c.maxBatches && (s.running ==> s.batches < c.maxBatches)
    && (!s.running && s.found ==> s.batches > 0)
    && forall b: nat | b < (if !s.running && s.found then s.batches - 1 else s.batches) ::
         BatchFails(c, b * c.batchSize)
  }

  ghost predicate Inv(c: Config, s: State)
    requires c.threads > 0
  {
    WorkersOk(c, s) && CellsOk(c, s) && TrialsOk(c, s) && EarlierFailed(c, s)
  }

  // ---------------------------------------------------------------- the nonce ranges

  lemma ShareFits(c: Config)
    requires c.threads > 0
    ensures c.threads * Share(c) <= c.batchSize
  {
  }

  lemma RangeInBatch(c: Config, base: nat, t: nat)
    requires c.threads > 0 && t < c.threads
    ensures base <= Start(c, base, t) <= End(c, base, t) <= base + c.batchSize
  {
    ShareFits(c);
    assert (t + 1) * Share(c) <= c.threads * Share(c);
  }

  lemma RangesDisjoint(c: Config, base: nat, t: nat, u: nat)
    requires c.threads > 0 && t < u
    ensures End(c, base, t) <= Start(c, base, u)
  {
    assert (t + 1) * Share(c) <= u * Share(c);
  }

  // ---------------------------------------------------------------- preservation

  lemma InitInv(c: Config)
    requires c.threads > 0
    ensures Inv(c, Init())
  {
  }

  lemma SpawnInv(c: Config, s: State)
    requires c.threads > 0 && Inv(c, s) && Enabled(c, s, Spawn)
    ensures Inv(c, Do(c, s, Spawn))
  {
  }

  lemma SweptBatchFails(c: Config, s: State)
    requires c.threads > 0 && WorkersOk(c, s) && s.running && !s.found
    requires forall t | 0 <= t < |s.workers| :: s.workers[t].pc.Quit? || s.workers[t].pc.Won?
    ensures BatchFails(c, s.base)
  {
    forall t: nat, n | t < c.threads && Start(c, s.base, t) <= n < End(c, s.base, t)
      ensures !c.solves(n)
    {
      assert WorkerOk(c, s.base, s.found, t, s.workers[t]);
    }
  }

  lemma JoinEarlierFailed(c: Config, s: State)
    requires c.threads > 0 && EarlierFailed(c, s) && s.running
    requires !s.found ==> BatchFails(c, s.base)
    ensures EarlierFailed(c, Do(c, s.(workers := []), Join))
  {
    assert (s.batches + 1) * c.batchSize == s.batches * c.batchSize + c.batchSize;
  }

  lemma JoinTrialsOk(c: Config, s: State)
    requires c.threads > 0 && WorkersOk(c, s) && TrialsOk(c, s) && Enabled(c, s, Join)
    ensures TrialsOk(c, Do(c, s, Join))
  {
    var r := Do(c, s, Join);
    forall n | n in s.trials && n >= Current(c, s)
      ensures if s.found then exists t :: Tried(c, r, t, n) else n < Current(c, r)
    {
      var t: nat :| Tried(c, s, t, n);
      assert WorkerOk(c, s.base, s.found, t, s.workers[t]);
      RangeInBatch(c, s.base, t);
      assert s.found ==> Tried(c, r, t, n);
    }
  }

  lemma JoinInv(c: Config, s: State)
    requires c.threads > 0 && Inv(c, s) && Enabled(c, s, Join)
    ensures Inv(c, Do(c, s, Join))
  {
    assert forall t | 0 <= t < |s.workers| :: s.workers[t] in s.workers;
    JoinTrialsOk(c, s);
    if !s.found {
      SweptBatchFails(c, s);
    }
    JoinEarlierFailed(c, s);
  }

  lemma RunWorkersOk(c: Config, s: State, t: nat)
    requires c.threads > 0 && WorkersOk(c, s) && Enabled(c, s, Run(t))
    ensures WorkersOk(c, Do(c, s, Run(t)))
  {
  }

  lemma RunCellsOk(c: Config, s: State, t: nat)
    requires c.threads > 0 && CellsOk(c, s) && Enabled(c, s, Run(t))
    ensures CellsOk(c, Do(c, s, Run(t)))
  {
  }

  lemma OneOwner(c: Config, base: nat, t: nat, u: nat, n: nat)
    requires c.threads > 0
    requires Start(c, base, t) <= n < End(c, base, t) && Start(c, base, u) <= n < End(c, base, u)
    ensures t == u
  {
    if t < u {
      RangesDisjoint(c, base, t, u);
    } else if u < t {
      RangesDisjoint(c, base, u, t);
    }
  }

  /** The nonce a worker is about to hash has not been hashed by anyone. */
  lemma NextIsNew(c: Config, s: State, t: nat)
    requires c.threads > 0 && WorkersOk(c, s) && TrialsOk(c, s) && Enabled(c, s, Run(t)) && s.workers[t].pc.AtTry?
    ensures s.workers[t].next !in s.trials
  {
    var n := s.workers[t].next;
    assert WorkerOk(c, s.base, s.found, t, s.workers[t]);
    if n in s.trials {
      RangeInBatch(c, s.base, t);
      var u: nat :| Tried(c, s, u, n);
      assert WorkerOk(c, s.base, s.found, u, s.workers[u]);
      OneOwner(c, s.base, t, u, n);
      assert false;
    }
  }

  lemma RunTrialsOk(c: Config, s: State, t: nat)
    requires c.threads > 0 && WorkersOk(c, s) && TrialsOk(c, s) && Enabled(c, s, Run(t))
    ensures TrialsOk(c, Do(c, s, Run(t)))
  {
    var r := Do(c, s, Run(t));
    if s.workers[t].pc.AtTry? {
      NextIsNew(c, s, t);
      assert WorkerOk(c, s.base, s.found, t, s.workers[t]);
      assert Tried(c, r, t, s.workers[t].next);
    }
    forall n | n in s.trials && n >= Current(c, s)
      ensures exists u :: Tried(c, r, u, n)
    {
      var u: nat :| Tried(c, s, u, n);
      assert Tried(c, r, u, n);
    }
  }

  lemma StepInv(c: Config, s: State, step: Step)
    requires c.threads > 0 && Inv(c, s) && Enabled(c, s, step)
    ensures Inv(c, Do(c, s, step))
  {
    match step
    case Spawn => SpawnInv(c, s);
    case Join => JoinInv(c, s);
    case Run(t) =>
      RunWorkersOk(c, s, t);
      RunCellsOk(c, s, t);
      RunTrialsOk(c, s, t);
  }

  lemma {:induction false} ExecInv(c: Config, s: State, steps: seq<Step>)
    requires c.threads > 0 && Inv(c, s)
    ensures Exec(c, s, steps).Some? ==> Inv(c, Exec(c, s, steps).value)
    decreases |steps|
  {
    if steps != [] && Enabled(c, s, steps[0]) {
      StepInv(c, s, steps[0]);
      ExecInv(c, Do(c, s, steps[0]), steps[1..]);
    }
  }

  lemma ReachableInv(c: Config, s: State)
    requires c.threads > 0 && Reaches(c, Init(), s)
    ensures Inv(c, s)
  {
    var steps :| Exec(c, Init(), steps) == Some(s);
    InitInv(c);
    ExecInv(c, Init(), steps);
  }

  // ---------------------------------------------------------------- what a finished search returns

  /** n is the first solution among the nonces of thread t. */
  ghost predicate FirstSolution(c: Config, base: nat, t: nat, n: nat)
    requires c.threads > 0
  {
    && t < c.threads && Start(c, base, t) <= n < End(c, base, t) && c.solves(n)
    && forall m | Start(c, base, t) <= m < n :: !c.solves(m)
  }

  ghost predicate IsFirstNonce(c: Config, base: nat, nonce: nat)
    requires c.threads > 0
  {
    exists t :: FirstSolution(c, base, t, nonce)
  }

  ghost predicate IsFirstHash(c: Config, base: nat, hash: Hash)
    requires c.threads > 0
  {
    exists t, n :: FirstSolution(c, base, t, n) && hash == c.trial(n)
  }

  ghost predicate EarlierBatchesFail(c: Config, k: nat)
    requires c.threads > 0
  {
    forall b: nat | b < k :: BatchFails(c, b * c.batchSize)
  }

  /**
   * In every run no nonce is hashed twice. A success stores the first solution of one thread and the hash
   * of the first solution of a possibly different thread, both of the first batch that has any.
   * Giving up means no thread was ever given a solution.
   */
  lemma SearchOutcome(c: Config, s: State)
    requires c.threads > 0 && Reaches(c, Init(), s) && Finished(c, s)
    ensures forall i, j | 0 <= i < j < |s.trials| :: s.trials[i] != s.trials[j]
    ensures s.found ==>
              && 0 < s.batches <= c.maxBatches
              && EarlierBatchesFail(c, s.batches - 1)
              && IsFirstNonce(c, (s.batches - 1) * c.batchSize, s.nonce)
              && IsFirstHash(c, (s.batches - 1) * c.batchSize, s.hash)
    ensures !s.found ==> EarlierBatchesFail(c, c.maxBatches)
  {
    ReachableInv(c, s);
    if s.found {
      StoredPair(c, s);
      LastBase(c, s);
    }
  }

  /** A run in which only one thread got to its stores returns a nonce with its own hash. */
  lemma OneWinnerMatches(c: Config, s: State, t: nat)
    requires c.threads > 0 && Reaches(c, Init(), s) && Finished(c, s) && s.found
    requires forall u | 0 <= u < |s.workers| && u != t :: !s.workers[u].pc.Won?
    ensures s.hash == c.trial(s.nonce)
  {
    ReachableInv(c, s);
    assert s.workers[s.foundBy.value].pc.Won?;
    assert s.nonceBy.value == t && s.hashBy.value == t;
  }

  lemma LastBase(c: Config, s: State)
    requires c.threads > 0 && EarlierFailed(c, s) && !s.running && s.found
    ensures Current(c, s) == (s.batches - 1) * c.batchSize
  {
  }

  lemma StoredPair(c: Config, s: State)
    requires c.threads > 0 && WorkersOk(c, s) && CellsOk(c, s) && !s.running && s.found
    ensures Current(c, s) >= 0
    ensures IsFirstNonce(c, Current(c, s), s.nonce)
    ensures IsFirstHash(c, Current(c, s), s.hash)
  {
    assert s.workers[s.foundBy.value].pc.Won?;
    WinnerSolved(c, s, s.nonceBy.value);
    WinnerSolved(c, s, s.hashBy.value);
  }

  lemma WinnerSolved(c: Config, s: State, t: nat)
    requires c.threads > 0 && WorkersOk(c, s) && !s.running && s.found && t < |s.workers| && Solved(s.workers[t])
    ensures FirstSolution(c, Current(c, s), t, s.workers[t].next)
  {
    assert WorkerOk(c, Current(c, s), s.found, t, s.workers[t]);
  }

  // ---------------------------------------------------------------- stopping

  /** Workers past the check of the flag and about to hash. */
  function Trying(ws: seq<Worker>): nat {
    if ws == [] then 0 else (if ws[0].pc.AtTry? then 1 else 0) + Trying(ws[1..])
  }

  lemma {:induction false} TryingUpdate(ws: seq<Worker>, t: nat, w: Worker)
    requires t < |ws|
    ensures Trying(ws[t := w]) + (if ws[t].pc.AtTry? then 1 else 0) == Trying(ws) + if w.pc.AtTry? then 1 else 0
  {
    if t == 0 {
      assert ws[0 := w][1..] == ws[1..];
    } else {
      TryingUpdate(ws[1..], t - 1, w);
      assert ws[t := w][1..] == ws[1..][t - 1 := w];
    }
  }

  lemma {:induction false} TryingAtMost(ws: seq<Worker>)
    ensures Trying(ws) <= |ws|
  {
    if ws != [] {
      TryingAtMost(ws[1..]);
    }
  }

  lemma StepStops(c: Config, s: State, step: Step)
    requires c.threads > 0 && s.found && Enabled(c, s, step)
    ensures var r := Do(c, s, step);
            r.found && |r.trials| + Trying(r.workers) <= |s.trials| + Trying(s.workers)
  {
    if step.Run? {
      TryingUpdate(s.workers, step.t, Do(c, s, step).workers[step.t]);
    }
  }

  /** Once the flag is set no batch is started and no thread hashes more than the one nonce it had picked. */
  lemma {:induction false} RunStops(c: Config, s: State, steps: seq<Step>)
    requires c.threads > 0 && s.found && Exec(c, s, steps).Some?
    ensures var r := Exec(c, s, steps).value;
            && r.found && |r.trials| + Trying(r.workers) <= |s.trials| + Trying(s.workers)
            && |r.trials| <= |s.trials| + |s.workers|
    decreases |steps|
  {
    TryingAtMost(s.workers);
    if steps != [] {
      StepStops(c, s, steps[0]);
      RunStops(c, Do(c, s, steps[0]), steps[1..]);
    }
  }
}
