/**
 * When the threaded search can hand back a nonce and a hash that do not belong together, exactly;
 * what its giving up means; and why a mixed pair never gets past the processor.
 */
module Race {
  import opened Types
  import opened Parallel
  import Header
  import Difficulty
  import Mine

  // ---------------------------------------------------------------- composing runs

  lemma {:induction false} ExecAppend(c: Config, s: State, xs: seq<Step>, ys: seq<Step>)
    requires c.threads > 0 && Exec(c, s, xs).Some?
    ensures Exec(c, s, xs + ys) == Exec(c, Exec(c, s, xs).value, ys)
    decreases |xs|
  {
    if xs == [] {
      assert xs + ys == ys;
    } else {
      assert (xs + ys)[1..] == xs[1..] + ys;
      ExecAppend(c, Do(c, s, xs[0]), xs[1..], ys);
    }
  }

  lemma ReachesThen(c: Config, s: State, q: State, r: State)
    requires c.threads > 0 && Reaches(c, s, q) && Reaches(c, q, r)
    ensures Reaches(c, s, r)
  {
    var xs :| Exec(c, s, xs) == Some(q);
    var ys :| Exec(c, q, ys) == Some(r);
    ExecAppend(c, s, xs, ys);
  }

  lemma ReachesSelf(c: Config, s: State)
    requires c.threads > 0
    ensures Reaches(c, s, s)
  {
    assert Exec(c, s, []) == Some(s);
  }

  lemma ReachesStep(c: Config, s: State, q: State, step: Step)
    requires c.threads > 0 && Reaches(c, s, q) && Enabled(c, q, step)
    ensures Reaches(c, s, Do(c, q, step))
  {
    assert Exec(c, q, [step]) == Some(Do(c, q, step)) by {
      assert [step][1..] == [];
    }
    ReachesThen(c, s, q, Do(c, q, step));
  }

  /** r is s with worker t changed to w; the cells and the batch are as they were. */
  ghost predicate OnlyWorker(s: State, r: State, t: nat, w: Worker)
    requires t < |s.workers|
  {
    && r.workers == s.workers[t := w] && r.running == s.running
    && r.base == s.base && r.batches == s.batches
    && r.found == s.found && r.nonce == s.nonce && r.hash == s.hash
  }

  /** A worker left alone gets to any nonce of its range before which nothing solves. */
  lemma {:induction false} WalkTo(c: Config, s: State, t: nat, n: nat) returns (r: State)
    requires c.threads > 0 && s.running && !s.found && t < |s.workers| && s.workers[t].pc.AtCheck?
    requires s.workers[t].next <= n <= End(c, s.base, t)
    requires forall m | s.workers[t].next <= m < n :: !c.solves(m)
    ensures Reaches(c, s, r) && OnlyWorker(s, r, t, Worker(n, AtCheck))
    decreases n - s.workers[t].next
  {
    ReachesSelf(c, s);
    if s.workers[t].next == n {
      r := s;
    } else {
      var a := Do(c, s, Run(t));
      ReachesStep(c, s, s, Run(t));
      var b := Do(c, a, Run(t));
      ReachesStep(c, s, a, Run(t));
      r := WalkTo(c, b, t, n);
      ReachesThen(c, s, b, r);
    }
  }

  /** The walk, then one more turn: stop at the end of the range, or hash a solution. */
  lemma WalkAndStop(c: Config, s: State, t: nat) returns (r: State)
    requires c.threads > 0 && s.running && !s.found && t < |s.workers| && s.workers[t].pc.AtCheck?
    requires s.workers[t].next <= End(c, s.base, t)
    requires forall m | s.workers[t].next <= m < End(c, s.base, t) :: !c.solves(m)
    ensures Reaches(c, s, r) && OnlyWorker(s, r, t, Worker(End(c, s.base, t), Quit))
  {
    var q := WalkTo(c, s, t, End(c, s.base, t));
    r := Do(c, q, Run(t));
    ReachesStep(c, s, q, Run(t));
  }

  lemma WalkAndSolve(c: Config, s: State, t: nat, n: nat) returns (r: State)
    requires c.threads > 0 && s.running && !s.found && t < |s.workers|
    requires s.workers[t] == Worker(Start(c, s.base, t), AtCheck) && FirstSolution(c, s.base, t, n)
    ensures Reaches(c, s, r) && OnlyWorker(s, r, t, Worker(n, AtFound))
  {
    var q := WalkTo(c, s, t, n);
    var p := Do(c, q, Run(t));
    ReachesStep(c, s, q, Run(t));
    r := Do(c, p, Run(t));
    ReachesStep(c, s, p, Run(t));
  }

  ghost predicate AtRest(w: Worker) {
    w.pc.Quit? || w.pc.Won?
  }

  /** Workers before k are at rest, the others have not begun. */
  ghost predicate SweptUpTo(c: Config, s: State, k: nat)
    requires c.threads > 0
  {
    && s.running && !s.found && |s.workers| == c.threads && k <= c.threads
    && (forall t | 0 <= t < k :: AtRest(s.workers[t]))
    && (forall t | k <= t < c.threads :: s.workers[t] == Worker(Start(c, s.base, t), AtCheck))
  }

  lemma {:induction false} SweepFrom(c: Config, s: State, k: nat) returns (r: State)
    requires c.threads > 0 && SweptUpTo(c, s, k) && BatchFails(c, s.base)
    ensures Reaches(c, s, r) && SweptUpTo(c, r, c.threads) && r.base == s.base && r.batches == s.batches
    decreases c.threads - k
  {
    if k == c.threads {
      ReachesSelf(c, s);
      r := s;
    } else {
      var q := WalkAndStop(c, s, k);
      r := SweepFrom(c, q, k + 1);
      ReachesThen(c, s, q, r);
    }
  }

  /** A batch without solutions can be run to its end. */
  lemma FailOneBatch(c: Config, s: State) returns (r: State)
    requires c.threads > 0 && !s.running && !s.found && s.batches < c.maxBatches && BatchFails(c, s.base)
    ensures Reaches(c, s, r) && !r.running && !r.found
    ensures r.batches == s.batches + 1 && r.base == s.base + c.batchSize
  {
    ReachesSelf(c, s);
    var a := Do(c, s, Spawn);
    ReachesStep(c, s, s, Spawn);
    var b := SweepFrom(c, a, 0);
    ReachesThen(c, s, a, b);
    assert Enabled(c, b, Join);
    r := Do(c, b, Join);
    ReachesStep(c, s, b, Join);
  }

  lemma {:induction false} FailBatches(c: Config, k: nat) returns (r: State)
    requires c.threads > 0 && k <= c.maxBatches && EarlierBatchesFail(c, k)
    ensures Reaches(c, Init(), r) && !r.running && !r.found && r.batches == k && r.base == k * c.batchSize
  {
    if k == 0 {
      r := Init();
      ReachesSelf(c, r);
    } else {
      var q := FailBatches(c, k - 1);
      assert BatchFails(c, (k - 1) * c.batchSize);
      r := FailOneBatch(c, q);
      ReachesThen(c, Init(), q, r);
      assert k * c.batchSize == (k - 1) * c.batchSize + c.batchSize;
    }
  }

  /** Once the flag is up, workers that have not begun hashing stop at their next check. */
  lemma {:induction false} QuitFrom(c: Config, s: State, k: nat) returns (r: State)
    requires c.threads > 0 && s.running && s.found && |s.workers| == c.threads && k <= c.threads
    requires forall t | 0 <= t < k :: AtRest(s.workers[t])
    requires forall t | k <= t < c.threads :: AtRest(s.workers[t]) || s.workers[t].pc.AtCheck?
    ensures Reaches(c, s, r) && r.running && r.found && r.nonce == s.nonce && r.hash == s.hash
    ensures forall w | w in r.workers :: AtRest(w)
    decreases c.threads - k
  {
    ReachesSelf(c, s);
    if k == c.threads {
      r := s;
    } else if AtRest(s.workers[k]) {
      r := QuitFrom(c, s, k + 1);
    } else {
      var q := Do(c, s, Run(k));
      ReachesStep(c, s, s, Run(k));
      r := QuitFrom(c, q, k + 1);
      ReachesThen(c, s, q, r);
    }
  }

  /** Two workers that both solved can interleave their three stores so that the cells disagree. */
  lemma MixStores(c: Config, s: State, t: nat, u: nat, n: nat, m: nat) returns (r: State)
    requires c.threads > 0 && s.running && t < |s.workers| && u < |s.workers| && t != u
    requires s.workers[t] == Worker(n, AtFound) && s.workers[u] == Worker(m, AtFound)
    ensures Reaches(c, s, r) && r.running && r.found && r.nonce == m && r.hash == c.trial(n)
    ensures r.workers == s.workers[t := Worker(n, Won)][u := Worker(m, Won)]
  {
    ReachesSelf(c, s);
    var s1 := Do(c, s, Run(t));
    ReachesStep(c, s, s, Run(t));
    var s2 := Do(c, s1, Run(u));
    ReachesStep(c, s, s1, Run(u));
    var s3 := Do(c, s2, Run(t));
    ReachesStep(c, s, s2, Run(t));
    var s4 := Do(c, s3, Run(u));
    ReachesStep(c, s, s3, Run(u));
    var s5 := Do(c, s4, Run(u));
    ReachesStep(c, s, s4, Run(u));
    r := Do(c, s5, Run(t));
    ReachesStep(c, s, s5, Run(t));
  }

  // ---------------------------------------------------------------- the exact condition

  /** Two threads of the first batch that has a solution would store different hashes. */
  ghost predicate RaceAt(c: Config, b: nat, t: nat, u: nat, n: nat, m: nat)
    requires c.threads > 0
  {
    && b < c.maxBatches && EarlierBatchesFail(c, b)
    && FirstSolution(c, b * c.batchSize, t, n) && FirstSolution(c, b * c.batchSize, u, m)
    && c.trial(n) != c.trial(m)
  }

  ghost predicate HasRace(c: Config)
    requires c.threads > 0
  {
    exists b, t, u, n, m :: RaceAt(c, b, t, u, n, m)
  }

  /** Whatever the interleaving, a finished search that found something stored a matching pair. */
  ghost predicate AlwaysConsistent(c: Config)
    requires c.threads > 0
  {
    forall s | Reaches(c, Init(), s) && Finished(c, s) && s.found :: s.hash == c.trial(s.nonce)
  }

  lemma RunTheRace(c: Config, b: nat, t: nat, u: nat, n: nat, m: nat) returns (r: State)
    requires c.threads > 0 && RaceAt(c, b, t, u, n, m)
    ensures Reaches(c, Init(), r) && Finished(c, r) && r.found && r.nonce == m && r.hash == c.trial(n)
  {
    assert t != u;
    var s0 := FailBatches(c, b);
    var s1 := Do(c, s0, Spawn);
    ReachesStep(c, Init(), s0, Spawn);
    var s2 := WalkAndSolve(c, s1, t, n);
    ReachesThen(c, Init(), s1, s2);
    var s3 := WalkAndSolve(c, s2, u, m);
    ReachesThen(c, Init(), s2, s3);
    var s4 := MixStores(c, s3, t, u, n, m);
    ReachesThen(c, Init(), s3, s4);
    var s5 := QuitFrom(c, s4, 0);
    ReachesThen(c, Init(), s4, s5);
    assert Enabled(c, s5, Join);
    r := Do(c, s5, Join);
    ReachesStep(c, Init(), s5, Join);
  }

  /** Where the stored nonce and the stored hash of a successful search come from. */
  lemma FoundPair(c: Config, s: State) returns (b: nat, t: nat, u: nat, m: nat)
    requires c.threads > 0 && Reaches(c, Init(), s) && Finished(c, s) && s.found
    ensures b < c.maxBatches && EarlierBatchesFail(c, b)
    ensures FirstSolution(c, b * c.batchSize, t, s.nonce) && FirstSolution(c, b * c.batchSize, u, m)
    ensures s.hash == c.trial(m)
  {
    SearchOutcome(c, s);
    b := s.batches - 1;
    var base := b * c.batchSize;
    t :| FirstSolution(c, base, t, s.nonce);
    u, m :| FirstSolution(c, base, u, m) && s.hash == c.trial(m);
  }

  lemma NoRaceConsistent(c: Config, s: State)
    requires c.threads > 0 && !HasRace(c) && Reaches(c, Init(), s) && Finished(c, s) && s.found
    ensures s.hash == c.trial(s.nonce)
  {
    var b, t, u, m := FoundPair(c, s);
    assert !RaceAt(c, b, t, u, s.nonce, m);
  }

  /**
   * The returned nonce and hash belong together in every interleaving if and only if no two threads
   * of the first successful batch would store different hashes.
   */
  lemma ConsistentExactlyWithoutRace(c: Config)
    requires c.threads > 0
    ensures AlwaysConsistent(c) <==> !HasRace(c)
  {
    if HasRace(c) {
      var b, t, u, n, m :| RaceAt(c, b, t, u, n, m);
      var r := RunTheRace(c, b, t, u, n, m);
    } else {
      forall s | Reaches(c, Init(), s) && Finished(c, s) && s.found
        ensures s.hash == c.trial(s.nonce)
      {
        NoRaceConsistent(c, s);
      }
    }
  }

  // ---------------------------------------------------------------- giving up

  /** Some thread of some batch is given n. */
  ghost predicate Covered(c: Config, n: nat)
    requires c.threads > 0
  {
    exists b: nat, t: nat :: InShare(c, b, t, n)
  }

  ghost predicate InShare(c: Config, b: nat, t: nat, n: nat)
    requires c.threads > 0
  {
    b < c.maxBatches && t < c.threads && Start(c, b * c.batchSize, t) <= n < End(c, b * c.batchSize, t)
  }

  /** The slot of n among `count` consecutive slots of one size. */
  lemma SlotOf(size: nat, count: nat, n: nat) returns (q: nat)
    requires n < count * size
    ensures q < count && q * size <= n < q * size + size
  {
    assert size > 0;
    q := n / size;
    MulOrder(count, q, size);
  }

  lemma ShareOf(c: Config, base: nat, x: nat) returns (t: nat)
    requires c.threads > 0 && c.batchSize % c.threads == 0 && x < c.batchSize
    ensures t < c.threads && Start(c, base, t) <= base + x < End(c, base, t)
  {
    assert c.batchSize == c.threads * Share(c);
    t := SlotOf(Share(c), c.threads, x);
  }

  lemma EvenSplitCovers(c: Config, n: nat)
    requires c.threads > 0 && c.batchSize % c.threads == 0 && n < c.maxBatches * c.batchSize
    ensures Covered(c, n)
  {
    var b := SlotOf(c.batchSize, c.maxBatches, n);
    var base := b * c.batchSize;
    var t := ShareOf(c, base, n - base);
    assert InShare(c, b, t, n);
  }

  lemma LastNonceSkipped(c: Config)
    requires c.threads > 0 && c.batchSize % c.threads != 0
    ensures c.batchSize > 0 && !Covered(c, c.batchSize - 1)
  {
    if Covered(c, c.batchSize - 1) {
      var b: nat, t: nat :| InShare(c, b, t, c.batchSize - 1);
      MulOrder(1, b, c.batchSize);
      ShareEnds(c, t);
      assert false;
    }
  }

  lemma ShareEnds(c: Config, t: nat)
    requires t < c.threads && c.batchSize % c.threads != 0
    ensures End(c, 0, t) < c.batchSize
  {
    MulOrder(t + 1, c.threads, Share(c));
    assert End(c, 0, t) == (t + 1) * Share(c);
    assert c.threads * Share(c) == c.batchSize - c.batchSize % c.threads;
  }

  /** The batches reach every nonce of the searched range exactly when the threads divide the batch. */
  lemma CoverageExact(c: Config)
    requires c.threads > 0 && c.maxBatches > 0
    ensures (forall n: nat | n < c.maxBatches * c.batchSize :: Covered(c, n)) <==> c.batchSize % c.threads == 0
  {
    if c.batchSize % c.threads == 0 {
      forall n: nat | n < c.maxBatches * c.batchSize
        ensures Covered(c, n)
      {
        EvenSplitCovers(c, n);
      }
    } else {
      LastNonceSkipped(c);
      assert c.batchSize - 1 < c.maxBatches * c.batchSize;
    }
  }

  /** A search that gives up was given no solution; with an even split there is none in its whole range. */
  lemma GivingUp(c: Config, s: State, n: nat)
    requires c.threads > 0 && Reaches(c, Init(), s) && Finished(c, s) && !s.found
    requires Covered(c, n) || (c.batchSize % c.threads == 0 && n < c.maxBatches * c.batchSize)
    ensures !c.solves(n)
  {
    SearchOutcome(c, s);
    if !Covered(c, n) {
      EvenSplitCovers(c, n);
    }
    var b: nat, t: nat :| InShare(c, b, t, n);
    assert BatchFails(c, b * c.batchSize);
  }

  // ---------------------------------------------------------------- the processor

  /** The search a miner starts on a header template. */
  function HeaderSearch(h: Hasher, template: Header.BlockHeader, root: Hash, stream: Stream,
                        threads: nat, batchSize: nat, maxBatches: nat): Config
  {
    var trial := (n: nat) => if n < TWO_64 then Mine.Trial(h, template, root, stream, n) else seq(32, _ => 0);
    Config(threads, batchSize, maxBatches, trial, (n: nat) => Difficulty.Meets(trial(n), template.difficulty))
  }

  /**
   * A block built from the threaded search passes the processor's recheck exactly when its nonce and hash
   * belong together, and then its hash meets the difficulty. A mixed pair is discarded.
   */
  lemma MixedPairDiscarded(h: Hasher, template: Header.BlockHeader, root: Hash, threads: nat, batchSize: nat,
                           maxBatches: nat, sealed: Header.BlockHeader -> Hash, s: State)
    requires threads > 0 && template.number > 0 && template.stream != StreamC
    requires var c := HeaderSearch(h, template, root, template.stream, threads, batchSize, maxBatches);
             Reaches(c, Init(), s) && Finished(c, s) && s.found && s.nonce < TWO_64
    ensures var c := HeaderSearch(h, template, root, template.stream, threads, batchSize, maxBatches);
            var block := template.(nonce := s.nonce);
            && Difficulty.Meets(s.hash, template.difficulty)
            && (Mine.PassesRecheck(h, sealed, block, root, s.hash) <==> s.hash == c.trial(s.nonce))
            && (!HasRace(c) ==> Mine.PassesRecheck(h, sealed, block, root, s.hash))
  {
    var c := HeaderSearch(h, template, root, template.stream, threads, batchSize, maxBatches);
    SearchOutcome(c, s);
    if !HasRace(c) {
      NoRaceConsistent(c, s);
    }
  }
}
