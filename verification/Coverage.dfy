/**
 * The membership set is meant to cover the pooled transactions. Exactly which steps of the pipeline leave a pooled
 * transaction uncovered.
 */
module Coverage {
  import opened Types
  import opened Pools
  import opened Mempool
  import opened Pipeline
  import Admission

  function PooledHashes(m: State): set<Hash> {
    HashSet(m.pools.a.txs) + HashSet(m.pools.b.txs) + HashSet(m.pools.c.txs)
  }

  lemma PooledHas(m: State, t: Stream, j: nat)
    requires j < |Of(m.pools, t).txs|
    ensures Of(m.pools, t).txs[j].tx.hash in PooledHashes(m)
  {
  }

  lemma PooledAt(m: State, h: Hash) returns (t: Stream, j: nat)
    requires h in PooledHashes(m)
    ensures j < |Of(m.pools, t).txs| && Of(m.pools, t).txs[j].tx.hash == h
  {
    t := if h in HashSet(m.pools.a.txs) then StreamA else if h in HashSet(m.pools.b.txs) then StreamB else StreamC;
    j :| 0 <= j < |Of(m.pools, t).txs| && Of(m.pools, t).txs[j].tx.hash == h;
  }

  lemma CoveredIs(m: State)
    ensures Covered(m) <==> PooledHashes(m) <= m.members
  {
    if Covered(m) {
      forall h | h in PooledHashes(m)
        ensures h in m.members
      {
        var t, j := PooledAt(m, h);
      }
    }
    if PooledHashes(m) <= m.members {
      forall t: Stream, j | 0 <= j < |Of(m.pools, t).txs|
        ensures Of(m.pools, t).txs[j].tx.hash in m.members
      {
        PooledHas(m, t, j);
      }
    }
  }

  // ---------------------------------------------------------------- the steps that can uncover

  /** What a submission's next step takes out of the membership set without touching a pool. */
  function SubmissionForgets(m: State, p: Admission.Submission, i: Admission.Input): set<Hash> {
    match p
    case Entered(tx) => if Admission.Rejected(m, tx, i) then {tx.hash} else {}
    case Promoting(sender, nonce) =>
      if nonce in QueueOf(m, sender) then {QueueOf(m, sender)[nonce].tx.hash} else {}
    case _ => {}
  }

  /** Rejecting, promoting, closing a block, and sweeping the legacy pool and the queues forget hashes. */
  function Forgets(s: Sys, op: Op): set<Hash>
    requires Enabled(s, op)
  {
    match op
    case Forget => HashSet(s.proc.txs)
    case ExpireOldest(now) => Old(s.mem.legacy.txs, now)
    case ExpireFutures(now) => StaleHashes(s.mem.futures, now)
    case Submit(u, input) => SubmissionForgets(s.mem, s.submissions[u], input)
    case _ => {}
  }

  /** Returning a block's transactions, and an addition's push, put entries into a pool. */
  function Pushes(s: Sys, op: Op): seq<Pooled>
    requires Enabled(s, op)
  {
    match op
    case PutBack(w, _) => s.workers[w].phase.txs
    case Submit(u, _) => if s.submissions[u].Pushing? then [s.submissions[u].x] else []
    case _ => []
  }

  /** A hash still pooled is forgotten, or an entry is pooled whose hash is not in the set. */
  predicate Uncovers(s: Sys, op: Op)
    requires Enabled(s, op)
  {
    !(Forgets(s, op) !! PooledHashes(s.mem)) || !(HashSet(Pushes(s, op)) <= s.mem.members)
  }

  // ---------------------------------------------------------------- three kinds of effect

  /** Entries with hashes in `gone` leave the pools for good, with those hashes at most. */
  ghost predicate Removes(m: State, r: State, gone: set<Hash>) {
    PooledHashes(r) <= PooledHashes(m) - gone && m.members - gone <= r.members
  }

  lemma RemovesCovered(m: State, r: State, gone: set<Hash>)
    requires Covered(m) && Removes(m, r, gone)
    ensures Covered(r)
  {
    CoveredIs(m);
    CoveredIs(r);
  }

  lemma ForgetsCovered(m: State, r: State, lost: set<Hash>)
    requires Covered(m) && r.pools == m.pools && r.members == m.members - lost
    ensures Covered(r) <==> lost !! PooledHashes(m)
  {
    CoveredIs(m);
    CoveredIs(r);
  }

  lemma PushesCovered(m: State, r: State, xs: seq<Pooled>)
    requires Covered(m) && PooledHashes(r) == PooledHashes(m) + HashSet(xs) && r.members == m.members
    ensures Covered(r) <==> HashSet(xs) <= m.members
  {
    CoveredIs(m);
    CoveredIs(r);
  }

  lemma SamePools(m: State, r: State)
    requires r.pools == m.pools && m.members <= r.members
    ensures Removes(m, r, {})
  {
  }

  // ---------------------------------------------------------------- pools after a step

  lemma HashSetPart(xs: seq<Pooled>, ys: seq<Pooled>)
    requires forall i | 0 <= i < |xs| :: xs[i] in ys
    ensures HashSet(xs) <= HashSet(ys)
  {
  }

  lemma HashSetJoin(xs: seq<Pooled>, ys: seq<Pooled>)
    ensures HashSet(xs + ys) == HashSet(xs) + HashSet(ys)
  {
    var all := xs + ys;
    assert forall i | 0 <= i < |xs| :: all[i] == xs[i];
    assert forall i | 0 <= i < |ys| :: all[|xs| + i] == ys[i];
    assert forall h | h in HashSet(xs) :: h in HashSet(all);
    assert forall h | h in HashSet(ys) :: h in HashSet(all);
  }

  /** One stream's pool changed to entries it had before. */
  lemma FewerPooled(m: State, r: State, t: Stream, p: Pool)
    requires r.pools == With(m.pools, t, p) && forall i | 0 <= i < |p.txs| :: p.txs[i] in Of(m.pools, t).txs
    ensures PooledHashes(r) <= PooledHashes(m)
  {
    HashSetPart(p.txs, Of(m.pools, t).txs);
  }

  lemma MorePooled(m: State, r: State, t: Stream, xs: seq<Pooled>, size: int)
    requires r.pools == With(m.pools, t, Pool(Of(m.pools, t).txs + xs, size))
    ensures PooledHashes(r) == PooledHashes(m) + HashSet(xs)
  {
    HashSetJoin(Of(m.pools, t).txs, xs);
  }

  /** An entry taken out of a pool without duplicates leaves no copy of its hash. */
  lemma TakenOut(m: State, r: State, t: Stream, i: nat, size: int)
    requires Unique(m) && i < |Of(m.pools, t).txs|
    requires r.pools == With(m.pools, t, Pool(SwapRemove(Of(m.pools, t).txs, i), size))
    ensures PooledHashes(r) <= PooledHashes(m) - {Of(m.pools, t).txs[i].tx.hash}
  {
    forall h | h in PooledHashes(r)
      ensures h in PooledHashes(m) && h != Of(m.pools, t).txs[i].tx.hash
    {
      var u, k := PooledAt(r, h);
      var j := k;
      if u == t {
        j := SwapRemoveIndex(Of(m.pools, t).txs, i, k);
      }
      assert Of(m.pools, u).txs[j].tx.hash == h;
      PooledHas(m, u, j);
    }
  }

  lemma SweptOut(m: State, t: Stream, now: nat)
    requires Unique(m)
    ensures PooledHashes(ExpireStream(m, t, now)) <= PooledHashes(m) - Old(Of(m.pools, t).txs, now)
  {
    var p, r := Of(m.pools, t), ExpireStream(m, t, now);
    RetainedMembers(p.txs, (x: Pooled) => Current(x, now));
    FewerPooled(m, r, t, Expire(p, now));
    forall h | h in PooledHashes(r)
      ensures h !in Old(p.txs, now)
    {
      var u, k := PooledAt(r, h);
      KeptIsYoung(m, t, now, u, k);
    }
  }

  lemma KeptIsYoung(m: State, t: Stream, now: nat, u: Stream, k: nat)
    requires Unique(m) && k < |Of(ExpireStream(m, t, now).pools, u).txs|
    ensures Of(ExpireStream(m, t, now).pools, u).txs[k].tx.hash !in Old(Of(m.pools, t).txs, now)
  {
    var p, x := Of(m.pools, t), Of(ExpireStream(m, t, now).pools, u).txs[k];
    RetainedMembers(p.txs, (y: Pooled) => Current(y, now));
    var j :| 0 <= j < |Of(m.pools, u).txs| && Of(m.pools, u).txs[j] == x;
    forall i | 0 <= i < |p.txs| && !Current(p.txs[i], now)
      ensures p.txs[i].tx.hash != x.tx.hash
    {
      assert u == t ==> Current(x, now);
    }
  }

  // ---------------------------------------------------------------- every step

  lemma StartCovered(s: Sys, w: nat, sorted: seq<Pooled>)
    requires Covered(s.mem) && WorkerEnabled(s, Start(w, sorted))
    ensures Covered(StartStep(s, w, sorted).mem)
  {
    var r, t := StartStep(s, w, sorted).mem, s.workers[w].stream;
    forall i | 0 <= i < |sorted|
      ensures sorted[i] in Of(s.mem.pools, t).txs
    {
      assert sorted[i] in multiset(sorted);
    }
    FewerPooled(s.mem, r, t, Of(r.pools, t));
    RemovesCovered(s.mem, r, {});
  }

  lemma ClaimCovered(s: Sys, w: nat)
    requires Covered(s.mem) && Unique(s.mem) && w < |s.workers| && Looping(s, s.workers[w])
    ensures Covered(ClaimStep(s, w).mem)
  {
    var r, t := ClaimStep(s, w).mem, s.workers[w].stream;
    var p := Of(s.mem.pools, t);
    assert r.pools == With(s.mem.pools, t, Pool(SwapRemove(p.txs, 0), p.size - 1));
    TakenOut(s.mem, r, t, 0, p.size - 1);
    RemovesCovered(s.mem, r, {p.txs[0].tx.hash});
  }

  lemma CleanCovered(s: Sys, w: nat)
    requires Covered(s.mem) && WorkerEnabled(s, Clean(w))
    ensures Covered(CleanStep(s, w).mem)
  {
    var r, t := CleanStep(s, w).mem, s.workers[w].phase.left[0];
    var gone := HashSet(s.workers[w].phase.txs);
    RetainedMembers(Of(s.mem.pools, t).txs, (x: Pooled) => x.tx.hash !in gone);
    FewerPooled(s.mem, r, t, Without(Of(s.mem.pools, t), gone));
    RemovesCovered(s.mem, r, {});
  }

  lemma WrappedHashes(xs: seq<Pooled>, now: nat)
    ensures HashSet(Wrapped(xs, now)) == HashSet(xs)
  {
    var ys := Wrapped(xs, now);
    assert forall i | 0 <= i < |xs| :: ys[i].tx.hash == xs[i].tx.hash;
    assert forall h | h in HashSet(xs) :: h in HashSet(ys);
  }

  lemma PutBackCovered(s: Sys, w: nat, now: nat)
    requires Covered(s.mem) && w < |s.workers| && s.workers[w].phase.Returning?
    ensures Covered(PutBackStep(s, w, now).mem) <==> HashSet(s.workers[w].phase.txs) <= s.mem.members
  {
    var r, k := PutBackStep(s, w, now).mem, s.workers[w];
    var p := Of(s.mem.pools, k.stream);
    MorePooled(s.mem, r, k.stream, Wrapped(k.phase.txs, now), p.size + |k.phase.txs|);
    WrappedHashes(k.phase.txs, now);
    PushesCovered(s.mem, r, k.phase.txs);
  }

  /** The worker steps that touch neither a pool nor the membership set. */
  predicate LeavesPools(op: Op) {
    WorkerOp(op) && !op.Start? && !op.Claim? && !op.Clean? && !op.PutBack?
  }

  lemma LeftAlone(s: Sys, op: Op)
    requires LeavesPools(op) && WorkerEnabled(s, op)
    ensures var r := ApplyWorker(s, op).mem;
            r.pools == s.mem.pools && r.members == s.mem.members
  {
  }

  lemma WorkerCovered(s: Sys, op: Op)
    requires WorkerOp(op) && Enabled(s, op) && Covered(s.mem) && Unique(s.mem)
    ensures Covered(ApplyWorker(s, op).mem) <==> !Uncovers(s, op)
  {
    if op.Start? {
      StartCovered(s, op.w, op.sorted);
    } else if op.Claim? {
      ClaimCovered(s, op.w);
    } else if op.Clean? {
      CleanCovered(s, op.w);
    } else if op.PutBack? {
      PutBackCovered(s, op.w, op.now);
    } else {
      LeftAlone(s, op);
      SamePools(s.mem, ApplyWorker(s, op).mem);
      RemovesCovered(s.mem, ApplyWorker(s, op).mem, {});
    }
  }

  lemma EvictionRemoves(m: State, t: Stream)
    requires Covered(m) && Unique(m)
    ensures Covered(Admission.EvictNow(m, t))
  {
    var p, r := Of(m.pools, t), Admission.EvictNow(m, t);
    if p.txs != [] {
      TakenOut(m, r, t, Lowest(p.txs), p.size - 1);
      RemovesCovered(m, r, {p.txs[Lowest(p.txs)].tx.hash});
    }
  }

  lemma PushCoveredIf(m: State, t: Stream, x: Pooled)
    requires Covered(m)
    ensures Covered(Admission.PushOnly(m, t, x)) <==> x.tx.hash in m.members
  {
    MorePooled(m, Admission.PushOnly(m, t, x), t, [x], Of(m.pools, t).size);
    PushesCovered(m, Admission.PushOnly(m, t, x), [x]);
    assert HashSet([x]) == {x.tx.hash} by {
      assert [x][0] == x;
    }
  }

  /** Steps of a submission that leave the pools' entries as they are and forget nothing. */
  lemma QuietSubmission(m: State, p: Admission.Submission, i: Admission.Input)
    requires Covered(m) && !p.Evicting? && !p.Pushing? && SubmissionForgets(m, p, i) == {}
    ensures Covered(Admission.Advance(Admission.Moment(m, p), i).mem)
  {
    var r := Admission.Advance(Admission.Moment(m, p), i).mem;
    assert PooledHashes(r) == PooledHashes(m) && m.members <= r.members;
    RemovesCovered(m, r, {});
  }

  lemma ForgettingSubmission(m: State, p: Admission.Submission, i: Admission.Input)
    requires Covered(m) && (p.Entered? || p.Promoting?)
    ensures Covered(Admission.Advance(Admission.Moment(m, p), i).mem) <==> SubmissionForgets(m, p, i) !! PooledHashes(m)
  {
    var r := Admission.Advance(Admission.Moment(m, p), i).mem;
    assert r.pools == m.pools && r.members == m.members - SubmissionForgets(m, p, i);
    ForgetsCovered(m, r, SubmissionForgets(m, p, i));
  }

  lemma SubmitCovered(s: Sys, u: nat, i: Admission.Input)
    requires u < |s.submissions| && Covered(s.mem) && Unique(s.mem)
    ensures Covered(SubmitStep(s, u, i).mem) <==> !Uncovers(s, Submit(u, i))
  {
    var p := s.submissions[u];
    if p.Pushing? {
      PushCoveredIf(s.mem, p.t, p.x);
      assert [p.x][0] == p.x;
    } else if p.Evicting? {
      EvictionRemoves(s.mem, p.t);
    } else if p.Entered? || p.Promoting? {
      ForgettingSubmission(s.mem, p, i);
    } else {
      QuietSubmission(s.mem, p, i);
    }
  }

  lemma ExpireCovered(s: Sys, t: Stream, now: nat)
    requires Covered(s.mem) && Unique(s.mem)
    ensures Covered(ExpireStream(s.mem, t, now))
  {
    SweptOut(s.mem, t, now);
    RemovesCovered(s.mem, ExpireStream(s.mem, t, now), Old(Of(s.mem.pools, t).txs, now));
  }

  predicate ForgetsOnly(op: Op) {
    op.Forget? || op.ExpireOldest? || op.ExpireFutures?
  }

  lemma UpkeepCovered(s: Sys, op: Op)
    requires ForgetsOnly(op) && Enabled(s, op) && Covered(s.mem)
    ensures Covered(Apply(s, op).mem) <==> !Uncovers(s, op)
  {
    var r := Apply(s, op).mem;
    assert r.pools == s.mem.pools && r.members == s.mem.members - Forgets(s, op);
    ForgetsCovered(s.mem, r, Forgets(s, op));
  }

  lemma RestUntouched(s: Sys, op: Op)
    requires !WorkerOp(op) && !ForgetsOnly(op) && !op.Submit? && !op.ExpirePool? && Enabled(s, op)
    ensures Apply(s, op).mem.pools == s.mem.pools && Apply(s, op).mem.members == s.mem.members
  {
  }

  /**
   * From a state in which the membership set covers the pools and no hash is pooled twice, a step leaves a pooled
   * transaction uncovered exactly when it forgets a hash that is still pooled (a rejection, a promotion, the close of
   * a block, a sweep of the legacy pool or the queues) or pools an entry whose hash is not in the set (a return, or
   * the push of an addition).
   */
  lemma StepCoversExactly(s: Sys, op: Op)
    requires Enabled(s, op) && Covered(s.mem) && Unique(s.mem)
    ensures Covered(Apply(s, op).mem) <==> !Uncovers(s, op)
  {
    if WorkerOp(op) {
      WorkerCovered(s, op);
    } else if op.Submit? {
      SubmitCovered(s, op.u, op.input);
    } else if op.ExpirePool? {
      ExpireCovered(s, op.t, op.now);
    } else if ForgetsOnly(op) {
      UpkeepCovered(s, op);
    } else {
      RestUntouched(s, op);
      SamePools(s.mem, Apply(s, op).mem);
      RemovesCovered(s.mem, Apply(s, op).mem, {});
    }
  }
}
