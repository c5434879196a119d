/**
 * The pipeline's small steps add up to the mempool's drain: a worker left alone from the sort to the last
 * clean-up leaves the pools exactly as the whole-drain function says.
 */
module SoloDrain {
  import opened Types
  import opened Pools
  import opened Mempool
  import opened Pipeline

  /** Two drains that differ only in their record of dropped entries. */
  ghost predicate SameCore(d: Drain, e: Drain) {
    d.pool == e.pool && d.inFlight == e.inFlight && d.members == e.members && d.claimed == e.claimed
  }

  lemma {:induction false} SameDrain(d: Drain, e: Drain, count: nat, now: nat)
    requires SameCore(d, e)
    ensures SameCore(DrainAll(d, count, now), DrainAll(e, count, now))
    decreases |d.pool.txs|
  {
    if |d.claimed| < count && d.pool.txs != [] {
      SameDrain(Pop(d, now), Pop(e, now), count, now);
    }
  }

  /** The state with worker `w` at the end of its loop, everyone else where they were. */
  ghost predicate Drained(s: Sys, r: Sys, w: nat, d: Drain)
    requires w < |s.workers| && s.workers[w].phase.Draining?
  {
    var k := s.workers[w];
    && r == s.(workers := s.workers[w := Worker(k.stream, Draining(k.phase.count, k.phase.now, d.claimed))],
               mem := s.mem.(pools := With(s.mem.pools, k.stream, d.pool), inFlight := d.inFlight,
                             members := d.members),
               cleared := r.cleared)
    && (|d.claimed| >= k.phase.count || d.pool.txs == [])
  }

  lemma ClaimIsPop(s: Sys, w: nat)
    requires w < |s.workers| && Looping(s, s.workers[w])
    ensures var r, k := ClaimStep(s, w), s.workers[w];
            && r.workers[w].phase.Draining? && r.workers[w].stream == k.stream
            && r.workers[w].phase.count == k.phase.count && r.workers[w].phase.now == k.phase.now
            && SameCore(DrainAt(r, r.workers[w]), Pop(DrainAt(s, k), k.phase.now))
  {
  }

  lemma ReachesClaim(s: Sys, q: Sys, w: nat)
    requires Reaches(s, q) && w < |q.workers| && Looping(q, q.workers[w])
    ensures Reaches(s, ClaimStep(q, w))
  {
    ReachesStep(s, q, Claim(w));
  }

  lemma {:induction false} ClaimsAddUp(s: Sys, w: nat) returns (r: Sys)
    requires w < |s.workers| && s.workers[w].phase.Draining?
    ensures Reaches(s, r)
    ensures var k := s.workers[w];
            Drained(s, r, w, DrainAll(DrainAt(s, k), k.phase.count, k.phase.now))
    decreases |Of(s.mem.pools, s.workers[w].stream).txs|
  {
    var k := s.workers[w];
    r := s;
    ReachesSelf(s);
    if Looping(s, k) {
      var q := ClaimStep(s, w);
      ReachesClaim(s, s, w);
      ClaimIsPop(s, w);
      SameDrain(DrainAt(q, q.workers[w]), Pop(DrainAt(s, k), k.phase.now), k.phase.count, k.phase.now);
      r := ClaimsAddUp(q, w);
      ReachesThen(s, q, r);
    }
  }

  /** Both clean-ups, one pool at a time, are the clean-up of the other two pools. */
  lemma CleansAddUp(ps: Streams, s: Stream, gone: set<Hash>)
    ensures var one := With(ps, Others(s)[0], Without(Of(ps, Others(s)[0]), gone));
            With(one, Others(s)[1], Without(Of(one, Others(s)[1]), gone)) == CleanOthers(ps, s, gone)
  {
  }

  lemma ReachesClean(s: Sys, q: Sys, w: nat)
    requires Reaches(s, q) && w < |q.workers| && q.workers[w].phase.Cleaning? && q.workers[w].phase.left != []
    ensures Reaches(s, CleanStep(q, w))
  {
    ReachesStep(s, q, Clean(w));
  }

  /** Where the loop and the clean-ups after it leave a worker that claimed `txs`. */
  ghost predicate CleanedUp(s: Sys, r: Sys, w: nat, txs: seq<Pooled>)
    requires w < |s.workers|
  {
    var t := s.workers[w].stream;
    r == s.(workers := s.workers[w := Worker(t, Cleaning(txs, []))],
            mem := s.mem.(pools := if txs == [] then s.mem.pools else CleanOthers(s.mem.pools, t, HashSet(txs))))
  }

  lemma CleanTwice(s: Sys, w: nat) returns (r: Sys)
    requires w < |s.workers| && s.workers[w].phase.Cleaning? && s.workers[w].phase.left == Others(s.workers[w].stream)
    ensures var t, txs := s.workers[w].stream, s.workers[w].phase.txs;
            && Reaches(s, r)
            && r == s.(workers := s.workers[w := Worker(t, Cleaning(txs, []))],
                       mem := s.mem.(pools := CleanOthers(s.mem.pools, t, HashSet(txs))))
  {
    var k := s.workers[w];
    assert |Others(k.stream)| == 2 && Others(k.stream)[1..][1..] == [];
    ReachesSelf(s);
    ReachesClean(s, s, w);
    var a := CleanStep(s, w);
    ReachesClean(s, a, w);
    r := CleanStep(a, w);
    CleansAddUp(s.mem.pools, k.stream, HashSet(k.phase.txs));
  }

  lemma ReachesEnd(s: Sys, w: nat)
    requires w < |s.workers| && s.workers[w].phase.Draining? && !Looping(s, s.workers[w])
    ensures Reaches(s, EndDrainStep(s, w))
  {
    ReachesSelf(s);
    ReachesStep(s, s, EndDrain(w));
  }

  lemma CleaningRun(s: Sys, w: nat) returns (r: Sys)
    requires w < |s.workers| && s.workers[w].phase.Draining? && !Looping(s, s.workers[w])
    ensures Reaches(s, r) && CleanedUp(s, r, w, s.workers[w].phase.txs)
  {
    ReachesEnd(s, w);
    var a := EndDrainStep(s, w);
    r := a;
    if s.workers[w].phase.txs != [] {
      r := CleanTwice(a, w);
      ReachesThen(s, a, r);
    }
  }

  lemma ReachesStart(s: Sys, w: nat, sorted: seq<Pooled>, now: nat)
    requires w < |s.workers| && s.workers[w].phase.Idle?
    requires multiset(sorted) == multiset(Of(s.mem.pools, s.workers[w].stream).txs) && Descending(sorted)
    ensures Reaches(s, StartStep(LookStep(s, w, now), w, sorted))
  {
    ReachesSelf(s);
    ReachesStep(s, s, Look(w, now));
    ReachesStep(s, LookStep(s, w, now), Start(w, sorted));
  }

  /**
   * From an idle worker and any order its sort may leave, there is a run of that worker alone that ends with the
   * pools and sets of one whole drain, and with exactly the drain's claims in the worker's hands.
   */
  lemma SoloRunIsDrain(s: Sys, w: nat, sorted: seq<Pooled>, now: nat) returns (r: Sys)
    requires w < |s.workers| && s.workers[w].phase.Idle?
    requires multiset(sorted) == multiset(Of(s.mem.pools, s.workers[w].stream).txs) && Descending(sorted)
    ensures Reaches(s, r)
    ensures var t := s.workers[w].stream;
            r == s.(workers := s.workers[w := Worker(t, Cleaning(DrainOf(s.mem, t, sorted, now).claimed, []))],
                    mem := DrainStream(s.mem, t, sorted, now), cleared := r.cleared)
  {
    var a := StartStep(LookStep(s, w, now), w, sorted);
    ReachesStart(s, w, sorted, now);
    StartIsDrain(s, w, sorted, now);
    var b := ClaimsAddUp(a, w);
    r := CleaningRun(b, w);
    ReachesThen(s, a, b);
    ReachesThen(s, b, r);
  }

  lemma StartIsDrain(s: Sys, w: nat, sorted: seq<Pooled>, now: nat)
    requires w < |s.workers|
    ensures var a, t := StartStep(LookStep(s, w, now), w, sorted), s.workers[w].stream;
            && a == s.(workers := s.workers[w := a.workers[w]],
                       mem := s.mem.(pools := With(s.mem.pools, t, Pool(sorted, Of(s.mem.pools, t).size))))
            && a.workers[w].stream == t && a.workers[w].phase.Draining?
            && DrainAll(DrainAt(a, a.workers[w]), a.workers[w].phase.count, a.workers[w].phase.now) ==
               DrainOf(s.mem, t, sorted, now)
  {
  }
}
