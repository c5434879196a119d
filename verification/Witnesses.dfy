/**
 * Runs from a fresh system that reach what the exact conditions rule out elsewhere: a leaked claim, a
 * transaction in two blocks after a wipe, and a pool counter below zero.
 */
module Witnesses {
  import opened Types
  import opened Fees
  import opened Pools
  import opened Mempool
  import opened Holdings
  import opened Pipeline
  import opened Exclusion
  import opened Leaks
  import opened SoloDrain
  import Admission
  import Allocator
  import Header

  const EMPTY: Pool := Pool([], 0)

  function System(workers: seq<Worker>, submissions: seq<Admission.Submission>, pools: Streams): Sys {
    Sys(State(pools, EMPTY, {}, {}, map[], 0, false), Allocator.Fresh(1), workers, submissions,
        [], Ready, [], [], false, 0)
  }

  // ---------------------------------------------------------------- a leak

  function OnePooled(x: Pooled): Sys {
    System([Worker(StreamA, Idle)], [], Streams(Pool([x], 1), EMPTY, EMPTY))
  }

  lemma DrainOne(m: State, x: Pooled, now: nat)
    requires m.pools.a == Pool([x], 1) && m.inFlight == {} && !IsExpired(x, now)
    ensures var d := DrainOf(m, StreamA, [x], now);
            d.claimed == [x] && d.inFlight == {x.tx.hash}
  {
    var start := StartDrain(Pool([x], 1), m.inFlight, m.members);
    var next := Pop(start, now);
    assert DrainOf(m, StreamA, [x], now) == DrainAll(start, 1, now) == DrainAll(next, 1, now) == next;
    assert {} + {x.tx.hash} == {x.tx.hash};
  }

  lemma NobodyHolds(s: Sys)
    requires |s.workers| == 1 && s.workers[0].phase == Idle && s.queue == [] && s.proc == Ready
    ensures Held(s) == multiset{}
  {
    assert Hashes([]) == multiset{};
    TotalOfNothing(WorkerShares(s.workers));
  }

  /** Giving up for want of parents: every transaction can be leaked by a run of a fresh system. */
  lemma LeakRun(x: Pooled, now: nat) returns (r: Sys)
    requires !IsExpired(x, now)
    ensures Initial(OnePooled(x)) && Reaches(OnePooled(x), r) && Leaked(r, x.tx.hash)
  {
    var s := OnePooled(x);
    DrainOne(s.mem, x, now);
    var a := SoloRunIsDrain(s, 0, [x], now);
    r := GivenUp(s, a, 0);
    NobodyHolds(r);
  }

  lemma GivenUp(s: Sys, q: Sys, w: nat) returns (r: Sys)
    requires Reaches(s, q) && w < |q.workers| && q.workers[w].phase.Cleaning? && q.workers[w].phase.left == []
    ensures Reaches(s, r) && r == Turn(q, w, Idle)
  {
    var txs := q.workers[w].phase.txs;
    ReachesStep(s, q, Order(w, txs));
    ReachesStep(s, Turn(q, w, Assembled(txs)), NoParents(w));
    r := Turn(q, w, Idle);
  }

  // ---------------------------------------------------------------- a counter below zero

  lemma ReachesSubmit(s: Sys, q: Sys, i: Admission.Input)
    requires Reaches(s, q) && |q.submissions| == 1
    ensures Reaches(s, SubmitStep(q, 0, i))
  {
    ReachesStep(s, q, Submit(0, i));
  }

  /** The first six steps of a submission that is ready and finds room: pushed, not yet counted. */
  lemma PushedUncounted(s: Sys, i: Admission.Input) returns (r: Sys)
    requires s.submissions == [Admission.Off] && s.mem.turn == 0
    requires i.tx.hash !in s.mem.members && Admission.Ready(i) && Load(s.mem.pools.a) < Cap(StreamA)
    ensures Reaches(s, r) && r.workers == s.workers && r.mem.inFlight == s.mem.inFlight
    ensures r.mem.pools.a == Pool(s.mem.pools.a.txs + [Pooled(i.tx, i.now)], s.mem.pools.a.size)
  {
    var x, next := Pooled(i.tx, i.now), Admission.Then(i.tx.sender, None);
    var a := EnteredAndJudged(s, i);
    var b := RoomFound(a, i, x, next);
    r := RoutedAndPushed(b, i, x, next);
    ReachesThen(s, a, b);
    ReachesThen(s, b, r);
  }

  lemma EnteredAndJudged(s: Sys, i: Admission.Input) returns (r: Sys)
    requires s.submissions == [Admission.Off] && i.tx.hash !in s.mem.members && Admission.Ready(i)
    ensures Reaches(s, r)
    ensures r == s.(mem := Admission.Entry(s.mem, i.tx.hash),
                    submissions := [Admission.Choosing(Pooled(i.tx, i.now), Admission.Then(i.tx.sender, None))])
  {
    ReachesSelf(s);
    var a := SubmitStep(s, 0, i);
    ReachesSubmit(s, s, i);
    assert a == s.(mem := Admission.Entry(s.mem, i.tx.hash), submissions := [Admission.Entered(i.tx)]);
    r := SubmitStep(a, 0, i);
    ReachesSubmit(s, a, i);
  }

  lemma RoomFound(s: Sys, i: Admission.Input, x: Pooled, next: Admission.Then) returns (r: Sys)
    requires s.submissions == [Admission.Choosing(x, next)] && NextStream(s.mem) == StreamA
    requires Load(s.mem.pools.a) < Cap(StreamA)
    ensures Reaches(s, r) && r == s.(submissions := [Admission.Routing(x, next)])
  {
    ReachesSelf(s);
    var a := SubmitStep(s, 0, i);
    ReachesSubmit(s, s, i);
    assert a == s.(submissions := [Admission.Sizing(StreamA, x, next)]);
    r := SubmitStep(a, 0, i);
    ReachesSubmit(s, a, i);
  }

  lemma RoutedAndPushed(s: Sys, i: Admission.Input, x: Pooled, next: Admission.Then) returns (r: Sys)
    requires s.submissions == [Admission.Routing(x, next)] && NextStream(s.mem) == StreamA
    ensures Reaches(s, r) && r.workers == s.workers && r.mem.inFlight == s.mem.inFlight
    ensures r.mem.pools.a == Pool(s.mem.pools.a.txs + [x], s.mem.pools.a.size)
  {
    ReachesSelf(s);
    var a := SubmitStep(s, 0, i);
    ReachesSubmit(s, s, i);
    assert a.submissions == [Admission.Pushing(StreamA, x, next)];
    r := SubmitStep(a, 0, i);
    ReachesSubmit(s, a, i);
  }

  function Uncounted(stale: Pooled): Sys {
    System([Worker(StreamA, Idle)], [Admission.Off], Streams(Pool([stale], 1), EMPTY, EMPTY))
  }

  /** A drain that drops an expired entry and claims an uncounted one takes the counter below zero. */
  lemma DrainBelowZero(s: Sys, stale: Pooled, x: Pooled, now: nat) returns (r: Sys)
    requires s.workers == [Worker(StreamA, Idle)] && s.mem.pools.a == Pool([stale, x], 1)
    requires s.mem.inFlight == {} && IsExpired(stale, now) && !IsExpired(x, now) && stale.tx.fee >= x.tx.fee
    ensures Reaches(s, r) && r.mem.pools.a == Pool([], -1)
  {
    var a := StartStep(LookStep(s, 0, now), 0, [stale, x]);
    ReachesStart(s, 0, [stale, x], now);
    assert a.workers == [Worker(StreamA, Draining(1, now, []))] && a.mem.pools.a == Pool([stale, x], 1);
    r := TwoPops(a, stale, x, now);
    ReachesThen(s, a, r);
  }

  lemma TwoPops(s: Sys, stale: Pooled, x: Pooled, now: nat) returns (r: Sys)
    requires s.workers == [Worker(StreamA, Draining(1, now, []))] && s.mem.pools.a == Pool([stale, x], 1)
    requires IsExpired(stale, now)
    ensures Reaches(s, r) && r.mem.pools.a == Pool([], -1)
  {
    assert SwapRemove([stale, x], 0) == [x] && SwapRemove([x], 0) == [];
    ReachesSelf(s);
    var a := ClaimStep(s, 0);
    ReachesClaim(s, s, 0);
    assert a.mem.pools.a == Pool([x], 0) && a.workers == s.workers;
    r := ClaimStep(a, 0);
    ReachesClaim(s, a, 0);
  }

  /**
   * A push not yet counted, taken by a drain that first drops an expired entry paying no less: the counter goes
   * below zero, and a load of it yields 2^64 - 1.
   */
  lemma UnderflowRun(stale: Pooled, i: Admission.Input) returns (r: Sys)
    requires IsExpired(stale, i.now) && Admission.Ready(i) && stale.tx.fee >= i.tx.fee
    ensures Initial(Uncounted(stale)) && Reaches(Uncounted(stale), r)
    ensures r.mem.pools.a == Pool([], -1) && Load(r.mem.pools.a) == TWO_64 - 1
  {
    var s, x := Uncounted(stale), Pooled(i.tx, i.now);
    var a := PushedUncounted(s, i);
    assert [stale] + [x] == [stale, x];
    r := DrainBelowZero(a, stale, x, i.now);
    ReachesThen(s, a, r);
  }

  // ---------------------------------------------------------------- a wipe

  /** One claim that finds the set full to its limit but not over it, and then one that wipes it. */
  lemma TwoClaims(s: Sys, v: nat, x: Pooled, y: Pooled, now: nat) returns (r: Sys)
    requires v < |s.workers| && s.workers[v].phase == Draining(2, now, [])
    requires Of(s.mem.pools, s.workers[v].stream).txs == [x, y] && !IsExpired(x, now) && !IsExpired(y, now)
    requires |s.mem.inFlight| == IN_FLIGHT_LIMIT && x.tx.hash !in s.mem.inFlight
    ensures Reaches(s, r) && Held(r) == Held(s) + multiset{x.tx.hash} + multiset{y.tx.hash}
  {
    ReachesSelf(s);
    var a := ClaimStep(s, v);
    ReachesClaim(s, s, v);
    FirstClaim(s, v, x, y, now);
    r := ClaimStep(a, v);
    ReachesClaim(s, a, v);
    ClaimHeld(a, v);
  }

  lemma FirstClaim(s: Sys, v: nat, x: Pooled, y: Pooled, now: nat)
    requires v < |s.workers| && s.workers[v].phase == Draining(2, now, [])
    requires Of(s.mem.pools, s.workers[v].stream).txs == [x, y] && !IsExpired(x, now)
    requires |s.mem.inFlight| == IN_FLIGHT_LIMIT && x.tx.hash !in s.mem.inFlight
    ensures var a := ClaimStep(s, v);
            && |a.workers| == |s.workers| && a.workers[v] == Worker(s.workers[v].stream, Draining(2, now, [x]))
            && Of(a.mem.pools, s.workers[v].stream).txs == [y] && |a.mem.inFlight| == IN_FLIGHT_LIMIT + 1
            && Held(a) == Held(s) + multiset{x.tx.hash}
  {
    var a := ClaimStep(s, v);
    FirstClaimed(s, v, x, y, now);
    GainHeld(s, a, v, Draining(2, now, [x]), x);
  }

  lemma FirstClaimed(s: Sys, v: nat, x: Pooled, y: Pooled, now: nat)
    requires v < |s.workers| && s.workers[v].phase == Draining(2, now, [])
    requires Of(s.mem.pools, s.workers[v].stream).txs == [x, y] && !IsExpired(x, now)
    requires |s.mem.inFlight| == IN_FLIGHT_LIMIT && x.tx.hash !in s.mem.inFlight
    ensures var a := ClaimStep(s, v);
            && a.workers == Turn(s, v, Draining(2, now, [x])).workers && a.queue == s.queue && a.proc == s.proc
            && Of(a.mem.pools, s.workers[v].stream).txs == [y] && |a.mem.inFlight| == IN_FLIGHT_LIMIT + 1
  {
    assert [] + [x] == [x] && SwapRemove([x, y], 0) == [y];
  }

  lemma StartStepIs(s: Sys, v: nat, now: nat)
    requires v < |s.workers| && Counted(Of(s.mem.pools, s.workers[v].stream))
    requires |Of(s.mem.pools, s.workers[v].stream).txs| < TWO_64
    ensures var t := s.workers[v].stream;
            var p := Of(s.mem.pools, t);
            StartStep(LookStep(s, v, now), v, p.txs) == Turn(s, v, Draining(Min(|p.txs|, BlockLimit(t)), now, []))
  {
    var t := s.workers[v].stream;
    var p := Of(s.mem.pools, t);
    assert With(s.mem.pools, t, Pool(p.txs, p.size)) == s.mem.pools;
    assert LookStep(s, v, now) == Turn(s, v, Looking(Min(|p.txs|, BlockLimit(t)), now));
  }

  lemma Started(s: Sys, v: nat, now: nat) returns (r: Sys)
    requires v < |s.workers| && s.workers[v].phase == Idle && Counted(Of(s.mem.pools, s.workers[v].stream))
    requires |Of(s.mem.pools, s.workers[v].stream).txs| < TWO_64 && Descending(Of(s.mem.pools, s.workers[v].stream).txs)
    ensures var t := s.workers[v].stream;
            Reaches(s, r) && r == Turn(s, v, Draining(Min(|Of(s.mem.pools, t).txs|, BlockLimit(t)), now, []))
  {
    var txs := Of(s.mem.pools, s.workers[v].stream).txs;
    ReachesStart(s, v, txs, now);
    StartStepIs(s, v, now);
    r := StartStep(LookStep(s, v, now), v, txs);
  }

  lemma StartedHeld(s: Sys, v: nat, phase: Phase)
    requires v < |s.workers| && s.workers[v].phase == Idle && PhaseTxs(phase) == []
    ensures Held(Turn(s, v, phase)) == Held(s)
  {
    TurnHeld(s, Turn(s, v, phase), v, phase);
    SameRest(Held(Turn(s, v, phase)), Held(s), Hashes([]));
  }

  /**
   * Whenever the set stands at its limit, an idle worker with a new transaction in its pool, and one somebody else
   * holds that pays no more, can put the second into its own block too.
   */
  lemma WipeDoubles(s: Sys, v: nat, x: Pooled, y: Pooled, now: nat) returns (r: Sys)
    requires v < |s.workers| && s.workers[v].phase == Idle
    requires Of(s.mem.pools, s.workers[v].stream) == Pool([x, y], 2) && !IsExpired(x, now) && !IsExpired(y, now)
    requires |s.mem.inFlight| == IN_FLIGHT_LIMIT && x.tx.hash !in s.mem.inFlight && y.tx.hash in Held(s)
    requires x.tx.fee >= y.tx.fee
    ensures Reaches(s, r) && Held(r)[y.tx.hash] >= 2
  {
    var a := Started(s, v, now);
    StartedHeld(s, v, Draining(2, now, []));
    assert a == Turn(s, v, Draining(2, now, []));
    r := TwoClaims(a, v, x, y, now);
    ReachesThen(s, a, r);
  }

  /** Distinct hashes for small numbers. */
  function Tag(n: nat): Hash {
    Header.LittleEndian(n, 2) + seq(30, _ => 0)
  }

  lemma TagInjective(a: nat, b: nat)
    requires a < 65536 && b < 65536 && Tag(a) == Tag(b)
    ensures a == b
  {
    assert Tag(a)[..2] == Header.LittleEndian(a, 2) && Tag(b)[..2] == Header.LittleEndian(b, 2);
    assert Header.Pow256(2) == 65536 by { assert Header.Pow256(1) == 256; }
    Header.LittleEndianInjective(a, b, 2);
  }

  function Ticket(n: nat): Pooled {
    Pooled(Transaction(Tag(n), 0, 0, 0, 0, None, None), 0)
  }

  function Crowd(): (c: seq<Pooled>)
    ensures |c| == IN_FLIGHT_LIMIT && forall i | 0 <= i < |c| :: c[i] == Ticket(i)
  {
    seq(IN_FLIGHT_LIMIT, i requires 0 <= i => Ticket(i))
  }

  /** Stream A's pool fills the set to its limit; stream B's holds one more transaction and one that A also has. */
  function Crowded(): Sys {
    System([Worker(StreamA, Idle), Worker(StreamB, Idle)], [],
           Streams(Pool(Crowd(), IN_FLIGHT_LIMIT), Pool([Ticket(IN_FLIGHT_LIMIT), Ticket(0)], 2), EMPTY))
  }

  lemma CrowdClaimable(d: Drain)
    requires d.pool.txs == Crowd() && d.inFlight == {} && d.claimed == []
    ensures AllClaimable(d, IN_FLIGHT_LIMIT, 0)
  {
    forall i, j | 0 <= i < j < |d.pool.txs|
      ensures d.pool.txs[i].tx.hash != d.pool.txs[j].tx.hash
    {
      if Tag(i) == Tag(j) {
        TagInjective(i, j);
      }
    }
  }

  /** Draining the crowd claims all of it, and fills the set exactly to its limit. */
  lemma CrowdDrained(d: Drain)
    requires d.pool == Pool(Crowd(), IN_FLIGHT_LIMIT) && d.inFlight == {}
    requires d.claimed == [] && d.expired == [] && d.skipped == []
    ensures var e := DrainAll(d, IN_FLIGHT_LIMIT, 0);
            && multiset(e.claimed) == multiset(Crowd()) && |e.inFlight| == IN_FLIGHT_LIMIT
            && (forall h :: h in e.inFlight <==> h in HashesOf(e.claimed))
  {
    CrowdClaimable(d);
    DrainClaimsAll(d, IN_FLIGHT_LIMIT, 0);
    DrainClaims({}, d, IN_FLIGHT_LIMIT, 0);
    DrainPartition(Crowd(), d, IN_FLIGHT_LIMIT, 0);
    var e := DrainAll(d, IN_FLIGHT_LIMIT, 0);
    assert e.pool.txs == [] && multiset(e.expired) == multiset{} && multiset(e.skipped) == multiset{};
  }

  lemma CrowdHolds(xs: seq<Pooled>)
    requires multiset(xs) == multiset(Crowd())
    ensures Tag(0) in Hashes(xs) && Tag(IN_FLIGHT_LIMIT) !in HashesOf(xs)
  {
    assert Crowd()[0] in multiset(xs);
    var j :| 0 <= j < |xs| && xs[j] == Ticket(0);
    assert HashesOf(xs)[j] == Tag(0);
    forall k | 0 <= k < |xs|
      ensures HashesOf(xs)[k] != Tag(IN_FLIGHT_LIMIT)
    {
      assert xs[k] in multiset(Crowd());
      var i :| 0 <= i < IN_FLIGHT_LIMIT && Crowd()[i] == xs[k];
      if Tag(i) == Tag(IN_FLIGHT_LIMIT) {
        TagInjective(i, IN_FLIGHT_LIMIT);
      }
    }
  }

  lemma CrowdStarts(a: Sys)
    requires a == Turn(Crowded(), 0, Draining(IN_FLIGHT_LIMIT, 0, []))
    ensures DrainAt(a, a.workers[0]) == StartDrain(Pool(Crowd(), IN_FLIGHT_LIMIT), {}, {})
  {
  }

  lemma CrowdHeld(a: Sys, r: Sys, e: Drain)
    requires a == Turn(Crowded(), 0, Draining(IN_FLIGHT_LIMIT, 0, [])) && Drained(a, r, 0, e)
    ensures |r.workers| == 2 && r.workers[1] == Worker(StreamB, Idle) && r.mem.pools.b == Crowded().mem.pools.b
    ensures PhaseTxs(r.workers[0].phase) == e.claimed && r.mem.inFlight == e.inFlight
  {
  }

  /** After stream A's drain: the set at its limit, A holding the crowd, B as it was. */
  lemma CrowdTaken() returns (r: Sys)
    ensures Reaches(Crowded(), r)
    ensures |r.workers| == 2 && r.workers[1] == Worker(StreamB, Idle) && r.mem.pools.b == Crowded().mem.pools.b
    ensures |r.mem.inFlight| == IN_FLIGHT_LIMIT && Tag(IN_FLIGHT_LIMIT) !in r.mem.inFlight && Tag(0) in Held(r)
  {
    var a := Started(Crowded(), 0, 0);
    assert a == Turn(Crowded(), 0, Draining(IN_FLIGHT_LIMIT, 0, []));
    CrowdStarts(a);
    r := ClaimsAddUp(a, 0);
    ReachesThen(Crowded(), a, r);
    var start := StartDrain(Pool(Crowd(), IN_FLIGHT_LIMIT), {}, {});
    CrowdHeld(a, r, DrainAll(start, IN_FLIGHT_LIMIT, 0));
    CrowdDrained(start);
    HeldByFirst(r);
  }

  lemma HeldByFirst(r: Sys)
    requires |r.workers| > 0 && multiset(PhaseTxs(r.workers[0].phase)) == multiset(Crowd())
    ensures Tag(0) in Held(r) && Tag(IN_FLIGHT_LIMIT) !in HashesOf(PhaseTxs(r.workers[0].phase))
  {
    CrowdHolds(PhaseTxs(r.workers[0].phase));
    TotalHas(WorkerShares(r.workers), 0);
  }

  /** A fresh system with the two pools above has a run that puts one transaction into both streams' blocks. */
  lemma WipeRun() returns (r: Sys)
    ensures Initial(Crowded()) && Reaches(Crowded(), r) && Held(r)[Tag(0)] >= 2
  {
    var a := CrowdTaken();
    r := WipeDoubles(a, 1, Ticket(IN_FLIGHT_LIMIT), Ticket(0), 0);
    ReachesThen(Crowded(), a, r);
  }
}
