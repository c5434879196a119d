/**
 * A stream's transaction pool and the loop that drains it into a candidate block.
 */
module Pools {
  import opened Types
  import opened Fees
  import opened Holdings

  const NANOS: nat := 1_000_000_000
  const TX_TTL_SECS: nat := 600
  const IN_FLIGHT_LIMIT: nat := 10_000

  datatype Pooled = Pooled(tx: Transaction, submittedAt: nat)

  /** A pool with the atomic counter kept beside it; `size` is the counter before wrapping. */
  datatype Pool = Pool(txs: seq<Pooled>, size: int)

  predicate Counted(p: Pool) {
    p.size == |p.txs|
  }

  /** What an atomic load of the counter yields: 64 bits, wrapping. */
  function Load(p: Pool): nat {
    p.size % TWO_64
  }

  /** Age in whole seconds; clocks count nanoseconds. */
  function Age(now: nat, p: Pooled): nat {
    SaturatingSub(now, p.submittedAt) / NANOS
  }

  predicate IsExpired(p: Pooled, now: nat) {
    Age(now, p) > TX_TTL_SECS
  }

  /** An entry counts as expired from 601 whole seconds on. */
  lemma ExpiredExactly(p: Pooled, now: nat)
    ensures IsExpired(p, now) <==> now >= p.submittedAt + 601_000_000_000
  {
  }

  function Push(p: Pool, x: Pooled): Pool {
    Pool(p.txs + [x], p.size + 1)
  }

  // ---------------------------------------------------------------- removal

  /** Rust's swap_remove: the last element takes the place of the removed one. */
  function SwapRemove(s: seq<Pooled>, i: nat): (r: seq<Pooled>)
    requires i < |s|
    ensures |r| == |s| - 1
  {
    var n := |s| - 1;
    if i == n then s[..n] else s[..i] + [s[n]] + s[i + 1..n]
  }

  lemma SwapMultiset(a: seq<Pooled>, x: Pooled, b: seq<Pooled>, y: Pooled)
    ensures multiset(a + [x] + b + [y]) == multiset(a + [y] + b) + multiset{x}
  {
  }

  lemma SwapRemoveMultiset(s: seq<Pooled>, i: nat)
    requires i < |s|
    ensures multiset(s) == multiset(SwapRemove(s, i)) + multiset{s[i]}
  {
    var n := |s| - 1;
    if i == n {
      assert s == s[..n] + [s[n]];
    } else {
      assert s == s[..i] + [s[i]] + s[i + 1..n] + [s[n]];
      SwapMultiset(s[..i], s[i], s[i + 1..n], s[n]);
    }
  }

  function Retained(s: seq<Pooled>, keep: Pooled -> bool): (r: seq<Pooled>)
    ensures |r| <= |s|
  {
    if s == [] then []
    else Retained(s[..|s| - 1], keep) + if keep(s[|s| - 1]) then [s[|s| - 1]] else []
  }

  /** Retaining keeps every copy of what it keeps, and nothing else. */
  lemma {:induction false} RetainedExact(s: seq<Pooled>, keep: Pooled -> bool, x: Pooled)
    ensures multiset(Retained(s, keep))[x] == if keep(x) then multiset(s)[x] else 0
  {
    if s != [] {
      RetainedExact(s[..|s| - 1], keep, x);
      assert s == s[..|s| - 1] + [s[|s| - 1]];
    }
  }

  lemma RetainedMembers(s: seq<Pooled>, keep: Pooled -> bool)
    ensures forall i | 0 <= i < |Retained(s, keep)| :: keep(Retained(s, keep)[i]) && Retained(s, keep)[i] in s
  {
    var r := Retained(s, keep);
    forall i | 0 <= i < |r|
      ensures keep(r[i]) && r[i] in s
    {
      RetainedExact(s, keep, r[i]);
      assert r[i] in multiset(r);
      assert multiset(r)[r[i]] > 0;
      assert r[i] in multiset(s);
    }
  }

  /** Retaining works entry by entry and keeps their order. */
  lemma {:induction false} RetainedJoin(a: seq<Pooled>, b: seq<Pooled>, keep: Pooled -> bool)
    ensures Retained(a + b, keep) == Retained(a, keep) + Retained(b, keep)
  {
    if b == [] {
      assert a + b == a;
      assert Retained(a, keep) + [] == Retained(a, keep);
    } else {
      var n := |b| - 1;
      var last := if keep(b[n]) then [b[n]] else [];
      RetainedJoin(a, b[..n], keep);
      assert (a + b)[..|a| + n] == a + b[..n] && (a + b)[|a| + n] == b[n];
      assert (Retained(a, keep) + Retained(b[..n], keep)) + last == Retained(a, keep) + (Retained(b[..n], keep) + last);
    }
  }

  function Retain(p: Pool, keep: Pooled -> bool): Pool {
    var kept := Retained(p.txs, keep);
    Pool(kept, p.size - (|p.txs| - |kept|))
  }

  // ---------------------------------------------------------------- draining

  /** One worker's drain under way: its pool, the two shared hash sets, and what became of each popped entry. */
  datatype Drain = Drain(
    pool: Pool,
    inFlight: set<Hash>,
    members: set<Hash>,
    claimed: seq<Pooled>,
    expired: seq<Pooled>,
    skipped: seq<Pooled>)

  function StartDrain(pool: Pool, inFlight: set<Hash>, members: set<Hash>): Drain {
    Drain(pool, inFlight, members, [], [], [])
  }

  /** The in-flight set as a claim finds it: emptied first when it has outgrown its limit. */
  function Flying(inFlight: set<Hash>): set<Hash> {
    if |inFlight| > IN_FLIGHT_LIMIT then {} else inFlight
  }

  /** One turn of the drain loop. */
  function Pop(d: Drain, now: nat): Drain
    requires d.pool.txs != []
  {
    var p := d.pool.txs[0];
    var h := p.tx.hash;
    var next := d.(pool := Pool(SwapRemove(d.pool.txs, 0), d.pool.size - 1), members := d.members - {h});
    if IsExpired(p, now) then next.(expired := d.expired + [p])
    else
      var flying := Flying(d.inFlight);
      if h in flying then next.(inFlight := flying, skipped := d.skipped + [p])
      else next.(inFlight := flying + {h}, claimed := d.claimed + [p])
  }

  function DrainAll(d: Drain, count: nat, now: nat): Drain
    decreases |d.pool.txs|
  {
    if |d.claimed| < count && d.pool.txs != [] then DrainAll(Pop(d, now), count, now) else d
  }

  /** Everything popped so far. */
  function Popped(d: Drain): seq<Pooled> {
    d.claimed + d.expired + d.skipped
  }

  /** The entries are, copy for copy, what was claimed, expired or skipped, and what is left. */
  ghost predicate Split(txs: seq<Pooled>, d: Drain) {
    multiset(txs) == multiset(Popped(d)) + multiset(d.pool.txs)
  }

  lemma PoppedMultiset(d: Drain)
    ensures multiset(Popped(d)) == multiset(d.claimed) + multiset(d.expired) + multiset(d.skipped)
  {
  }

  lemma PopSplits(txs: seq<Pooled>, d: Drain, now: nat)
    requires Split(txs, d) && d.pool.txs != []
    ensures Split(txs, Pop(d, now))
  {
    SwapRemoveMultiset(d.pool.txs, 0);
    PopTakes(d, now);
    MoveOne(multiset(Popped(d)), multiset(SwapRemove(d.pool.txs, 0)), multiset{d.pool.txs[0]});
  }

  lemma MoveOne(a: multiset<Pooled>, b: multiset<Pooled>, x: multiset<Pooled>)
    ensures a + (b + x) == (a + x) + b
  {
  }

  /** Whichever list it goes to, the head is one more entry popped. */
  lemma PopTakes(d: Drain, now: nat)
    requires d.pool.txs != []
    ensures multiset(Popped(Pop(d, now))) == multiset(Popped(d)) + multiset{d.pool.txs[0]}
  {
    PoppedMultiset(d);
    PoppedMultiset(Pop(d, now));
  }

  /** Each popped entry went where its age sent it. */
  ghost predicate Aged(d: Drain, now: nat) {
    && (forall i | 0 <= i < |d.claimed| :: !IsExpired(d.claimed[i], now))
    && (forall i | 0 <= i < |d.skipped| :: !IsExpired(d.skipped[i], now))
    && (forall i | 0 <= i < |d.expired| :: IsExpired(d.expired[i], now))
  }

  lemma PopAged(d: Drain, now: nat)
    requires Aged(d, now) && d.pool.txs != []
    ensures Aged(Pop(d, now), now)
  {
  }

  lemma {:induction false} DrainKeeps(txs: seq<Pooled>, d: Drain, count: nat, now: nat)
    requires Split(txs, d) && Aged(d, now) && Counted(d.pool) && |d.claimed| <= count
    ensures var e := DrainAll(d, count, now);
            && Split(txs, e) && Aged(e, now) && Counted(e.pool) && |e.claimed| <= count
            && (|e.claimed| == count || e.pool.txs == [])
    decreases |d.pool.txs|
  {
    if |d.claimed| < count && d.pool.txs != [] {
      PopSplits(txs, d, now);
      PopAged(d, now);
      DrainKeeps(txs, Pop(d, now), count, now);
    }
  }

  /**
   * A drain partitions the pool, as a multiset, into claimed, expired, already in flight and left over;
   * the counter goes down by exactly what was popped; at most `count` entries are claimed, and fewer
   * only when the pool ran dry.
   */
  lemma DrainPartition(txs: seq<Pooled>, d: Drain, count: nat, now: nat)
    requires Split(txs, d) && Aged(d, now) && Counted(d.pool) && |d.claimed| <= count
    ensures var e := DrainAll(d, count, now);
            && multiset(txs) == multiset(e.claimed) + multiset(e.expired) + multiset(e.skipped) + multiset(e.pool.txs)
            && Aged(e, now) && Counted(e.pool) && |e.claimed| <= count
            && (|e.claimed| == count || e.pool.txs == [])
  {
    DrainKeeps(txs, d, count, now);
    PoppedMultiset(DrainAll(d, count, now));
  }

  ghost function PoppedHashes(d: Drain): set<Hash> {
    set x | x in Popped(d) :: x.tx.hash
  }

  lemma PopHashes(d: Drain, now: nat)
    requires d.pool.txs != []
    ensures PoppedHashes(Pop(d, now)) == PoppedHashes(d) + {d.pool.txs[0].tx.hash}
  {
    var e, p := Pop(d, now), d.pool.txs[0];
    assert p in Popped(e);
    assert forall x :: x in Popped(e) <==> x in Popped(d) || x == p;
  }

  /** Whatever becomes of it, a popped entry's hash leaves the membership set, and no other hash does. */
  lemma {:induction false} DrainForgets(before: set<Hash>, d: Drain, count: nat, now: nat)
    requires d.members == before - PoppedHashes(d)
    ensures var e := DrainAll(d, count, now);
            e.members == before - PoppedHashes(e)
    decreases |d.pool.txs|
  {
    if |d.claimed| < count && d.pool.txs != [] {
      PopHashes(d, now);
      DrainForgets(before, Pop(d, now), count, now);
    }
  }

  // ---------------------------------------------------------------- claims

  function HashesOf(s: seq<Pooled>): (hs: seq<Hash>)
    ensures |hs| == |s| && forall i | 0 <= i < |s| :: hs[i] == s[i].tx.hash
  {
    seq(|s|, i requires 0 <= i < |s| => s[i].tx.hash)
  }

  ghost predicate Distinct(hs: seq<Hash>) {
    forall i, j | 0 <= i < j < |hs| :: hs[i] != hs[j]
  }

  /** The claims made so far are new to the set they were added to, and nothing else was added. */
  ghost predicate Claims(before: set<Hash>, d: Drain) {
    && Distinct(HashesOf(d.claimed))
    && (forall i | 0 <= i < |d.claimed| :: d.claimed[i].tx.hash !in before)
    && (forall h :: h in d.inFlight <==> h in before || h in HashesOf(d.claimed))
    && (forall i | 0 <= i < |d.skipped| :: d.skipped[i].tx.hash in d.inFlight)
    && |d.inFlight| == |before| + |d.claimed|
  }

  lemma PopClaims(before: set<Hash>, d: Drain, now: nat)
    requires Claims(before, d) && d.pool.txs != [] && |d.inFlight| <= IN_FLIGHT_LIMIT
    ensures Claims(before, Pop(d, now))
  {
    var e := Pop(d, now);
    var p := d.pool.txs[0];
    if e.claimed != d.claimed {
      assert HashesOf(e.claimed) == HashesOf(d.claimed) + [p.tx.hash];
    }
  }

  /**
   * While the in-flight set has room for the whole drain, the claimed hashes are distinct, new to the
   * set, and are exactly what is added to it; every skipped entry was already there.
   */
  lemma {:induction false} DrainClaims(before: set<Hash>, d: Drain, count: nat, now: nat)
    requires Claims(before, d) && |before| + count <= IN_FLIGHT_LIMIT + 1
    ensures Claims(before, DrainAll(d, count, now))
    decreases |d.pool.txs|
  {
    if |d.claimed| < count && d.pool.txs != [] {
      PopClaims(before, d, now);
      DrainClaims(before, Pop(d, now), count, now);
    }
  }

  // ---------------------------------------------------------------- fee order

  predicate Descending(s: seq<Pooled>) {
    forall i, j | 0 <= i < j < |s| :: s[i].tx.fee >= s[j].tx.fee
  }

  /** What `m` removals from the front leave: first the head goes, then the last, then the one before it, and so on. */
  function Rest(s: seq<Pooled>, m: nat): (r: seq<Pooled>)
    requires m <= |s|
    ensures |r| == |s| - m
  {
    if m == 0 then s
    else if m == |s| then []
    else [s[|s| - m]] + s[1..|s| - m]
  }

  function Gone(s: seq<Pooled>, m: nat): seq<Pooled>
    requires m <= |s|
  {
    if m == 0 then [] else [s[0]] + s[|s| - m + 1..]
  }

  lemma GoneAndRest(s: seq<Pooled>, m: nat)
    requires m <= |s|
    ensures multiset(s) == multiset(Gone(s, m)) + multiset(Rest(s, m))
  {
    if 0 < m < |s| {
      var k := |s| - m;
      assert s == [s[0]] + s[1..k] + [s[k]] + s[k + 1..];
    } else if m == |s| && m > 0 {
      assert s == [s[0]] + s[1..];
    }
  }

  /** Taking the head puts the last entry in its place. */
  lemma SwapHead(x: Pooled, t: seq<Pooled>)
    requires t != []
    ensures SwapRemove([x] + t, 0) == [t[|t| - 1]] + t[..|t| - 1]
  {
    var s, n := [x] + t, |t|;
    assert s[n] == t[n - 1];
    assert s[1..n] == t[..n - 1];
    assert s[..0] == [];
  }

  lemma RestStep(s: seq<Pooled>, m: nat)
    requires m < |s|
    ensures SwapRemove(Rest(s, m), 0) == Rest(s, m + 1)
  {
    var k := |s| - m;
    if k > 1 {
      var x, t := if m == 0 then s[0] else s[k], s[1..k];
      assert Rest(s, m) == [x] + t;
      SwapHead(x, t);
      assert t[k - 2] == s[k - 1];
      assert t[..k - 2] == s[1..k - 1];
    }
  }

  lemma {:induction false} DrainRest(s: seq<Pooled>, m: nat, d: Drain, count: nat, now: nat) returns (k: nat)
    requires m <= |s| && d.pool.txs == Rest(s, m)
    ensures m <= k <= |s| && DrainAll(d, count, now).pool.txs == Rest(s, k)
    decreases |s| - m
  {
    k := m;
    if |d.claimed| < count && d.pool.txs != [] {
      RestStep(s, m);
      k := DrainRest(s, m + 1, Pop(d, now), count, now);
    }
  }

  ghost predicate HighestFirst(popped: seq<Pooled>, left: seq<Pooled>) {
    forall x, y | x in popped && y in left :: x.tx.fee >= y.tx.fee
  }

  lemma LastBeforeSecond(s: seq<Pooled>, m: nat)
    requires 1 < m < |s|
    ensures s[|s| - 1] in Gone(s, m) && s[1] in Rest(s, m)
  {
    assert Gone(s, m)[m - 1] == s[|s| - 1];
    assert Rest(s, m)[if m == |s| - 1 then 0 else 1] == s[1];
  }

  lemma AlikeHighest(s: seq<Pooled>, m: nat)
    requires Descending(s) && m <= |s|
    requires m <= 1 || m == |s| || s[1].tx.fee == s[|s| - 1].tx.fee
    ensures HighestFirst(Gone(s, m), Rest(s, m))
  {
    var g, r := Gone(s, m), Rest(s, m);
    forall i, j | 0 <= i < |g| && 0 <= j < |r|
      ensures g[i].tx.fee >= r[j].tx.fee
    {
      assert i > 0 ==> g[i] == s[|s| - m + i];
      assert r[j] == s[if j == 0 then |s| - m else j];
    }
  }

  lemma GoneHighest(s: seq<Pooled>, m: nat)
    requires Descending(s) && m <= |s|
    ensures HighestFirst(Gone(s, m), Rest(s, m)) <==> m <= 1 || m == |s| || s[1].tx.fee == s[|s| - 1].tx.fee
  {
    if m <= 1 || m == |s| || s[1].tx.fee == s[|s| - 1].tx.fee {
      AlikeHighest(s, m);
    } else {
      LastBeforeSecond(s, m);
    }
  }

  /**
   * The pool is sorted by falling fee before the drain, yet what is popped is the best-paying part of it
   * exactly when at most one entry or the whole pool is popped, or all entries after the first pay alike:
   * the second entry popped is the worst-paying one.
   */
  lemma DrainTakesHighestExactly(pool: Pool, inFlight: set<Hash>, members: set<Hash>, count: nat, now: nat)
    requires Descending(pool.txs) && Counted(pool)
    ensures var e := DrainAll(StartDrain(pool, inFlight, members), count, now);
            var s, m := pool.txs, |pool.txs| - |e.pool.txs|;
            0 <= m && (HighestFirst(Popped(e), e.pool.txs) <==> m <= 1 || m == |s| || s[1].tx.fee == s[|s| - 1].tx.fee)
  {
    var e := DrainAll(StartDrain(pool, inFlight, members), count, now);
    var m := PoppedIsGone(pool, inFlight, members, count, now);
    SameMembers(Popped(e), Gone(pool.txs, m));
    GoneHighest(pool.txs, m);
  }

  /** What a drain pops is, copy for copy, the head and the entries from the end. */
  lemma PoppedIsGone(pool: Pool, inFlight: set<Hash>, members: set<Hash>, count: nat, now: nat) returns (m: nat)
    requires Counted(pool)
    ensures var e := DrainAll(StartDrain(pool, inFlight, members), count, now);
            m <= |pool.txs| && e.pool.txs == Rest(pool.txs, m) && multiset(Popped(e)) == multiset(Gone(pool.txs, m))
  {
    var s, d := pool.txs, StartDrain(pool, inFlight, members);
    var e := DrainAll(d, count, now);
    m := DrainRest(s, 0, d, count, now);
    DrainKeeps(s, d, count, now);
    GoneAndRest(s, m);
    SameRest(multiset(Popped(e)), multiset(Gone(s, m)), multiset(e.pool.txs));
  }

  lemma SameMembers(a: seq<Pooled>, b: seq<Pooled>)
    requires multiset(a) == multiset(b)
    ensures forall x :: x in a <==> x in b
  {
    assert forall x :: x in a <==> x in multiset(a);
  }

  /** Nothing to pass over: no entry is too old, already claimed, or twice in the pool, and the set has room. */
  ghost predicate AllClaimable(d: Drain, count: nat, now: nat) {
    && (forall i | 0 <= i < |d.pool.txs| :: !IsExpired(d.pool.txs[i], now) && d.pool.txs[i].tx.hash !in d.inFlight)
    && (forall i, j | 0 <= i < j < |d.pool.txs| :: d.pool.txs[i].tx.hash != d.pool.txs[j].tx.hash)
    && |d.inFlight| + count <= IN_FLIGHT_LIMIT + 1 + |d.claimed|
  }

  lemma PopClaimable(d: Drain, count: nat, now: nat)
    requires AllClaimable(d, count, now) && d.pool.txs != [] && |d.claimed| < count
    ensures AllClaimable(Pop(d, now), count, now) && Pop(d, now).claimed == d.claimed + [d.pool.txs[0]]
  {
    var t, r := d.pool.txs, SwapRemove(d.pool.txs, 0);
    assert forall i | 0 <= i < |r| :: r[i] == if i == 0 then t[|t| - 1] else t[i];
  }

  /** Then a drain pops exactly what it claims: as many entries as asked for, or all of them. */
  lemma {:induction false} DrainClaimsAll(d: Drain, count: nat, now: nat)
    requires AllClaimable(d, count, now) && |d.claimed| <= count
    ensures var e := DrainAll(d, count, now);
            && |d.pool.txs| - |e.pool.txs| == |e.claimed| - |d.claimed| == Min(count - |d.claimed|, |d.pool.txs|)
            && e.expired == d.expired && e.skipped == d.skipped
    decreases |d.pool.txs|
  {
    if |d.claimed| < count && d.pool.txs != [] {
      PopClaimable(d, count, now);
      DrainClaimsAll(Pop(d, now), count, now);
    }
  }

  /**
   * Told beforehand: when every entry is claimable, a drain of `count` takes the best-paying entries exactly when it
   * asks for at most one or for the whole pool, or all entries after the first pay alike.
   */
  lemma DrainTakesHighestBeforehand(pool: Pool, inFlight: set<Hash>, members: set<Hash>, count: nat, now: nat)
    requires Descending(pool.txs) && Counted(pool) && AllClaimable(StartDrain(pool, inFlight, members), count, now)
    ensures var e := DrainAll(StartDrain(pool, inFlight, members), count, now);
            var s := pool.txs;
            HighestFirst(e.claimed, e.pool.txs) <==> count <= 1 || |s| <= count || s[1].tx.fee == s[|s| - 1].tx.fee
  {
    var d := StartDrain(pool, inFlight, members);
    DrainTakesHighestExactly(pool, inFlight, members, count, now);
    DrainClaimsAll(d, count, now);
    assert Popped(DrainAll(d, count, now)) == DrainAll(d, count, now).claimed;
  }

  function Paying(fee: nat, id: bv8): Pooled {
    Pooled(Transaction(seq(32, _ => id), 0, 0, fee, 0, None, None), 0)
  }

  /** Three transactions paying 3, 2 and 1, and a block with room for two: the one paying 2 is left behind. */
  lemma SecondBestLeftBehind()
    ensures var pool := Pool([Paying(3, 3), Paying(2, 2), Paying(1, 1)], 3);
            var e := DrainAll(StartDrain(pool, {}, {}), 2, 0);
            Descending(pool.txs) && !HighestFirst(e.claimed, e.pool.txs)
  {
    var pool := Pool([Paying(3, 3), Paying(2, 2), Paying(1, 1)], 3);
    forall i, j | 0 <= i < j < 3
      ensures pool.txs[i].tx.hash != pool.txs[j].tx.hash
    {
      assert pool.txs[i].tx.hash[0] != pool.txs[j].tx.hash[0];
    }
    DrainTakesHighestBeforehand(pool, {}, {}, 2, 0);
  }
}
