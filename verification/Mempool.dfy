/**
 * The node's transaction pools: one per stream, the legacy pool, the queues of future-nonce transactions,
 * and the two hash sets beside them (pool membership and in-flight).
 */
module Mempool {
  import opened Types
  import opened Fees
  import opened Pools

  const MAX_FUTURE_NONCE_GAP: nat := 16
  const MAX_FUTURE_TXS_PER_SENDER: nat := 16
  const FUTURE_TX_TTL_SECS: nat := 300

  datatype Streams = Streams(a: Pool, b: Pool, c: Pool)

  function Of(ps: Streams, s: Stream): Pool {
    match s
    case StreamA => ps.a
    case StreamB => ps.b
    case StreamC => ps.c
  }

  function With(ps: Streams, s: Stream, p: Pool): Streams {
    match s
    case StreamA => ps.(a := p)
    case StreamB => ps.(b := p)
    case StreamC => ps.(c := p)
  }

  /** One sender's transactions waiting for their nonce. */
  type Queue = map<nat, Pooled>

  datatype State = State(
    pools: Streams,
    legacy: Pool,
    inFlight: set<Hash>,
    members: set<Hash>,
    futures: map<nat, Queue>,
    turn: nat,
    single: bool)

  ghost predicate AllCounted(m: State) {
    Counted(m.pools.a) && Counted(m.pools.b) && Counted(m.pools.c) && Counted(m.legacy)
  }

  function Cap(s: Stream): nat {
    match s
    case StreamA => 60_000
    case StreamB => 30_000
    case StreamC => 10_000
  }

  function BlockLimit(s: Stream): nat {
    match s
    case StreamA => 10_000
    case StreamB => 5_000
    case StreamC => 1_000
  }

  // ---------------------------------------------------------------- adding

  /** The first entry with the smallest fee. */
  function Lowest(txs: seq<Pooled>): (i: nat)
    requires txs != []
    ensures i < |txs| && forall j | 0 <= j < |txs| :: txs[i].tx.fee <= txs[j].tx.fee
    ensures forall j | 0 <= j < i :: txs[i].tx.fee < txs[j].tx.fee
  {
    var n := |txs| - 1;
    if n == 0 then 0
    else
      var i := Lowest(txs[..n]);
      if txs[n].tx.fee < txs[i].tx.fee then n else i
  }

  predicate Evicts(txs: seq<Pooled>, fee: nat) {
    txs != [] && fee > txs[Lowest(txs)].tx.fee
  }

  function EvictLowest(m: State, s: Stream, fee: nat): State {
    var p := Of(m.pools, s);
    if !Evicts(p.txs, fee) then m
    else
      var i := Lowest(p.txs);
      m.(pools := With(m.pools, s, Pool(SwapRemove(p.txs, i), p.size - 1)), members := m.members - {p.txs[i].tx.hash})
  }

  /** One entry went, and it was among those that pay least. */
  ghost predicate LowestGone(before: seq<Pooled>, after: seq<Pooled>, y: Pooled) {
    multiset(before) == multiset(after) + multiset{y} && forall i | 0 <= i < |before| :: y.tx.fee <= before[i].tx.fee
  }

  lemma LowestOut(txs: seq<Pooled>)
    requires txs != []
    ensures LowestGone(txs, SwapRemove(txs, Lowest(txs)), txs[Lowest(txs)])
  {
    SwapRemoveMultiset(txs, Lowest(txs));
  }

  /**
   * For a newcomer that pays more than some entry, an eviction takes out one entry and no other: one that pays least,
   * and with it its counter and its hash.
   */
  lemma EvictionExact(m: State, s: Stream, fee: nat, i: nat) returns (y: Pooled)
    requires i < |Of(m.pools, s).txs| && Of(m.pools, s).txs[i].tx.fee < fee
    ensures var before, r := Of(m.pools, s), EvictLowest(m, s, fee);
            var after := Of(r.pools, s);
            && LowestGone(before.txs, after.txs, y) && y.tx.fee < fee && after.size == before.size - 1
            && r == m.(pools := With(m.pools, s, after), members := m.members - {y.tx.hash})
  {
    var txs := Of(m.pools, s).txs;
    y := txs[Lowest(txs)];
    LowestOut(txs);
  }

  /** For one that pays no more than any entry, nothing is evicted. */
  lemma NoEviction(m: State, s: Stream, fee: nat)
    requires forall i | 0 <= i < |Of(m.pools, s).txs| :: fee <= Of(m.pools, s).txs[i].tx.fee
    ensures EvictLowest(m, s, fee) == m
  {
  }

  function NextStream(m: State): Stream {
    if m.single || m.turn % 3 == 0 then StreamA else if m.turn % 3 == 1 then StreamB else StreamC
  }

  function AddToPool(m: State, x: Pooled): State {
    var s := NextStream(m);
    var r := if Load(Of(m.pools, s)) >= Cap(s) then EvictLowest(m, s, x.tx.fee) else m;
    r.(pools := With(r.pools, s, Push(Of(r.pools, s), x)), turn := if m.single then m.turn else (m.turn + 1) % TWO_64)
  }

  /**
   * The per-stream cap: a pool is within it after an addition exactly when it was below it before, or sat on it
   * and the newcomer out-bid some entry. A pool past its cap never comes back by adding.
   */
  lemma CapKeptExactly(m: State, x: Pooled)
    requires AllCounted(m) && |Of(m.pools, NextStream(m)).txs| < TWO_64
    ensures var s, before := NextStream(m), Of(m.pools, NextStream(m)).txs;
            var cap := match s case StreamA => 60_000 case StreamB => 30_000 case StreamC => 10_000;
            && (|Of(AddToPool(m, x).pools, s).txs| <= cap <==>
                || |before| < cap
                || (|before| == cap && exists i | 0 <= i < |before| :: before[i].tx.fee < x.tx.fee))
            && (forall t | t != s :: Of(AddToPool(m, x).pools, t) == Of(m.pools, t))
  {
    var before := Of(m.pools, NextStream(m)).txs;
    if before != [] {
      assert before[Lowest(before)] in before;
    }
  }

  function NextOf(s: Stream): Stream {
    match s
    case StreamA => StreamB
    case StreamB => StreamC
    case StreamC => StreamA
  }

  /** The pool whose turn it was is full, and some entry in it pays less than the newcomer. */
  ghost predicate Outbid(m: State, x: Pooled) {
    var p := Of(m.pools, NextStream(m));
    Load(p) >= Cap(NextStream(m)) && exists i | 0 <= i < |p.txs| :: p.txs[i].tx.fee < x.tx.fee
  }

  /** The newcomer is the last entry of the pool whose turn it was; nothing else changed but what was evicted for it. */
  ghost predicate Added(m: State, r: State, x: Pooled, evicted: Option<Pooled>) {
    var s := NextStream(m);
    var p, q := Of(m.pools, s), Of(r.pools, s);
    && q.txs != [] && q.txs[|q.txs| - 1] == x
    && (evicted.None? ==> q.txs == p.txs + [x] && q.size == p.size + 1 && r.members == m.members)
    && (evicted.Some? ==>
          && LowestGone(p.txs, q.txs[..|q.txs| - 1], evicted.value) && evicted.value.tx.fee < x.tx.fee
          && q.size == p.size && r.members == m.members - {evicted.value.tx.hash})
    && r == m.(pools := With(m.pools, s, q), members := r.members, turn := r.turn)
  }

  lemma AdditionEvicts(m: State, x: Pooled)
    requires Outbid(m, x)
    ensures var txs := Of(m.pools, NextStream(m)).txs;
            Added(m, AddToPool(m, x), x, Some(txs[Lowest(txs)]))
  {
    var txs := Of(m.pools, NextStream(m)).txs;
    var rest := SwapRemove(txs, Lowest(txs));
    LowestOut(txs);
    assert Of(AddToPool(m, x).pools, NextStream(m)).txs == rest + [x];
    assert (rest + [x])[..|rest|] == rest;
  }

  lemma AdditionPlain(m: State, x: Pooled)
    requires !Outbid(m, x)
    ensures Added(m, AddToPool(m, x), x, None)
  {
    var s := NextStream(m);
    var txs := Of(m.pools, s).txs;
    if Load(Of(m.pools, s)) >= Cap(s) {
      NoEviction(m, s, x.tx.fee);
    }
    assert Of(AddToPool(m, x).pools, s).txs == txs + [x];
  }

  /** An addition pushes the newcomer to the pool whose turn it is, and evicts exactly if the newcomer out-bids. */
  lemma AdditionExact(m: State, x: Pooled) returns (evicted: Option<Pooled>)
    ensures Added(m, AddToPool(m, x), x, evicted) && (evicted.Some? <==> Outbid(m, x))
  {
    if Outbid(m, x) {
      AdditionEvicts(m, x);
      evicted := Some(Of(m.pools, NextStream(m)).txs[Lowest(Of(m.pools, NextStream(m)).txs)]);
    } else {
      AdditionPlain(m, x);
      evicted := None;
    }
  }

  /** Turns go round: after each addition the next stream's, unless there is only one or the 64-bit counter wraps. */
  lemma RotationExact(m: State, x: Pooled)
    requires m.turn < TWO_64
    ensures m.turn % 3 == 0 ==> NextStream(m) == StreamA
    ensures !m.single ==> (NextStream(AddToPool(m, x)) == NextOf(NextStream(m)) <==> m.turn != TWO_64 - 1)
    ensures m.single ==> NextStream(m) == StreamA && NextStream(AddToPool(m, x)) == StreamA
    ensures AddToPool(m, x).turn < TWO_64
  {
    assert AddToPool(m, x).turn == (if m.single then m.turn else (m.turn + 1) % TWO_64);
    if m.turn < TWO_64 - 1 {
      assert (m.turn + 1) % TWO_64 == m.turn + 1;
    }
  }

  // ---------------------------------------------------------------- promoting

  /** Moves the run of consecutive nonces starting at `nonce` out of one sender's queue into the pools. */
  function PromoteFrom(m: State, q: Queue, nonce: nat): (State, Queue)
    decreases q.Keys
  {
    if nonce in q then
      var x := q[nonce];
      assert nonce !in (q - {nonce}).Keys;
      PromoteFrom(AddToPool(m.(members := m.members - {x.tx.hash}), x), q - {nonce}, nonce + 1)
    else (m, q)
  }

  function StoreQueue(futures: map<nat, Queue>, sender: nat, q: Queue): map<nat, Queue> {
    if q == map[] then futures - {sender} else futures[sender := q]
  }

  function Promote(m: State, sender: nat, nonce: nat): State {
    if sender !in m.futures then m
    else
      var (r, q) := PromoteFrom(m, m.futures[sender], nonce);
      r.(futures := StoreQueue(m.futures, sender, q))
  }

  datatype Rejection = Duplicate | Underpriced | QueueFull | NonceQueued | NonceTooLow | NonceTooFar

  function QueueOf(m: State, sender: nat): Queue {
    if sender in m.futures then m.futures[sender] else map[]
  }

  /**
   * Admission of a transaction. The sender's nonce is read from the chain twice: when the transaction is
   * judged (`expected`) and when futures are promoted (`reread`).
   */
  function AddTransaction(m: State, tx: Transaction, now: nat, baseFee: nat, expected: nat, reread: nat)
    : (State, Result<(), Rejection>)
  {
    if tx.hash in m.members then (m, Err(Duplicate))
    else
      var entered := m.(members := m.members + {tx.hash});
      var back := entered.(members := entered.members - {tx.hash});
      var q := QueueOf(m, tx.sender);
      if !CanAfford(tx, baseFee) then (back, Err(Underpriced))
      else if tx.nonce == expected then
        (Promote(AddToPool(entered, Pooled(tx, now)), tx.sender, reread), Ok(()))
      else if expected < tx.nonce <= expected + MAX_FUTURE_NONCE_GAP then
        if |q| >= MAX_FUTURE_TXS_PER_SENDER then (back, Err(QueueFull))
        else if tx.nonce in q then (back, Err(NonceQueued))
        else (entered.(futures := m.futures[tx.sender := q[tx.nonce := Pooled(tx, now)]]), Ok(()))
      else if tx.nonce < expected then (back, Err(NonceTooLow))
      else (back, Err(NonceTooFar))
  }

  lemma RejectionChangesNothing(m: State, tx: Transaction, now: nat, baseFee: nat, expected: nat, reread: nat)
    ensures var (r, outcome) := AddTransaction(m, tx, now, baseFee, expected, reread);
            outcome.Err? ==> r == m
  {
    if tx.hash !in m.members {
      assert m.members + {tx.hash} - {tx.hash} == m.members;
    }
  }

  /** Room for a nonce ahead of the chain's: not too far, the queue not full, the place not taken. */
  predicate Waits(m: State, tx: Transaction, expected: nat) {
    && expected < tx.nonce <= expected + 16 && |QueueOf(m, tx.sender)| < 16
    && (tx.sender in m.futures ==> tx.nonce !in m.futures[tx.sender])
  }

  /** Which transactions are admitted, and which error names each other one. */
  lemma AdmissionDecided(m: State, tx: Transaction, now: nat, baseFee: nat, expected: nat, reread: nat)
    ensures var r := AddTransaction(m, tx, now, baseFee, expected, reread).1;
            var unseen, paying := tx.hash !in m.members, CanAfford(tx, baseFee);
            var near := expected < tx.nonce <= expected + 16;
            && (r.Ok? <==> unseen && paying && (tx.nonce == expected || Waits(m, tx, expected)))
            && (r == Err(Duplicate) <==> !unseen)
            && (r == Err(Underpriced) <==> unseen && !paying)
            && (r == Err(NonceTooLow) <==> unseen && paying && tx.nonce < expected)
            && (r == Err(NonceTooFar) <==> unseen && paying && tx.nonce > expected + 16)
            && (r == Err(QueueFull) <==> unseen && paying && near && |QueueOf(m, tx.sender)| >= 16)
            && (r == Err(NonceQueued) <==>
                  unseen && paying && near && |QueueOf(m, tx.sender)| < 16 && tx.nonce in QueueOf(m, tx.sender))
  {
  }

  /**
   * A transaction with the chain's nonce is added to the pools, and what its sender has queued from the nonce read anew
   * is promoted after it.
   */
  lemma ReadyPlaced(m: State, tx: Transaction, now: nat, baseFee: nat, expected: nat, reread: nat)
    returns (added: State, evicted: Option<Pooled>)
    requires tx.hash !in m.members && CanAfford(tx, baseFee) && tx.nonce == expected
    ensures Added(m.(members := m.members + {tx.hash}), added, Pooled(tx, now), evicted)
    ensures AddTransaction(m, tx, now, baseFee, expected, reread).0 == Promote(added, tx.sender, reread)
  {
    var entered := m.(members := m.members + {tx.hash});
    added := AddToPool(entered, Pooled(tx, now));
    evicted := AdditionExact(entered, Pooled(tx, now));
  }

  /** One with a later nonce waits in its sender's queue; nothing else changes but that its hash is known. */
  lemma FutureWaits(m: State, tx: Transaction, now: nat, baseFee: nat, expected: nat, reread: nat)
    requires tx.hash !in m.members && CanAfford(tx, baseFee) && Waits(m, tx, expected)
    ensures var r := AddTransaction(m, tx, now, baseFee, expected, reread).0;
            && r == m.(members := m.members + {tx.hash}, futures := r.futures)
            && QueueOf(r, tx.sender) == QueueOf(m, tx.sender)[tx.nonce := Pooled(tx, now)]
            && r.futures - {tx.sender} == m.futures - {tx.sender}
  {
  }

  lemma {:induction false} PromotionCounted(m: State, q: Queue, nonce: nat)
    requires AllCounted(m)
    ensures AllCounted(PromoteFrom(m, q, nonce).0)
    decreases q.Keys
  {
    if nonce in q {
      assert nonce !in (q - {nonce}).Keys;
      PromotionCounted(AddToPool(m.(members := m.members - {q[nonce].tx.hash}), q[nonce]), q - {nonce}, nonce + 1);
    }
  }

  lemma {:induction false} PromotionInFlight(m: State, q: Queue, nonce: nat)
    ensures PromoteFrom(m, q, nonce).0.inFlight == m.inFlight
    decreases q.Keys
  {
    if nonce in q {
      assert nonce !in (q - {nonce}).Keys;
      PromotionInFlight(AddToPool(m.(members := m.members - {q[nonce].tx.hash}), q[nonce]), q - {nonce}, nonce + 1);
    }
  }

  /** Admission never touches the in-flight set. */
  lemma AdmissionInFlight(m: State, tx: Transaction, now: nat, baseFee: nat, expected: nat, reread: nat)
    ensures AddTransaction(m, tx, now, baseFee, expected, reread).0.inFlight == m.inFlight
  {
    var entered := AddToPool(m.(members := m.members + {tx.hash}), Pooled(tx, now));
    if tx.sender in entered.futures {
      PromotionInFlight(entered, entered.futures[tx.sender], reread);
    }
  }

  /** Admission keeps every counter equal to its pool's length. */
  lemma AdmissionCounted(m: State, tx: Transaction, now: nat, baseFee: nat, expected: nat, reread: nat)
    requires AllCounted(m)
    ensures AllCounted(AddTransaction(m, tx, now, baseFee, expected, reread).0)
  {
    var entered := AddToPool(m.(members := m.members + {tx.hash}), Pooled(tx, now));
    if tx.sender in entered.futures {
      PromotionCounted(entered, entered.futures[tx.sender], reread);
    }
  }

  // ---------------------------------------------------------------- queues

  ghost predicate QueueValid(q: Queue, sender: nat) {
    && 0 < |q| <= MAX_FUTURE_TXS_PER_SENDER
    && forall n | n in q :: q[n].tx.nonce == n && q[n].tx.sender == sender
  }

  ghost predicate QueuesValid(m: State) {
    forall sender | sender in m.futures :: QueueValid(m.futures[sender], sender)
  }

  lemma {:induction false} PromotedQueue(m: State, q: Queue, nonce: nat)
    ensures var r := PromoteFrom(m, q, nonce);
            r.1.Keys <= q.Keys && (forall n | n in r.1 :: r.1[n] == q[n]) && r.0.futures == m.futures
    ensures forall n | n in q && n < nonce :: n in PromoteFrom(m, q, nonce).1
    decreases q.Keys
  {
    if nonce in q {
      assert nonce !in (q - {nonce}).Keys;
      PromotedQueue(AddToPool(m.(members := m.members - {q[nonce].tx.hash}), q[nonce]), q - {nonce}, nonce + 1);
    }
  }

  /** Promotion takes out of the queue exactly the unbroken run of nonces from the given one on. */
  lemma {:induction false} PromotionExact(m: State, q: Queue, nonce: nat) returns (k: nat)
    ensures (forall n | nonce <= n < nonce + k :: n in q) && nonce + k !in q
    ensures PromoteFrom(m, q, nonce).1.Keys == (set n | n in q.Keys && !(nonce <= n < nonce + k))
    ensures forall n | n in PromoteFrom(m, q, nonce).1 :: PromoteFrom(m, q, nonce).1[n] == q[n]
    decreases q.Keys
  {
    k := 0;
    if nonce in q {
      assert nonce !in (q - {nonce}).Keys;
      k := PromotionExact(AddToPool(m.(members := m.members - {q[nonce].tx.hash}), q[nonce]), q - {nonce}, nonce + 1);
      k := k + 1;
    }
  }

  lemma SmallerQueue(q: Queue, r: Queue, sender: nat)
    requires QueueValid(q, sender) && r.Keys <= q.Keys && forall n | n in r :: r[n] == q[n]
    ensures r == map[] || QueueValid(r, sender)
  {
    SubsetSize(r.Keys, q.Keys);
    assert |r| == |r.Keys| && |q| == |q.Keys|;
  }

  lemma SubsetSize(a: set<nat>, b: set<nat>)
    requires a <= b
    ensures |a| <= |b|
  {
    assert b == a + (b - a);
    assert |b| == |a| + |b - a|;
  }

  lemma PromoteQueuesValid(m: State, sender: nat, nonce: nat)
    requires QueuesValid(m)
    ensures QueuesValid(Promote(m, sender, nonce))
  {
    if sender in m.futures {
      PromotedQueue(m, m.futures[sender], nonce);
      SmallerQueue(m.futures[sender], PromoteFrom(m, m.futures[sender], nonce).1, sender);
    }
  }

  lemma EnqueueValid(m: State, x: Pooled)
    requires QueuesValid(m) && |QueueOf(m, x.tx.sender)| < MAX_FUTURE_TXS_PER_SENDER
    ensures QueueValid(QueueOf(m, x.tx.sender)[x.tx.nonce := x], x.tx.sender)
  {
    var q := QueueOf(m, x.tx.sender);
    var r := q[x.tx.nonce := x];
    assert r.Keys == q.Keys + {x.tx.nonce};
    assert |r| == |r.Keys| && |q| == |q.Keys|;
    assert x.tx.nonce in r;
  }

  /** Admission keeps every queue non-empty, at most sixteen long, and filed under its own sender and nonces. */
  lemma AdmissionQueuesValid(m: State, tx: Transaction, now: nat, baseFee: nat, expected: nat, reread: nat)
    requires QueuesValid(m)
    ensures QueuesValid(AddTransaction(m, tx, now, baseFee, expected, reread).0)
  {
    if tx.nonce == expected {
      PromoteQueuesValid(AddToPool(m.(members := m.members + {tx.hash}), Pooled(tx, now)), tx.sender, reread);
    } else if |QueueOf(m, tx.sender)| < MAX_FUTURE_TXS_PER_SENDER {
      EnqueueValid(m, Pooled(tx, now));
    }
  }

  // ---------------------------------------------------------------- membership

  ghost predicate Covered(m: State) {
    forall s: Stream, i | 0 <= i < |Of(m.pools, s).txs| :: Of(m.pools, s).txs[i].tx.hash in m.members
  }

  /** No hash is pooled twice, in one stream or across two. */
  ghost predicate Unique(m: State) {
    forall s: Stream, t: Stream, i, j | 0 <= i < |Of(m.pools, s).txs| && 0 <= j < |Of(m.pools, t).txs| ::
      Of(m.pools, s).txs[i].tx.hash == Of(m.pools, t).txs[j].tx.hash ==> s == t && i == j
  }

  lemma SwapRemoveIndex(s: seq<Pooled>, i: nat, k: nat) returns (j: nat)
    requires i < |s| && k < |s| - 1
    ensures j < |s| && j != i && SwapRemove(s, i)[k] == s[j]
  {
    j := if k == i then |s| - 1 else k;
  }

  lemma EvictionCovered(m: State, s: Stream, fee: nat)
    requires Covered(m) && Unique(m)
    ensures Covered(EvictLowest(m, s, fee))
  {
    var p, r := Of(m.pools, s), EvictLowest(m, s, fee);
    if Evicts(p.txs, fee) {
      var i := Lowest(p.txs);
      forall t: Stream, k | 0 <= k < |Of(r.pools, t).txs|
        ensures Of(r.pools, t).txs[k].tx.hash in r.members
      {
        var j := k;
        if t == s {
          j := SwapRemoveIndex(p.txs, i, k);
        }
        assert Of(r.pools, t).txs[k] == Of(m.pools, t).txs[j];
        assert Of(m.pools, t).txs[j].tx.hash != Of(m.pools, s).txs[i].tx.hash;
      }
    }
  }

  /** The last transaction promoted sits in a pool, and its hash is gone from the membership set. */
  lemma {:induction false} PromotionUncovers(m: State, q: Queue, nonce: nat) returns (s: Stream, i: nat)
    requires nonce in q
    ensures var r := PromoteFrom(m, q, nonce).0;
            i < |Of(r.pools, s).txs| && Of(r.pools, s).txs[i].tx.hash !in r.members
    decreases q.Keys
  {
    var x := q[nonce];
    var gone := m.(members := m.members - {x.tx.hash});
    assert nonce !in (q - {nonce}).Keys;
    if nonce + 1 in q - {nonce} {
      s, i := PromotionUncovers(AddToPool(gone, x), q - {nonce}, nonce + 1);
    } else {
      s := NextStream(gone);
      i := |Of(AddToPool(gone, x).pools, s).txs| - 1;
    }
  }

  lemma AdditionCovered(m: State, x: Pooled)
    requires Covered(m) && Unique(m) && x.tx.hash in m.members
    requires forall s: Stream, i | 0 <= i < |Of(m.pools, s).txs| :: Of(m.pools, s).txs[i].tx.hash != x.tx.hash
    ensures Covered(AddToPool(m, x))
  {
    var s := NextStream(m);
    EvictionCovered(m, s, x.tx.fee);
    var r := if Load(Of(m.pools, s)) >= Cap(s) then EvictLowest(m, s, x.tx.fee) else m;
    assert x.tx.hash in r.members;
    PushCovered(r, s, x);
  }

  lemma PushCovered(m: State, s: Stream, x: Pooled)
    requires Covered(m) && x.tx.hash in m.members
    ensures Covered(m.(pools := With(m.pools, s, Push(Of(m.pools, s), x))))
  {
    var r := m.(pools := With(m.pools, s, Push(Of(m.pools, s), x)));
    forall t: Stream, k | 0 <= k < |Of(r.pools, t).txs|
      ensures Of(r.pools, t).txs[k].tx.hash in m.members
    {
      if k < |Of(m.pools, t).txs| {
        assert Of(r.pools, t).txs[k] == Of(m.pools, t).txs[k];
      } else {
        assert Of(r.pools, t).txs[k] == x;
      }
    }
  }

  /**
   * The membership set covers the pooled transactions after an admission exactly when the admission
   * promoted nothing: promotion takes the hash out and does not put it back.
   */
  lemma CoverageKeptExactly(m: State, tx: Transaction, now: nat, baseFee: nat, expected: nat, reread: nat)
    requires Covered(m) && Unique(m) && tx.hash !in m.members && CanAfford(tx, baseFee) && tx.nonce == expected
    ensures Covered(AddTransaction(m, tx, now, baseFee, expected, reread).0) <==> reread !in QueueOf(m, tx.sender)
  {
    var entered := m.(members := m.members + {tx.hash});
    var added := AddToPool(entered, Pooled(tx, now));
    AdditionCovered(entered, Pooled(tx, now));
    if reread in QueueOf(m, tx.sender) {
      var s, i := PromotionUncovers(added, QueueOf(m, tx.sender), reread);
    } else if tx.sender in m.futures {
      assert Promote(added, tx.sender, reread).pools == added.pools;
    }
  }

  // ---------------------------------------------------------------- draining

  function Without(p: Pool, gone: set<Hash>): Pool {
    Retain(p, (x: Pooled) => x.tx.hash !in gone)
  }

  function CleanOthers(ps: Streams, s: Stream, gone: set<Hash>): Streams {
    Streams(
      if s == StreamA then ps.a else Without(ps.a, gone),
      if s == StreamB then ps.b else Without(ps.b, gone),
      if s == StreamC then ps.c else Without(ps.c, gone))
  }

  function HashSet(xs: seq<Pooled>): set<Hash> {
    set i | 0 <= i < |xs| :: xs[i].tx.hash
  }

  /** The drain loop on one stream's pool, `sorted` being the order the library's unstable sort left it in. */
  function DrainOf(m: State, s: Stream, sorted: seq<Pooled>, now: nat): Drain {
    var p := Of(m.pools, s);
    DrainAll(StartDrain(Pool(sorted, p.size), m.inFlight, m.members), Min(Load(p), BlockLimit(s)), now)
  }

  /** Draining with the clean-up of the other two pools that follows it. */
  function DrainStream(m: State, s: Stream, sorted: seq<Pooled>, now: nat): State {
    var d := DrainOf(m, s, sorted, now);
    var pools := With(m.pools, s, d.pool);
    m.(pools := if d.claimed == [] then pools else CleanOthers(pools, s, HashSet(d.claimed)),
       inFlight := d.inFlight, members := d.members)
  }

  lemma WithoutExact(p: Pool, gone: set<Hash>, x: Pooled)
    ensures multiset(Without(p, gone).txs)[x] == if x.tx.hash in gone then 0 else multiset(p.txs)[x]
  {
    RetainedExact(p.txs, (y: Pooled) => y.tx.hash !in gone, x);
  }

  lemma WithoutMembers(p: Pool, gone: set<Hash>)
    ensures forall i | 0 <= i < |Without(p, gone).txs| :: Without(p, gone).txs[i].tx.hash !in gone
  {
    RetainedMembers(p.txs, (y: Pooled) => y.tx.hash !in gone);
  }

  lemma DrainOfPartition(m: State, s: Stream, sorted: seq<Pooled>, now: nat)
    requires AllCounted(m) && multiset(sorted) == multiset(Of(m.pools, s).txs)
    ensures var d := DrainOf(m, s, sorted, now);
            && Counted(d.pool) && |d.claimed| <= BlockLimit(s)
            && multiset(Of(m.pools, s).txs) ==
               multiset(d.claimed) + multiset(d.expired) + multiset(d.skipped) + multiset(d.pool.txs)
  {
    var p := Of(m.pools, s);
    assert |sorted| == |multiset(sorted)| && |p.txs| == |multiset(p.txs)|;
    DrainPartition(sorted, StartDrain(Pool(sorted, p.size), m.inFlight, m.members),
      Min(Load(p), BlockLimit(s)), now);
  }

  /** What stream `t` keeps after a clean-up: exactly its entries whose hash is not in `gone`. */
  ghost predicate Cleaned(before: Pool, after: Pool, gone: set<Hash>) {
    && (forall i | 0 <= i < |after.txs| :: after.txs[i].tx.hash !in gone)
    && (forall x :: multiset(after.txs)[x] == if x.tx.hash in gone then 0 else multiset(before.txs)[x])
  }

  lemma WithoutCleans(p: Pool, gone: set<Hash>)
    ensures Cleaned(p, Without(p, gone), gone)
  {
    WithoutMembers(p, gone);
    forall x
      ensures multiset(Without(p, gone).txs)[x] == if x.tx.hash in gone then 0 else multiset(p.txs)[x]
    {
      WithoutExact(p, gone, x);
    }
  }

  /**
   * One drain of stream `s`: its pool splits, as a multiset, into claimed, expired, already in flight and left
   * over, all counters still match, and another stream's pool loses exactly its copies of what was claimed.
   */
  lemma DrainStreamSound(m: State, s: Stream, sorted: seq<Pooled>, now: nat, t: Stream)
    requires AllCounted(m) && multiset(sorted) == multiset(Of(m.pools, s).txs)
    ensures var d, r := DrainOf(m, s, sorted, now), DrainStream(m, s, sorted, now);
            && AllCounted(r) && |d.claimed| <= BlockLimit(s)
            && multiset(Of(m.pools, s).txs) ==
               multiset(d.claimed) + multiset(d.expired) + multiset(d.skipped) + multiset(Of(r.pools, s).txs)
            && (t != s ==> Cleaned(Of(m.pools, t), Of(r.pools, t), HashSet(d.claimed)))
  {
    DrainOfPartition(m, s, sorted, now);
    var d, r := DrainOf(m, s, sorted, now), DrainStream(m, s, sorted, now);
    assert Of(r.pools, s) == d.pool;
    if t != s && d.claimed != [] {
      assert Of(r.pools, t) == Without(Of(m.pools, t), HashSet(d.claimed));
      WithoutCleans(Of(m.pools, t), HashSet(d.claimed));
    }
  }

  // ---------------------------------------------------------------- returning

  function Wrapped(xs: seq<Pooled>, now: nat): seq<Pooled> {
    seq(|xs|, i requires 0 <= i < |xs| => xs[i].(submittedAt := now))
  }

  function Return(m: State, s: Stream, xs: seq<Pooled>, now: nat): State {
    var p := Of(m.pools, s);
    m.(pools := With(m.pools, s, Pool(p.txs + Wrapped(xs, now), p.size + |xs|)))
  }

  function ClearInFlight(m: State, xs: seq<Pooled>): State {
    m.(inFlight := m.inFlight - HashSet(xs))
  }

  /** Nothing claimed is in the membership set any more. */
  ghost predicate ClaimedLeft(d: Drain) {
    forall i | 0 <= i < |d.claimed| :: d.claimed[i].tx.hash !in d.members
  }

  lemma {:induction false} DrainMembers(d: Drain, count: nat, now: nat)
    requires ClaimedLeft(d)
    ensures ClaimedLeft(DrainAll(d, count, now))
    decreases |d.pool.txs|
  {
    if |d.claimed| < count && d.pool.txs != [] {
      DrainMembers(Pop(d, now), count, now);
    }
  }

  /**
   * Giving a drained block's transactions back: while the in-flight set has room, it ends as it began and the
   * counters match; but every returned transaction is then pooled without being in the membership set.
   */
  lemma DrainThenReturn(m: State, s: Stream, sorted: seq<Pooled>, now: nat, later: nat)
    requires AllCounted(m) && multiset(sorted) == multiset(Of(m.pools, s).txs)
    requires |m.inFlight| + Min(|sorted|, BlockLimit(s)) <= IN_FLIGHT_LIMIT + 1
    ensures var d := DrainOf(m, s, sorted, now);
            var r := ClearInFlight(Return(DrainStream(m, s, sorted, now), s, d.claimed, later), d.claimed);
            && r.inFlight == m.inFlight && AllCounted(r)
            && (forall i | 0 <= i < |d.claimed| ::
                  Pooled(d.claimed[i].tx, later) in Of(r.pools, s).txs && d.claimed[i].tx.hash !in r.members)
  {
    DrainStreamSound(m, s, sorted, now, s);
    LoadBound(Of(m.pools, s), sorted);
    DrainRestores(m, s, sorted, now);
    WrappedMembers(DrainOf(m, s, sorted, now).claimed, later);
  }

  lemma LoadBound(p: Pool, sorted: seq<Pooled>)
    requires Counted(p) && multiset(sorted) == multiset(p.txs)
    ensures Load(p) <= |sorted|
  {
    assert |sorted| == |multiset(sorted)| && |p.txs| == |multiset(p.txs)|;
  }

  lemma DrainRestores(m: State, s: Stream, sorted: seq<Pooled>, now: nat)
    requires |m.inFlight| + Min(Load(Of(m.pools, s)), BlockLimit(s)) <= IN_FLIGHT_LIMIT + 1
    ensures var d := DrainOf(m, s, sorted, now);
            d.inFlight - HashSet(d.claimed) == m.inFlight && ClaimedLeft(d)
  {
    var p := Of(m.pools, s);
    var start := StartDrain(Pool(sorted, p.size), m.inFlight, m.members);
    var count := Min(Load(p), BlockLimit(s));
    DrainClaims(m.inFlight, start, count, now);
    DrainMembers(start, count, now);
    ClaimsUndone(m.inFlight, DrainOf(m, s, sorted, now));
  }

  lemma WrappedMembers(xs: seq<Pooled>, now: nat)
    ensures forall i | 0 <= i < |xs| :: Pooled(xs[i].tx, now) in Wrapped(xs, now)
  {
    forall i | 0 <= i < |xs|
      ensures Pooled(xs[i].tx, now) in Wrapped(xs, now)
    {
      assert Wrapped(xs, now)[i] == Pooled(xs[i].tx, now);
    }
  }

  lemma ClaimsUndone(before: set<Hash>, d: Drain)
    requires Claims(before, d)
    ensures d.inFlight - HashSet(d.claimed) == before
  {
    assert forall h :: h in HashSet(d.claimed) <==> h in HashesOf(d.claimed);
  }

  // ---------------------------------------------------------------- expiry

  predicate Current(x: Pooled, now: nat) {
    Age(now, x) < TX_TTL_SECS
  }

  function Old(xs: seq<Pooled>, now: nat): set<Hash> {
    set i | 0 <= i < |xs| && !Current(xs[i], now) :: xs[i].tx.hash
  }

  function Expire(p: Pool, now: nat): Pool {
    Retain(p, (x: Pooled) => Current(x, now))
  }

  function CurrentQueue(q: Queue, now: nat): Queue {
    map n | n in q && Age(now, q[n]) < FUTURE_TX_TTL_SECS :: q[n]
  }

  function StaleHashes(futures: map<nat, Queue>, now: nat): set<Hash> {
    set s, n | s in futures && n in futures[s] && Age(now, futures[s][n]) >= FUTURE_TX_TTL_SECS :: futures[s][n].tx.hash
  }

  /** The sweep of one stream's pool. */
  function ExpireStream(m: State, s: Stream, now: nat): State {
    var p := Of(m.pools, s);
    m.(pools := With(m.pools, s, Expire(p, now)), members := m.members - Old(p.txs, now))
  }

  function ExpireLegacy(m: State, now: nat): State {
    m.(legacy := Expire(m.legacy, now), members := m.members - Old(m.legacy.txs, now))
  }

  function CurrentQueues(futures: map<nat, Queue>, now: nat): map<nat, Queue> {
    map s | s in futures && CurrentQueue(futures[s], now) != map[] :: CurrentQueue(futures[s], now)
  }

  function ExpireQueues(m: State, now: nat): State {
    m.(futures := CurrentQueues(m.futures, now), members := m.members - StaleHashes(m.futures, now))
  }

  /** The whole sweep: three streams, the legacy pool, the queues, one lock after another. */
  function EvictExpired(m: State, now: nat): State {
    var a := ExpireStream(m, StreamA, now);
    var b := ExpireStream(a, StreamB, now);
    var c := ExpireStream(b, StreamC, now);
    ExpireQueues(ExpireLegacy(c, now), now)
  }

  /** The sweep takes an entry from 600 seconds on, a second before a drain would call it expired. */
  lemma CurrentExactly(x: Pooled, now: nat)
    ensures Current(x, now) <==> now < x.submittedAt + 600_000_000_000
    ensures Current(x, now) ==> !IsExpired(x, now)
  {
  }

  lemma ExpireExact(p: Pool, now: nat, x: Pooled)
    ensures multiset(Expire(p, now).txs)[x] == if Current(x, now) then multiset(p.txs)[x] else 0
  {
    RetainedExact(p.txs, (y: Pooled) => Current(y, now), x);
  }

  /** After an expiry sweep a pool holds exactly its entries younger than the limit, and the counters match. */
  lemma EvictExpiredSound(m: State, now: nat, s: Stream, x: Pooled)
    requires AllCounted(m)
    ensures var r := EvictExpired(m, now);
            && AllCounted(r)
            && multiset(Of(r.pools, s).txs)[x] == (if Current(x, now) then multiset(Of(m.pools, s).txs)[x] else 0)
            && multiset(r.legacy.txs)[x] == (if Current(x, now) then multiset(m.legacy.txs)[x] else 0)
  {
    ExpireExact(Of(m.pools, s), now, x);
    ExpireExact(m.legacy, now, x);
  }

  /**
   * The sweep takes out of the membership set exactly the hashes of entries it found too old, in any pool or queue,
   * and leaves in the queues exactly the entries young enough, dropping emptied queues.
   */
  lemma EvictExpiredForgets(m: State, now: nat)
    ensures var r := EvictExpired(m, now);
            && r.members == m.members - Old(m.pools.a.txs, now) - Old(m.pools.b.txs, now) - Old(m.pools.c.txs, now)
                            - Old(m.legacy.txs, now) - StaleHashes(m.futures, now)
            && (forall s, n :: s in r.futures && n in r.futures[s] <==>
                  s in m.futures && n in m.futures[s] && Age(now, m.futures[s][n]) < FUTURE_TX_TTL_SECS)
            && (forall s, n | s in r.futures && n in r.futures[s] :: r.futures[s][n] == m.futures[s][n])
            && (forall s | s in r.futures :: r.futures[s] != map[])
  {
    var r := EvictExpired(m, now);
    forall s, n
      ensures s in r.futures && n in r.futures[s] <==>
              s in m.futures && n in m.futures[s] && Age(now, m.futures[s][n]) < FUTURE_TX_TTL_SECS
    {
      if s in m.futures && n in m.futures[s] && Age(now, m.futures[s][n]) < FUTURE_TX_TTL_SECS {
        assert n in CurrentQueue(m.futures[s], now);
      }
    }
  }

  /** Some pooled entry with this hash has been there for 600 seconds. */
  ghost predicate Aging(xs: seq<Pooled>, now: nat, h: Hash) {
    exists i | 0 <= i < |xs| :: xs[i].tx.hash == h && now >= xs[i].submittedAt + 600_000_000_000
  }

  /** Some queued entry with this hash has been there for 300 seconds. */
  ghost predicate Waning(f: map<nat, Queue>, now: nat, h: Hash) {
    exists s, n | s in f && n in f[s] :: f[s][n].tx.hash == h && now >= f[s][n].submittedAt + 300_000_000_000
  }

  lemma OldExactly(xs: seq<Pooled>, now: nat, h: Hash)
    ensures h in Old(xs, now) <==> Aging(xs, now, h)
  {
  }

  lemma StaleExactly(f: map<nat, Queue>, now: nat, h: Hash)
    ensures h in StaleHashes(f, now) <==> Waning(f, now, h)
  {
  }

  /** A hash is known after a sweep exactly when it was before and no entry with it, pooled or queued, is old. */
  lemma SweepForgetsExactly(m: State, now: nat, h: Hash)
    ensures h in EvictExpired(m, now).members <==>
              && h in m.members && !Aging(m.pools.a.txs, now, h) && !Aging(m.pools.b.txs, now, h)
              && !Aging(m.pools.c.txs, now, h) && !Aging(m.legacy.txs, now, h) && !Waning(m.futures, now, h)
  {
    EvictExpiredForgets(m, now);
    OldExactly(m.pools.a.txs, now, h);
    OldExactly(m.pools.b.txs, now, h);
    OldExactly(m.pools.c.txs, now, h);
    OldExactly(m.legacy.txs, now, h);
    StaleExactly(m.futures, now, h);
  }

  /** Promotion changes one sender's queue at most, by the run it took out of it, and drops the queue it emptied. */
  lemma PromoteQueues(m: State, sender: nat, nonce: nat) returns (k: nat)
    ensures var r, q := Promote(m, sender, nonce), QueueOf(m, sender);
            && r.futures - {sender} == m.futures - {sender}
            && (forall n | nonce <= n < nonce + k :: n in q) && nonce + k !in q
            && QueueOf(r, sender).Keys == (set n | n in q.Keys && !(nonce <= n < nonce + k))
            && (forall n | n in QueueOf(r, sender) :: QueueOf(r, sender)[n] == q[n])
            && (sender in r.futures && sender in m.futures ==> r.futures[sender] != map[])
  {
    k := 0;
    if sender in m.futures {
      k := PromotionExact(m, m.futures[sender], nonce);
    }
  }
}
