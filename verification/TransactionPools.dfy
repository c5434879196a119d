/**
 * The mining manager's pool operations as it performs them, on its own fields. Every method is tied to the
 * function of the same meaning in `Mempool`.
 */
module TransactionPools {
  import opened Types
  import opened Fees
  import opened Pools
  import opened Mempool

  lemma HashSetPush(xs: seq<Pooled>, p: Pooled)
    ensures HashSet(xs + [p]) == HashSet(xs) + {p.tx.hash}
  {
    var r := xs + [p];
    assert forall i | 0 <= i < |xs| :: r[i] == xs[i];
    assert r[|xs|] == p;
    assert forall h | h in HashSet(xs) :: h in HashSet(r);
  }

  lemma OldPush(xs: seq<Pooled>, p: Pooled, now: nat)
    ensures Old(xs + [p], now) == Old(xs, now) + if Current(p, now) then {} else {p.tx.hash}
  {
    var r := xs + [p];
    assert forall i | 0 <= i < |xs| :: r[i] == xs[i];
    assert r[|xs|] == p;
    assert forall h | h in Old(xs, now) :: h in Old(r, now);
  }

  class MiningManager {
    var pools: Streams
    var legacy: Pool
    var inFlight: set<Hash>
    var members: set<Hash>
    var futures: map<nat, Queue>
    var turn: nat
    var single: bool

    function View(): State
      reads this
    {
      State(pools, legacy, inFlight, members, futures, turn, single)
    }

    constructor (singleStream: bool)
      ensures AllCounted(View()) && Covered(View()) && Unique(View()) && QueuesValid(View())
      ensures single == singleStream && inFlight == {} && members == {}
    {
      pools, legacy := Streams(Pool([], 0), Pool([], 0), Pool([], 0)), Pool([], 0);
      inFlight, members, futures := {}, {}, map[];
      turn, single := 0, singleStream;
    }

    method FindLowest(txs: seq<Pooled>) returns (i: nat)
      requires txs != []
      ensures i == Lowest(txs)
    {
      i := 0;
      var n := 1;
      while n < |txs|
        invariant 1 <= n <= |txs| && i == Lowest(txs[..n])
      {
        assert txs[..n + 1][..n] == txs[..n];
        if txs[n].tx.fee < txs[i].tx.fee {
          i := n;
        }
        n := n + 1;
      }
      assert txs[..n] == txs;
    }

    method EvictLowestFee(s: Stream, fee: nat) returns (evicted: bool)
      modifies this
      ensures View() == EvictLowest(old(View()), s, fee)
      ensures evicted == Evicts(old(Of(pools, s).txs), fee)
    {
      var p := Of(pools, s);
      if p.txs == [] {
        return false;
      }
      var i := FindLowest(p.txs);
      evicted := fee > p.txs[i].tx.fee;
      if evicted {
        pools := With(pools, s, Pool(SwapRemove(p.txs, i), p.size - 1));
        members := members - {p.txs[i].tx.hash};
      }
    }

    method AddToPoolInner(x: Pooled)
      modifies this
      ensures View() == AddToPool(old(View()), x)
    {
      var s := NextStream(View());
      if Load(Of(pools, s)) >= Cap(s) {
        var _ := EvictLowestFee(s, x.tx.fee);
      }
      pools := With(pools, s, Push(Of(pools, s), x));
      if !single {
        turn := (turn + 1) % TWO_64;
      }
    }

    method PromoteFutures(sender: nat, start: nat)
      modifies this
      ensures View() == Promote(old(View()), sender, start)
    {
      if sender !in futures {
        return;
      }
      var q, nonce := futures[sender], start;
      ghost var goal := PromoteFrom(View(), q, nonce);
      while nonce in q
        invariant PromoteFrom(View(), q, nonce) == goal
        invariant futures == old(futures) && q.Keys <= futures[sender].Keys
        decreases q.Keys
      {
        var x := q[nonce];
        q := q - {nonce};
        members := members - {x.tx.hash};
        AddToPoolInner(x);
        nonce := nonce + 1;
      }
      futures := if q == map[] then futures - {sender} else futures[sender := q];
    }

    method Submit(tx: Transaction, now: nat, baseFee: nat, expected: nat, reread: nat)
      returns (outcome: Result<(), Rejection>)
      modifies this
      ensures (View(), outcome) == AddTransaction(old(View()), tx, now, baseFee, expected, reread)
    {
      if tx.hash in members {
        return Err(Duplicate);
      }
      members := members + {tx.hash};
      if !CanAfford(tx, baseFee) {
        members := members - {tx.hash};
        return Err(Underpriced);
      }
      if tx.nonce == expected {
        AddToPoolInner(Pooled(tx, now));
        PromoteFutures(tx.sender, reread);
        return Ok(());
      }
      if expected < tx.nonce <= expected + MAX_FUTURE_NONCE_GAP {
        var q := if tx.sender in futures then futures[tx.sender] else map[];
        if |q| >= MAX_FUTURE_TXS_PER_SENDER {
          members := members - {tx.hash};
          return Err(QueueFull);
        }
        if tx.nonce in q {
          members := members - {tx.hash};
          return Err(NonceQueued);
        }
        futures := futures[tx.sender := q[tx.nonce := Pooled(tx, now)]];
        return Ok(());
      }
      members := members - {tx.hash};
      outcome := Err(if tx.nonce < expected then NonceTooLow else NonceTooFar);
    }

    /** One popped entry: dropped when too old or already in flight, else claimed. */
    method TryClaim(p: Pooled, now: nat) returns (claimed: bool)
      modifies `inFlight, `members
      ensures members == old(members) - {p.tx.hash}
      ensures claimed == (!IsExpired(p, now) && p.tx.hash !in Flying(old(inFlight)))
      ensures inFlight == if IsExpired(p, now) then old(inFlight) else Flying(old(inFlight)) + {p.tx.hash}
    {
      members := members - {p.tx.hash};
      if IsExpired(p, now) {
        return false;
      }
      if |inFlight| > IN_FLIGHT_LIMIT {
        inFlight := {};
      }
      claimed := p.tx.hash !in inFlight;
      inFlight := inFlight + {p.tx.hash};
    }

    method DrainLoop(pool: Pool, count: nat, now: nat) returns (left: Pool, claimed: seq<Pooled>)
      modifies `inFlight, `members
      ensures var d := DrainAll(StartDrain(pool, old(inFlight), old(members)), count, now);
              d.pool == left && d.inFlight == inFlight && d.members == members && d.claimed == claimed
    {
      left, claimed := pool, [];
      ghost var d := StartDrain(left, inFlight, members);
      ghost var goal := DrainAll(d, count, now);
      while |claimed| < count && left.txs != []
        invariant d.pool == left && d.inFlight == inFlight && d.members == members && d.claimed == claimed
        invariant DrainAll(d, count, now) == goal
        decreases |left.txs|
      {
        d := Pop(d, now);
        var p := left.txs[0];
        left := Pool(SwapRemove(left.txs, 0), left.size - 1);
        var taken := TryClaim(p, now);
        if taken {
          claimed := claimed + [p];
        }
      }
    }

    /** Assembles a block: the drain loop, then the clean-up of the other two pools. */
    method DrainPool(s: Stream, sorted: seq<Pooled>, now: nat) returns (claimed: seq<Pooled>)
      requires multiset(sorted) == multiset(Of(pools, s).txs) && Descending(sorted)
      modifies this
      ensures View() == DrainStream(old(View()), s, sorted, now)
      ensures claimed == DrainOf(old(View()), s, sorted, now).claimed
    {
      var p := Of(pools, s);
      var left;
      left, claimed := DrainLoop(Pool(sorted, p.size), Min(Load(p), BlockLimit(s)), now);
      pools := With(pools, s, left);
      if claimed != [] {
        pools := CleanOthers(pools, s, HashSet(claimed));
      }
    }

    /** Gives a block's transactions back to their pool, with fresh arrival times, and takes back their claims. */
    method ReturnToPool(s: Stream, xs: seq<Pooled>, now: nat)
      modifies this
      ensures View() == ClearInFlight(Return(old(View()), s, xs, now), xs)
    {
      var p, i := Of(pools, s), 0;
      while i < |xs|
        invariant i <= |xs|
        invariant p == Pool(Of(pools, s).txs + Wrapped(xs[..i], now), Of(pools, s).size + i)
      {
        p := Push(p, xs[i].(submittedAt := now));
        assert Wrapped(xs[..i + 1], now) == Wrapped(xs[..i], now) + [xs[i].(submittedAt := now)];
        i := i + 1;
      }
      assert xs[..i] == xs;
      pools := With(pools, s, p);
      i := 0;
      while i < |xs|
        invariant i <= |xs| && inFlight == old(inFlight) - HashSet(xs[..i])
        invariant legacy == old(legacy) && members == old(members) && futures == old(futures)
        invariant turn == old(turn) && single == old(single) && pools == With(old(pools), s, p)
      {
        HashSetPush(xs[..i], xs[i]);
        assert xs[..i + 1] == xs[..i] + [xs[i]];
        inFlight := inFlight - {xs[i].tx.hash};
        i := i + 1;
      }
    }

    method ExpiredIn(xs: seq<Pooled>, now: nat) returns (gone: set<Hash>)
      ensures gone == Old(xs, now)
    {
      gone := {};
      var i := 0;
      while i < |xs|
        invariant i <= |xs| && gone == Old(xs[..i], now)
      {
        OldPush(xs[..i], xs[i], now);
        assert xs[..i + 1] == xs[..i] + [xs[i]];
        if Age(now, xs[i]) >= TX_TTL_SECS {
          gone := gone + {xs[i].tx.hash};
        }
        i := i + 1;
      }
      assert xs[..i] == xs;
    }

    method EvictExpiredFrom(s: Stream, now: nat)
      modifies this
      ensures View() == ExpireStream(old(View()), s, now)
    {
      var gone := ExpiredIn(Of(pools, s).txs, now);
      pools := With(pools, s, Expire(Of(pools, s), now));
      members := members - gone;
    }

    method EvictExpiredTransactions(now: nat)
      modifies this
      ensures View() == EvictExpired(old(View()), now)
    {
      EvictExpiredFrom(StreamA, now);
      EvictExpiredFrom(StreamB, now);
      EvictExpiredFrom(StreamC, now);
      var gone := ExpiredIn(legacy.txs, now);
      legacy := Expire(legacy, now);
      members := members - gone;
      members := members - StaleHashes(futures, now);
      futures := CurrentQueues(futures, now);
    }
  }
}
