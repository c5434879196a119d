/**
 * Batch synchronisation: blocks received from a peer are sorted by number and added one at a time, the chain
 * lock being let go between them.
 */
module Sync {
  import opened Types

  datatype Block = Block(hash: Hash, number: nat, parents: seq<Hash>)

  type Store = map<Hash, Block>

  datatype Verdict = Added | AlreadyThere | Rejected

  /** The chain's answer to a block offered with all its parents stored. */
  type Chain = (Store, Block) -> Verdict

  /** What the rest of the node does to the store after the i-th block, while the lock is free. */
  type Others = (nat, Store) -> Store

  datatype Progress = Progress(store: Store, orphans: seq<Block>, added: nat, failed: nat)

  predicate HasParents(store: Store, b: Block) {
    forall i | 0 <= i < |b.parents| :: b.parents[i] in store
  }

  /** The loop body under the lock. */
  function Offer(p: Progress, b: Block, chain: Chain): Progress {
    if b.hash in p.store then p
    else if !HasParents(p.store, b) then p.(orphans := p.orphans + [b])
    else
      match chain(p.store, b)
      case Added => p.(store := p.store[b.hash := b], added := p.added + 1)
      case AlreadyThere => p
      case Rejected => p.(failed := p.failed + 1)
  }

  /** The loop over the first `n` blocks, with the rest of the node running in between. */
  function OfferAll(start: Progress, bs: seq<Block>, n: nat, chain: Chain, others: Others): Progress
    requires n <= |bs|
  {
    if n == 0 then start else Turn(OfferAll(start, bs, n - 1, chain, others), bs, n - 1, chain, others)
  }

  /** One block, then whatever the rest of the node does. */
  function Turn(p: Progress, bs: seq<Block>, i: nat, chain: Chain, others: Others): Progress
    requires i < |bs|
  {
    var q := Offer(p, bs[i], chain);
    q.(store := others(i, q.store))
  }

  // ---------------------------------------------------------------- sorting

  /** Insertion before the first block that is not smaller: equal numbers keep their order. */
  function Insert(b: Block, bs: seq<Block>): seq<Block> {
    if bs == [] || b.number <= bs[0].number then [b] + bs else [bs[0]] + Insert(b, bs[1..])
  }

  function Sorted(bs: seq<Block>): seq<Block> {
    if bs == [] then [] else Insert(bs[0], Sorted(bs[1..]))
  }

  ghost predicate Ascending(bs: seq<Block>) {
    forall i, j | 0 <= i < j < |bs| :: bs[i].number <= bs[j].number
  }

  lemma {:induction false} InsertMultiset(b: Block, bs: seq<Block>)
    ensures multiset(Insert(b, bs)) == multiset(bs) + multiset{b}
  {
    if bs != [] && b.number > bs[0].number {
      InsertMultiset(b, bs[1..]);
      assert bs == [bs[0]] + bs[1..];
    }
  }

  ghost predicate AtLeast(bs: seq<Block>, n: nat) {
    forall i | 0 <= i < |bs| :: n <= bs[i].number
  }

  lemma {:induction false} InsertAscending(b: Block, bs: seq<Block>, n: nat)
    requires Ascending(bs) && AtLeast(bs, n) && n <= b.number
    ensures Ascending(Insert(b, bs)) && AtLeast(Insert(b, bs), n)
  {
    if bs != [] && b.number > bs[0].number {
      InsertAscending(b, bs[1..], bs[0].number);
    }
  }

  lemma {:induction false} SortedMultiset(bs: seq<Block>)
    ensures multiset(Sorted(bs)) == multiset(bs)
  {
    if bs != [] {
      SortedMultiset(bs[1..]);
      InsertMultiset(bs[0], Sorted(bs[1..]));
      assert bs == [bs[0]] + bs[1..];
    }
  }

  lemma {:induction false} SortedAscending(bs: seq<Block>)
    ensures Ascending(Sorted(bs))
  {
    if bs != [] {
      SortedAscending(bs[1..]);
      InsertAscending(bs[0], Sorted(bs[1..]), 0);
    }
  }

  /** The blocks with a given number, in order. */
  function WithNumber(bs: seq<Block>, n: nat): seq<Block> {
    if bs == [] then [] else OfNumber(bs[0], n) + WithNumber(bs[1..], n)
  }

  function OfNumber(b: Block, n: nat): seq<Block> {
    if b.number == n then [b] else []
  }

  lemma NumberFirst(b: Block, bs: seq<Block>, n: nat)
    ensures WithNumber([b] + bs, n) == OfNumber(b, n) + WithNumber(bs, n)
  {
    assert ([b] + bs)[1..] == bs;
  }

  lemma {:induction false} InsertStable(b: Block, bs: seq<Block>, n: nat)
    ensures WithNumber(Insert(b, bs), n) == OfNumber(b, n) + WithNumber(bs, n)
  {
    if bs == [] || b.number <= bs[0].number {
      NumberFirst(b, bs, n);
    } else {
      InsertStable(b, bs[1..], n);
      NumberFirst(bs[0], Insert(b, bs[1..]), n);
      var own, head, rest := OfNumber(b, n), OfNumber(bs[0], n), WithNumber(bs[1..], n);
      assert own == [] || head == [];
      assert head + (own + rest) == own + (head + rest);
    }
  }

  /** The sort is stable: blocks with the same number keep the order in which they arrived. */
  lemma {:induction false} SortedStable(bs: seq<Block>, n: nat)
    ensures WithNumber(Sorted(bs), n) == WithNumber(bs, n)
  {
    if bs != [] {
      SortedStable(bs[1..], n);
      InsertStable(bs[0], Sorted(bs[1..]), n);
    }
  }

  // ---------------------------------------------------------------- parent closure

  ghost predicate Closed(store: Store) {
    forall h | h in store :: HasParents(store, store[h])
  }

  ghost predicate Extends(big: Store, small: Store) {
    forall h | h in small :: h in big && big[h] == small[h]
  }

  /** The rest of the node only adds blocks, and only below ones it has. */
  ghost predicate WellBehaved(others: Others) {
    forall i: nat, store: Store :: Closed(store) ==> Closed(others(i, store)) && Extends(others(i, store), store)
  }

  lemma OfferClosed(p: Progress, b: Block, chain: Chain)
    requires Closed(p.store)
    ensures Closed(Offer(p, b, chain).store) && Extends(Offer(p, b, chain).store, p.store)
  {
    var r := Offer(p, b, chain);
    forall h | h in r.store
      ensures HasParents(r.store, r.store[h])
    {
      assert h == b.hash || h in p.store;
    }
  }

  ghost predicate Grown(start: Store, store: Store) {
    Closed(store) && Extends(store, start)
  }

  lemma TurnGrown(start: Store, p: Progress, bs: seq<Block>, i: nat, chain: Chain, others: Others)
    requires i < |bs| && Grown(start, p.store) && WellBehaved(others)
    ensures Grown(start, Turn(p, bs, i, chain, others).store)
    ensures Extends(Turn(p, bs, i, chain, others).store, Offer(p, bs[i], chain).store)
  {
    OfferClosed(p, bs[i], chain);
    var q := Offer(p, bs[i], chain).store;
    assert Closed(others(i, q)) && Extends(others(i, q), q);
  }

  /** The store only grows and is parent-closed after every block, whatever arrives and whatever happens in between. */
  lemma {:induction false} SyncClosed(start: Progress, bs: seq<Block>, n: nat, chain: Chain, others: Others)
    requires n <= |bs| && Closed(start.store) && WellBehaved(others)
    ensures Grown(start.store, OfferAll(start, bs, n, chain, others).store)
  {
    if n > 0 {
      SyncClosed(start, bs, n - 1, chain, others);
      TurnGrown(start.store, OfferAll(start, bs, n - 1, chain, others), bs, n - 1, chain, others);
    }
  }

  // ---------------------------------------------------------------- completeness

  /** The chain takes any absent block whose parents it has. */
  ghost predicate AcceptsReady(chain: Chain) {
    forall store: Store, b: Block {:trigger chain(store, b)} |
      b.hash !in store && HasParents(store, b) :: chain(store, b) == Added
  }

  ghost predicate Lower(bs: seq<Block>, h: Hash, n: nat) {
    exists j | 0 <= j < |bs| :: bs[j].hash == h && bs[j].number < n
  }

  ghost predicate ParentsBelow(store: Store, bs: seq<Block>, b: Block) {
    forall k | 0 <= k < |b.parents| :: b.parents[k] in store || Lower(bs, b.parents[k], b.number)
  }

  /** Every parent of a received block is stored already or received with a lower number. */
  ghost predicate LowerParents(store: Store, bs: seq<Block>) {
    forall i | 0 <= i < |bs| :: ParentsBelow(store, bs, bs[i])
  }

  ghost predicate Stored(store: Store, bs: seq<Block>, n: nat)
    requires n <= |bs|
  {
    forall i | 0 <= i < n :: bs[i].hash in store
  }

  lemma ParentsReady(start: Store, store: Store, bs: seq<Block>, n: nat)
    requires n < |bs| && Ascending(bs) && LowerParents(start, bs) && Extends(store, start) && Stored(store, bs, n)
    ensures HasParents(store, bs[n])
  {
    forall k | 0 <= k < |bs[n].parents|
      ensures bs[n].parents[k] in store
    {
      if bs[n].parents[k] !in start {
        assert ParentsBelow(start, bs, bs[n]);
        var j :| 0 <= j < |bs| && bs[j].hash == bs[n].parents[k] && bs[j].number < bs[n].number;
        assert j < n;
      }
    }
  }

  lemma OfferReady(p: Progress, b: Block, chain: Chain)
    requires AcceptsReady(chain) && HasParents(p.store, b)
    ensures var q := Offer(p, b, chain);
            q.orphans == p.orphans && q.failed == p.failed && b.hash in q.store
  {
  }

  /** Nothing orphaned, nothing refused, and the first `n` blocks stored. */
  ghost predicate Complete(start: Progress, p: Progress, bs: seq<Block>, n: nat)
    requires n <= |bs|
  {
    p.orphans == start.orphans && p.failed == start.failed && Grown(start.store, p.store) && Stored(p.store, bs, n)
  }

  lemma TurnComplete(start: Progress, p: Progress, bs: seq<Block>, n: nat, chain: Chain, others: Others)
    requires n < |bs| && WellBehaved(others) && AcceptsReady(chain) && Ascending(bs) && LowerParents(start.store, bs)
    requires Complete(start, p, bs, n)
    ensures Complete(start, Turn(p, bs, n, chain, others), bs, n + 1)
  {
    ParentsReady(start.store, p.store, bs, n);
    OfferReady(p, bs[n], chain);
    OfferClosed(p, bs[n], chain);
    TurnGrown(start.store, p, bs, n, chain, others);
  }

  lemma {:induction false} NoOrphans(start: Progress, bs: seq<Block>, n: nat, chain: Chain, others: Others)
    requires n <= |bs| && Closed(start.store) && WellBehaved(others) && AcceptsReady(chain)
    requires Ascending(bs) && LowerParents(start.store, bs)
    ensures Complete(start, OfferAll(start, bs, n, chain, others), bs, n)
  {
    if n > 0 {
      NoOrphans(start, bs, n - 1, chain, others);
      TurnComplete(start, OfferAll(start, bs, n - 1, chain, others), bs, n - 1, chain, others);
    }
  }

  lemma LowerParentsPermuted(store: Store, bs: seq<Block>, cs: seq<Block>)
    requires multiset(bs) == multiset(cs) && LowerParents(store, bs)
    ensures LowerParents(store, cs)
  {
    forall i | 0 <= i < |cs|
      ensures ParentsBelow(store, cs, cs[i])
    {
      var a := SameMember(cs, bs, i);
      assert ParentsBelow(store, bs, bs[a]);
      forall k | 0 <= k < |cs[i].parents| && cs[i].parents[k] !in store
        ensures Lower(cs, cs[i].parents[k], cs[i].number)
      {
        var b :| 0 <= b < |bs| && bs[b].hash == cs[i].parents[k] && bs[b].number < cs[i].number;
        var j := SameMember(bs, cs, b);
      }
    }
  }

  lemma SameMember(bs: seq<Block>, cs: seq<Block>, i: nat) returns (j: nat)
    requires multiset(bs) == multiset(cs) && i < |bs|
    ensures j < |cs| && cs[j] == bs[i]
  {
    assert bs[i] in multiset(cs);
    j :| 0 <= j < |cs| && cs[j] == bs[i];
  }

  /**
   * For every arrival order: when each received block's parents are stored or received with a lower number, and
   * the chain takes any absent block whose parents it has, no block is orphaned or refused and every one of them
   * ends up stored, on top of all that was there, whatever the rest of the node adds meanwhile.
   */
  lemma SyncComplete(store: Store, received: seq<Block>, chain: Chain, others: Others)
    requires Closed(store) && WellBehaved(others) && AcceptsReady(chain) && LowerParents(store, received)
    ensures var bs := Sorted(received);
            var p := OfferAll(Progress(store, [], 0, 0), bs, |bs|, chain, others);
            && p.orphans == [] && p.failed == 0 && Closed(p.store) && Extends(p.store, store)
            && forall i | 0 <= i < |received| :: received[i].hash in p.store
  {
    SortedMultiset(received);
    SortedAscending(received);
    var bs := Sorted(received);
    LowerParentsPermuted(store, received, bs);
    var start := Progress(store, [], 0, 0);
    NoOrphans(start, bs, |bs|, chain, others);
    forall i | 0 <= i < |received|
      ensures received[i].hash in OfferAll(start, bs, |bs|, chain, others).store
    {
      var j := SameMember(received, bs, i);
    }
  }

  // ---------------------------------------------------------------- the exact condition

  function Alone(i: nat, store: Store): Store {
    store
  }

  /** Hashes known when block `n` is offered: what was stored, and the blocks before it. */
  ghost predicate Known(store: Store, bs: seq<Block>, n: nat, h: Hash)
    requires n <= |bs|
  {
    h in store || exists j | 0 <= j < n :: bs[j].hash == h
  }

  ghost predicate KnownParents(store: Store, bs: seq<Block>, n: nat)
    requires n < |bs|
  {
    forall k | 0 <= k < |bs[n].parents| :: Known(store, bs, n, bs[n].parents[k])
  }

  ghost predicate Fine(store: Store, bs: seq<Block>, i: nat)
    requires i < |bs|
  {
    Known(store, bs, i, bs[i].hash) || KnownParents(store, bs, i)
  }

  ghost predicate InOrder(store: Store, bs: seq<Block>, n: nat)
    requires n <= |bs|
  {
    forall i | 0 <= i < n :: Fine(store, bs, i)
  }

  ghost predicate ExactStore(start: Store, store: Store, bs: seq<Block>, n: nat)
    requires n <= |bs|
  {
    forall h :: h in store <==> Known(start, bs, n, h)
  }

  lemma OfferExact(start: Store, p: Progress, bs: seq<Block>, n: nat, chain: Chain)
    requires n < |bs| && AcceptsReady(chain) && ExactStore(start, p.store, bs, n)
    ensures var q := Offer(p, bs[n], chain);
            && (Fine(start, bs, n) ==> q.orphans == p.orphans && ExactStore(start, q.store, bs, n + 1))
            && (!Fine(start, bs, n) ==> q.orphans == p.orphans + [bs[n]])
  {
    var q := Offer(p, bs[n], chain);
    assert HasParents(p.store, bs[n]) <==> KnownParents(start, bs, n);
    if Fine(start, bs, n) {
      forall h
        ensures h in q.store <==> Known(start, bs, n + 1, h)
      {
        KnownNext(start, bs, n, h);
      }
    }
  }

  lemma KnownNext(start: Store, bs: seq<Block>, n: nat, h: Hash)
    requires n < |bs|
    ensures Known(start, bs, n + 1, h) <==> Known(start, bs, n, h) || h == bs[n].hash
  {
  }

  ghost predicate Exact(start: Progress, p: Progress, bs: seq<Block>, n: nat)
    requires n <= |bs|
  {
    && (p.orphans == [] <==> InOrder(start.store, bs, n))
    && (p.orphans == [] ==> ExactStore(start.store, p.store, bs, n))
  }

  lemma TurnExact(start: Progress, p: Progress, bs: seq<Block>, n: nat, chain: Chain)
    requires n < |bs| && AcceptsReady(chain) && Exact(start, p, bs, n)
    ensures Exact(start, Turn(p, bs, n, chain, Alone), bs, n + 1)
  {
    assert Turn(p, bs, n, chain, Alone) == Offer(p, bs[n], chain);
    assert InOrder(start.store, bs, n + 1) <==> InOrder(start.store, bs, n) && Fine(start.store, bs, n);
    if p.orphans == [] {
      OfferExact(start.store, p, bs, n, chain);
    }
  }

  /**
   * With nothing else running and a chain that takes every ready block: no block is orphaned exactly when, in
   * sorted order, each one is already known or has only known parents; and then the store ends as the old store
   * plus the batch.
   */
  lemma {:induction false} SyncExact(start: Progress, bs: seq<Block>, n: nat, chain: Chain)
    requires n <= |bs| && AcceptsReady(chain) && start.orphans == []
    ensures Exact(start, OfferAll(start, bs, n, chain, Alone), bs, n)
  {
    if n > 0 {
      SyncExact(start, bs, n - 1, chain);
      TurnExact(start, OfferAll(start, bs, n - 1, chain, Alone), bs, n - 1, chain);
    }
  }

  /** Everything new in the store is one of the first `n` blocks, under its own hash. */
  ghost predicate Received(start: Store, store: Store, bs: seq<Block>, n: nat)
    requires n <= |bs|
  {
    forall h | h in store && h !in start :: store[h].hash == h && store[h] in bs[..n]
  }

  lemma NewFrom(start: Store, store: Store, bs: seq<Block>, n: nat, h: Hash) returns (j: nat)
    requires n <= |bs| && Received(start, store, bs, n) && h in store && h !in start
    ensures j < |bs| && bs[j] == store[h] && bs[j].hash == h
  {
    j :| 0 <= j < n && bs[..n][j] == store[h];
  }

  lemma {:induction false} NewAreReceived(start: Progress, bs: seq<Block>, n: nat, chain: Chain)
    requires n <= |bs|
    ensures Received(start.store, OfferAll(start, bs, n, chain, Alone).store, bs, n)
  {
    if n > 0 {
      NewAreReceived(start, bs, n - 1, chain);
      OfferReceived(start.store, OfferAll(start, bs, n - 1, chain, Alone), bs, n - 1, chain);
    }
  }

  lemma OfferReceived(start: Store, p: Progress, bs: seq<Block>, n: nat, chain: Chain)
    requires n < |bs| && Received(start, p.store, bs, n)
    ensures Received(start, Turn(p, bs, n, chain, Alone).store, bs, n + 1)
  {
    assert bs[..n + 1] == bs[..n] + [bs[n]];
  }

  // ---------------------------------------------------------------- what became of each block

  /** A block offered to a store: known already, lacking a parent, or put to the chain. */
  datatype Fate = Already | Lacking | Asked(answer: Verdict)

  function FateOf(store: Store, b: Block, chain: Chain): Fate {
    if b.hash in store then Already
    else if exists k | 0 <= k < |b.parents| :: b.parents[k] !in store then Lacking
    else Asked(chain(store, b))
  }

  /** The fate of each of the first `n` blocks, at the store it was offered to. */
  function Fates(start: Progress, bs: seq<Block>, n: nat, chain: Chain, others: Others): (fs: seq<Fate>)
    requires n <= |bs|
    ensures |fs| == n
  {
    if n == 0 then []
    else
      var p := OfferAll(start, bs, n - 1, chain, others);
      Fates(start, bs, n - 1, chain, others) + [FateOf(p.store, bs[n - 1], chain)]
  }

  lemma {:induction false} FateAt(start: Progress, bs: seq<Block>, n: nat, chain: Chain, others: Others, i: nat)
    requires i < n <= |bs|
    ensures Fates(start, bs, n, chain, others)[i] ==
            FateOf(OfferAll(start, bs, i, chain, others).store, bs[i], chain)
    decreases n
  {
    if i < n - 1 {
      FateAt(start, bs, n - 1, chain, others, i);
    }
  }

  /** The blocks with a given fate, in order. */
  function WithFate(bs: seq<Block>, fs: seq<Fate>, f: Fate): seq<Block>
    requires |fs| <= |bs|
    decreases |fs|
  {
    if fs == [] then []
    else
      var n := |fs| - 1;
      WithFate(bs, fs[..n], f) + if fs[n] == f then [bs[n]] else []
  }

  lemma OfferByFate(p: Progress, b: Block, chain: Chain)
    ensures var q, f := Offer(p, b, chain), FateOf(p.store, b, chain);
            && q.added == p.added + (if f == Asked(Added) then 1 else 0)
            && q.failed == p.failed + (if f == Asked(Rejected) then 1 else 0)
            && q.orphans == p.orphans + (if f == Lacking then [b] else [])
            && q.store == if f == Asked(Added) then p.store[b.hash := b] else p.store
  {
  }

  /** The counts and the orphan pool are those of the fates. */
  ghost predicate Tallied(start: Progress, p: Progress, bs: seq<Block>, fs: seq<Fate>)
    requires |fs| <= |bs|
  {
    && p.added == start.added + multiset(fs)[Asked(Added)]
    && p.failed == start.failed + multiset(fs)[Asked(Rejected)]
    && p.orphans == start.orphans + WithFate(bs, fs, Lacking)
  }

  lemma TurnTallied(start: Progress, p: Progress, bs: seq<Block>, fs: seq<Fate>, chain: Chain, others: Others)
    requires |fs| < |bs| && Tallied(start, p, bs, fs)
    ensures Tallied(start, Turn(p, bs, |fs|, chain, others), bs, fs + [FateOf(p.store, bs[|fs|], chain)])
  {
    var f := FateOf(p.store, bs[|fs|], chain);
    OfferByFate(p, bs[|fs|], chain);
    assert (fs + [f])[..|fs|] == fs;
    assert multiset(fs + [f]) == multiset(fs) + multiset{f};
  }

  /**
   * Whatever the chain answers and whatever the rest of the node does: the blocks counted as added are those the chain
   * answered Added at the store they were offered to, those counted as failed the ones it refused there, and the orphan
   * pool gains, in order, exactly those that lacked a parent there.
   */
  lemma {:induction false} SyncTallied(start: Progress, bs: seq<Block>, n: nat, chain: Chain, others: Others)
    requires n <= |bs|
    ensures Tallied(start, OfferAll(start, bs, n, chain, others), bs, Fates(start, bs, n, chain, others))
  {
    if n > 0 {
      SyncTallied(start, bs, n - 1, chain, others);
      TurnTallied(start, OfferAll(start, bs, n - 1, chain, others), bs, Fates(start, bs, n - 1, chain, others),
                  chain, others);
    }
  }

  /** The fate of block i, offered undisturbed. */
  function FateAlone(start: Progress, bs: seq<Block>, i: nat, chain: Chain): Fate
    requires i < |bs|
  {
    FateOf(OfferAll(start, bs, i, chain, Alone).store, bs[i], chain)
  }

  lemma {:induction false} StoreKeeps(start: Progress, bs: seq<Block>, m: nat, n: nat, chain: Chain, h: Hash)
    requires m <= n <= |bs| && h in OfferAll(start, bs, m, chain, Alone).store
    ensures h in OfferAll(start, bs, n, chain, Alone).store
    ensures OfferAll(start, bs, n, chain, Alone).store[h] == OfferAll(start, bs, m, chain, Alone).store[h]
    decreases n
  {
    if m < n {
      StoreKeeps(start, bs, m, n - 1, chain, h);
      OfferByFate(OfferAll(start, bs, n - 1, chain, Alone), bs[n - 1], chain);
    }
  }

  lemma AddedIsStored(start: Progress, bs: seq<Block>, n: nat, chain: Chain, i: nat)
    requires i < n <= |bs| && FateAlone(start, bs, i, chain) == Asked(Added)
    ensures var store := OfferAll(start, bs, n, chain, Alone).store;
            bs[i].hash in store && store[bs[i].hash] == bs[i]
  {
    OfferByFate(OfferAll(start, bs, i, chain, Alone), bs[i], chain);
    StoreKeeps(start, bs, i + 1, n, chain, bs[i].hash);
  }

  lemma {:induction false} StoredWasAdded(start: Progress, bs: seq<Block>, n: nat, chain: Chain, h: Hash)
    returns (i: nat)
    requires n <= |bs| && h in OfferAll(start, bs, n, chain, Alone).store && h !in start.store
    ensures i < n && FateAlone(start, bs, i, chain) == Asked(Added)
    ensures bs[i].hash == h && OfferAll(start, bs, n, chain, Alone).store[h] == bs[i]
    decreases n
  {
    var p := OfferAll(start, bs, n - 1, chain, Alone);
    OfferByFate(p, bs[n - 1], chain);
    if h in p.store {
      i := StoredWasAdded(start, bs, n - 1, chain, h);
    } else {
      i := n - 1;
    }
  }

  lemma {:induction false} StoreGrown(start: Progress, bs: seq<Block>, n: nat, chain: Chain)
    requires n <= |bs|
    ensures var p := OfferAll(start, bs, n, chain, Alone);
            |p.store| - p.added == |start.store| - start.added
  {
    if n > 0 {
      StoreGrown(start, bs, n - 1, chain);
      StoreGrows(OfferAll(start, bs, n - 1, chain, Alone), bs[n - 1], chain);
    }
  }

  lemma StoreGrows(p: Progress, b: Block, chain: Chain)
    ensures var q := Offer(p, b, chain);
            |q.store| - q.added == |p.store| - p.added
  {
    if b.hash !in p.store {
      assert p.store[b.hash := b].Keys == p.store.Keys + {b.hash};
      assert |p.store[b.hash := b]| == |p.store[b.hash := b].Keys| && |p.store| == |p.store.Keys|;
    }
  }

  /**
   * Whatever the chain answers: undisturbed, the store keeps what it had and gains exactly the blocks the chain
   * answered Added at the store they were offered to, each under its own hash, so a refused or orphaned block is never
   * stored; and it grows by the number counted as added.
   */
  lemma SyncStoresAdded(start: Progress, bs: seq<Block>, n: nat, chain: Chain)
    requires n <= |bs|
    ensures var p := OfferAll(start, bs, n, chain, Alone);
            && Extends(p.store, start.store) && |p.store| - p.added == |start.store| - start.added
            && (forall i | 0 <= i < n && FateAlone(start, bs, i, chain) == Asked(Added) ::
                  bs[i].hash in p.store && p.store[bs[i].hash] == bs[i])
            && (forall h | h in p.store && h !in start.store ::
                  exists i | 0 <= i < n ::
                    FateAlone(start, bs, i, chain) == Asked(Added) && bs[i].hash == h && p.store[h] == bs[i])
  {
    var p := OfferAll(start, bs, n, chain, Alone);
    StoreGrown(start, bs, n, chain);
    forall h | h in start.store
      ensures h in p.store && p.store[h] == start.store[h]
    {
      StoreKeeps(start, bs, 0, n, chain, h);
    }
    forall i | 0 <= i < n && FateAlone(start, bs, i, chain) == Asked(Added)
      ensures bs[i].hash in p.store && p.store[bs[i].hash] == bs[i]
    {
      AddedIsStored(start, bs, n, chain, i);
    }
    forall h | h in p.store && h !in start.store
      ensures exists i | 0 <= i < n ::
                FateAlone(start, bs, i, chain) == Asked(Added) && bs[i].hash == h && p.store[h] == bs[i]
    {
      var i := StoredWasAdded(start, bs, n, chain, h);
    }
  }

  /** Undisturbed, the store ends holding exactly what it held and what was received. */
  lemma SyncIsUnion(store: Store, received: seq<Block>, chain: Chain)
    requires Closed(store) && AcceptsReady(chain) && LowerParents(store, received)
    ensures var bs := Sorted(received);
            var p := OfferAll(Progress(store, [], 0, 0), bs, |bs|, chain, Alone);
            && p.orphans == [] && Extends(p.store, store)
            && (forall h :: h in p.store <==> h in store || exists i | 0 <= i < |received| :: received[i].hash == h)
            && (forall h | h in p.store && h !in store ::
                  exists i | 0 <= i < |received| :: received[i].hash == h && p.store[h] == received[i])
  {
    SyncComplete(store, received, chain, Alone);
    var bs, start := Sorted(received), Progress(store, [], 0, 0);
    SyncExact(start, bs, |bs|, chain);
    SortedMultiset(received);
    var p := OfferAll(start, bs, |bs|, chain, Alone);
    NewAreReceived(start, bs, |bs|, chain);
    forall h | h in p.store && h !in store
      ensures exists i | 0 <= i < |received| :: received[i].hash == h && p.store[h] == received[i]
    {
      var j := NewFrom(store, p.store, bs, |bs|, h);
      var i := SameMember(bs, received, j);
    }
  }

  // ---------------------------------------------------------------- the loop

  method SyncBlocks(received: seq<Block>, store: Store, chain: Chain, others: Others) returns (p: Progress)
    ensures p == OfferAll(Progress(store, [], 0, 0), Sorted(received), |Sorted(received)|, chain, others)
  {
    var bs := Sorted(received);
    ghost var start := Progress(store, [], 0, 0);
    p := Progress(store, [], 0, 0);
    var i := 0;
    while i < |bs|
      invariant i <= |bs| && p == OfferAll(start, bs, i, chain, others)
    {
      var b := bs[i];
      if b.hash !in p.store {
        if HasParents(p.store, b) {
          match chain(p.store, b) {
            case Added => p := p.(store := p.store[b.hash := b], added := p.added + 1);
            case AlreadyThere =>
            case Rejected => p := p.(failed := p.failed + 1);
          }
        } else {
          p := p.(orphans := p.orphans + [b]);
        }
      }
      p := p.(store := others(i, p.store));
      i := i + 1;
    }
  }
}
