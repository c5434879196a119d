/**
 * The admission of a transaction as other tasks see it: one atomic access or locked region at a time. Pushing to a
 * pool and counting the push are two steps, because the pool's lock is let go in between.
 */
module Admission {
  import opened Types
  import opened Fees
  import opened Pools
  import opened Mempool

  /** What comes after an addition: promotion from a nonce still to be read, or from a known one. */
  datatype Then = Then(sender: nat, nonce: Option<nat>)

  datatype Submission =
    | Off
    | Entered(tx: Transaction)
    | Choosing(x: Pooled, next: Then)
    | Sizing(t: Stream, x: Pooled, next: Then)
    | Weighing(t: Stream, x: Pooled, next: Then)
    | Evicting(t: Stream, x: Pooled, next: Then)
    | Routing(x: Pooled, next: Then)
    | Pushing(t: Stream, x: Pooled, next: Then)
    | Owing(t: Stream, next: Then)
    | Promoting(sender: nat, nonce: nat)

  /** What a submission reads from outside: its transaction, the clock, and the chain at two moments. */
  datatype Input = Input(tx: Transaction, now: nat, baseFee: nat, expected: nat, reread: nat)

  datatype Moment = Moment(mem: State, at: Submission)

  function Forgotten(m: State, h: Hash): State {
    m.(members := m.members - {h})
  }

  /** A nonce not too far ahead, not queued yet, and room in the sender's queue. */
  predicate Queueable(m: State, tx: Transaction, i: Input) {
    && i.expected < tx.nonce <= i.expected + MAX_FUTURE_NONCE_GAP
    && |QueueOf(m, tx.sender)| < MAX_FUTURE_TXS_PER_SENDER && tx.nonce !in QueueOf(m, tx.sender)
  }

  predicate Rejected(m: State, tx: Transaction, i: Input) {
    !CanAfford(tx, i.baseFee) || (tx.nonce != i.expected && !Queueable(m, tx, i))
  }

  /** The judgement of a transaction already entered in the membership set. */
  function Judge(m: State, tx: Transaction, i: Input): Moment {
    if Rejected(m, tx, i) then Moment(Forgotten(m, tx.hash), Off)
    else if tx.nonce == i.expected then Moment(m, Choosing(Pooled(tx, i.now), Then(tx.sender, None)))
    else
      var q := QueueOf(m, tx.sender);
      Moment(m.(futures := m.futures[tx.sender := q[tx.nonce := Pooled(tx, i.now)]]), Off)
  }

  /** Under the write lock the lowest-paying entry is looked up anew, and goes whatever it pays. */
  function EvictNow(m: State, t: Stream): State {
    var p := Of(m.pools, t);
    if p.txs == [] then m
    else
      var i := Lowest(p.txs);
      Forgotten(m.(pools := With(m.pools, t, Pool(SwapRemove(p.txs, i), p.size - 1))), p.txs[i].tx.hash)
  }

  function PushOnly(m: State, t: Stream, x: Pooled): State {
    var p := Of(m.pools, t);
    m.(pools := With(m.pools, t, Pool(p.txs + [x], p.size)))
  }

  function CountOne(m: State, t: Stream): State {
    var p := Of(m.pools, t);
    m.(pools := With(m.pools, t, p.(size := p.size + 1)))
  }

  function PromoteOne(m: State, sender: nat, nonce: nat): Moment {
    var q: Queue := QueueOf(m, sender);
    if nonce in q then
      Moment(Forgotten(m.(futures := m.futures[sender := q - {nonce}]), q[nonce].tx.hash),
             Choosing(q[nonce], Then(sender, Some(nonce + 1))))
    else Moment(m.(futures := if q == map[] then m.futures - {sender} else m.futures), Off)
  }

  /** The next step of a submission. */
  function Advance(s: Moment, i: Input): Moment {
    var m := s.mem;
    match s.at
    case Off =>
      if i.tx.hash in m.members then s
      else Moment(m.(members := m.members + {i.tx.hash}), Entered(i.tx))
    case Entered(tx) => Judge(m, tx, i)
    case Choosing(x, next) => Moment(m, Sizing(NextStream(m), x, next))
    case Sizing(t, x, next) =>
      Moment(m, if Load(Of(m.pools, t)) >= Cap(t) then Weighing(t, x, next) else Routing(x, next))
    case Weighing(t, x, next) =>
      Moment(m, if Evicts(Of(m.pools, t).txs, x.tx.fee) then Evicting(t, x, next) else Routing(x, next))
    case Evicting(t, x, next) => Moment(EvictNow(m, t), Routing(x, next))
    case Routing(x, next) =>
      Moment(m.(turn := if m.single then m.turn else (m.turn + 1) % TWO_64), Pushing(NextStream(m), x, next))
    case Pushing(t, x, next) => Moment(PushOnly(m, t, x), Owing(t, next))
    case Owing(t, next) =>
      Moment(CountOne(m, t), Promoting(next.sender, if next.nonce.Some? then next.nonce.value else i.reread))
    case Promoting(sender, nonce) => PromoteOne(m, sender, nonce)
  }

  // ---------------------------------------------------------------- what each step keeps

  /** The stream whose counter is one push behind on this submission's account. */
  function Owes(p: Submission): multiset<Stream> {
    if p.Owing? then multiset{p.t} else multiset{}
  }

  function Gap(m: State, t: Stream): int {
    |Of(m.pools, t).txs| - Of(m.pools, t).size
  }

  lemma EvictionGap(m: State, t: Stream, u: Stream)
    ensures Gap(EvictNow(m, t), u) == Gap(m, u)
  {
  }

  lemma PushGap(m: State, t: Stream, x: Pooled, u: Stream)
    ensures Gap(PushOnly(m, t, x), u) == Gap(m, u) + if u == t then 1 else 0
    ensures Gap(CountOne(m, t), u) == Gap(m, u) - if u == t then 1 else 0
  {
  }

  lemma PromotionGap(m: State, sender: nat, nonce: nat)
    ensures var r := PromoteOne(m, sender, nonce);
            r.mem.pools == m.pools && r.mem.legacy == m.legacy && Owes(r.at) == multiset{}
  {
  }

  lemma JudgeGap(m: State, tx: Transaction, i: Input)
    ensures var r := Judge(m, tx, i);
            r.mem.pools == m.pools && r.mem.legacy == m.legacy && Owes(r.at) == multiset{}
  {
  }

  /** A step changes the gap between a pool's length and its counter by what the submission comes to owe. */
  lemma AdvanceGap(s: Moment, i: Input, t: Stream)
    ensures var r := Advance(s, i);
            Gap(r.mem, t) - Owes(r.at)[t] == Gap(s.mem, t) - Owes(s.at)[t] && r.mem.legacy == s.mem.legacy
  {
    match s.at
    case Entered(tx) => JudgeGap(s.mem, tx, i);
    case Evicting(u, x, next) => EvictionGap(s.mem, u, t);
    case Pushing(u, x, next) => PushGap(s.mem, u, x, t);
    case Owing(u, next) => PushGap(s.mem, u, Pooled(i.tx, 0), t);
    case Promoting(sender, nonce) => PromotionGap(s.mem, sender, nonce);
    case _ =>
  }

  lemma AdvanceInFlight(s: Moment, i: Input)
    ensures Advance(s, i).mem.inFlight == s.mem.inFlight
  {
  }

  // ---------------------------------------------------------------- a submission left alone

  function Steps(s: Moment, i: Input, n: nat): Moment
    decreases n
  {
    if n == 0 then s else Steps(Advance(s, i), i, n - 1)
  }

  lemma {:induction false} StepsAdd(s: Moment, i: Input, a: nat, b: nat)
    ensures Steps(s, i, a + b) == Steps(Steps(s, i, a), i, b)
    decreases a
  {
    if a > 0 {
      StepsAdd(Advance(s, i), i, a - 1, b);
    }
  }

  lemma RoutingAlone(m: State, x: Pooled, next: Then, i: Input)
    ensures var t := NextStream(m);
            var r := m.(pools := With(m.pools, t, Push(Of(m.pools, t), x)),
                        turn := if m.single then m.turn else (m.turn + 1) % TWO_64);
            Steps(Moment(m, Routing(x, next)), i, 3) ==
              Moment(r, Promoting(next.sender, if next.nonce.Some? then next.nonce.value else i.reread))
  {
    var a := Advance(Moment(m, Routing(x, next)), i);
    var b := Advance(a, i);
    assert Steps(b, i, 1) == Advance(b, i);
    assert Steps(a, i, 2) == Steps(b, i, 1);
  }

  /** One addition, left alone, is the addition as a whole. */
  lemma AdditionAlone(m: State, x: Pooled, next: Then, i: Input) returns (n: nat)
    ensures Steps(Moment(m, Choosing(x, next)), i, n) ==
            Moment(AddToPool(m, x), Promoting(next.sender, if next.nonce.Some? then next.nonce.value else i.reread))
  {
    var t := NextStream(m);
    var s := Moment(m, Choosing(x, next));
    var room := if Load(Of(m.pools, t)) >= Cap(t) then EvictLowest(m, t, x.tx.fee) else m;
    var k: nat := if Load(Of(m.pools, t)) < Cap(t) then 2 else if Evicts(Of(m.pools, t).txs, x.tx.fee) then 4 else 3;
    RoomAlone(m, x, next, i);
    RoutingAlone(room, x, next, i);
    StepsAdd(s, i, k, 3);
    n := k + 3;
  }

  lemma RoomAlone(m: State, x: Pooled, next: Then, i: Input)
    ensures var t := NextStream(m);
            var full, outbid := Load(Of(m.pools, t)) >= Cap(t), Evicts(Of(m.pools, t).txs, x.tx.fee);
            Steps(Moment(m, Choosing(x, next)), i, if !full then 2 else if outbid then 4 else 3) ==
            Moment(if full then EvictLowest(m, t, x.tx.fee) else m, Routing(x, next))
  {
    var s := Moment(m, Choosing(x, next));
    var a := Advance(s, i);
    var b := Advance(a, i);
    var c := Advance(b, i);
    assert Steps(s, i, 2) == b by { assert Steps(a, i, 1) == b; }
    assert Steps(s, i, 3) == c by { assert Steps(a, i, 2) == Steps(b, i, 1) == c; }
    assert Steps(s, i, 4) == Advance(c, i) by {
      assert Steps(a, i, 3) == Steps(b, i, 2) == Steps(c, i, 1) == Advance(c, i);
    }
  }

  lemma {:induction false} FuturesApart(m: State, f: map<nat, Queue>, q: Queue, nonce: nat)
    ensures var (r, rest) := PromoteFrom(m, q, nonce);
            PromoteFrom(m.(futures := f), q, nonce) == (r.(futures := f), rest)
    decreases q.Keys
  {
    if nonce in q {
      assert nonce !in (q - {nonce}).Keys;
      var gone := Forgotten(m, q[nonce].tx.hash);
      assert AddToPool(gone.(futures := f), q[nonce]) == AddToPool(gone, q[nonce]).(futures := f);
      FuturesApart(AddToPool(gone, q[nonce]), f, q - {nonce}, nonce + 1);
    }
  }

  lemma StoreTwice(f: map<nat, Queue>, sender: nat, q: Queue, r: Queue)
    ensures StoreQueue(f[sender := q], sender, r) == StoreQueue(f, sender, r)
  {
    assert f[sender := q] - {sender} == f - {sender};
  }

  lemma PromoteStep(m: State, sender: nat, nonce: nat)
    requires nonce in QueueOf(m, sender)
    ensures var q := QueueOf(m, sender);
            var added := AddToPool(PromoteOne(m, sender, nonce).mem, q[nonce]);
            Promote(m, sender, nonce) == Promote(added, sender, nonce + 1)
  {
    var q: Queue := QueueOf(m, sender);
    var f := m.futures[sender := q - {nonce}];
    var gone := Forgotten(m, q[nonce].tx.hash);
    var added := AddToPool(gone, q[nonce]);
    assert AddToPool(PromoteOne(m, sender, nonce).mem, q[nonce]) == added.(futures := f);
    FuturesApart(added, f, q - {nonce}, nonce + 1);
    StoreTwice(m.futures, sender, q - {nonce}, PromoteFrom(added, q - {nonce}, nonce + 1).1);
  }

  /** Promotion, left alone, is the promotion as a whole. */
  lemma {:induction false} PromotionAlone(m: State, sender: nat, nonce: nat, i: Input) returns (n: nat)
    ensures Steps(Moment(m, Promoting(sender, nonce)), i, n) == Moment(Promote(m, sender, nonce), Off)
    decreases QueueOf(m, sender).Keys
  {
    var s := Moment(m, Promoting(sender, nonce));
    var q: Queue := QueueOf(m, sender);
    var first := Advance(s, i);
    assert Steps(s, i, 1) == first by { assert Steps(first, i, 0) == first; }
    n := 1;
    if nonce in q {
      var a := AdditionAlone(first.mem, q[nonce], Then(sender, Some(nonce + 1)), i);
      var added := AddToPool(first.mem, q[nonce]);
      assert QueueOf(added, sender) == q - {nonce} && nonce !in (q - {nonce}).Keys;
      var rest := PromotionAlone(added, sender, nonce + 1, i);
      StepsAdd(s, i, 1, a);
      StepsAdd(s, i, 1 + a, rest);
      PromoteStep(m, sender, nonce);
      n := 1 + a + rest;
    } else if sender in m.futures {
      assert m.futures[sender := q] == m.futures;
    } else {
      assert m.futures - {sender} == m.futures;
    }
  }

  function Entry(m: State, h: Hash): State {
    m.(members := m.members + {h})
  }

  predicate Ready(i: Input) {
    CanAfford(i.tx, i.baseFee) && i.tx.nonce == i.expected
  }

  lemma JudgedAlone(m: State, i: Input)
    requires i.tx.hash !in m.members
    ensures Steps(Moment(m, Off), i, 2) == Judge(Entry(m, i.tx.hash), i.tx, i)
  {
    var a := Advance(Moment(m, Off), i);
    assert Steps(a, i, 1) == Steps(Advance(a, i), i, 0);
  }

  lemma JudgedAsAdmitted(m: State, i: Input)
    requires i.tx.hash !in m.members && !Ready(i)
    ensures Judge(Entry(m, i.tx.hash), i.tx, i) ==
            Moment(AddTransaction(m, i.tx, i.now, i.baseFee, i.expected, i.reread).0, Off)
  {
  }

  lemma ReadyAlone(m: State, i: Input) returns (n: nat)
    requires Ready(i)
    ensures Steps(Judge(m, i.tx, i), i, n) ==
            Moment(Promote(AddToPool(m, Pooled(i.tx, i.now)), i.tx.sender, i.reread), Off)
  {
    var x := Pooled(i.tx, i.now);
    var a := AdditionAlone(m, x, Then(i.tx.sender, None), i);
    var b := PromotionAlone(AddToPool(m, x), i.tx.sender, i.reread, i);
    StepsAdd(Judge(m, i.tx, i), i, a, b);
    n := a + b;
  }

  /** A submission left alone ends exactly as the admission function says, accepted or rejected. */
  lemma SubmissionAlone(m: State, i: Input) returns (n: nat)
    ensures Steps(Moment(m, Off), i, n) ==
            Moment(AddTransaction(m, i.tx, i.now, i.baseFee, i.expected, i.reread).0, Off)
  {
    n := 0;
    if i.tx.hash !in m.members {
      JudgedAlone(m, i);
      if Ready(i) {
        n := ReadyAlone(Entry(m, i.tx.hash), i);
        StepsAdd(Moment(m, Off), i, 2, n);
        n := 2 + n;
      } else {
        JudgedAsAdmitted(m, i);
        n := 2;
      }
    }
  }
}
