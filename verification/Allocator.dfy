/**
 * The block number allocator: reserve, confirm, release and stale cleanup over one pending map.
 */
module Allocator {
  import opened Types

  // five minutes, on a clock counting nanoseconds
  const STALE_AFTER: nat := 300_000_000_000

  datatype Reservation = Reservation(stream: Stream, createdAt: nat)

  /** The allocator's shared state; the free list is kept smallest first. */
  datatype Alloc = Alloc(next: nat, pending: map<nat, Reservation>, failed: nat, free: seq<nat>)

  function Fresh(start: nat): Alloc {
    Alloc(start, map[], 0, [])
  }

  function Offered(a: Alloc): nat {
    if a.free != [] then a.free[0] else a.next
  }

  function Reserve(a: Alloc, stream: Stream, now: nat): Alloc {
    var pending := a.pending[Offered(a) := Reservation(stream, now)];
    if a.free != [] then a.(free := a.free[1..], pending := pending)
    else a.(next := a.next + 1, pending := pending)
  }

  function Confirm(a: Alloc, n: nat): Alloc {
    a.(pending := a.pending - {n})
  }

  function Release(a: Alloc, n: nat): Alloc {
    if n in a.pending then a.(pending := a.pending - {n}, failed := a.failed + 1) else a
  }

  function Stale(a: Alloc, now: nat): set<nat> {
    set n | n in a.pending && SaturatingSub(now, a.pending[n].createdAt) > STALE_AFTER
  }

  /** The background task also counts what it drops as failed. */
  function Cleanup(a: Alloc, now: nat, counted: bool): Alloc {
    a.(pending := a.pending - Stale(a, now), failed := a.failed + if counted then |Stale(a, now)| else 0)
  }

  function SetNext(a: Alloc, n: nat): Alloc {
    a.(next := n)
  }

  function ClearFree(a: Alloc): Alloc {
    a.(free := [])
  }

  function ClearPending(a: Alloc): Alloc {
    a.(pending := map[])
  }

  /** A reset is three accesses, each under its own lock. */
  function Reset(a: Alloc, n: nat): Alloc {
    ClearPending(ClearFree(SetNext(a, n)))
  }

  /** The allocator object; every method does to the fields what the function of its name does to the value. */
  class BlockNumberAllocator {
    var next: nat
    var pending: map<nat, Reservation>
    var failed: nat
    var free: seq<nat>

    function View(): Alloc
      reads this
    {
      Alloc(next, pending, failed, free)
    }

    constructor (start: nat)
      ensures View() == Fresh(start)
    {
      next, pending, failed, free := start, map[], 0, [];
    }

    method SetNextAvailable(n: nat)
      modifies this
      ensures View() == SetNext(old(View()), n)
    {
      next := n;
    }

    method ResetTo(n: nat)
      modifies this
      ensures View() == Reset(old(View()), n)
    {
      next := n;
      free := [];
      pending := map[];
    }

    method ReserveNumber(stream: Stream, now: nat) returns (num: nat)
      modifies this
      ensures View() == Reserve(old(View()), stream, now) && num == Offered(old(View()))
    {
      if free != [] {
        num := free[0];
        free := free[1..];
        pending := pending[num := Reservation(stream, now)];
        return;
      }
      num := next;
      next := next + 1;
      pending := pending[num := Reservation(stream, now)];
    }

    method ConfirmNumber(n: nat) returns (ok: bool)
      modifies this
      ensures View() == Confirm(old(View()), n) && (ok <==> n in old(pending))
    {
      ok := n in pending;
      pending := pending - {n};
    }

    method ReleaseNumber(n: nat)
      modifies this
      ensures View() == Release(old(View()), n)
    {
      if n in pending {
        pending := pending - {n};
        failed := failed + 1;
      }
    }

    method CleanupStale(now: nat) returns (stale: set<nat>)
      modifies this
      ensures View() == Cleanup(old(View()), now, false) && stale == Stale(old(View()), now)
    {
      stale := set n | n in pending && SaturatingSub(now, pending[n].createdAt) > STALE_AFTER;
      var todo := stale;
      while todo != {}
        invariant todo <= stale
        invariant next == old(next) && failed == old(failed) && free == old(free)
        invariant pending == old(pending) - (stale - todo)
        decreases |todo|
      {
        var n :| n in todo;
        pending := pending - {n};
        todo := todo - {n};
      }
    }
  }

  // ---------------------------------------------------------------- runs

  datatype Op =
    | DoReserve(stream: Stream, now: nat)
    | DoConfirm(n: nat)
    | DoRelease(n: nat)
    | DoCleanup(now: nat, counted: bool)
    | DoSetNext(n: nat)
    | DoClearFree
    | DoClearPending

  /** The allocator with a record of its past: which numbers it gave out and how each was closed. */
  datatype History = History(
    alloc: Alloc,
    reserved: seq<nat>,
    confirmed: multiset<nat>,
    released: multiset<nat>,
    stale: multiset<nat>,
    lowered: bool)

  function Begin(start: nat): History {
    History(Fresh(start), [], multiset{}, multiset{}, multiset{}, false)
  }

  /** `lowered` records that the pending map was cleared, or the next number set back. */
  function Step(h: History, op: Op): History {
    var a := h.alloc;
    match op
    case DoReserve(stream, now) =>
      h.(alloc := Reserve(a, stream, now), reserved := h.reserved + [Offered(a)])
    case DoConfirm(n) =>
      h.(alloc := Confirm(a, n), confirmed := h.confirmed + if n in a.pending then multiset{n} else multiset{})
    case DoRelease(n) =>
      h.(alloc := Release(a, n), released := h.released + if n in a.pending then multiset{n} else multiset{})
    case DoCleanup(now, counted) =>
      h.(alloc := Cleanup(a, now, counted), stale := h.stale + multiset(Stale(a, now)))
    case DoSetNext(n) => h.(alloc := SetNext(a, n), lowered := h.lowered || n < a.next)
    case DoClearFree => h.(alloc := ClearFree(a))
    case DoClearPending => h.(alloc := ClearPending(a), lowered := true)
  }

  function Run(h: History, ops: seq<Op>): History
    decreases |ops|
  {
    if ops == [] then h else Run(Step(h, ops[0]), ops[1..])
  }

  ghost predicate Increasing(s: seq<nat>) {
    forall i, j | 0 <= i < j < |s| :: s[i] < s[j]
  }

  /** Every number given out is in exactly one place: pending, confirmed, released or stale. */
  ghost predicate Accounted(h: History) {
    multiset(h.reserved) == multiset(h.alloc.pending.Keys) + h.confirmed + h.released + h.stale
  }

  ghost predicate Inv(h: History) {
    && h.alloc.free == []
    && (!h.lowered ==>
          && Increasing(h.reserved)
          && (forall i | 0 <= i < |h.reserved| :: h.reserved[i] < h.alloc.next)
          && Accounted(h))
  }

  lemma PendingBelowNext(h: History, k: nat)
    requires Inv(h) && !h.lowered && k in h.alloc.pending
    ensures k < h.alloc.next
  {
    assert k in multiset(h.alloc.pending.Keys);
    assert k in multiset(h.reserved);
  }

  /** Moving `gone` from one of four parts to the other three keeps their sum. */
  lemma Rebalance(keys: multiset<nat>, rest: multiset<nat>, gone: multiset<nat>,
                  a: multiset<nat>, b: multiset<nat>, c: multiset<nat>,
                  x: multiset<nat>, y: multiset<nat>, z: multiset<nat>)
    requires keys == rest + gone && x + y + z == a + b + c + gone
    ensures rest + x + y + z == keys + a + b + c
  {
    assert rest + x + y + z == rest + (x + y + z);
    assert rest + (a + b + c + gone) == rest + gone + a + b + c;
  }

  lemma ReserveAccounted(h: History, stream: Stream, now: nat)
    requires h.alloc.free == [] && Accounted(h) && h.alloc.next !in h.alloc.pending
    ensures Accounted(Step(h, DoReserve(stream, now)))
  {
    var n, keys := h.alloc.next, h.alloc.pending.Keys;
    var r := Step(h, DoReserve(stream, now));
    assert r.alloc.pending.Keys == keys + {n};
    assert multiset(keys + {n}) == multiset(keys) + multiset{n};
    Rebalance(multiset(keys + {n}), multiset(keys), multiset{n}, h.confirmed, h.released, h.stale,
      h.confirmed + multiset{n}, h.released, h.stale);
  }

  lemma ReserveKeeps(h: History, stream: Stream, now: nat)
    requires Inv(h) && !h.lowered
    ensures Inv(Step(h, DoReserve(stream, now)))
  {
    assert h.alloc.next !in h.alloc.pending by {
      forall k | k in h.alloc.pending ensures k < h.alloc.next { PendingBelowNext(h, k); }
    }
    ReserveAccounted(h, stream, now);
  }

  /** Taking numbers out of the pending map and recording them under one heading keeps the account. */
  lemma DropKeeps(h: History, r: History, gone: set<nat>)
    requires Inv(h) && !h.lowered
    requires gone <= h.alloc.pending.Keys && r.alloc.pending.Keys == h.alloc.pending.Keys - gone
    requires r.alloc.next == h.alloc.next && r.alloc.free == h.alloc.free && r.reserved == h.reserved
    requires r.confirmed + r.released + r.stale == h.confirmed + h.released + h.stale + multiset(gone)
    ensures Inv(r)
  {
    assert multiset(h.alloc.pending.Keys) == multiset(r.alloc.pending.Keys) + multiset(gone);
    Rebalance(multiset(h.alloc.pending.Keys), multiset(r.alloc.pending.Keys), multiset(gone),
      h.confirmed, h.released, h.stale, r.confirmed, r.released, r.stale);
  }

  lemma StepInv(h: History, op: Op)
    requires Inv(h)
    ensures Inv(Step(h, op))
  {
    if !h.lowered {
      var r := Step(h, op);
      match op
      case DoReserve(stream, now) => ReserveKeeps(h, stream, now);
      case DoConfirm(n) => DropKeeps(h, r, if n in h.alloc.pending then {n} else {});
      case DoRelease(n) => DropKeeps(h, r, if n in h.alloc.pending then {n} else {});
      case DoCleanup(now, counted) => DropKeeps(h, r, Stale(h.alloc, now));
      case DoSetNext(n) =>
      case DoClearFree =>
      case DoClearPending =>
    }
  }

  lemma {:induction false} RunInv(h: History, ops: seq<Op>)
    requires Inv(h)
    ensures Inv(Run(h, ops))
    decreases |ops|
  {
    if ops != [] {
      StepInv(h, ops[0]);
      RunInv(Step(h, ops[0]), ops[1..]);
    }
  }

  lemma {:induction false} IncreasingDistinct(s: seq<nat>, n: nat)
    requires Increasing(s)
    ensures multiset(s)[n] <= 1
  {
    if s != [] {
      var init := s[..|s| - 1];
      assert s == init + [s[|s| - 1]];
      IncreasingDistinct(init, n);
      assert n == s[|s| - 1] ==> n !in init;
    }
  }

  /**
   * In every run that never resets or sets the counter back: the numbers handed out strictly increase,
   * each of them is in exactly one of pending, confirmed, released and stale, and none is confirmed twice.
   * In every run at all the free list stays empty, so a number is never recycled.
   */
  lemma AllocationSound(start: nat, ops: seq<Op>, n: nat)
    ensures var h := Run(Begin(start), ops);
            && h.alloc.free == []
            && (!h.lowered ==>
                  && Increasing(h.reserved)
                  && (forall k | k in h.alloc.pending :: k < h.alloc.next)
                  && ((if n in h.alloc.pending then 1 else 0) + h.confirmed[n] + h.released[n] + h.stale[n] ==
                      if n in h.reserved then 1 else 0))
  {
    RunInv(Begin(start), ops);
    var h := Run(Begin(start), ops);
    if !h.lowered {
      IncreasingDistinct(h.reserved, n);
      assert n in h.reserved <==> multiset(h.reserved)[n] > 0;
      assert multiset(h.alloc.pending.Keys)[n] == if n in h.alloc.pending then 1 else 0;
      forall k | k in h.alloc.pending
        ensures k < h.alloc.next
      {
        PendingBelowNext(h, k);
      }
    }
  }

  /** A clean-up drops exactly the reservations older than five minutes, and leaves the others as they are. */
  lemma CleanupExact(a: Alloc, now: nat, counted: bool)
    ensures var r := Cleanup(a, now, counted);
            && (forall n :: n in r.pending <==> n in a.pending && now <= a.pending[n].createdAt + 300_000_000_000)
            && (forall n | n in r.pending :: r.pending[n] == a.pending[n]) && r.next == a.next && r.free == a.free
  {
  }

  /** Whether an operation leaves a reservation made at `since` alone, whatever else it does. */
  predicate Spares(op: Op, n: nat, since: nat) {
    match op
    case DoConfirm(k) => k != n
    case DoRelease(k) => k != n
    case DoCleanup(now, _) => now <= since + 300_000_000_000
    case DoClearPending => false
    case _ => true
  }

  lemma StepSpares(h: History, op: Op, n: nat, r: Reservation)
    requires h.alloc.free == [] && n < h.alloc.next && n in h.alloc.pending && h.alloc.pending[n] == r
    requires Spares(op, n, r.createdAt) && (op.DoSetNext? ==> op.n > n)
    ensures var g := Step(h, op).alloc;
            g.free == [] && n < g.next && n in g.pending && g.pending[n] == r
  {
    if op.DoCleanup? {
      CleanupExact(h.alloc, op.now, op.counted);
    }
  }

  lemma {:induction false} RunSpares(h: History, ops: seq<Op>, n: nat, r: Reservation)
    requires h.alloc.free == [] && n < h.alloc.next && n in h.alloc.pending && h.alloc.pending[n] == r
    requires forall i | 0 <= i < |ops| :: Spares(ops[i], n, r.createdAt) && (ops[i].DoSetNext? ==> ops[i].n > n)
    ensures n in Run(h, ops).alloc.pending && Run(h, ops).alloc.pending[n] == r
    decreases |ops|
  {
    if ops != [] {
      StepSpares(h, ops[0], n, r);
      RunSpares(Step(h, ops[0]), ops[1..], n, r);
    }
  }

  /**
   * A number handed out stays reserved, for the stream and from the time it was asked, over every run that does not
   * confirm or release it, clear the map, or set the counter back to it, and in which no clean-up comes more than five
   * minutes later.
   */
  lemma ReservationKept(h: History, stream: Stream, now: nat, ops: seq<Op>)
    requires h.alloc.free == []
    requires var n := h.alloc.next;
             forall i | 0 <= i < |ops| :: Spares(ops[i], n, now) && (ops[i].DoSetNext? ==> ops[i].n > n)
    ensures var r := Run(Step(h, DoReserve(stream, now)), ops).alloc;
            h.alloc.next in r.pending && r.pending[h.alloc.next] == Reservation(stream, now)
  {
    RunSpares(Step(h, DoReserve(stream, now)), ops, h.alloc.next, Reservation(stream, now));
  }

  /** Failures are counted for every release that found its number, and for stale numbers by counting clean-ups. */
  lemma {:induction false} FailedCounted(h: History, ops: seq<Op>, counted: bool)
    requires forall i | 0 <= i < |ops| :: ops[i].DoCleanup? ==> ops[i].counted == counted
    ensures var r := Run(h, ops);
            r.alloc.failed - |r.released| - (if counted then |r.stale| else 0)
            == h.alloc.failed - |h.released| - if counted then |h.stale| else 0
    decreases |ops|
  {
    if ops != [] {
      FailedCounted(Step(h, ops[0]), ops[1..], counted);
    }
  }

  /** Numbers handed out one after another from `next`, with none left out. */
  ghost predicate Consecutive(h: History, start: nat) {
    && h.alloc.free == [] && h.alloc.next == start + |h.reserved|
    && forall i | 0 <= i < |h.reserved| :: h.reserved[i] == start + i
  }

  lemma {:induction false} ConsecutiveFrom(h: History, ops: seq<Op>, start: nat)
    requires Consecutive(h, start) && forall i | 0 <= i < |ops| :: !ops[i].DoSetNext?
    ensures Consecutive(Run(h, ops), start)
    decreases |ops|
  {
    if ops != [] {
      ConsecutiveFrom(Step(h, ops[0]), ops[1..], start);
    }
  }

  /** In every run that does not set the counter, the i-th number handed out is the i-th from the start. */
  lemma NumbersConsecutive(start: nat, ops: seq<Op>)
    requires forall i | 0 <= i < |ops| :: !ops[i].DoSetNext?
    ensures var h := Run(Begin(start), ops);
            h.alloc.next == start + |h.reserved| && forall i | 0 <= i < |h.reserved| :: h.reserved[i] == start + i
  {
    ConsecutiveFrom(Begin(start), ops, start);
  }

  lemma RunFirst(h: History, op: Op, ops: seq<Op>)
    ensures Run(h, [op] + ops) == Run(Step(h, op), ops)
  {
    assert ([op] + ops)[1..] == ops;
  }

  lemma {:induction false} RunAppend(h: History, xs: seq<Op>, ys: seq<Op>)
    ensures Run(h, xs + ys) == Run(Run(h, xs), ys)
    decreases |xs|
  {
    if xs == [] {
      assert xs + ys == ys;
    } else {
      assert (xs + ys)[1..] == xs[1..] + ys;
      RunAppend(Step(h, xs[0]), xs[1..], ys);
    }
  }

  /** Reserving and confirming, when the next number is not pending. */
  lemma ReserveAndConfirm(h: History, stream: Stream, now: nat)
    requires h.alloc.free == []
    ensures var n, r := h.alloc.next, Run(h, [DoReserve(stream, now), DoConfirm(h.alloc.next)]);
            r.alloc.free == [] && r.confirmed == h.confirmed + multiset{n}
  {
    var n := h.alloc.next;
    var a := Step(h, DoReserve(stream, now));
    RunFirst(h, DoReserve(stream, now), [DoConfirm(n)]);
    RunFirst(a, DoConfirm(n), []);
    assert [DoReserve(stream, now)] + [DoConfirm(n)] == [DoReserve(stream, now), DoConfirm(n)];
    assert [DoConfirm(n)] + [] == [DoConfirm(n)];
  }

  lemma ResetRun(h: History, n: nat)
    ensures Run(h, [DoSetNext(n), DoClearFree, DoClearPending]) ==
            h.(alloc := Reset(h.alloc, n), lowered := true)
  {
    assert [DoSetNext(n), DoClearFree, DoClearPending] == [DoSetNext(n)] + ([DoClearFree] + ([DoClearPending] + []));
    RunFirst(h, DoSetNext(n), [DoClearFree] + ([DoClearPending] + []));
    var a := Step(h, DoSetNext(n));
    RunFirst(a, DoClearFree, [DoClearPending] + []);
    RunFirst(Step(a, DoClearFree), DoClearPending, []);
  }

  /** After a reset the promise is gone: the same number is handed out and confirmed twice. */
  lemma ResetReissues(start: nat, now: nat)
    ensures var give := [DoReserve(StreamA, now), DoConfirm(start)];
            var reset := [DoSetNext(start), DoClearFree, DoClearPending];
            Run(Begin(start), give + reset + give).confirmed[start] == 2
  {
    var give := [DoReserve(StreamA, now), DoConfirm(start)];
    var reset := [DoSetNext(start), DoClearFree, DoClearPending];
    var a := Run(Begin(start), give);
    RunAppend(Begin(start), give + reset, give);
    RunAppend(Begin(start), give, reset);
    ReserveAndConfirm(Begin(start), StreamA, now);
    ResetRun(a, start);
    ReserveAndConfirm(a.(alloc := Reset(a.alloc, start), lowered := true), StreamA, now);
  }
}
