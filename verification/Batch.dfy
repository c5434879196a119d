/**
 * Atomic batches: operations executed one after another on a world the caller owns, and undone in reverse
 * order when one of them fails.
 */
module Batch {
  import opened Types

  datatype Operation =
    | Transfer(to: nat, value: nat)
    | ContractCall(contract: nat, data: seq<bv8>, value: nat)
    | Approval(spender: nat, amount: nat)
    | Custom(kind: string, data: seq<bv8>)

  datatype OperationResult = OperationResult(
    index: nat,
    success: bool,
    output: Option<seq<bv8>>,
    error: Option<string>,
    gasUsed: U64)

  datatype Status = Pending | Executing | Completed | Failed | Cancelled

  datatype BatchTransaction = BatchTransaction(
    wallet: nat,
    operations: seq<Operation>,
    gasLimit: U64,
    gasPrice: nat,
    status: Status,
    results: seq<OperationResult>,
    gasUsed: U64)

  type Reply = Result<OperationResult, string>

  /** Executes one operation, with its index, on a world. */
  type Execute<!W> = (W, Operation, nat) -> (W, Reply)

  /** Undoes one operation, given its index and its recorded result. */
  type Revert<!W> = (W, nat, OperationResult) -> W

  // ---------------------------------------------------------------- what a batch does, step by step

  function WorldAt<W>(exec: Execute<W>, ops: seq<Operation>, w: W, i: nat): W
    requires i <= |ops|
  {
    if i == 0 then w else exec(WorldAt(exec, ops, w, i - 1), ops[i - 1], i - 1).0
  }

  function ReplyAt<W>(exec: Execute<W>, ops: seq<Operation>, w: W, i: nat): Reply
    requires i < |ops|
  {
    exec(WorldAt(exec, ops, w, i), ops[i], i).1
  }

  function ReplyGas(r: Reply): nat {
    if r.Ok? then r.value.gasUsed else 0
  }

  /** Gas the first `i` operations really used. */
  function GasUpTo<W>(exec: Execute<W>, ops: seq<Operation>, w: W, i: nat): nat
    requires i <= |ops|
  {
    if i == 0 then 0 else GasUpTo(exec, ops, w, i - 1) + ReplyGas(ReplyAt(exec, ops, w, i - 1))
  }

  /** The running total as kept: 64 bits, wrapping. */
  function Counter<W>(exec: Execute<W>, ops: seq<Operation>, w: W, i: nat): U64
    requires i <= |ops|
  {
    GasUpTo(exec, ops, w, i) % TWO_64
  }

  predicate Good<W>(exec: Execute<W>, ops: seq<Operation>, w: W, limit: nat, i: nat)
    requires i < |ops|
  {
    var r := ReplyAt(exec, ops, w, i);
    r.Ok? && r.value.success && Counter(exec, ops, w, i + 1) <= limit
  }

  /** What is recorded for operation `i`: its own result, or a made-up failure. */
  function RecordOf(r: Reply, i: nat, exceeded: bool): OperationResult {
    match r
    case Err(e) => OperationResult(i, false, None, Some(e), 0)
    case Ok(x) => if exceeded then OperationResult(i, false, None, Some("Gas limit exceeded"), x.gasUsed) else x
  }

  function RecordAt<W>(exec: Execute<W>, ops: seq<Operation>, w: W, limit: nat, i: nat): OperationResult
    requires i < |ops|
  {
    RecordOf(ReplyAt(exec, ops, w, i), i, Counter(exec, ops, w, i + 1) > limit)
  }

  function Records<W>(exec: Execute<W>, ops: seq<Operation>, w: W, limit: nat, k: nat): (rs: seq<OperationResult>)
    requires k <= |ops|
    ensures |rs| == k && forall i | 0 <= i < k :: rs[i] == RecordAt(exec, ops, w, limit, i)
  {
    if k == 0 then [] else Records(exec, ops, w, limit, k - 1) + [RecordAt(exec, ops, w, limit, k - 1)]
  }

  /** The world after undoing indices k - 1, k - 2, ..., 0 in that order. */
  function Undone<W>(revert: Revert<W>, rs: seq<OperationResult>, k: nat, w: W): W
    requires k <= |rs|
  {
    if k == 0 then w else Undone(revert, rs, k - 1, revert(w, k - 1, rs[k - 1]))
  }

  /** In this run, reverting each of the first `k` indices takes the world back to where its operation found it. */
  ghost predicate Restores<W>(exec: Execute<W>, revert: Revert<W>, ops: seq<Operation>, w: W, limit: nat, k: nat)
    requires k <= |ops|
  {
    forall i | 0 <= i < k ::
      revert(WorldAt(exec, ops, w, i + 1), i, RecordAt(exec, ops, w, limit, i)) == WorldAt(exec, ops, w, i)
  }

  lemma {:induction false} UndoneRestores<W>(exec: Execute<W>, revert: Revert<W>, ops: seq<Operation>, w: W, limit: nat,
                                             rs: seq<OperationResult>, k: nat)
    requires k <= |rs| <= |ops| && rs == Records(exec, ops, w, limit, |rs|) && Restores(exec, revert, ops, w, limit, k)
    ensures Undone(revert, rs, k, WorldAt(exec, ops, w, k)) == w
  {
    if k > 0 {
      assert rs[k - 1] == RecordAt(exec, ops, w, limit, k - 1);
      UndoneRestores(exec, revert, ops, w, limit, rs, k - 1);
    }
  }

  ghost predicate FirstBad<W>(exec: Execute<W>, ops: seq<Operation>, w: W, limit: nat, k: nat) {
    k < |ops| && !Good(exec, ops, w, limit, k) && forall i | 0 <= i < k :: Good(exec, ops, w, limit, i)
  }

  lemma RestoredIf<W>(exec: Execute<W>, revert: Revert<W>, ops: seq<Operation>, w: W, limit: nat,
                      rs: seq<OperationResult>)
    requires |rs| <= |ops| && rs == Records(exec, ops, w, limit, |rs|)
    ensures Restores(exec, revert, ops, w, limit, |rs|) ==> Undone(revert, rs, |rs|, WorldAt(exec, ops, w, |rs|)) == w
  {
    if Restores(exec, revert, ops, w, limit, |rs|) {
      UndoneRestores(exec, revert, ops, w, limit, rs, |rs|);
    }
  }

  /** Where a run stands after `k` operations: the world, what was recorded, the gas counter. */
  ghost predicate Reached<W>(exec: Execute<W>, ops: seq<Operation>, start: W, limit: nat, k: nat,
                             w: W, rs: seq<OperationResult>, gas: nat) {
    && k <= |ops| && rs == Records(exec, ops, start, limit, k)
    && w == WorldAt(exec, ops, start, k) && gas == Counter(exec, ops, start, k)
  }

  /** A batch ended after `k` operations. */
  function Ended<W>(exec: Execute<W>, b: BatchTransaction, start: W, k: nat, status: Status): BatchTransaction
    requires k <= |b.operations|
  {
    b.(status := status, results := Records(exec, b.operations, start, b.gasLimit, k),
       gasUsed := Counter(exec, b.operations, start, k))
  }

  // ---------------------------------------------------------------- the manager

  datatype BatchError = NotFound | NotReady | OperationFailed(index: nat)

  type Outcome = Result<(seq<OperationResult>, U64), BatchError>

  /**
   * What executing batch `b` comes to. It succeeds exactly when every operation replies with success and the running
   * gas counter never passes the limit; otherwise indices k, k - 1, ..., 0 are reverted, k being the first operation
   * that did not, which leaves the initial world if each revert restores what its operation found. Either way the
   * batch ends Completed or Failed.
   */
  ghost predicate Executed<W>(exec: Execute<W>, revert: Revert<W>, b: BatchTransaction, start: W, w: W,
                              after: BatchTransaction, r: Outcome) {
    var ops, limit, n := b.operations, b.gasLimit, |b.operations|;
    && (r.Ok? <==> forall i | 0 <= i < n :: Good(exec, ops, start, limit, i))
    && (r.Ok? ==>
          && r.value == (Records(exec, ops, start, limit, n), Counter(exec, ops, start, n))
          && w == WorldAt(exec, ops, start, n) && after == Ended(exec, b, start, n, Completed))
    && (r.Err? ==>
          && r.error.OperationFailed? && FirstBad(exec, ops, start, limit, r.error.index)
          && var k := r.error.index + 1;
             && w == Undone(revert, Records(exec, ops, start, limit, k), k, WorldAt(exec, ops, start, k))
             && after == Ended(exec, b, start, k, Failed)
             && (Restores(exec, revert, ops, start, limit, k) ==> w == start))
  }

  /**
   * What the caller is told. A batch that succeeds returns one result per operation, each the executor's own reply and
   * each a success, with the running gas never past the limit. A batch that fails keeps a success for every operation
   * before the one it stopped at and a failure for that one: the executor's error, its own unsuccessful reply, or the
   * gas limit.
   */
  lemma Reported<W>(exec: Execute<W>, revert: Revert<W>, b: BatchTransaction, start: W, w: W,
                    after: BatchTransaction, r: Outcome)
    requires Executed(exec, revert, b, start, w, after, r)
    ensures r.Ok? ==>
      && after.status == Completed && after.results == r.value.0 && after.gasUsed == r.value.1
      && |r.value.0| == |b.operations|
      && forall i | 0 <= i < |r.value.0| ::
           && r.value.0[i].success && ReplyAt(exec, b.operations, start, i) == Ok(r.value.0[i])
           && GasUpTo(exec, b.operations, start, i + 1) % TWO_64 <= b.gasLimit
    ensures r.Err? ==>
      && after.status == Failed && |after.results| == r.error.index + 1 <= |b.operations|
      && (forall i | 0 <= i < r.error.index ::
            after.results[i].success && ReplyAt(exec, b.operations, start, i) == Ok(after.results[i]))
      && StoppedBy(ReplyAt(exec, b.operations, start, r.error.index), r.error.index, after.results[r.error.index],
                   GasUpTo(exec, b.operations, start, r.error.index + 1) % TWO_64, b.gasLimit)
  {
    var n := if r.Ok? then |b.operations| else r.error.index;
    forall i | 0 <= i < n
      ensures RecordAt(exec, b.operations, start, b.gasLimit, i).success
      ensures ReplyAt(exec, b.operations, start, i) == Ok(RecordAt(exec, b.operations, start, b.gasLimit, i))
      ensures GasUpTo(exec, b.operations, start, i + 1) % TWO_64 <= b.gasLimit
    {
      assert Good(exec, b.operations, start, b.gasLimit, i);
    }
  }

  /** The record of the operation a batch stopped at: a failure, and of which of three kinds. */
  ghost predicate StoppedBy(reply: Reply, i: nat, record: OperationResult, gas: nat, limit: nat) {
    && !record.success
    && (reply.Err? ==> record.index == i && record.error == Some(reply.error) && record.gasUsed == 0)
    && (reply.Ok? && gas <= limit ==> record == reply.value)
    && (reply.Ok? && gas > limit ==>
          record.index == i && record.error.Some? && record.gasUsed == reply.value.gasUsed)
  }

  datatype CreateError = NoOperations | TooManyOperations | NoGas | NoGasPrice

  class BatchManager {
    var batches: map<Hash, BatchTransaction>
    const maxOperations: nat := 100

    constructor ()
      ensures batches == map[]
    {
      batches := map[];
    }

    method CreateBatch(id: Hash, wallet: nat, operations: seq<Operation>, gasLimit: U64, gasPrice: nat)
      returns (r: Result<BatchTransaction, CreateError>)
      modifies this
      ensures r.Ok? <==> 0 < |operations| <= 100 && gasLimit > 0 && gasPrice > 0
      ensures r.Ok? ==>
        && r.value == BatchTransaction(wallet, operations, gasLimit, gasPrice, Pending, [], 0)
        && batches == old(batches)[id := r.value]
      ensures r.Err? ==>
        && batches == old(batches)
        && r.error == (if operations == [] then NoOperations else if |operations| > 100 then TooManyOperations
                       else if gasLimit == 0 then NoGas else NoGasPrice)
    {
      if operations == [] {
        return Err(NoOperations);
      }
      if |operations| > maxOperations {
        return Err(TooManyOperations);
      }
      if gasLimit == 0 {
        return Err(NoGas);
      }
      if gasPrice == 0 {
        return Err(NoGasPrice);
      }
      var b := BatchTransaction(wallet, operations, gasLimit, gasPrice, Pending, [], 0);
      batches := batches[id := b];
      r := Ok(b);
    }

    method RollBack<W>(revert: Revert<W>, rs: seq<OperationResult>, start: W) returns (w: W)
      ensures w == Undone(revert, rs, |rs|, start)
    {
      w := start;
      var i: nat := |rs|;
      while i > 0
        invariant i <= |rs| && Undone(revert, rs, i, w) == Undone(revert, rs, |rs|, start)
      {
        i := i - 1;
        w := revert(w, i, rs[i]);
      }
    }

    /** Executes operation `i` and says whether the batch may go on. */
    method RunOne<W>(exec: Execute<W>, ops: seq<Operation>, limit: U64, ghost start: W, i: nat, w: W, gas: U64)
      returns (next: W, record: OperationResult, total: U64, good: bool)
      requires i < |ops| && w == WorldAt(exec, ops, start, i) && gas == Counter(exec, ops, start, i)
      ensures next == WorldAt(exec, ops, start, i + 1) && total == Counter(exec, ops, start, i + 1)
      ensures record == RecordAt(exec, ops, start, limit, i) && good == Good(exec, ops, start, limit, i)
    {
      var step := exec(w, ops[i], i);
      next := step.0;
      WrapAdd(GasUpTo(exec, ops, start, i), ReplyGas(step.1));
      match step.1 {
        case Err(e) =>
          record, total, good := OperationResult(i, false, None, Some(e), 0), gas, false;
        case Ok(x) =>
          total := (gas + x.gasUsed) % TWO_64;
          if total > limit {
            record := OperationResult(i, false, None, Some("Gas limit exceeded"), x.gasUsed);
            good := false;
          } else {
            record, good := x, x.success;
          }
      }
    }

    /** Runs the operations up to and including the first that fails. */
    method RunOperations<W>(exec: Execute<W>, ops: seq<Operation>, limit: U64, start: W)
      returns (w: W, rs: seq<OperationResult>, gas: U64, good: bool)
      ensures |rs| <= |ops| && (good ==> |rs| == |ops| && forall i | 0 <= i < |ops| :: Good(exec, ops, start, limit, i))
      ensures !good ==> |rs| > 0 && FirstBad(exec, ops, start, limit, |rs| - 1)
      ensures Reached(exec, ops, start, limit, |rs|, w, rs, gas)
    {
      w, rs, gas, good := start, [], 0, true;
      var i := 0;
      while i < |ops|
        invariant i == |rs| <= |ops| && good
        invariant forall j | 0 <= j < i :: Good(exec, ops, start, limit, j)
        invariant Reached(exec, ops, start, limit, i, w, rs, gas)
      {
        var record;
        w, record, gas, good := RunOne(exec, ops, limit, start, i, w, gas);
        rs := rs + [record];
        if !good {
          return;
        }
        i := i + 1;
      }
    }

    /** Runs a pending batch's operations and, when one fails, rolls them back. */
    method ExecutePending<W>(b: BatchTransaction, exec: Execute<W>, revert: Revert<W>, start: W)
      returns (w: W, after: BatchTransaction, r: Outcome)
      ensures Executed(exec, revert, b, start, w, after, r)
    {
      var rs, gas, good;
      w, rs, gas, good := RunOperations(exec, b.operations, b.gasLimit, start);
      if !good {
        RestoredIf(exec, revert, b.operations, start, b.gasLimit, rs);
        w := RollBack(revert, rs, w);
        after := b.(status := Failed, results := rs, gasUsed := gas);
        r := Err(OperationFailed(|rs| - 1));
      } else {
        after := b.(status := Completed, results := rs, gasUsed := gas);
        r := Ok((rs, gas));
      }
    }

    /** Executes a pending batch; one that is missing or not pending is refused, and no other batch changes. */
    method ExecuteBatch<W>(id: Hash, exec: Execute<W>, revert: Revert<W>, start: W) returns (w: W, r: Outcome)
      modifies this
      ensures id !in old(batches) ==> r == Err(NotFound) && w == start && batches == old(batches)
      ensures id in old(batches) && old(batches)[id].status != Pending ==>
        r == Err(NotReady) && w == start && batches == old(batches)
      ensures id in old(batches) && old(batches)[id].status == Pending ==>
        && id in batches && Executed(exec, revert, old(batches)[id], start, w, batches[id], r)
        && batches == old(batches)[id := batches[id]]
    {
      if id !in batches {
        return start, Err(NotFound);
      }
      var b := batches[id];
      if b.status != Pending {
        return start, Err(NotReady);
      }
      batches := batches[id := b.(status := Executing)];
      var after;
      w, after, r := ExecutePending(b, exec, revert, start);
      batches := batches[id := after];
    }
  }

  lemma WrapAdd(total: nat, gas: nat)
    ensures (total % TWO_64 + gas) % TWO_64 == (total + gas) % TWO_64
  {
    var q := total / TWO_64;
    assert total + gas == q * TWO_64 + (total % TWO_64 + gas);
    ModShift(q, total % TWO_64 + gas);
  }

  lemma {:induction false} ModShift(q: nat, x: nat)
    ensures (q * TWO_64 + x) % TWO_64 == x % TWO_64
  {
    if q > 0 {
      ModShift(q - 1, x);
      assert q * TWO_64 + x == ((q - 1) * TWO_64 + x) + TWO_64;
    }
  }

  // ---------------------------------------------------------------- balances

  /** What an operation moves. */
  function Amount(op: Operation): nat {
    match op
    case Transfer(_, value) => value
    case ContractCall(_, _, value) => value
    case _ => 0
  }

  /** Every operation credits its amount, whatever it replies. */
  function Crediting(reply: (int, Operation, nat) -> Reply): Execute<int> {
    (w: int, op: Operation, i: nat) => (w + Amount(op), reply(w, op, i))
  }

  /** A revert that knows its own batch's operations and takes each amount back. */
  function TakingBack(ops: seq<Operation>): Revert<int> {
    (w: int, i: nat, r: OperationResult) => if i < |ops| then w - Amount(ops[i]) else w
  }

  /** For balances, whatever the replies and wherever the batch fails, taking the amounts back restores every step. */
  lemma BalancesRestored(reply: (int, Operation, nat) -> Reply, ops: seq<Operation>, w: int, limit: nat, k: nat)
    requires k <= |ops|
    ensures Restores(Crediting(reply), TakingBack(ops), ops, w, limit, k)
  {
  }

  /** A wallet that pays out while it has the money, and replies with success exactly when it paid. */
  function Paying(gas: U64): Execute<int> {
    (w: int, op: Operation, i: nat) =>
      if Amount(op) <= w then (w - Amount(op), Ok(OperationResult(i, true, None, None, gas)))
      else (w, Ok(OperationResult(i, false, None, Some("Insufficient balance"), gas)))
  }

  /** A revert that trusts the recorded result: it refunds what is recorded as paid. */
  function Refunding(ops: seq<Operation>): Revert<int> {
    (w: int, i: nat, r: OperationResult) => if i < |ops| && r.success then w + Amount(ops[i]) else w
  }

  lemma {:induction false} RefundShifts(ops: seq<Operation>, rs: seq<OperationResult>, k: nat, w: int, v: int)
    requires k <= |rs|
    ensures Undone(Refunding(ops), rs, k, w) - w == Undone(Refunding(ops), rs, k, v) - v
  {
    if k > 0 {
      var f := Refunding(ops);
      RefundShifts(ops, rs, k - 1, f(w, k - 1, rs[k - 1]), f(v, k - 1, rs[k - 1]));
    }
  }

  /**
   * With such a revert a failed batch gives all the money back exactly when the gas limit did not stop an operation
   * that had paid: for that one the recorded result says failure although its effect took place.
   */
  lemma RefundedExactly(gas: U64, ops: seq<Operation>, w: int, limit: U64, k: nat)
    requires FirstBad(Paying(gas), ops, w, limit, k)
    ensures var exec := Paying(gas);
            var paid := Amount(ops[k]) <= WorldAt(exec, ops, w, k) && Amount(ops[k]) > 0;
            Undone(Refunding(ops), Records(exec, ops, w, limit, k + 1), k + 1, WorldAt(exec, ops, w, k + 1)) == w
            <==> !(paid && Counter(exec, ops, w, k + 1) > limit)
  {
    var exec, revert := Paying(gas), Refunding(ops);
    var rs := Records(exec, ops, w, limit, k + 1);
    var before, after := WorldAt(exec, ops, w, k), WorldAt(exec, ops, w, k + 1);
    GoodRefunds(gas, ops, w, limit, k);
    UndoneSame(revert, rs, Records(exec, ops, w, limit, k), k, before);
    UndoneRestores(exec, revert, ops, w, limit, Records(exec, ops, w, limit, k), k);
    assert !rs[k].success;
    RefundShifts(ops, rs, k, before, after);
  }

  lemma GoodRefunds(gas: U64, ops: seq<Operation>, w: int, limit: U64, k: nat)
    requires k <= |ops| && forall i | 0 <= i < k :: Good(Paying(gas), ops, w, limit, i)
    ensures Restores(Paying(gas), Refunding(ops), ops, w, limit, k)
  {
    var exec := Paying(gas);
    var revert := Refunding(ops);
    forall i | 0 <= i < k
      ensures revert(WorldAt(exec, ops, w, i + 1), i, RecordAt(exec, ops, w, limit, i)) == WorldAt(exec, ops, w, i)
    {
      assert Good(exec, ops, w, limit, i);
    }
  }

  lemma {:induction false} UndoneSame<W>(revert: Revert<W>, rs: seq<OperationResult>, qs: seq<OperationResult>,
                                         k: nat, w: W)
    requires k <= |rs| && k <= |qs| && forall i | 0 <= i < k :: rs[i] == qs[i]
    ensures Undone(revert, rs, k, w) == Undone(revert, qs, k, w)
  {
    if k > 0 {
      UndoneSame(revert, rs, qs, k - 1, revert(w, k - 1, rs[k - 1]));
    }
  }

  // ---------------------------------------------------------------- gas

  /**
   * A batch that succeeds reports the gas really used, and kept it within the limit, exactly when the real sum
   * fits in 64 bits.
   */
  lemma GasHonestExactly<W>(exec: Execute<W>, ops: seq<Operation>, w: W, limit: U64)
    requires ops != [] && forall i | 0 <= i < |ops| :: Good(exec, ops, w, limit, i)
    ensures var used := GasUpTo(exec, ops, w, |ops|);
            && (used <= limit <==> used < TWO_64)
            && (Counter(exec, ops, w, |ops|) == used <==> used < TWO_64)
  {
    assert Good(exec, ops, w, limit, |ops| - 1);
  }

  /** Two operations whose gas adds up to 2^64 pass any limit the first one alone respects. */
  lemma GasWrapsPastLimit(limit: U64)
    requires limit > 0
    ensures var ops := [Transfer(0, 0), Transfer(0, 0)];
            var exec: Execute<nat> := (w: nat, op: Operation, i: nat) =>
              (w, Ok(OperationResult(i, true, None, None, if i == 0 then 1 else TWO_64 - 1)));
            && (forall i | 0 <= i < |ops| :: Good(exec, ops, 0, limit, i))
            && Counter(exec, ops, 0, |ops|) == 0 && GasUpTo(exec, ops, 0, |ops|) == TWO_64
  {
    var ops := [Transfer(0, 0), Transfer(0, 0)];
    var exec: Execute<nat> := (w: nat, op: Operation, i: nat) =>
      (w, Ok(OperationResult(i, true, None, None, if i == 0 then 1 else TWO_64 - 1)));
    assert GasUpTo(exec, ops, 0, 1) == 1;
    assert GasUpTo(exec, ops, 0, 2) == TWO_64;
  }

  const BASE_GAS: nat := 21_000

  function OperationGas(op: Operation): nat {
    match op
    case Transfer(_, _) => 21_000
    case ContractCall(_, data, _) => 21_000 + |data| * 16
    case Approval(_, _) => 46_000
    case Custom(_, _) => 21_000
  }

  /** What an operation costs beyond the flat 21,000. */
  function Extra(op: Operation): nat {
    match op
    case ContractCall(_, data, _) => 16 * |data|
    case Approval(_, _) => 25_000
    case _ => 0
  }

  function Extras(ops: seq<Operation>): nat {
    if ops == [] then 0 else Extras(ops[..|ops| - 1]) + Extra(ops[|ops| - 1])
  }

  datatype GasEstimate = GasEstimate(total: int, base: nat, operations: nat, savings: nat)

  /** The estimate never underflows: it is two flat costs plus what the operations cost beyond theirs. */
  method EstimateGas(ops: seq<Operation>) returns (r: Result<GasEstimate, string>)
    ensures r.Err? <==> ops == []
    ensures r.Ok? ==>
      && r.value.total == 2 * BASE_GAS + Extras(ops)
      && r.value.total == r.value.base + r.value.operations - r.value.savings
      && r.value.base == BASE_GAS && r.value.savings == BASE_GAS * (|ops| - 1)
  {
    if ops == [] {
      return Err("Cannot estimate gas for empty batch");
    }
    var gas, i := 0, 0;
    while i < |ops|
      invariant i <= |ops| && gas == BASE_GAS * i + Extras(ops[..i])
    {
      assert ops[..i + 1][..i] == ops[..i];
      gas := gas + OperationGas(ops[i]);
      i := i + 1;
    }
    assert ops[..i] == ops;
    var savings := if |ops| > 1 then BASE_GAS * (|ops| - 1) else 0;
    r := Ok(GasEstimate(BASE_GAS + gas - savings, BASE_GAS, gas, savings));
  }
}
