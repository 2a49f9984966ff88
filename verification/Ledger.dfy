/**
 Receipts, obligations and allocation rows, and the D1 gateway that stores them.
 One workspace; text keys and dates are integers in the same order.
 */
module Ledger {
  import opened Numbers

  /** `area`, `kind` and `id` are the target's module, type and id. */
  datatype Target = Target(area: int, kind: int, id: int)

  /** The module of every target that the client writes. */
  const TUTORING: int := 1

  datatype Obligation = Obligation(target: Target, dueAt: int, amountDue: int)

  /** What the caller wants recorded; `details` stands for the remaining fields that are compared as they are. */
  datatype ReceiptCommand = ReceiptCommand(payer: Option<int>, source: Option<int>, amount: int, receivedAt: int, details: int)

  datatype Receipt = Receipt(command: ReceiptCommand, deleted: bool) {
    function Amount(): int { command.amount }
  }

  datatype Row = Row(receiptId: int, target: Target, amount: nat)

  datatype Error =
    | InvalidReceipt
    | ReceiptIdConflict
    | ReceiptNotFound
    | ReceiptOverallocated
    | AllocationAmountInvalid
    | AllocationConflict
    | AllocationExceedsAmount
    | Crashed

  type Receipts = map<int, Receipt>

  predicate Active(receipts: Receipts, rid: int) {
    rid in receipts && !receipts[rid].deleted
  }

  /** SUM(amount_pence) over the rows of one receipt. */
  function FromReceipt(rows: seq<Row>, rid: int): nat {
    if rows == [] then 0
    else (if rows[0].receiptId == rid then rows[0].amount else 0) + FromReceipt(rows[1..], rid)
  }

  /** SUM(amount_pence) over the rows of one target whose receipt is not deleted. */
  function ToTarget(receipts: Receipts, rows: seq<Row>, t: Target): nat {
    if rows == [] then 0
    else (if rows[0].target == t && Active(receipts, rows[0].receiptId) then rows[0].amount else 0)
         + ToTarget(receipts, rows[1..], t)
  }

  /** The row of a (receipt, target) pair, if there is one. */
  function FindRow(rows: seq<Row>, rid: int, t: Target): (found: Option<nat>)
    ensures found.None? <==> forall k :: 0 <= k < |rows| ==> !(rows[k].receiptId == rid && rows[k].target == t)
  {
    if rows == [] then None
    else if rows[0].receiptId == rid && rows[0].target == t then Some(rows[0].amount)
    else FindRow(rows[1..], rid, t)
  }

  function Outstanding(receipts: Receipts, rows: seq<Row>, o: Obligation): nat {
    Max(0, o.amountDue - ToTarget(receipts, rows, o.target))
  }

  function Outstandings(receipts: Receipts, rows: seq<Row>, obs: seq<Obligation>): (outs: seq<nat>)
    ensures |outs| == |obs|
    ensures forall j :: 0 <= j < |obs| ==> outs[j] == Outstanding(receipts, rows, obs[j])
  {
    seq(|obs|, j requires 0 <= j < |obs| => Outstanding(receipts, rows, obs[j]))
  }

  lemma {:induction false} FromReceiptAppend(xs: seq<Row>, ys: seq<Row>, rid: int)
    ensures FromReceipt(xs + ys, rid) == FromReceipt(xs, rid) + FromReceipt(ys, rid)
  {
    if xs == [] {
      assert xs + ys == ys;
    } else {
      assert (xs + ys)[1..] == xs[1..] + ys;
      FromReceiptAppend(xs[1..], ys, rid);
    }
  }

  lemma {:induction false} ToTargetAppend(receipts: Receipts, xs: seq<Row>, ys: seq<Row>, t: Target)
    ensures ToTarget(receipts, xs + ys, t) == ToTarget(receipts, xs, t) + ToTarget(receipts, ys, t)
  {
    if xs == [] {
      assert xs + ys == ys;
    } else {
      assert (xs + ys)[1..] == xs[1..] + ys;
      ToTargetAppend(receipts, xs[1..], ys, t);
    }
  }

  /** One row per (receipt, target): the table's UNIQUE constraint. */
  predicate UniquePairs(rows: seq<Row>) {
    forall i, j :: 0 <= i < j < |rows| ==>
      rows[i].receiptId != rows[j].receiptId || rows[i].target != rows[j].target
  }

  /** No receipt gives away more than it holds, and every row belongs to a receipt. */
  predicate Conserved(receipts: Receipts, rows: seq<Row>) {
    && (forall k :: 0 <= k < |rows| ==> rows[k].receiptId in receipts && rows[k].amount > 0)
    && (forall rid :: rid in receipts ==> FromReceipt(rows, rid) <= receipts[rid].Amount())
  }

  predicate ValidLedger(receipts: Receipts, rows: seq<Row>) {
    UniquePairs(rows) && Conserved(receipts, rows)
  }

  datatype AllocateOutcome = Inserted | AlreadyThere | Failed(error: Error)

  /** What one allocate call answers; `lifetime` is how many inserts still succeed before the worker dies. */
  function Allocating(receipts: Receipts, rows: seq<Row>, rid: int, t: Target, amount: int, lifetime: nat): AllocateOutcome {
    if amount <= 0 then Failed(AllocationAmountInvalid)
    else
      match FindRow(rows, rid, t)
      case Some(there) => if there == amount then AlreadyThere else Failed(AllocationConflict)
      case None =>
        if !Active(receipts, rid) then Failed(ReceiptNotFound)
        else if FromReceipt(rows, rid) + amount > receipts[rid].Amount() then Failed(AllocationExceedsAmount)
        else if lifetime == 0 then Failed(Crashed)
        else Inserted
  }

  predicate HasRow(rows: seq<Row>, rid: int, t: Target) {
    exists k :: 0 <= k < |rows| && rows[k].receiptId == rid && rows[k].target == t
  }

  lemma {:induction false} FoundRow(rows: seq<Row>, rid: int, t: Target)
    ensures FindRow(rows, rid, t).Some? ==> Row(rid, t, FindRow(rows, rid, t).value) in rows
  {
    if rows != [] { FoundRow(rows[1..], rid, t); }
  }

  /**
   What an allocate call answers, by the rows of the table. The pair's own row decides first: the same amount is found,
   another one conflicts. Only without it are the receipt and what it has left looked at.
   */
  lemma AllocatingIff(receipts: Receipts, rows: seq<Row>, rid: int, t: Target, amount: int, lifetime: nat)
    requires UniquePairs(rows)
    ensures var answer := Allocating(receipts, rows, rid, t, amount, lifetime);
      && (answer == Failed(AllocationAmountInvalid) <==> amount <= 0)
      && (amount > 0 && HasRow(rows, rid, t) ==>
            answer == if Row(rid, t, amount) in rows then AlreadyThere else Failed(AllocationConflict))
      && (amount > 0 && !HasRow(rows, rid, t) ==>
        && (answer == Failed(ReceiptNotFound) <==> rid !in receipts || receipts[rid].deleted)
        && (answer == Failed(AllocationExceedsAmount) <==>
              rid in receipts && !receipts[rid].deleted && FromReceipt(rows, rid) + amount > receipts[rid].command.amount)
        && (answer == Inserted <==>
              && rid in receipts && !receipts[rid].deleted && FromReceipt(rows, rid) + amount <= receipts[rid].command.amount
              && lifetime > 0)
        && answer in {Failed(ReceiptNotFound), Failed(AllocationExceedsAmount), Failed(Crashed), Inserted})
  {
    var found := FindRow(rows, rid, t);
    FoundRow(rows, rid, t);
    if found.Some? && amount > 0 && Row(rid, t, amount) in rows {
      var i :| 0 <= i < |rows| && rows[i] == Row(rid, t, found.value);
      var j :| 0 <= j < |rows| && rows[j] == Row(rid, t, amount);
    }
  }

  lemma InsertKeepsLedger(receipts: Receipts, rows: seq<Row>, rid: int, t: Target, amount: nat, lifetime: nat)
    requires Allocating(receipts, rows, rid, t, amount, lifetime) == Inserted
    ensures ValidLedger(receipts, rows) ==> ValidLedger(receipts, rows + [Row(rid, t, amount)])
  {
    var row := Row(rid, t, amount);
    forall r | ValidLedger(receipts, rows) && r in receipts ensures FromReceipt(rows + [row], r) <= receipts[r].Amount() {
      FromReceiptAppend(rows, [row], r);
    }
  }

  /** finance_receipts and finance_receipt_allocations behind the gateway port. */
  class FinanceGateway {
    var receipts: Receipts
    var rows: seq<Row>
    /** Inserts that still succeed before the worker dies. */
    var lifetime: nat

    ghost predicate Valid()
      reads this
    {
      ValidLedger(receipts, rows)
    }

    constructor ()
      ensures Valid() && receipts == map[] && rows == [] && lifetime == 0
    {
      receipts, rows, lifetime := map[], [], 0;
    }

    /** Records a receipt once; the same id with any other field is a conflict. */
    method RecordReceipt(rid: int, command: ReceiptCommand) returns (error: Option<Error>)
      modifies this
      ensures old(Valid()) ==> Valid()
      ensures rows == old(rows)
      ensures error == Some(InvalidReceipt) <==> command.amount <= 0 || (command.payer.None? && command.source.None?)
      ensures error == Some(ReceiptIdConflict) <==>
              error != Some(InvalidReceipt) && rid in old(receipts) && old(receipts)[rid].command != command
      ensures error == Some(Crashed) <==> error != Some(InvalidReceipt) && rid !in old(receipts) && old(lifetime) == 0
      ensures error.Some? ==> receipts == old(receipts) && lifetime == old(lifetime) && error.value in {InvalidReceipt, ReceiptIdConflict, Crashed}
      ensures error.None? && rid in old(receipts) ==> receipts == old(receipts) && lifetime == old(lifetime)
      ensures error.None? && rid !in old(receipts) ==>
              receipts == old(receipts)[rid := Receipt(command, false)] && lifetime == old(lifetime) - 1
    {
      if command.amount <= 0 {
        return Some(InvalidReceipt);
      }
      if command.payer.None? && command.source.None? {
        return Some(InvalidReceipt);
      }
      if rid in receipts {
        if receipts[rid].command != command {
          return Some(ReceiptIdConflict);
        }
        return None;
      }
      if lifetime == 0 {
        return Some(Crashed);
      }
      NewReceiptKeepsLedger(receipts, rows, rid, Receipt(command, false));
      receipts := receipts[rid := Receipt(command, false)];
      lifetime := lifetime - 1;
      return None;
    }

    /** Inserts one allocation row, or finds that the pair is already allocated. */
    method AllocateReceipt(rid: int, t: Target, amount: int) returns (outcome: AllocateOutcome)
      modifies this`rows, this`lifetime
      ensures old(Valid()) ==> Valid()
      ensures outcome == Allocating(receipts, old(rows), rid, t, amount, old(lifetime))
      ensures outcome.Inserted? ==> amount > 0 && rows == old(rows) + [Row(rid, t, amount)] && lifetime == old(lifetime) - 1
      ensures !outcome.Inserted? ==> rows == old(rows) && lifetime == old(lifetime)
    {
      if amount <= 0 {
        return Failed(AllocationAmountInvalid);
      }
      var existing := FindRow(rows, rid, t);
      if existing.Some? {
        if existing.value != amount {
          return Failed(AllocationConflict);
        }
        return AlreadyThere;
      }
      if rid !in receipts || receipts[rid].deleted {
        return Failed(ReceiptNotFound);
      }
      var given := FromReceipt(rows, rid);
      if given + amount > receipts[rid].Amount() {
        return Failed(AllocationExceedsAmount);
      }
      if lifetime == 0 {
        return Failed(Crashed);
      }
      InsertKeepsLedger(receipts, rows, rid, t, amount, lifetime);
      rows := rows + [Row(rid, t, amount)];
      lifetime := lifetime - 1;
      return Inserted;
    }

    method GetAllocatedTotal(t: Target) returns (total: nat)
      ensures total == ToTarget(receipts, rows, t)
    {
      total := ToTarget(receipts, rows, t);
    }

    method GetReceiptAllocatedTotal(rid: int) returns (total: nat)
      ensures total == if Active(receipts, rid) then FromReceipt(rows, rid) else 0
    {
      total := if rid in receipts && !receipts[rid].deleted then FromReceipt(rows, rid) else 0;
    }

    /** UPDATE of the deletion mark; rows are left to the rebuild that follows. */
    method SetDeleted(rid: int, deleted: bool)
      requires rid in receipts
      modifies this`receipts
      ensures old(Valid()) ==> Valid()
      ensures receipts == old(receipts)[rid := old(receipts)[rid].(deleted := deleted)]
    {
      receipts := receipts[rid := receipts[rid].(deleted := deleted)];
    }

    /** DELETE of every row whose receipt is in `ids`. */
    method DeleteRowsOf(ids: set<int>)
      modifies this`rows
      ensures old(Valid()) ==> Valid()
      ensures rows == Without(old(rows), ids)
    {
      if ValidLedger(receipts, rows) {
        WithoutKeepsLedger(receipts, rows, ids);
      }
      rows := Without(rows, ids);
    }
  }

  lemma {:induction false} NoRowsMeansZero(rows: seq<Row>, rid: int)
    requires forall k :: 0 <= k < |rows| ==> rows[k].receiptId != rid
    ensures FromReceipt(rows, rid) == 0
  {
    if rows != [] {
      NoRowsMeansZero(rows[1..], rid);
    }
  }

  lemma NewReceiptKeepsLedger(receipts: Receipts, rows: seq<Row>, rid: int, receipt: Receipt)
    requires rid !in receipts && receipt.Amount() > 0
    ensures ValidLedger(receipts, rows) ==> ValidLedger(receipts[rid := receipt], rows)
  {
    if ValidLedger(receipts, rows) {
      NoRowsMeansZero(rows, rid);
    }
  }

  /** The rows whose receipt is not in `ids`, in order. */
  function Without(rows: seq<Row>, ids: set<int>): (kept: seq<Row>)
    ensures forall x :: x in kept <==> x in rows && x.receiptId !in ids
  {
    if rows == [] then []
    else if rows[0].receiptId in ids then Without(rows[1..], ids)
    else [rows[0]] + Without(rows[1..], ids)
  }

  lemma {:induction false} WithoutAmounts(receipts: Receipts, rows: seq<Row>, ids: set<int>, rid: int, t: Target)
    ensures FromReceipt(Without(rows, ids), rid) == if rid in ids then 0 else FromReceipt(rows, rid)
    ensures ToTarget(receipts, Without(rows, ids), t) <= ToTarget(receipts, rows, t)
  {
    if rows != [] {
      WithoutAmounts(receipts, rows[1..], ids, rid, t);
      var rest := Without(rows[1..], ids);
      assert ([rows[0]] + rest)[1..] == rest;
    }
  }

  lemma {:induction false} WithoutUnique(rows: seq<Row>, ids: set<int>)
    requires UniquePairs(rows)
    ensures UniquePairs(Without(rows, ids))
  {
    if rows != [] {
      WithoutUnique(rows[1..], ids);
      var rest := Without(rows[1..], ids);
      forall j | 0 <= j < |rest| && rows[0].receiptId !in ids
        ensures rest[j].receiptId != rows[0].receiptId || rest[j].target != rows[0].target
      {
        assert rest[j] in rows[1..];
      }
    }
  }

  lemma WithoutKeepsLedger(receipts: Receipts, rows: seq<Row>, ids: set<int>)
    requires ValidLedger(receipts, rows)
    ensures ValidLedger(receipts, Without(rows, ids))
  {
    WithoutUnique(rows, ids);
    var kept := Without(rows, ids);
    forall k | 0 <= k < |kept| ensures kept[k].receiptId in receipts && kept[k].amount > 0 {
      assert kept[k] in rows;
    }
    forall rid | rid in receipts ensures FromReceipt(kept, rid) <= receipts[rid].Amount() {
      WithoutAmounts(receipts, rows, ids, rid, Target(0, 0, 0));
    }
  }
}
