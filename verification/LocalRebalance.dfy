/**
 Client side: the bulk in-memory rebalance over IndexedDB rows, and its equality with the
 server's per-receipt service.
 */
module LocalRebalance {
  import opened Numbers
  import opened Waterfall
  import opened Ledger
  import opened Collection
  import opened CollectionLaws
  import opened Rebalance

  /** Key of the tally map: target type and id. */
  type Key = (int, int)

  function KeyOf(t: Target): Key { (t.kind, t.id) }

  function Lookup(tally: map<Key, nat>, key: Key): nat {
    if key in tally then tally[key] else 0
  }

  predicate InTutoring(rows: seq<Row>) {
    forall k :: 0 <= k < |rows| ==> rows[k].target.area == TUTORING
  }

  predicate TutoringObligations(obs: seq<Obligation>) {
    forall j :: 0 <= j < |obs| ==> obs[j].target.area == TUTORING
  }

  /** The rows whose receipt is in `ids`, in order. */
  function RowsOf(rows: seq<Row>, ids: set<int>): (mine: seq<Row>)
    ensures forall x :: x in mine <==> x in rows && x.receiptId in ids
  {
    if rows == [] then []
    else if rows[0].receiptId in ids then [rows[0]] + RowsOf(rows[1..], ids)
    else RowsOf(rows[1..], ids)
  }

  function KeySum(rows: seq<Row>, key: Key): nat {
    if rows == [] then 0 else (if KeyOf(rows[0].target) == key then rows[0].amount else 0) + KeySum(rows[1..], key)
  }

  lemma {:induction false} KeySumAppend(rows: seq<Row>, row: Row, key: Key)
    ensures KeySum(rows + [row], key) == KeySum(rows, key) + if KeyOf(row.target) == key then row.amount else 0
  {
    if rows != [] {
      assert (rows + [row])[1..] == rows[1..] + [row];
      KeySumAppend(rows[1..], row, key);
    }
  }

  lemma {:induction false} KeySumIsToTarget(receipts: Receipts, rows: seq<Row>, t: Target)
    requires InTutoring(rows) && t.area == TUTORING
    requires forall k :: 0 <= k < |rows| ==> Active(receipts, rows[k].receiptId)
    ensures KeySum(rows, KeyOf(t)) == ToTarget(receipts, rows, t)
  {
    if rows != [] {
      KeySumIsToTarget(receipts, rows[1..], t);
    }
  }

  /** The tally map agrees with the rows on every obligation's target. */
  predicate Tallies(tally: map<Key, nat>, receipts: Receipts, rows: seq<Row>, obs: seq<Obligation>) {
    forall j :: 0 <= j < |obs| ==> Lookup(tally, KeyOf(obs[j].target)) == ToTarget(receipts, rows, obs[j].target)
  }

  lemma TallyStep(tally: map<Key, nat>, receipts: Receipts, rows: seq<Row>, obs: seq<Obligation>, n: nat, row: Row)
    requires n < |obs| && row.target == obs[n].target && Active(receipts, row.receiptId)
    requires TutoringObligations(obs) && Tallies(tally, receipts, rows, obs)
    ensures Tallies(tally[KeyOf(row.target) := Lookup(tally, KeyOf(row.target)) + row.amount], receipts, rows + [row], obs)
  {
    forall j | 0 <= j < |obs|
      ensures Lookup(tally[KeyOf(row.target) := Lookup(tally, KeyOf(row.target)) + row.amount], KeyOf(obs[j].target))
           == ToTarget(receipts, rows + [row], obs[j].target)
    {
      ToTargetAppend(receipts, rows, [row], obs[j].target);
    }
  }

  predicate Overallocated(receipts: Receipts, rows: seq<Row>, rid: int) {
    rid in receipts && FromReceipt(rows, rid) > receipts[rid].Amount()
  }

  predicate AnyOverallocated(receipts: Receipts, rows: seq<Row>, active: seq<int>) {
    exists i :: 0 <= i < |active| && Overallocated(receipts, rows, active[i])
  }

  /** What is still to be planned at obligation n. */
  lemma PlanFrom(receipts: Receipts, rows: seq<Row>, rid: int, rem: nat, obs: seq<Obligation>, n: nat)
    requires n < |obs| && rem > 0
    ensures var out := Outstanding(receipts, rows, obs[n]);
            var row := Row(rid, obs[n].target, Min(rem, out));
            Plan(receipts, rows, rid, rem, obs[n..])
            == if out == 0 then Plan(receipts, rows, rid, rem, obs[n + 1..])
               else [row] + Plan(receipts, rows + [row], rid, rem - row.amount, obs[n + 1..])
  {
    assert obs[n..][0] == obs[n] && obs[n..][1..] == obs[n + 1..];
  }

  class LocalStore {
    var receipts: Receipts
    var allocations: seq<Row>

    /** The tally over the student's stored allocations. */
    method Tally(rows: seq<Row>) returns (allocatedByTarget: map<Key, nat>)
      ensures forall key :: Lookup(allocatedByTarget, key) == KeySum(rows, key)
    {
      allocatedByTarget := map[];
      assert rows[..0] == [];
      for n := 0 to |rows|
        invariant forall key :: Lookup(allocatedByTarget, key) == KeySum(rows[..n], key)
      {
        ghost var before := allocatedByTarget;
        var key := KeyOf(rows[n].target);
        allocatedByTarget := allocatedByTarget[key := Lookup(allocatedByTarget, key) + rows[n].amount];
        forall other ensures Lookup(allocatedByTarget, other) == KeySum(rows[..n + 1], other) {
          assert rows[..n + 1] == rows[..n] + [rows[n]];
          KeySumAppend(rows[..n], rows[n], other);
          assert Lookup(before, other) == KeySum(rows[..n], other);
        }
      }
      assert rows[..|rows|] == rows;
    }

    /** The obligation loop of one receipt; `base` is every row generated or stored so far. */
    method PourReceipt(rid: int, rem: nat, obligations: seq<Obligation>, tally: map<Key, nat>, ghost base: seq<Row>)
      returns (allocatedByTarget: map<Key, nat>, generated: seq<Row>)
      requires Active(receipts, rid) && TutoringObligations(obligations)
      requires Tallies(tally, receipts, base, obligations)
      ensures generated == Plan(receipts, base, rid, rem, obligations)
      ensures Tallies(allocatedByTarget, receipts, base + generated, obligations)
    {
      allocatedByTarget, generated := tally, [];
      var remaining: nat := rem;
      var n := 0;
      ghost var rs, plan := receipts, Plan(receipts, base, rid, rem, obligations);
      assert obligations[0..] == obligations && base + generated == base && generated + plan == plan;
      while n < |obligations| && remaining > 0
        invariant 0 <= n <= |obligations|
        invariant Tallies(allocatedByTarget, rs, base + generated, obligations)
        invariant plan == generated + Plan(rs, base + generated, rid, remaining, obligations[n..])
      {
        var obligation := obligations[n];
        var key := KeyOf(obligation.target);
        var already := Lookup(allocatedByTarget, key);
        var outstanding := Max(0, obligation.amountDue - already);
        PlanFrom(rs, base + generated, rid, remaining, obligations, n);
        if outstanding != 0 {
          var amount: nat := Min(remaining, outstanding);
          var row := Row(rid, obligation.target, amount);
          TallyStep(allocatedByTarget, rs, base + generated, obligations, n, row);
          Regroup(base, generated, [row]);
          Regroup(generated, [row], Plan(rs, base + generated + [row], rid, remaining - amount, obligations[n + 1..]));
          generated := generated + [row];
          allocatedByTarget := allocatedByTarget[key := already + amount];
          remaining := remaining - amount;
        }
        n := n + 1;
      }
    }

    /** The rows generated so far, the tally over all rows, and the plan that is left. */
    ghost predicate Generating(rs: Receipts, mine: seq<Row>, generated: seq<Row>, tally: map<Key, nat>, plan: seq<Row>,
                               active: seq<int>, next: nat, obligations: seq<Obligation>)
      requires next <= |active|
    {
      && SameGiven(mine, mine + generated, active, next)
      && Tallies(tally, rs, mine + generated, obligations)
      && plan == generated + BulkPlan(rs, mine + generated, active[next..], obligations)
    }

    /** One turn of the receipt loop. */
    method GenerateNext(mine: seq<Row>, generated: seq<Row>, tally: map<Key, nat>, ghost plan: seq<Row>,
                        active: seq<int>, next: nat, obligations: seq<Obligation>)
      returns (error: Option<Error>, after: seq<Row>, tally': map<Key, nat>)
      requires next < |active| && Distinct(active) && AllActive(receipts, active)
      requires DistinctTargets(obligations) && TutoringObligations(obligations)
      requires Generating(receipts, mine, generated, tally, plan, active, next, obligations)
      ensures error == if Overallocated(receipts, mine, active[next]) then Some(ReceiptOverallocated) else None
      ensures error.None? ==> Generating(receipts, mine, after, tally', plan, active, next + 1, obligations)
    {
      var rid := active[next];
      var alreadyFromReceipt := FromReceipt(mine, rid);
      if alreadyFromReceipt > receipts[rid].Amount() { return Some(ReceiptOverallocated), generated, tally; }
      PlanNext(receipts, mine, generated, plan, active, next, obligations);
      var added;
      tally', added := PourReceipt(rid, receipts[rid].Amount() - alreadyFromReceipt, obligations, tally, mine + generated);
      error, after := None, generated + added;
    }

    /** The receipt loop over the student's active receipts and their stored rows. */
    method Generate(active: seq<int>, mine: seq<Row>, obligations: seq<Obligation>) returns (error: Option<Error>, generated: seq<Row>)
      requires Distinct(active) && AllActive(receipts, active)
      requires DistinctTargets(obligations) && TutoringObligations(obligations)
      requires InTutoring(mine) && forall x :: x in mine ==> x.receiptId in IdSet(active)
      ensures error == if AnyOverallocated(receipts, mine, active) then Some(ReceiptOverallocated) else None
      ensures error.None? ==> generated == BulkPlan(receipts, mine, active, obligations)
    {
      var allocatedByTarget := Tally(mine);
      InitialTally(receipts, mine, active, obligations, allocatedByTarget);
      generated := [];
      ghost var plan := BulkPlan(receipts, mine, active, obligations);
      assert active[0..] == active && mine + generated == mine && generated + plan == plan;
      var next := 0;
      while next < |active|
        invariant 0 <= next <= |active| && forall i :: 0 <= i < next ==> !Overallocated(receipts, mine, active[i])
        invariant Generating(receipts, mine, generated, allocatedByTarget, plan, active, next, obligations)
      {
        error, generated, allocatedByTarget := GenerateNext(mine, generated, allocatedByTarget, plan, active, next, obligations);
        if error.Some? { return; }
        next := next + 1;
      }
      assert active[next..] == [];
      error := None;
    }

    /**
     rebalanceStudentLocally: credit of the active receipts, oldest first, over the obligations.
     The rebalance of a family account is the same loop.
     An over-allocated receipt aborts the call before anything is written.
     */
    method Rebalance(ids: seq<int>, obligations: seq<Obligation>) returns (error: Option<Error>)
      requires Distinct(ids) && DistinctTargets(obligations) && TutoringObligations(obligations)
      requires InTutoring(RowsOf(allocations, IdSet(ActiveIds(receipts, ids))))
      modifies this`allocations
      ensures var active := ActiveIds(receipts, ids);
              var mine := RowsOf(old(allocations), IdSet(active));
              error == if AnyOverallocated(receipts, mine, active) then Some(ReceiptOverallocated) else None
      ensures error.Some? ==> allocations == old(allocations)
      ensures var active := ActiveIds(receipts, ids);
              var mine := RowsOf(old(allocations), IdSet(active));
              error.None? ==> allocations == old(allocations) + BulkPlan(receipts, mine, active, obligations)
    {
      var active := ActiveIds(receipts, ids);
      ActiveIdsDistinct(receipts, ids);
      var generated;
      error, generated := Generate(active, RowsOf(allocations, IdSet(active)), obligations);
      if error.None? {
        allocations := allocations + generated;
      }
    }
  }

  /** The receipts from position `next` on have given the same in both row lists. */
  predicate SameGiven(mine: seq<Row>, base: seq<Row>, active: seq<int>, next: nat) {
    forall i :: next <= i < |active| ==> FromReceipt(base, active[i]) == FromReceipt(mine, active[i])
  }

  /** One turn of the receipt loop. */
  lemma BulkFrom(receipts: Receipts, mine: seq<Row>, base: seq<Row>, active: seq<int>, next: nat, obs: seq<Obligation>)
    requires next < |active| && Distinct(active) && AllActive(receipts, active) && DistinctTargets(obs)
    requires SameGiven(mine, base, active, next) && !Overallocated(receipts, mine, active[next])
    ensures var rid := active[next];
            var added := Plan(receipts, base, rid, receipts[rid].Amount() - FromReceipt(mine, rid), obs);
            && BulkPlan(receipts, base, active[next..], obs) == added + BulkPlan(receipts, base + added, active[next + 1..], obs)
            && SameGiven(mine, base + added, active, next + 1)
  {
    var rid := active[next];
    assert active[next..][0] == rid && active[next..][1..] == active[next + 1..];
    var rem := Remaining(receipts, base, rid);
    forall i | next < i < |active|
      ensures FromReceipt(base + Plan(receipts, base, rid, rem, obs), active[i]) == FromReceipt(mine, active[i])
    {
      PlanTakes(receipts, base, rid, rem, obs, active[i]);
    }
  }

  /** The plan so far, grown by what the next receipt adds. */
  lemma PlanNext(receipts: Receipts, mine: seq<Row>, generated: seq<Row>, plan: seq<Row>, active: seq<int>, next: nat, obs: seq<Obligation>)
    requires next < |active| && Distinct(active) && AllActive(receipts, active) && DistinctTargets(obs)
    requires SameGiven(mine, mine + generated, active, next) && !Overallocated(receipts, mine, active[next])
    requires plan == generated + BulkPlan(receipts, mine + generated, active[next..], obs)
    ensures var rid, base := active[next], mine + generated;
            var added := Plan(receipts, base, rid, receipts[rid].Amount() - FromReceipt(mine, rid), obs);
            && base + added == mine + (generated + added) && SameGiven(mine, base + added, active, next + 1)
            && plan == generated + added + BulkPlan(receipts, base + added, active[next + 1..], obs)
  {
    var rid, base := active[next], mine + generated;
    var added := Plan(receipts, base, rid, receipts[rid].Amount() - FromReceipt(mine, rid), obs);
    BulkFrom(receipts, mine, base, active, next, obs);
    Regroup(mine, generated, added);
    Regroup(generated, added, BulkPlan(receipts, base + added, active[next + 1..], obs));
  }

  lemma InitialTally(receipts: Receipts, mine: seq<Row>, active: seq<int>, obs: seq<Obligation>, tally: map<Key, nat>)
    requires InTutoring(mine) && TutoringObligations(obs) && AllActive(receipts, active)
    requires forall x :: x in mine ==> x.receiptId in IdSet(active)
    requires forall key :: Lookup(tally, key) == KeySum(mine, key)
    ensures Tallies(tally, receipts, mine, obs)
  {
    forall k | 0 <= k < |mine| ensures Active(receipts, mine[k].receiptId) {
      assert mine[k] in mine;
    }
    forall j | 0 <= j < |obs| ensures Lookup(tally, KeyOf(obs[j].target)) == ToTarget(receipts, mine, obs[j].target) {
      KeySumIsToTarget(receipts, mine, obs[j].target);
    }
  }

  // ---- the client loop refines the server service --------------------------------------

  /** Every active row on one of these targets comes from one of these receipts. */
  predicate NoOtherPayer(receipts: Receipts, rows: seq<Row>, ids: seq<int>, obs: seq<Obligation>) {
    forall k, j :: 0 <= k < |rows| && 0 <= j < |obs| && rows[k].target == obs[j].target && Active(receipts, rows[k].receiptId) ==>
      rows[k].receiptId in IdSet(ids)
  }

  lemma {:induction false} RowsOfFrom(rows: seq<Row>, ids: set<int>, rid: int)
    requires rid in ids
    ensures FromReceipt(RowsOf(rows, ids), rid) == FromReceipt(rows, rid)
  {
    if rows != [] {
      RowsOfFrom(rows[1..], ids, rid);
      assert ([rows[0]] + RowsOf(rows[1..], ids))[1..] == RowsOf(rows[1..], ids);
    }
  }

  lemma {:induction false} RowsOfTo(receipts: Receipts, rows: seq<Row>, ids: set<int>, t: Target)
    requires forall k :: 0 <= k < |rows| && rows[k].target == t && Active(receipts, rows[k].receiptId) ==> rows[k].receiptId in ids
    ensures ToTarget(receipts, RowsOf(rows, ids), t) == ToTarget(receipts, rows, t)
  {
    if rows != [] {
      RowsOfTo(receipts, rows[1..], ids, t);
      assert ([rows[0]] + RowsOf(rows[1..], ids))[1..] == RowsOf(rows[1..], ids);
    }
  }

  /**
   With no allocations from other payers the client's bulk loop, which only sees the student's
   own rows, generates exactly the rows the server inserts receipt by receipt.
   */
  lemma ClientRefinesServer(receipts: Receipts, rows: seq<Row>, ids: seq<int>, obs: seq<Obligation>)
    requires Distinct(ids) && DistinctTargets(obs)
    requires NoOtherPayer(receipts, rows, ActiveIds(receipts, ids), obs)
    ensures var active := ActiveIds(receipts, ids);
            BulkPlan(receipts, RowsOf(rows, IdSet(active)), active, obs) == BulkPlan(receipts, rows, active, obs)
  {
    var active := ActiveIds(receipts, ids);
    var mine := RowsOf(rows, IdSet(active));
    ActiveIdsDistinct(receipts, ids);
    forall i | 0 <= i < |active| ensures Remaining(receipts, mine, active[i]) == Remaining(receipts, rows, active[i]) {
      RowsOfFrom(rows, IdSet(active), active[i]);
    }
    forall j | 0 <= j < |obs| ensures Outstanding(receipts, mine, obs[j]) == Outstanding(receipts, rows, obs[j]) {
      RowsOfTo(receipts, rows, IdSet(active), obs[j].target);
    }
    assert Remainings(receipts, mine, active) == Remainings(receipts, rows, active);
    assert Outstandings(receipts, mine, obs) == Outstandings(receipts, rows, obs);
    BulkPlanIsWaterfall(receipts, mine, active, obs);
    BulkPlanIsWaterfall(receipts, rows, active, obs);
  }
}
