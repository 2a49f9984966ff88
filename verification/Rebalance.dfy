/**
 Running every receipt of a payer, oldest first: the specification shared by the server's
 per-receipt service and the client's bulk loop, and its closed form.
 */
module Rebalance {
  import opened Numbers
  import opened Waterfall
  import opened Ledger
  import opened Collection
  import opened CollectionLaws

  function Remaining(receipts: Receipts, rows: seq<Row>, rid: int): nat {
    if rid in receipts then Max(0, receipts[rid].Amount() - FromReceipt(rows, rid)) else 0
  }

  function Remainings(receipts: Receipts, rows: seq<Row>, ids: seq<int>): (rems: seq<nat>)
    ensures |rems| == |ids|
    ensures forall i :: 0 <= i < |ids| ==> rems[i] == Remaining(receipts, rows, ids[i])
  {
    seq(|ids|, i requires 0 <= i < |ids| => Remaining(receipts, rows, ids[i]))
  }

  /** Rows generated by running the receipts `ids` in order. */
  function BulkPlan(receipts: Receipts, rows: seq<Row>, ids: seq<int>, obs: seq<Obligation>): seq<Row>
    decreases |ids|
  {
    if ids == [] then []
    else
      var plan := Plan(receipts, rows, ids[0], Remaining(receipts, rows, ids[0]), obs);
      plan + BulkPlan(receipts, rows + plan, ids[1..], obs)
  }

  predicate Distinct(ids: seq<int>) {
    forall i, j :: 0 <= i < j < |ids| ==> ids[i] != ids[j]
  }

  function IdSet(ids: seq<int>): set<int> {
    set i | 0 <= i < |ids| :: ids[i]
  }

  predicate AllActive(receipts: Receipts, ids: seq<int>) {
    forall i :: 0 <= i < |ids| ==> Active(receipts, ids[i])
  }

  /** Every row of an active receipt in `mine` has an exhausted receipt or a satisfied target. */
  predicate Settled(receipts: Receipts, rows: seq<Row>, mine: set<int>, obs: seq<Obligation>) {
    forall i, j ::
      (0 <= i < |rows| && 0 <= j < |obs| && rows[i].receiptId in mine && Active(receipts, rows[i].receiptId) && rows[i].target == obs[j].target) ==>
      FromReceipt(rows, rows[i].receiptId) >= receipts[rows[i].receiptId].Amount() || Outstanding(receipts, rows, obs[j]) == 0
  }

  /** The receipts that are not soft-deleted, in order. */
  function ActiveIds(receipts: Receipts, ids: seq<int>): (active: seq<int>)
    ensures forall x :: x in active <==> x in ids && Active(receipts, x)
  {
    if ids == [] then []
    else if Active(receipts, ids[0]) then [ids[0]] + ActiveIds(receipts, ids[1..])
    else ActiveIds(receipts, ids[1..])
  }

  lemma {:induction false} ActiveIdsDistinct(receipts: Receipts, ids: seq<int>)
    requires Distinct(ids)
    ensures Distinct(ActiveIds(receipts, ids)) && AllActive(receipts, ActiveIds(receipts, ids))
  {
    if ids != [] {
      ActiveIdsDistinct(receipts, ids[1..]);
      assert ids[0] !in ids[1..];
      var rest := ActiveIds(receipts, ids[1..]);
      forall i | 0 <= i < |rest| ensures Active(receipts, rest[i]) && rest[i] != ids[0] {
        assert rest[i] in rest;
      }
    }
  }

  // ---- effect of one receipt ----------------------------------------------------------

  lemma {:induction false} PouredFrom(rid: int, obs: seq<Obligation>, given: seq<nat>, other: int)
    requires |obs| == |given|
    ensures FromReceipt(PouredRows(rid, obs, given), other) == if other == rid then Sum(given) else 0
  {
    if obs != [] {
      PouredFrom(rid, obs[1..], given[1..], other);
      var head := if given[0] > 0 then [Row(rid, obs[0].target, given[0])] else [];
      FromReceiptAppend(head, PouredRows(rid, obs[1..], given[1..]), other);
    }
  }

  lemma {:induction false} PouredTo(receipts: Receipts, rid: int, obs: seq<Obligation>, given: seq<nat>, t: Target)
    requires |obs| == |given| && Active(receipts, rid) && DistinctTargets(obs)
    ensures (forall j :: 0 <= j < |obs| ==> obs[j].target != t) ==> ToTarget(receipts, PouredRows(rid, obs, given), t) == 0
    ensures forall j :: 0 <= j < |obs| && obs[j].target == t ==> ToTarget(receipts, PouredRows(rid, obs, given), t) == given[j]
  {
    if obs != [] {
      var obs', given' := obs[1..], given[1..];
      PouredTo(receipts, rid, obs', given', t);
      var head := if given[0] > 0 then [Row(rid, obs[0].target, given[0])] else [];
      ToTargetAppend(receipts, head, PouredRows(rid, obs', given'), t);
      forall j | 0 <= j < |obs'| ensures obs'[j] == obs[j + 1] && given'[j] == given[j + 1] {}
      if j :| 0 < j < |obs| && obs[j].target == t {
        assert obs'[j - 1].target == t;
      }
    }
  }

  lemma {:induction false} DrainIsRest(rem: nat, outs: seq<nat>, j: nat)
    requires j < |outs|
    ensures Pour(rem, outs)[j] + Drain(rem, outs)[j] == outs[j]
  {
    if j > 0 {
      DrainIsRest(rem - Min(rem, outs[0]), outs[1..], j - 1);
    }
  }

  /** After one receipt the outstanding amounts are the drained ones. */
  lemma PlanDrains(receipts: Receipts, rows: seq<Row>, rid: int, rem: nat, obs: seq<Obligation>)
    requires Active(receipts, rid) && DistinctTargets(obs)
    ensures Outstandings(receipts, rows + Plan(receipts, rows, rid, rem, obs), obs)
         == Drain(rem, Outstandings(receipts, rows, obs))
  {
    var outs := Outstandings(receipts, rows, obs);
    var plan := Plan(receipts, rows, rid, rem, obs);
    PlanIsPour(receipts, rows, rid, rem, obs);
    forall j | 0 <= j < |obs| ensures Outstanding(receipts, rows + plan, obs[j]) == Drain(rem, outs)[j] {
      PouredTo(receipts, rid, obs, Pour(rem, outs), obs[j].target);
      ToTargetAppend(receipts, rows, plan, obs[j].target);
      DrainIsRest(rem, outs, j);
    }
  }

  /** One receipt's rows take its own pence and nobody else's. */
  lemma PlanTakes(receipts: Receipts, rows: seq<Row>, rid: int, rem: nat, obs: seq<Obligation>, other: int)
    requires Active(receipts, rid) && DistinctTargets(obs)
    ensures FromReceipt(rows + Plan(receipts, rows, rid, rem, obs), other)
         == FromReceipt(rows, other) + if other == rid then Min(rem, Sum(Outstandings(receipts, rows, obs))) else 0
  {
    var outs := Outstandings(receipts, rows, obs);
    PlanIsPour(receipts, rows, rid, rem, obs);
    FromReceiptAppend(rows, PouredRows(rid, obs, Pour(rem, outs)), other);
    PouredFrom(rid, obs, Pour(rem, outs), other);
    PourSum(rem, outs);
  }

  lemma RemainingsAfterPlan(receipts: Receipts, rows: seq<Row>, ids: seq<int>, obs: seq<Obligation>)
    requires ids != [] && Distinct(ids) && AllActive(receipts, ids) && DistinctTargets(obs)
    ensures var plan := Plan(receipts, rows, ids[0], Remaining(receipts, rows, ids[0]), obs);
            Remainings(receipts, rows + plan, ids[1..]) == Remainings(receipts, rows, ids)[1..]
  {
    forall i | 0 <= i < |ids[1..]|
      ensures FromReceipt(rows + Plan(receipts, rows, ids[0], Remaining(receipts, rows, ids[0]), obs), ids[1..][i]) == FromReceipt(rows, ids[i + 1])
    {
      PlanTakes(receipts, rows, ids[0], Remaining(receipts, rows, ids[0]), obs, ids[i + 1]);
    }
  }

  // ---- the closed form in the ledger --------------------------------------------------

  /** Row i of the matrix as ledger rows of receipt ids[i], for all i. */
  function MatrixRows(ids: seq<int>, obs: seq<Obligation>, m: seq<seq<nat>>): seq<Row>
    requires |m| == |ids| && forall i :: 0 <= i < |m| ==> |m[i]| == |obs|
  {
    if ids == [] then [] else PouredRows(ids[0], obs, m[0]) + MatrixRows(ids[1..], obs, m[1..])
  }

  lemma {:induction false} BulkPlanIsWaterfall(receipts: Receipts, rows: seq<Row>, ids: seq<int>, obs: seq<Obligation>)
    requires Distinct(ids) && AllActive(receipts, ids) && DistinctTargets(obs)
    ensures BulkPlan(receipts, rows, ids, obs)
         == MatrixRows(ids, obs, Matrix(Remainings(receipts, rows, ids), Outstandings(receipts, rows, obs)))
    decreases |ids|
  {
    if ids != [] {
      var rem := Remaining(receipts, rows, ids[0]);
      var plan := Plan(receipts, rows, ids[0], rem, obs);
      var rems, outs := Remainings(receipts, rows, ids), Outstandings(receipts, rows, obs);
      PlanIsPour(receipts, rows, ids[0], rem, obs);
      PlanDrains(receipts, rows, ids[0], rem, obs);
      RemainingsAfterPlan(receipts, rows, ids, obs);
      BulkPlanIsWaterfall(receipts, rows + plan, ids[1..], obs);
      assert Matrix(rems, outs)[1..] == Matrix(rems[1..], Drain(rem, outs));
    }
  }

  /** Pence a receipt has given to a target. */
  function PairAmount(rows: seq<Row>, rid: int, t: Target): nat {
    if rows == [] then 0
    else (if rows[0].receiptId == rid && rows[0].target == t then rows[0].amount else 0) + PairAmount(rows[1..], rid, t)
  }

  lemma {:induction false} PairAmountAppend(xs: seq<Row>, ys: seq<Row>, rid: int, t: Target)
    ensures PairAmount(xs + ys, rid, t) == PairAmount(xs, rid, t) + PairAmount(ys, rid, t)
  {
    if xs == [] {
      assert xs + ys == ys;
    } else {
      assert (xs + ys)[1..] == xs[1..] + ys;
      PairAmountAppend(xs[1..], ys, rid, t);
    }
  }

  lemma {:induction false} PairAmountPoured(owner: int, obs: seq<Obligation>, given: seq<nat>, rid: int, j: nat)
    requires |obs| == |given| && j < |obs| && DistinctTargets(obs)
    ensures PairAmount(PouredRows(owner, obs, given), rid, obs[j].target) == if rid == owner then given[j] else 0
  {
    var obs', given' := obs[1..], given[1..];
    var head := if given[0] > 0 then [Row(owner, obs[0].target, given[0])] else [];
    PairAmountAppend(head, PouredRows(owner, obs', given'), rid, obs[j].target);
    if j > 0 {
      PairAmountPoured(owner, obs', given', rid, j - 1);
    } else {
      NoPairElsewhere(owner, obs', given', rid, obs[0].target);
    }
  }

  lemma {:induction false} NoPairElsewhere(owner: int, obs: seq<Obligation>, given: seq<nat>, rid: int, t: Target)
    requires |obs| == |given| && forall j :: 0 <= j < |obs| ==> obs[j].target != t
    ensures PairAmount(PouredRows(owner, obs, given), rid, t) == 0
  {
    if obs != [] {
      var head := if given[0] > 0 then [Row(owner, obs[0].target, given[0])] else [];
      PairAmountAppend(head, PouredRows(owner, obs[1..], given[1..]), rid, t);
      NoPairElsewhere(owner, obs[1..], given[1..], rid, t);
    }
  }

  lemma {:induction false} PairAmountMatrix(ids: seq<int>, obs: seq<Obligation>, m: seq<seq<nat>>, i: nat, j: nat)
    requires |m| == |ids| && forall i :: 0 <= i < |m| ==> |m[i]| == |obs|
    requires Distinct(ids) && DistinctTargets(obs) && i < |ids| && j < |obs|
    ensures PairAmount(MatrixRows(ids, obs, m), ids[i], obs[j].target) == m[i][j]
  {
    PairAmountAppend(PouredRows(ids[0], obs, m[0]), MatrixRows(ids[1..], obs, m[1..]), ids[i], obs[j].target);
    PairAmountPoured(ids[0], obs, m[0], ids[i], j);
    if i > 0 {
      PairAmountMatrix(ids[1..], obs, m[1..], i - 1, j);
    } else {
      NoPairForOther(ids[1..], obs, m[1..], ids[0], j);
    }
  }

  lemma {:induction false} NoPairForOther(ids: seq<int>, obs: seq<Obligation>, m: seq<seq<nat>>, rid: int, j: nat)
    requires |m| == |ids| && forall i :: 0 <= i < |m| ==> |m[i]| == |obs|
    requires rid !in ids && DistinctTargets(obs) && j < |obs|
    ensures PairAmount(MatrixRows(ids, obs, m), rid, obs[j].target) == 0
  {
    if ids != [] {
      PairAmountAppend(PouredRows(ids[0], obs, m[0]), MatrixRows(ids[1..], obs, m[1..]), rid, obs[j].target);
      PairAmountPoured(ids[0], obs, m[0], rid, j);
      NoPairForOther(ids[1..], obs, m[1..], rid, j);
    }
  }

  /**
   A run of all receipts gives from receipt i to obligation j exactly the overlap of their
   prefix-sum intervals over what was unallocated and outstanding before it.
   */
  lemma RebalanceClosedForm(receipts: Receipts, rows: seq<Row>, ids: seq<int>, obs: seq<Obligation>, i: nat, j: nat)
    requires Distinct(ids) && AllActive(receipts, ids) && DistinctTargets(obs) && i < |ids| && j < |obs|
    ensures var rems, outs := Remainings(receipts, rows, ids), Outstandings(receipts, rows, obs);
            PairAmount(BulkPlan(receipts, rows, ids, obs), ids[i], obs[j].target)
            == Overlap(Prefix(rems, i), Prefix(rems, i + 1), Prefix(outs, j), Prefix(outs, j + 1))
  {
    var rems, outs := Remainings(receipts, rows, ids), Outstandings(receipts, rows, obs);
    BulkPlanIsWaterfall(receipts, rows, ids, obs);
    PairAmountMatrix(ids, obs, Matrix(rems, outs), i, j);
    WaterfallClosedForm(rems, outs, i, j);
  }

  /** A later obligation receives pence in a run only if every earlier one ends up full. */
  lemma LaterOnlyWhenEarlierFull(receipts: Receipts, rows: seq<Row>, ids: seq<int>, obs: seq<Obligation>, i: nat, j: nat, k: nat)
    requires Distinct(ids) && AllActive(receipts, ids) && DistinctTargets(obs) && i < |ids| && j < k < |obs|
    requires PairAmount(BulkPlan(receipts, rows, ids, obs), ids[i], obs[k].target) > 0
    ensures Outstanding(receipts, rows + BulkPlan(receipts, rows, ids, obs), obs[j]) == 0
  {
    var rems, outs := Remainings(receipts, rows, ids), Outstandings(receipts, rows, obs);
    BulkPlanIsWaterfall(receipts, rows, ids, obs);
    PairAmountMatrix(ids, obs, Matrix(rems, outs), i, k);
    ReachesPastStart(rems, outs, i, k);
    PrefixMonotone(outs, j + 1, k);
    PrefixMonotone(rems, i + 1, |rems|);
    PrefixFull(rems);
    CoveredMeansFull(rems, outs, j);
    BulkPlanDrains(receipts, rows, ids, obs);
  }

  lemma {:induction false} BulkPlanDrains(receipts: Receipts, rows: seq<Row>, ids: seq<int>, obs: seq<Obligation>)
    requires Distinct(ids) && AllActive(receipts, ids) && DistinctTargets(obs)
    ensures Outstandings(receipts, rows + BulkPlan(receipts, rows, ids, obs), obs)
         == DrainAll(Remainings(receipts, rows, ids), Outstandings(receipts, rows, obs))
    decreases |ids|
  {
    if ids == [] {
      assert rows + [] == rows;
    } else {
      var rem := Remaining(receipts, rows, ids[0]);
      var plan := Plan(receipts, rows, ids[0], rem, obs);
      PlanDrains(receipts, rows, ids[0], rem, obs);
      RemainingsAfterPlan(receipts, rows, ids, obs);
      BulkPlanDrains(receipts, rows + plan, ids[1..], obs);
      Regroup(rows, plan, BulkPlan(receipts, rows + plan, ids[1..], obs));
    }
  }

  lemma {:induction false} NothingOwedNothingPlanned(receipts: Receipts, rows: seq<Row>, rid: int, rem: nat, obs: seq<Obligation>)
    requires rem == 0 || forall j :: 0 <= j < |obs| ==> Outstanding(receipts, rows, obs[j]) == 0
    ensures Plan(receipts, rows, rid, rem, obs) == []
    decreases |obs|
  {
    if obs != [] && rem > 0 {
      NothingOwedNothingPlanned(receipts, rows, rid, rem, obs[1..]);
    }
  }
}
