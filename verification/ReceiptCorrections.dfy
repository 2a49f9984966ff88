/** Deleting and restoring a receipt on the server: mark it, then rebuild its payer's allocations. */
module ReceiptCorrections {
  import opened Numbers
  import opened Ledger
  import opened Collection
  import opened Rebalance
  import opened BalanceHistory
  import opened FinancialReconcile

  /** The ledger after a rebuild. */
  function Rebuilt(receipts: Receipts, rows: seq<Row>, ids: seq<int>, obs: seq<Obligation>): seq<Row> {
    var others := Without(rows, IdSet(ids));
    others + BulkPlan(receipts, others, ActiveIds(receipts, ids), obs)
  }

  lemma {:induction false} WithoutRows(rows: seq<Row>, mine: set<int>, part: seq<Row>)
    requires forall x :: x in part ==> x.receiptId in mine
    ensures Without(Without(rows, mine) + part, mine) == Without(rows, mine)
  {
    var others := Without(rows, mine);
    if rows == [] {
      assert others + part == part;
      if part != [] {
        WithoutRows([], mine, part[1..]);
        assert [] + part[1..] == part[1..];
      }
    } else if rows[0].receiptId in mine {
      WithoutRows(rows[1..], mine, part);
    } else {
      assert (others + part)[1..] == Without(rows[1..], mine) + part;
      WithoutRows(rows[1..], mine, part);
    }
  }

  /**
   A rebuild depends on nothing that an earlier one left behind: not on the receipts and obligations
   that one saw, and not on how far it came before the process died.
   */
  lemma RebuildForgets(receipts: Receipts, earlier: Receipts, rows: seq<Row>, ids: seq<int>,
                       obs: seq<Obligation>, earlierObs: seq<Obligation>, k: nat)
    requires k <= |BulkPlan(earlier, Without(rows, IdSet(ids)), ActiveIds(earlier, ids), earlierObs)|
    ensures var others := Without(rows, IdSet(ids));
            var part := BulkPlan(earlier, others, ActiveIds(earlier, ids), earlierObs)[..k];
            Rebuilt(receipts, others + part, ids, obs) == Rebuilt(receipts, rows, ids, obs)
  {
    var others := Without(rows, IdSet(ids));
    var plan := BulkPlan(earlier, others, ActiveIds(earlier, ids), earlierObs);
    BulkRowsFrom(earlier, others, ActiveIds(earlier, ids), earlierObs);
    forall x | x in plan[..k] ensures x.receiptId in IdSet(ids) {
      assert x in plan && x.receiptId in ids;
    }
    WithoutRows(rows, IdSet(ids), plan[..k]);
  }

  function Marked(receipts: Receipts, rid: int, deleted: bool): Receipts
    requires rid in receipts
  {
    receipts[rid := receipts[rid].(deleted := deleted)]
  }

  /** A deleted receipt pays for nothing once the rebuild is through; no other receipt is marked. */
  lemma DeletedPaysNothing(receipts: Receipts, rows: seq<Row>, rid: int, ids: seq<int>, obs: seq<Obligation>)
    requires rid in receipts && rid in ids
    ensures var gone := Marked(receipts, rid, true);
      && gone.Keys == receipts.Keys && gone[rid].deleted && gone[rid].command == receipts[rid].command
      && (forall r :: r in receipts && r != rid ==> gone[r] == receipts[r])
      && forall x :: x in Rebuilt(gone, rows, ids, obs) ==> x.receiptId != rid
  {
    var gone := Marked(receipts, rid, true);
    var others := Without(rows, IdSet(ids));
    BulkRowsFrom(gone, others, ActiveIds(gone, ids), obs);
    ActiveIdsAreActive(gone, ids);
  }

  lemma {:induction false} ActiveIdsAreActive(receipts: Receipts, ids: seq<int>)
    ensures forall r :: r in ActiveIds(receipts, ids) ==> r in ids && Active(receipts, r)
  {
    if ids != [] { ActiveIdsAreActive(receipts, ids[1..]); }
  }

  /** Restoring a deleted receipt brings the ledger back, even if the rebuild of the deletion was cut short. */
  lemma RestoreUndoesDelete(receipts: Receipts, rows: seq<Row>, rid: int, ids: seq<int>, obs: seq<Obligation>, k: nat)
    requires Active(receipts, rid)
    requires var gone := Marked(receipts, rid, true); k <= |BulkPlan(gone, Without(rows, IdSet(ids)), ActiveIds(gone, ids), obs)|
    ensures var gone := Marked(receipts, rid, true);
            var others := Without(rows, IdSet(ids));
            var left := others + BulkPlan(gone, others, ActiveIds(gone, ids), obs)[..k];
            Rebuilt(Marked(gone, rid, false), left, ids, obs) == Rebuilt(receipts, rows, ids, obs)
  {
    var gone := Marked(receipts, rid, true);
    assert Marked(gone, rid, false) == receipts;
    RebuildForgets(receipts, gone, rows, ids, obs, obs, k);
  }

  class ReceiptHandler {
    const reconciler: StudentReconciler

    constructor (reconciler: StudentReconciler)
      ensures this.reconciler == reconciler
    {
      this.reconciler := reconciler;
    }

    /** receipt.delete and receipt.restore; `ids` are the receipts of its payer, `listed` the obligations. */
    method SetDeleted(rid: int, deleted: bool, ids: seq<int>, listed: seq<Obligation>) returns (error: Option<Error>)
      requires reconciler.service.gateway.Valid() && Listing(reconciler.service.gateway.receipts, ids) && DistinctTargets(listed)
      modifies reconciler.service.gateway
      ensures var gateway := reconciler.service.gateway;
        if rid !in old(gateway.receipts) then error == Some(ReceiptNotFound) && gateway.receipts == old(gateway.receipts) && gateway.rows == old(gateway.rows)
        else
          && gateway.Valid() && gateway.receipts == Marked(old(gateway.receipts), rid, deleted)
          && (error.None? ==> gateway.rows == Rebuilt(gateway.receipts, old(gateway.rows), ids, SortObligations(listed)))
          && (error.Some? ==> error == Some(Crashed) && exists k: nat :: CutShort(gateway.receipts, old(gateway.rows), ids, SortObligations(listed), gateway.rows, k))
    {
      var gateway := reconciler.service.gateway;
      if rid !in gateway.receipts { return Some(ReceiptNotFound); }
      ghost var rows, life := gateway.rows, gateway.lifetime;
      if gateway.receipts[rid].deleted != deleted { gateway.SetDeleted(rid, deleted); }
      error := reconciler.Rebuild(ids, listed);
      assert error.Some? ==> CutShort(gateway.receipts, rows, ids, SortObligations(listed), gateway.rows, life);
    }
  }

  /** The rows of a rebuild that died after k inserts. */
  ghost predicate CutShort(receipts: Receipts, rows: seq<Row>, ids: seq<int>, obs: seq<Obligation>, left: seq<Row>, k: nat) {
    var others := Without(rows, IdSet(ids));
    var plan := BulkPlan(receipts, others, ActiveIds(receipts, ids), obs);
    k < |plan| && left == others + plan[..k]
  }
}
