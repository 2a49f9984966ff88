/**
 Server side: reconcile and rebuild a student's allocations by running the collection service
 over the student's receipts in (received_at, id) order.
 */
module FinancialReconcile {
  import opened Numbers
  import opened Waterfall
  import opened Ledger
  import opened Collection
  import opened CollectionLaws
  import opened Rebalance

  // ---- a greedy step never leaves an open pair ----------------------------------------

  /** A greedy row keeps every row's receipt exhausted or its target satisfied. */
  lemma StepKeepsSettled(receipts: Receipts, rows: seq<Row>, mine: set<int>, rid: int, rem: nat, obs: seq<Obligation>, j: nat)
    requires Settled(receipts, rows, mine, obs) && DistinctTargets(obs) && j < |obs|
    requires Unallocated(receipts, rows, rid, rem)
    ensures Settled(receipts, rows + [Row(rid, obs[j].target, Min(rem, Outstanding(receipts, rows, obs[j])))], mine, obs)
  {
    var row := Row(rid, obs[j].target, Min(rem, Outstanding(receipts, rows, obs[j])));
    var rows' := rows + [row];
    forall i, k | 0 <= i < |rows'| && 0 <= k < |obs| && rows'[i].receiptId in mine && Active(receipts, rows'[i].receiptId) && rows'[i].target == obs[k].target
      ensures FromReceipt(rows', rows'[i].receiptId) >= receipts[rows'[i].receiptId].Amount() || Outstanding(receipts, rows', obs[k]) == 0
    {
      AppendedOutstanding(receipts, rows, row, obs[k]);
      FromReceiptAppend(rows, [row], rows'[i].receiptId);
    }
  }

  /** `obs` is the tail of the full list `all` from position `at` on. */
  lemma {:induction false} PlanKeepsSettled(receipts: Receipts, rows: seq<Row>, mine: set<int>, rid: int, rem: nat, all: seq<Obligation>, at: nat, k: nat)
    requires Settled(receipts, rows, mine, all) && DistinctTargets(all) && at <= |all|
    requires Unallocated(receipts, rows, rid, rem)
    requires k <= |Plan(receipts, rows, rid, rem, all[at..])|
    ensures Settled(receipts, rows + Plan(receipts, rows, rid, rem, all[at..])[..k], mine, all)
    decreases |all| - at
  {
    var obs := all[at..];
    var plan := Plan(receipts, rows, rid, rem, obs);
    if k == 0 {
      assert rows + plan[..0] == rows;
    } else {
      assert obs[0] == all[at] && obs[1..] == all[at + 1..];
      if Outstanding(receipts, rows, obs[0]) == 0 {
        PlanKeepsSettled(receipts, rows, mine, rid, rem, all, at + 1, k);
      } else {
        var row := Row(rid, obs[0].target, Min(rem, Outstanding(receipts, rows, obs[0])));
        var tail := Plan(receipts, rows + [row], rid, rem - row.amount, obs[1..]);
        assert plan == [row] + tail;
        StepKeepsSettled(receipts, rows, mine, rid, rem, all, at);
        FromReceiptAppend(rows, [row], rid);
        PlanKeepsSettled(receipts, rows + [row], mine, rid, rem - row.amount, all, at + 1, k - 1);
        assert rows + plan[..k] == rows + [row] + tail[..k - 1];
      }
    }
  }

  lemma SettledMeansNoOpenPair(receipts: Receipts, rows: seq<Row>, mine: set<int>, rid: int, obs: seq<Obligation>)
    requires Settled(receipts, rows, mine, obs) && Active(receipts, rid) && rid in mine
    ensures NoOpenPair(receipts, rows, rid, Remaining(receipts, rows, rid), obs)
  {
  }

  lemma DistinctIsConsistent(obs: seq<Obligation>)
    requires DistinctTargets(obs)
    ensures Consistent(obs)
  {
    forall i, j | 0 <= i < |obs| && 0 <= j < |obs| && obs[i].target == obs[j].target ensures obs[i].amountDue == obs[j].amountDue {
      if i < j { assert false; }
      if j < i { assert false; }
    }
  }

  // ---- resuming a whole reconcile -----------------------------------------------------

  /** Once a receipt has run, running it again plans nothing, whatever has been added since. */
  lemma FinishedReceiptPlansNothing(receipts: Receipts, rows: seq<Row>, rid: int, obs: seq<Obligation>, more: seq<Row>)
    requires Active(receipts, rid) && DistinctTargets(obs) && FromReceipt(rows, rid) <= receipts[rid].Amount()
    ensures var rows' := rows + Plan(receipts, rows, rid, Remaining(receipts, rows, rid), obs);
            Plan(receipts, rows' + more, rid, Remaining(receipts, rows' + more, rid), obs) == []
  {
    var rem := Remaining(receipts, rows, rid);
    var rows' := rows + Plan(receipts, rows, rid, rem, obs);
    var outs := Outstandings(receipts, rows, obs);
    PlanTakes(receipts, rows, rid, rem, obs, rid);
    FromReceiptAppend(rows', more, rid);
    PlanDrains(receipts, rows, rid, rem, obs);
    DrainTotal(rem, outs);
    forall j | 0 <= j < |obs| && rem > Sum(outs) ensures Outstanding(receipts, rows' + more, obs[j]) == 0 {
      SumZero(Drain(rem, outs), j);
      ToTargetAppend(receipts, rows', more, obs[j].target);
    }
    NothingOwedNothingPlanned(receipts, rows' + more, rid, Remaining(receipts, rows' + more, rid), obs);
  }

  /** No receipt on the list has given away more than it holds. */
  predicate Within(receipts: Receipts, rows: seq<Row>, ids: seq<int>) {
    forall i :: 0 <= i < |ids| ==> Active(receipts, ids[i]) && FromReceipt(rows, ids[i]) <= receipts[ids[i]].Amount()
  }

  lemma AfterFirstReceipt(receipts: Receipts, rows: seq<Row>, mine: set<int>, ids: seq<int>, obs: seq<Obligation>)
    requires ids != [] && ids[0] in mine && Distinct(ids) && Within(receipts, rows, ids) && DistinctTargets(obs) && Settled(receipts, rows, mine, obs)
    ensures var rows' := rows + Plan(receipts, rows, ids[0], Remaining(receipts, rows, ids[0]), obs);
            Settled(receipts, rows', mine, obs) && Within(receipts, rows', ids[1..])
  {
    var rem := Remaining(receipts, rows, ids[0]);
    var first := Plan(receipts, rows, ids[0], rem, obs);
    assert obs[0..] == obs && first[..|first|] == first;
    PlanKeepsSettled(receipts, rows, mine, ids[0], rem, obs, 0, |first|);
    forall i | 0 <= i < |ids[1..]|
      ensures Active(receipts, ids[1..][i]) && FromReceipt(rows + first, ids[1..][i]) <= receipts[ids[1..][i]].Amount()
    {
      assert ids[1..][i] == ids[i + 1];
      PlanTakes(receipts, rows, ids[0], rem, obs, ids[i + 1]);
    }
  }

  lemma ResumedPlan(receipts: Receipts, rows: seq<Row>, mine: set<int>, rid: int, obs: seq<Obligation>, k: nat)
    requires rid in mine && Within(receipts, rows, [rid]) && DistinctTargets(obs) && Settled(receipts, rows, mine, obs)
    requires k <= |Plan(receipts, rows, rid, Remaining(receipts, rows, rid), obs)|
    ensures var first := Plan(receipts, rows, rid, Remaining(receipts, rows, rid), obs);
            Plan(receipts, rows + first[..k], rid, Remaining(receipts, rows + first[..k], rid), obs) == first[k..]
  {
    assert [rid][0] == rid;
    SettledMeansNoOpenPair(receipts, rows, mine, rid, obs);
    DistinctIsConsistent(obs);
    ResumePlansTheRest(receipts, rows, rid, Remaining(receipts, rows, rid), obs, k);
  }

  lemma StoppedInFirst(receipts: Receipts, rows: seq<Row>, mine: set<int>, ids: seq<int>, obs: seq<Obligation>, k: nat)
    requires ids != [] && ids[0] in mine && Within(receipts, rows, ids) && DistinctTargets(obs) && Settled(receipts, rows, mine, obs)
    requires k <= |Plan(receipts, rows, ids[0], Remaining(receipts, rows, ids[0]), obs)|
    ensures var plan := BulkPlan(receipts, rows, ids, obs);
            k <= |plan| && BulkPlan(receipts, rows + plan[..k], ids, obs) == plan[k..]
  {
    var first := Plan(receipts, rows, ids[0], Remaining(receipts, rows, ids[0]), obs);
    ResumedPlan(receipts, rows, mine, ids[0], obs, k);
    CutInside(rows, first, BulkPlan(receipts, rows + first, ids[1..], obs), k);
  }

  lemma CutInside(rows: seq<Row>, first: seq<Row>, rest: seq<Row>, k: nat)
    requires k <= |first|
    ensures var plan := first + rest;
            plan[..k] == first[..k] && rows + first[..k] + first[k..] == rows + first && plan[k..] == first[k..] + rest
  {
  }

  lemma StoppedLater(receipts: Receipts, rows: seq<Row>, ids: seq<int>, obs: seq<Obligation>, extra: seq<Row>)
    requires ids != [] && Within(receipts, rows, ids) && DistinctTargets(obs)
    ensures var rows' := rows + Plan(receipts, rows, ids[0], Remaining(receipts, rows, ids[0]), obs);
            BulkPlan(receipts, rows' + extra, ids, obs) == BulkPlan(receipts, rows' + extra, ids[1..], obs)
  {
    var rows' := rows + Plan(receipts, rows, ids[0], Remaining(receipts, rows, ids[0]), obs);
    FinishedReceiptPlansNothing(receipts, rows, ids[0], obs, extra);
    assert rows' + extra + [] == rows' + extra;
  }

  lemma CutBehind(rows: seq<Row>, first: seq<Row>, rest: seq<Row>, k: nat)
    requires |first| <= k <= |first + rest|
    ensures var plan := first + rest;
            rows + plan[..k] == rows + first + rest[..k - |first|] && plan[k..] == rest[k - |first|..]
  {
  }

  /** Stopping a reconcile after any k inserts leaves exactly the remaining inserts to do. */
  lemma {:induction false} ReconcileResumes(receipts: Receipts, rows: seq<Row>, mine: set<int>, ids: seq<int>, obs: seq<Obligation>, k: nat)
    requires Distinct(ids) && (forall x :: x in ids ==> x in mine)
    requires Within(receipts, rows, ids) && DistinctTargets(obs) && Settled(receipts, rows, mine, obs)
    requires k <= |BulkPlan(receipts, rows, ids, obs)|
    ensures var plan := BulkPlan(receipts, rows, ids, obs);
            BulkPlan(receipts, rows + plan[..k], ids, obs) == plan[k..]
    decreases |ids|
  {
    if ids == [] {
      assert rows + [] == rows;
    } else {
      var first := Plan(receipts, rows, ids[0], Remaining(receipts, rows, ids[0]), obs);
      if k <= |first| {
        StoppedInFirst(receipts, rows, mine, ids, obs, k);
      } else {
        var rest := BulkPlan(receipts, rows + first, ids[1..], obs);
        var extra := rest[..k - |first|];
        CutBehind(rows, first, rest, k);
        AfterFirstReceipt(receipts, rows, mine, ids, obs);
        StoppedLater(receipts, rows, ids, obs, extra);
        ReconcileResumes(receipts, rows + first, mine, ids[1..], obs, k - |first|);
      }
    }
  }

  // ---- the server procedures ----------------------------------------------------------

  /** The payer's stored receipts: known, distinct, with a payer and a positive amount. */
  predicate Listing(receipts: Receipts, ids: seq<int>) {
    Distinct(ids) && forall i :: 0 <= i < |ids| ==>
      ids[i] in receipts && receipts[ids[i]].command.payer.Some? && receipts[ids[i]].command.amount > 0
  }

  /** Ledger and error after running a plan with `lifetime` inserts left. */
  predicate RanPlan(rows: seq<Row>, plan: seq<Row>, lifetime: nat, rows': seq<Row>, lifetime': nat, error: Option<Error>) {
    if |plan| <= lifetime then error.None? && rows' == rows + plan && lifetime' == lifetime - |plan|
    else error == Some(Crashed) && rows' == rows + plan[..lifetime]
  }

  lemma RunUsesLifetime(receipts: Receipts, rows: seq<Row>, mine: set<int>, rid: int, obs: seq<Obligation>, lifetime: nat)
    requires rid in mine && Within(receipts, rows, [rid]) && DistinctTargets(obs) && Settled(receipts, rows, mine, obs)
    ensures var rem := Remaining(receipts, rows, rid);
            FollowsPlan(Run(receipts, rows, rid, rem, obs, lifetime), rows, Plan(receipts, rows, rid, rem, obs), rem, lifetime)
  {
    assert [rid][0] == rid;
    SettledMeansNoOpenPair(receipts, rows, mine, rid, obs);
    DistinctIsConsistent(obs);
    RunFollowsPlan(receipts, rows, rid, Remaining(receipts, rows, rid), obs, lifetime);
  }

  /** A crash while the second part runs is a crash inside the whole plan. */
  lemma PlanSplit(rows: seq<Row>, done: seq<Row>, first: seq<Row>, rest: seq<Row>, lifetime: nat)
    requires |done| <= lifetime
    ensures |done| + |first| > lifetime ==>
            rows + (done + (first + rest))[..lifetime] == rows + done + first[..lifetime - |done|]
    ensures rows + done + first == rows + (done + first)
    ensures done + (first + rest) == done + first + rest
  {
  }

  /** What the loop needs to know about the next active receipt. */
  lemma NextReceipt(receipts: Receipts, rows: seq<Row>, mine: set<int>, ids: seq<int>, next: nat, obs: seq<Obligation>)
    requires Listing(receipts, ids) && next < |ids| && Active(receipts, ids[next]) && ids[next] in mine
    requires Conserved(receipts, rows) && DistinctTargets(obs) && Settled(receipts, rows, mine, obs)
    ensures var rid := ids[next];
            var first := Plan(receipts, rows, rid, Remaining(receipts, rows, rid), obs);
            && Listing(receipts, [rid])
            && Settled(receipts, rows + first, mine, obs)
            && BulkPlan(receipts, rows, ActiveIds(receipts, ids[next..]), obs)
               == first + BulkPlan(receipts, rows + first, ActiveIds(receipts, ids[next + 1..]), obs)
  {
    var rid := ids[next];
    var active := ActiveIds(receipts, ids[next..]);
    assert ids[next..][0] == rid && ids[next..][1..] == ids[next + 1..];
    assert active == [rid] + ActiveIds(receipts, ids[next + 1..]);
    assert active[1..] == ActiveIds(receipts, ids[next + 1..]);
    var first := Plan(receipts, rows, rid, Remaining(receipts, rows, rid), obs);
    assert obs[0..] == obs && first[..|first|] == first;
    PlanKeepsSettled(receipts, rows, mine, rid, Remaining(receipts, rows, rid), obs, 0, |first|);
  }

  /** `done` has been inserted, and the receipts from `next` on insert the rest of the plan. */
  ghost predicate Reconciling(receipts: Receipts, rows0: seq<Row>, life0: nat, plan: seq<Row>, done: seq<Row>,
                              rows: seq<Row>, life: nat, ids: seq<int>, next: nat, obs: seq<Obligation>)
    requires next <= |ids|
  {
    && rows == rows0 + done && life + |done| == life0
    && Settled(receipts, rows, IdSet(ids), obs)
    && plan == done + BulkPlan(receipts, rows, ActiveIds(receipts, ids[next..]), obs)
  }

  /** One turn of the loop: the next receipt has run its plan. */
  lemma ReceiptTurn(receipts: Receipts, rows0: seq<Row>, life0: nat, plan: seq<Row>, done: seq<Row>, rows: seq<Row>, life: nat,
                    ids: seq<int>, next: nat, obs: seq<Obligation>, rows': seq<Row>, life': nat, error: Option<Error>)
    requires Listing(receipts, ids) && next < |ids| && Active(receipts, ids[next])
    requires Conserved(receipts, rows) && DistinctTargets(obs)
    requires Reconciling(receipts, rows0, life0, plan, done, rows, life, ids, next, obs)
    requires RanPlan(rows, Plan(receipts, rows, ids[next], Remaining(receipts, rows, ids[next]), obs), life, rows', life', error)
    ensures error.Some? ==> RanPlan(rows0, plan, life0, rows', life', error)
    ensures error.None? ==>
      var first := Plan(receipts, rows, ids[next], Remaining(receipts, rows, ids[next]), obs);
      Reconciling(receipts, rows0, life0, plan, done + first, rows', life', ids, next + 1, obs)
  {
    var first := Plan(receipts, rows, ids[next], Remaining(receipts, rows, ids[next]), obs);
    var rest := BulkPlan(receipts, rows + first, ActiveIds(receipts, ids[next + 1..]), obs);
    NextReceipt(receipts, rows, IdSet(ids), ids, next, obs);
    PlanSplit(rows0, done, first, rest, life0);
  }

  class StudentReconciler {
    const service: FinanceCollectionService

    constructor (service: FinanceCollectionService)
      ensures this.service == service
    {
      this.service := service;
    }

    /** collect for one stored receipt during a reconcile. */
    method CollectStored(rid: int, ghost mine: set<int>, listed: seq<Obligation>) returns (error: Option<Error>)
      requires rid in mine && Listing(service.gateway.receipts, [rid]) && Active(service.gateway.receipts, rid)
      requires service.gateway.Valid() && DistinctTargets(listed)
      requires Settled(service.gateway.receipts, service.gateway.rows, mine, SortObligations(listed))
      modifies service.gateway
      ensures service.gateway.Valid() && service.gateway.receipts == old(service.gateway.receipts)
      ensures var receipts, rows := service.gateway.receipts, old(service.gateway.rows);
              var plan := Plan(receipts, rows, rid, Remaining(receipts, rows, rid), SortObligations(listed));
              RanPlan(rows, plan, old(service.gateway.lifetime), service.gateway.rows, service.gateway.lifetime, error)
    {
      var gateway := service.gateway;
      assert [rid][0] == rid;
      SortKeepsDistinct(listed);
      RunUsesLifetime(gateway.receipts, gateway.rows, mine, rid, SortObligations(listed), gateway.lifetime);
      var result := service.Collect(rid, gateway.receipts[rid].command, listed);
      error := if result.Rejected? then Some(result.error) else None;
    }

    /** One receipt of a reconcile; deleted ones are passed over. */
    method ReconcileNext(ids: seq<int>, next: nat, listed: seq<Obligation>,
                         ghost rows0: seq<Row>, ghost life0: nat, ghost plan: seq<Row>, ghost done: seq<Row>)
      returns (error: Option<Error>, ghost done': seq<Row>)
      requires Listing(service.gateway.receipts, ids) && next < |ids|
      requires service.gateway.Valid() && DistinctTargets(listed)
      requires Reconciling(service.gateway.receipts, rows0, life0, plan, done, service.gateway.rows, service.gateway.lifetime,
                           ids, next, SortObligations(listed))
      modifies service.gateway
      ensures service.gateway.Valid() && service.gateway.receipts == old(service.gateway.receipts)
      ensures error.Some? ==> RanPlan(rows0, plan, life0, service.gateway.rows, service.gateway.lifetime, error)
      ensures error.None? ==>
        Reconciling(service.gateway.receipts, rows0, life0, plan, done', service.gateway.rows, service.gateway.lifetime,
                    ids, next + 1, SortObligations(listed))
    {
      var gateway, rid := service.gateway, ids[next];
      ghost var before, life, obs := gateway.rows, gateway.lifetime, SortObligations(listed);
      if gateway.receipts[rid].deleted {
        assert ids[next..][0] == rid && ids[next..][1..] == ids[next + 1..];
        return None, done;
      }
      SortKeepsDistinct(listed);
      error := CollectStored(rid, IdSet(ids), listed);
      ReceiptTurn(gateway.receipts, rows0, life0, plan, done, before, life, ids, next, obs, gateway.rows, gateway.lifetime, error);
      done' := done + Plan(gateway.receipts, before, rid, Remaining(gateway.receipts, before, rid), obs);
    }

    /**
     reconcileStudentFinancialState: every active receipt in order. It never throws anything but
     a crash, and then the inserts made so far are a prefix of the full plan.
     */
    method Reconcile(ids: seq<int>, listed: seq<Obligation>) returns (error: Option<Error>)
      requires Listing(service.gateway.receipts, ids)
      requires service.gateway.Valid() && DistinctTargets(listed)
      requires Settled(service.gateway.receipts, service.gateway.rows, IdSet(ids), SortObligations(listed))
      modifies service.gateway
      ensures service.gateway.Valid() && service.gateway.receipts == old(service.gateway.receipts)
      ensures var receipts := service.gateway.receipts;
              var plan := BulkPlan(receipts, old(service.gateway.rows), ActiveIds(receipts, ids), SortObligations(listed));
              RanPlan(old(service.gateway.rows), plan, old(service.gateway.lifetime), service.gateway.rows, service.gateway.lifetime, error)
    {
      var gateway := service.gateway;
      ghost var receipts, rows0, life0, obs := gateway.receipts, gateway.rows, gateway.lifetime, SortObligations(listed);
      ghost var plan := BulkPlan(receipts, rows0, ActiveIds(receipts, ids), obs);
      ghost var done: seq<Row> := [];
      assert ids[0..] == ids && rows0 + done == rows0;
      var next := 0;
      while next < |ids|
        invariant 0 <= next <= |ids|
        invariant gateway.Valid() && gateway.receipts == receipts
        invariant Reconciling(receipts, rows0, life0, plan, done, gateway.rows, gateway.lifetime, ids, next, obs)
      {
        error, done := ReconcileNext(ids, next, listed, rows0, life0, plan, done);
        if error.Some? { return; }
        next := next + 1;
      }
      error := None;
    }

    /**
     rebuildStudentFinancialState: drop every row of the payer's receipts, then reconcile.
     Afterwards receipt i has given obligation j exactly the overlap of their prefix intervals.
     */
    method Rebuild(ids: seq<int>, listed: seq<Obligation>) returns (error: Option<Error>)
      requires Listing(service.gateway.receipts, ids)
      requires service.gateway.Valid() && DistinctTargets(listed)
      modifies service.gateway
      ensures service.gateway.Valid() && service.gateway.receipts == old(service.gateway.receipts)
      ensures var receipts, others := service.gateway.receipts, Without(old(service.gateway.rows), IdSet(ids));
              var plan := BulkPlan(receipts, others, ActiveIds(receipts, ids), SortObligations(listed));
              RanPlan(others, plan, old(service.gateway.lifetime), service.gateway.rows, service.gateway.lifetime, error)
      ensures error.None? ==>
              forall i, j :: 0 <= i < |ActiveIds(service.gateway.receipts, ids)| && 0 <= j < |listed| ==>
                RebuiltPair(service.gateway.receipts, old(service.gateway.rows), ids, listed, service.gateway.rows, i, j)
    {
      var gateway := service.gateway;
      ghost var rows0, others := gateway.rows, Without(gateway.rows, IdSet(ids));
      gateway.DeleteRowsOf(IdSet(ids));
      error := Reconcile(ids, listed);
      if error.None? {
        forall i, j | 0 <= i < |ActiveIds(gateway.receipts, ids)| && 0 <= j < |listed|
          ensures RebuiltPair(gateway.receipts, rows0, ids, listed, gateway.rows, i, j)
        {
          RebuiltClosedForm(gateway.receipts, rows0, ids, listed, i, j);
        }
      }
    }
  }

  lemma SortKeepsLength(obs: seq<Obligation>)
    ensures |SortObligations(obs)| == |obs|
  {
    SortIsSortedPermutation(obs);
    assert |multiset(SortObligations(obs))| == |multiset(obs)|;
  }

  function Held(receipts: Receipts, ids: seq<int>): (amounts: seq<nat>)
    ensures |amounts| == |ids|
  {
    seq(|ids|, i requires 0 <= i < |ids| => if ids[i] in receipts then Max(0, receipts[ids[i]].Amount()) else 0)
  }

  /**
   Closed form of a rebuild: with receipts in date order and obligations sorted, receipt i gives
   obligation j the overlap of [R(i), R(i+1)) and [D(j), D(j+1)), the prefix sums of the full
   receipt amounts and of what other payers left outstanding.
   */
  predicate RebuiltPair(receipts: Receipts, rows0: seq<Row>, ids: seq<int>, listed: seq<Obligation>, rows: seq<Row>, i: nat, j: nat) {
    var active, obs := ActiveIds(receipts, ids), SortObligations(listed);
    var held, outs := Held(receipts, active), Outstandings(receipts, Without(rows0, IdSet(ids)), obs);
    && i < |active| && j < |obs|
    && PairAmount(rows, active[i], obs[j].target)
       == Overlap(Prefix(held, i), Prefix(held, i + 1), Prefix(outs, j), Prefix(outs, j + 1))
  }

  lemma {:induction false} NoPairWithout(rows: seq<Row>, mine: set<int>, rid: int, t: Target)
    requires rid in mine
    ensures PairAmount(Without(rows, mine), rid, t) == 0
  {
    if rows != [] {
      NoPairWithout(rows[1..], mine, rid, t);
      var rest := Without(rows[1..], mine);
      assert ([rows[0]] + rest)[1..] == rest;
    }
  }

  lemma RebuiltClosedForm(receipts: Receipts, rows0: seq<Row>, ids: seq<int>, listed: seq<Obligation>, i: nat, j: nat)
    requires Listing(receipts, ids) && DistinctTargets(listed)
    requires i < |ActiveIds(receipts, ids)| && j < |listed|
    ensures var others := Without(rows0, IdSet(ids));
            RebuiltPair(receipts, rows0, ids, listed, others + BulkPlan(receipts, others, ActiveIds(receipts, ids), SortObligations(listed)), i, j)
  {
    var active, obs := ActiveIds(receipts, ids), SortObligations(listed);
    var others := Without(rows0, IdSet(ids));
    SortKeepsDistinct(listed);
    SortKeepsLength(listed);
    ActiveIdsDistinct(receipts, ids);
    forall k | 0 <= k < |active| ensures active[k] in IdSet(ids) {
      assert active[k] in ids;
    }
    forall k | 0 <= k < |active| ensures Remaining(receipts, others, active[k]) == Held(receipts, active)[k] {
      WithoutAmounts(receipts, rows0, IdSet(ids), active[k], obs[j].target);
    }
    assert Remainings(receipts, others, active) == Held(receipts, active);
    RebalanceClosedForm(receipts, others, active, obs, i, j);
    NoPairWithout(rows0, IdSet(ids), active[i], obs[j].target);
    PairAmountAppend(others, BulkPlan(receipts, others, active, obs), active[i], obs[j].target);
  }
}
