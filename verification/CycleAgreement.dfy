/** Whether the server's normalization and the client's rebalance leave the same cycle rows. */
module CycleAgreement {
  import opened Numbers
  import opened PackageCycles
  import opened Attendance
  import opened Ledger
  import opened CycleStatus
  import opened TutoringCommands
  import F = FamilyCycles

  /** What the client derives from the allocations: the covered cycles, each with the date of its last payment. */
  predicate CoveredBy(cycles: seq<Cycle>, receipts: Receipts, rows: seq<Row>, covered: map<int, Option<int>>) {
    forall i :: 0 <= i < |cycles| ==>
      && (cycles[i].id in covered <==> ToTarget(receipts, rows, CycleTarget(cycles[i].id)) >= cycles[i].price)
      && (cycles[i].id in covered ==> covered[cycles[i].id] == F.LatestPayment(receipts, rows, CycleTarget(cycles[i].id)))
  }

  /** Some payment of the cycle has a date. */
  ghost predicate HasDatedPayment(receipts: Receipts, rows: seq<Row>, id: int) {
    exists row, d :: row in rows && F.PaidAt(receipts, row, CycleTarget(id), d)
  }

  /** The dates of the row are those that the server would write: none before, one after completion. */
  ghost predicate DatesInOrder(c: Cycle, receipts: Receipts, rows: seq<Row>) {
    if c.opening + c.realCount < c.limit then c.completedOn == None
    else
      && c.completedOn.Some?
      && (ToTarget(receipts, rows, CycleTarget(c.id)) >= c.price && !HasDatedPayment(receipts, rows, c.id) ==> c.paidOn == c.completedOn)
  }

  lemma SameRowIff(c: Cycle, latest: map<int, int>, receipts: Receipts, rows: seq<Row>, covered: map<int, Option<int>>)
    requires CoveredBy([c], receipts, rows, covered)
    ensures Normalized(c, latest, receipts, rows) == Balanced(c, covered) <==> c.status == Cancelled || DatesInOrder(c, receipts, rows)
  {
    assert [c][0] == c;
    F.LatestPaymentIsGreatest(receipts, rows, CycleTarget(c.id));
    var e := F.LatestPayment(receipts, rows, CycleTarget(c.id));
    if e.Some? { assert HasDatedPayment(receipts, rows, c.id); }
  }

  /**
   Both agree on the status of every cycle, whatever its row was: open until it is complete, then due until it is
   covered, then paid. They leave the same rows if and only if the dates of all uncancelled rows were in order.
   */
  lemma SameRowsIff(s: Store, student: int, latest: map<int, int>, receipts: Receipts, rows: seq<Row>, covered: map<int, Option<int>>)
    requires Packaged(s, student) && CoveredBy(s.cycles, receipts, rows, covered)
    ensures var mine, theirs := BalancedStore(s, student, covered).cycles, NormalizedAll(s.cycles, student, latest, receipts, rows);
      && |mine| == |theirs| == |s.cycles|
      && (forall i :: 0 <= i < |s.cycles| ==> mine[i].status == theirs[i].status)
      && (mine == theirs <==> forall i :: 0 <= i < |s.cycles| && s.cycles[i].student == student ==>
            s.cycles[i].status == Cancelled || DatesInOrder(s.cycles[i], receipts, rows))
  {
    var mine, theirs := BalancedStore(s, student, covered).cycles, NormalizedAll(s.cycles, student, latest, receipts, rows);
    forall i | 0 <= i < |s.cycles| && s.cycles[i].student == student
      ensures mine[i] == theirs[i] <==> s.cycles[i].status == Cancelled || DatesInOrder(s.cycles[i], receipts, rows)
    {
      SameRowIff(s.cycles[i], latest, receipts, rows, covered);
    }
  }
}
