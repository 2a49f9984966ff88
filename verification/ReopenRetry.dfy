/**
 What sending a reopen again does after all: the handler, which rebuilds the allocations of some
 students, and the hook behind every tutoring mutation, which reconciles and normalizes all of them.
 */
module ReopenRetry {
  import opened Numbers
  import opened PackageCycles
  import opened Renumbering
  import opened Attendance
  import opened Reopening
  import opened TutoringCommands
  import opened ServerReopen
  import opened ReopenCrash
  import opened Ledger
  import opened Collection
  import opened Rebalance
  import opened FinancialReconcile
  import opened BalanceHistory
  import opened ReceiptCorrections
  import C = CycleStatus

  // ---- the rows of the cycles ---------------------------------------------------------

  /** The columns that normalizing leaves, with the number of lessons counted from the links. */
  function ColumnsAfterHook(c: Cycle, links: seq<Link>, latest: map<int, int>, receipts: Receipts, rows: seq<Row>): Cycle {
    Columns(C.Normalized(c.(realCount := |LinksOf(links, c.id)|), latest, receipts, rows))
  }

  /** A cycle that lost a lesson: whatever money there is, the hook rights its row if and only if it is locked and not cancelled. */
  lemma HookRightsRowIff(c: Cycle, links: seq<Link>, links': seq<Link>, latest: map<int, int>,
                         receipts: Receipts, rows: seq<Row>, receipts': Receipts, rows': seq<Row>)
    requires c.realCount >= 1 && c.opening + c.realCount <= c.limit
    requires |LinksOf(links, c.id)| == |LinksOf(links', c.id)| == c.realCount - 1
    ensures ColumnsAfterHook(c, links, latest, receipts, rows)
         == ColumnsAfterHook(Recounted(c, c.realCount - 1), links', latest, receipts', rows')
        <==> c.locked && c.status != Cancelled
  {
  }

  /** The tables list the same cycle at every row, as all stops of a reopen do. */
  predicate SameCycles(a: seq<Link>, b: seq<Link>) {
    |a| == |b| && forall j :: 0 <= j < |a| ==> a[j].cycle == b[j].cycle
  }

  lemma {:induction false} SameCount(a: seq<Link>, b: seq<Link>, id: int)
    requires SameCycles(a, b)
    ensures |LinksOf(a, id)| == |LinksOf(b, id)|
  {
    if a != [] {
      assert a[0].cycle == b[0].cycle;
      SameCount(a[1..], b[1..], id);
    }
  }

  lemma OneLess(s: Store, x: Link, c: Cycle)
    requires Valid(s) && x in s.links && c in s.cycles && c.id == x.cycle
    ensures c.realCount >= 1 && c.opening + c.realCount <= c.limit
    ensures |LinksOf(DeleteLesson(s.links, x.occurrence), c.id)| == c.realCount - 1
  {
    assert CycleOk(c, s.links);
    RemovalLeavesGap(c, s.links, x);
    SameRemaining(s.links, c.id, x.occurrence);
  }

  /** The cycle row of an affected link, after the hook, is what it is after an uninterrupted reopen and its hook. */
  ghost predicate RightAfterHook(s: Store, occurrence: int, x: Link, now: seq<Cycle>, links: seq<Link>, latest: map<int, int>,
                                 receipts: Receipts, rows: seq<Row>, receipts': Receipts, rows': seq<Row>)
    requires Valid(s) && Pending(s, Affected(s.links, occurrence), occurrence) && |now| == |s.cycles|
  {
    var final, at := RemoveAll(s, Affected(s.links, occurrence), occurrence), FindCycle(s.cycles, x.cycle);
    at.Some? ==> (
      ColumnsAfterHook(now[at.value], links, latest, receipts, rows)
      == ColumnsAfterHook(final.cycles[at.value], final.links, latest, receipts', rows'))
  }

  /**
   A stop behind n repaired cycles, or anywhere in the repair of the next one: the hook behind the retry
   rights the row of a cycle that had been repaired, and that of any other one if and only if it was
   locked and not cancelled. It never touches the links.
   */
  lemma HookRightsCycleIff(s: Store, occurrence: int, n: nat, m: nat, now: seq<Cycle>, links: seq<Link>, latest: map<int, int>,
                           receipts: Receipts, rows: seq<Row>, receipts': Receipts, rows': seq<Row>)
    requires Valid(s) && NoOrphans(s) && n <= |Affected(s.links, occurrence)| && m < |Affected(s.links, occurrence)|
    requires CyclesAfter(s.cycles, now, Affected(s.links, occurrence)[..n]) && SameCycles(links, DeleteLesson(s.links, occurrence))
    ensures Pending(s, Affected(s.links, occurrence), occurrence)
    ensures var x := Affected(s.links, occurrence)[m];
      && FindCycle(s.cycles, x.cycle).Some?
      && (RightAfterHook(s, occurrence, x, now, links, latest, receipts, rows, receipts', rows') <==>
          m < n || (s.cycles[FindCycle(s.cycles, x.cycle).value].locked && s.cycles[FindCycle(s.cycles, x.cycle).value].status != Cancelled))
  {
    var gone := Affected(s.links, occurrence);
    var x := gone[m];
    AffectedIsPending(s, occurrence);
    assert x in gone;
    var i := FindCycle(s.cycles, x.cycle).value;
    var c, final := s.cycles[i], RemoveAll(s, gone, occurrence);
    OneLess(s, x, c);
    FinalSameCycles(s, occurrence);
    SameCount(links, DeleteLesson(s.links, occurrence), c.id);
    SameCount(final.links, DeleteLesson(s.links, occurrence), c.id);
    FinalCycle(s, occurrence, m, i);
    RowAtStop(s, occurrence, n, m, now, i);
    HookRightsRowIff(c, links, final.links, latest, receipts, rows, receipts', rows');
    HookIgnoresMoney(Recounted(c, c.realCount - 1), links, final.links, latest, receipts, rows, receipts', rows');
  }

  /** A cycle that has been repaired is incomplete and open, whatever money there is. */
  lemma HookIgnoresMoney(c: Cycle, links: seq<Link>, links': seq<Link>, latest: map<int, int>,
                         receipts: Receipts, rows: seq<Row>, receipts': Receipts, rows': seq<Row>)
    requires c.opening + c.realCount < c.limit && c.status != Cancelled
    requires |LinksOf(links, c.id)| == |LinksOf(links', c.id)| == c.realCount
    ensures ColumnsAfterHook(c, links, latest, receipts, rows) == ColumnsAfterHook(c, links', latest, receipts', rows')
  {
  }

  lemma FinalSameCycles(s: Store, occurrence: int)
    requires Valid(s) && NoOrphans(s) && Pending(s, Affected(s.links, occurrence), occurrence)
    ensures SameCycles(RemoveAll(s, Affected(s.links, occurrence), occurrence).links, DeleteLesson(s.links, occurrence))
  {
    var rows, deleted := Affected(s.links, occurrence), DeleteLesson(s.links, occurrence);
    ClientClosesAllGaps(s, rows, occurrence);
    ClosedSameCycles(deleted, s.cycles, rows);
    assert RemoveAll(s, rows, occurrence).links == Closed(deleted, s.cycles, rows);
  }

  lemma ClosedSameCycles(left: seq<Link>, cycles: seq<Cycle>, rows: seq<Link>)
    requires GapsOk(cycles, rows)
    ensures SameCycles(Closed(left, cycles, rows), left)
  {
  }

  lemma FinalCycle(s: Store, occurrence: int, m: nat, i: nat)
    requires Valid(s) && Pending(s, Affected(s.links, occurrence), occurrence) && m < |Affected(s.links, occurrence)|
    requires i < |s.cycles| && s.cycles[i].id == Affected(s.links, occurrence)[m].cycle && s.cycles[i].realCount >= 1
    ensures RemoveAll(s, Affected(s.links, occurrence), occurrence).cycles[i] == Recounted(s.cycles[i], s.cycles[i].realCount - 1)
  {
    RemovedCycles(s, Affected(s.links, occurrence), occurrence, i);
    GapOfMember(Affected(s.links, occurrence), m);
  }

  lemma RowAtStop(s: Store, occurrence: int, n: nat, m: nat, now: seq<Cycle>, i: nat)
    requires CyclesDistinct(Affected(s.links, occurrence)) && n <= |Affected(s.links, occurrence)| && m < |Affected(s.links, occurrence)|
    requires CyclesAfter(s.cycles, now, Affected(s.links, occurrence)[..n])
    requires i < |s.cycles| && s.cycles[i].id == Affected(s.links, occurrence)[m].cycle && s.cycles[i].realCount >= 1
    ensures now[i] == if m < n then Recounted(s.cycles[i], s.cycles[i].realCount - 1) else s.cycles[i]
  {
    var gone := Affected(s.links, occurrence);
    assert RowAfter(s.cycles[i], now[i], gone[..n]);
    if m < n {
      assert gone[..n][m] == gone[m];
      GapOfMember(gone[..n], m);
    } else {
      assert forall z :: z in gone[..n] ==> z.cycle != gone[m].cycle;
    }
  }

  // ---- the money ----------------------------------------------------------------------

  /** A student's receipts by date, and what he owes once the lesson is open again. */
  datatype Account = Account(ids: seq<int>, owed: seq<Obligation>)

  /** The handler releases and collects again for these students. */
  function RebuildAll(receipts: Receipts, rows: seq<Row>, accounts: seq<Account>): seq<Row>
    decreases |accounts|
  {
    if accounts == [] then rows
    else RebuildAll(receipts, Rebuilt(receipts, rows, accounts[0].ids, SortObligations(accounts[0].owed)), accounts[1..])
  }

  /** The hook collects what is left, and releases nothing. */
  function ReconcileAll(receipts: Receipts, rows: seq<Row>, accounts: seq<Account>): seq<Row>
    decreases |accounts|
  {
    if accounts == [] then rows
    else
      var a := accounts[0];
      ReconcileAll(receipts, rows + BulkPlan(receipts, rows, ActiveIds(receipts, a.ids), SortObligations(a.owed)), accounts[1..])
  }

  /** Nobody owes this target any more. */
  predicate Unowed(accounts: seq<Account>, t: Target) {
    forall a <- accounts :: forall o <- a.owed :: o.target != t
  }

  /** The rows on the target are from these receipts. */
  predicate OnlyFrom(rows: seq<Row>, t: Target, ids: seq<int>) {
    forall x <- rows :: x.target == t ==> x.receiptId in ids
  }

  lemma {:induction false} NoneToTarget(receipts: Receipts, rows: seq<Row>, t: Target)
    requires forall x <- rows :: x.target != t
    ensures ToTarget(receipts, rows, t) == 0
  {
    if rows != [] {
      assert rows[0] in rows;
      NoneToTarget(receipts, rows[1..], t);
    }
  }

  lemma PlanAvoids(receipts: Receipts, rows: seq<Row>, a: Account, t: Target)
    requires forall o <- a.owed :: o.target != t
    ensures forall x <- BulkPlan(receipts, rows, ActiveIds(receipts, a.ids), SortObligations(a.owed)) :: x.target != t
  {
    BulkRowsFrom(receipts, rows, ActiveIds(receipts, a.ids), SortObligations(a.owed));
    SortIsSortedPermutation(a.owed);
    forall o | o in SortObligations(a.owed) ensures o.target != t {
      assert o in multiset(SortObligations(a.owed));
    }
  }

  lemma {:induction false} ReconcileKeeps(receipts: Receipts, rows: seq<Row>, accounts: seq<Account>, t: Target)
    requires Unowed(accounts, t)
    ensures ToTarget(receipts, ReconcileAll(receipts, rows, accounts), t) == ToTarget(receipts, rows, t)
    decreases |accounts|
  {
    if accounts != [] {
      var a := accounts[0];
      var plan := BulkPlan(receipts, rows, ActiveIds(receipts, a.ids), SortObligations(a.owed));
      assert a in accounts && forall b <- accounts[1..] :: b in accounts;
      PlanAvoids(receipts, rows, a, t);
      NoneToTarget(receipts, plan, t);
      ToTargetAppend(receipts, rows, plan, t);
      ReconcileKeeps(receipts, rows + plan, accounts[1..], t);
    }
  }

  lemma {:induction false} WithoutToTarget(receipts: Receipts, rows: seq<Row>, ids: set<int>, t: Target)
    requires forall x <- rows :: x.target == t ==> x.receiptId !in ids
    ensures ToTarget(receipts, Ledger.Without(rows, ids), t) == ToTarget(receipts, rows, t)
  {
    if rows != [] {
      assert rows[0] in rows && forall x <- rows[1..] :: x in rows;
      WithoutToTarget(receipts, rows[1..], ids, t);
      var rest := Ledger.Without(rows[1..], ids);
      assert ([rows[0]] + rest)[1..] == rest;
    }
  }

  /** One rebuild: the pence on a target that nobody owes are released by their own student and kept by anybody else. */
  lemma RebuildOf(receipts: Receipts, rows: seq<Row>, a: Account, t: Target, ids: seq<int>)
    requires OnlyFrom(rows, t, ids) && (forall o <- a.owed :: o.target != t)
    requires a.ids == ids || forall id <- ids :: id !in a.ids
    ensures var after := Rebuilt(receipts, rows, a.ids, SortObligations(a.owed));
      OnlyFrom(after, t, ids) && ToTarget(receipts, after, t) == if a.ids == ids then 0 else ToTarget(receipts, rows, t)
  {
    var others := Ledger.Without(rows, IdSet(a.ids));
    var plan := BulkPlan(receipts, others, ActiveIds(receipts, a.ids), SortObligations(a.owed));
    PlanAvoids(receipts, others, a, t);
    NoneToTarget(receipts, plan, t);
    ToTargetAppend(receipts, others, plan, t);
    if a.ids == ids {
      forall id | id in ids ensures id in IdSet(a.ids) {
        var i :| 0 <= i < |ids| && ids[i] == id;
      }
      NoneToTarget(receipts, others, t);
    } else {
      WithoutToTarget(receipts, rows, IdSet(a.ids), t);
    }
  }

  lemma {:induction false} RebuildsRelease(receipts: Receipts, rows: seq<Row>, accounts: seq<Account>, t: Target, ids: seq<int>)
    requires OnlyFrom(rows, t, ids) && Unowed(accounts, t)
    requires forall a <- accounts :: a.ids == ids || forall id <- ids :: id !in a.ids
    ensures ToTarget(receipts, RebuildAll(receipts, rows, accounts), t)
         == if exists a :: a in accounts && a.ids == ids then 0 else ToTarget(receipts, rows, t)
    decreases |accounts|
  {
    if accounts != [] {
      var a := accounts[0];
      assert a in accounts && forall b <- accounts[1..] :: b in accounts;
      RebuildOf(receipts, rows, a, t, ids);
      RebuildsRelease(receipts, Rebuilt(receipts, rows, a.ids, SortObligations(a.owed)), accounts[1..], t, ids);
    }
  }

  /** Where the process stopped: before the batch that makes the lesson scheduled, or behind it. */
  datatype Stop = BeforeBatch | BehindBatch

  /** The retry rebuilds who attended; once the lesson is scheduled it returns at once. */
  function RebuiltByRetry(stop: Stop, attending: seq<Account>): seq<Account> {
    if stop == BehindBatch then [] else attending
  }

  /**
   The pence on the reopened lesson, or on any other target that is no longer owed: an uninterrupted
   reopen releases them when their student was billed or attended. After a stop a retry releases them if
   and only if it rebuilds that student, or there are none; the hook behind it never does.
   */
  lemma RetryReleasesIff(receipts: Receipts, rows: seq<Row>, stop: Stop, attending: seq<Account>, billed: seq<Account>,
                         everybody: seq<Account>, owner: Account, t: Target)
    requires owner in attending + billed && OnlyFrom(rows, t, owner.ids) && Unowed(attending + billed + everybody, t)
    requires forall a <- attending + billed :: a.ids == owner.ids || forall id <- owner.ids :: id !in a.ids
    ensures ToTarget(receipts, ReconcileAll(receipts, RebuildAll(receipts, rows, attending + billed), everybody), t) == 0
    ensures ToTarget(receipts, ReconcileAll(receipts, RebuildAll(receipts, rows, RebuiltByRetry(stop, attending)), everybody), t) == 0
      <==> ToTarget(receipts, rows, t) == 0 || (stop == BeforeBatch && exists a :: a in attending && a.ids == owner.ids)
  {
    RebuildsRelease(receipts, rows, attending + billed, t, owner.ids);
    RebuildsRelease(receipts, rows, RebuiltByRetry(stop, attending), t, owner.ids);
    ReconcileKeeps(receipts, RebuildAll(receipts, rows, attending + billed), everybody, t);
    ReconcileKeeps(receipts, RebuildAll(receipts, rows, RebuiltByRetry(stop, attending)), everybody, t);
  }
}
