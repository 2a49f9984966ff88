/**
 The status of a student's package cycles after money moved: the server's normalization at the end of
 every rebuild, and what a rebuild therefore settles.
 */
module CycleStatus {
  import opened Numbers
  import opened PackageCycles
  import opened Ledger
  import opened Collection
  import opened Rebalance
  import opened BalanceHistory
  import opened ReceiptCorrections
  import F = FamilyCycles

  /** The target type of a package cycle. */
  const PACKAGE_CYCLE: int := 3

  function CycleTarget(id: int): Target { Target(TUTORING, PACKAGE_CYCLE, id) }

  predicate Complete(c: Cycle) {
    c.opening + c.realCount >= c.limit
  }

  /** One row of the normalization; `latest` is the date of the cycle's last completed lesson. */
  function Normalized(c: Cycle, latest: map<int, int>, receipts: Receipts, rows: seq<Row>): (after: Cycle)
    ensures after.id == c.id && after.student == c.student && after.price == c.price
  {
    if c.status == Cancelled then c
    else if !Complete(c) then c.(status := Open, completedOn := None, paidOn := None)
    else
      var paid := ToTarget(receipts, rows, CycleTarget(c.id)) >= c.price;
      var completedOn := c.completedOn.GetOrElse(if c.id in latest then latest[c.id] else c.startedOn);
      c.(status := if paid then Paid else Due, completedOn := Some(completedOn),
         paidOn := if paid then Some(F.LatestPayment(receipts, rows, CycleTarget(c.id)).GetOrElse(completedOn)) else None)
  }

  function NormalizedAll(cycles: seq<Cycle>, student: int, latest: map<int, int>, receipts: Receipts, rows: seq<Row>): (after: seq<Cycle>)
    ensures |after| == |cycles|
    ensures forall i :: 0 <= i < |cycles| ==>
      after[i] == (if cycles[i].student == student then Normalized(cycles[i], latest, receipts, rows) else cycles[i])
  {
    seq(|cycles|, i requires 0 <= i < |cycles| =>
      if cycles[i].student == student then Normalized(cycles[i], latest, receipts, rows) else cycles[i])
  }

  class CycleTable {
    var cycles: seq<Cycle>

    /** normalizeStudentBillingState: one UPDATE for every cycle of the student that is not cancelled. */
    method Normalize(student: int, latest: map<int, int>, receipts: Receipts, rows: seq<Row>)
      modifies this
      ensures cycles == NormalizedAll(old(cycles), student, latest, receipts, rows)
    {
      ghost var before := cycles;
      var i := 0;
      while i < |cycles|
        invariant i <= |cycles| == |before|
        invariant forall k :: i <= k < |cycles| ==> cycles[k] == before[k]
        invariant forall k :: 0 <= k < i ==> cycles[k] == NormalizedAll(before, student, latest, receipts, rows)[k]
      {
        var cycle := cycles[i];
        if cycle.student == student && cycle.status != Cancelled {
          if !Complete(cycle) {
            cycles := cycles[i := cycle.(status := Open, completedOn := None, paidOn := None)];
          } else {
            var isPaid := ToTarget(receipts, rows, CycleTarget(cycle.id)) >= cycle.price;
            var last := F.LatestPayment(receipts, rows, CycleTarget(cycle.id));
            var completedOn := cycle.completedOn.GetOrElse(if cycle.id in latest then latest[cycle.id] else cycle.startedOn);
            cycles := cycles[i := cycle.(
              status := if isPaid then Paid else Due, completedOn := Some(completedOn),
              paidOn := if isPaid then Some(last.GetOrElse(completedOn)) else None)];
          }
        }
        i := i + 1;
      }
    }
  }

  /** Open until complete, then due until covered, then paid; and a second normalization changes nothing. */
  lemma NormalizedStatus(c: Cycle, latest: map<int, int>, receipts: Receipts, rows: seq<Row>)
    requires c.status != Cancelled
    ensures var d := Normalized(c, latest, receipts, rows);
      && (d.status == Open <==> !Complete(c))
      && (d.status == Paid <==> Complete(c) && ToTarget(receipts, rows, CycleTarget(c.id)) >= c.price)
      && (d.completedOn.Some? <==> Complete(c)) && (d.paidOn.Some? <==> d.status == Paid)
      && Normalized(d, latest, receipts, rows) == d
  {
  }

  /** Normalizing again changes nothing. */
  lemma NormalizedAgain(cycles: seq<Cycle>, student: int, latest: map<int, int>, receipts: Receipts, rows: seq<Row>)
    ensures var once := NormalizedAll(cycles, student, latest, receipts, rows);
      NormalizedAll(once, student, latest, receipts, rows) == once
  {
    var once := NormalizedAll(cycles, student, latest, receipts, rows);
    forall i | 0 <= i < |cycles| ensures NormalizedAll(once, student, latest, receipts, rows)[i] == once[i] {
      if cycles[i].student == student && cycles[i].status != Cancelled { NormalizedStatus(cycles[i], latest, receipts, rows); }
    }
  }

  // ---- what a rebuild collects against ------------------------------------------------

  /** The obligation of a due or paid cycle. */
  function ChargeOf(c: Cycle, student: int): seq<Obligation> {
    if c.student == student && (c.status == Due || c.status == Paid) then
      [Obligation(CycleTarget(c.id), c.completedOn.GetOrElse(c.startedOn), c.price)]
    else []
  }

  function Charges(cycles: seq<Cycle>, student: int): seq<Obligation> {
    if cycles == [] then [] else ChargeOf(cycles[0], student) + Charges(cycles[1..], student)
  }

  /** The status says whether the cycle is complete, and its due date is the one the normalization writes. */
  predicate RowIsRight(c: Cycle, latest: map<int, int>) {
    c.status == Cancelled ||
    if Complete(c) then c.status != Open && (c.completedOn.Some? || c.id !in latest || latest[c.id] == c.startedOn)
    else c.status == Open
  }

  /** Normalizing leaves the obligation of a cycle alone if and only if its row was in order. */
  lemma ChargeKeptIff(c: Cycle, student: int, latest: map<int, int>, receipts: Receipts, rows: seq<Row>)
    requires c.student == student
    ensures ChargeOf(Normalized(c, latest, receipts, rows), student) == ChargeOf(c, student) <==> RowIsRight(c, latest)
  {
    var d := Normalized(c, latest, receipts, rows);
    if ChargeOf(d, student) != [] && ChargeOf(c, student) != [] {
      assert ChargeOf(d, student)[0].dueAt == d.completedOn.GetOrElse(d.startedOn);
      assert ChargeOf(c, student)[0].dueAt == c.completedOn.GetOrElse(c.startedOn);
    }
  }

  lemma {:induction false} ChargeTargets(cycles: seq<Cycle>, student: int)
    ensures forall o <- Charges(cycles, student) :: exists c :: c in cycles && o.target == CycleTarget(c.id)
  {
    if cycles != [] {
      ChargeTargets(cycles[1..], student);
      forall o | o in Charges(cycles, student) ensures exists c :: c in cycles && o.target == CycleTarget(c.id) {
        if o in Charges(cycles[1..], student) {
          var c :| c in cycles[1..] && o.target == CycleTarget(c.id);
          assert c in cycles;
        } else {
          assert cycles[0] in cycles;
        }
      }
    }
  }

  /** What a row asks for: its price, on the day it was completed, else started. */
  predicate Asks(c: Cycle, student: int, o: Obligation) {
    && c.student == student && (c.status == Due || c.status == Paid)
    && o.target == Target(1, 3, c.id) && o.amountDue == c.price
    && o.dueAt == if c.completedOn.Some? then c.completedOn.value else c.startedOn
  }

  /** The obligations of a student are exactly what his due and paid rows ask for. */
  lemma {:induction false} ChargeIff(cycles: seq<Cycle>, student: int, o: Obligation)
    ensures o in Charges(cycles, student) <==> exists i :: 0 <= i < |cycles| && Asks(cycles[i], student, o)
  {
    if cycles != [] {
      ChargeIff(cycles[1..], student, o);
      if i :| 0 <= i < |cycles[1..]| && Asks(cycles[1..][i], student, o) { assert Asks(cycles[i + 1], student, o); }
      if i :| 0 <= i < |cycles| && Asks(cycles[i], student, o) {
        if i > 0 { assert Asks(cycles[1..][i - 1], student, o); }
      }
    }
  }

  predicate AllRowsRight(cycles: seq<Cycle>, student: int, latest: map<int, int>) {
    forall i :: 0 <= i < |cycles| && cycles[i].student == student ==> RowIsRight(cycles[i], latest)
  }

  lemma {:induction false} ChargesKept(cycles: seq<Cycle>, student: int, latest: map<int, int>, receipts: Receipts, rows: seq<Row>)
    requires AllRowsRight(cycles, student, latest)
    ensures Charges(NormalizedAll(cycles, student, latest, receipts, rows), student) == Charges(cycles, student)
  {
    if cycles != [] {
      var after := NormalizedAll(cycles, student, latest, receipts, rows);
      if cycles[0].student == student { ChargeKeptIff(cycles[0], student, latest, receipts, rows); }
      forall i | 0 <= i < |cycles[1..]| && cycles[1..][i].student == student ensures RowIsRight(cycles[1..][i], latest) {
        assert cycles[1..][i] == cycles[i + 1];
      }
      ChargesKept(cycles[1..], student, latest, receipts, rows);
      assert after[1..] == NormalizedAll(cycles[1..], student, latest, receipts, rows);
    }
  }

  lemma HeadShows(a: seq<Obligation>, xs: seq<Obligation>, ys: seq<Obligation>, t: Target)
    requires a != [] && (forall o <- a :: o.target == t) && forall o <- ys :: o.target != t
    ensures a + xs != ys
  {
    assert a[0] in a && (a + xs)[0] == a[0];
    if ys != [] { assert ys[0] in ys; }
  }

  /** Two heads that are charges of one cycle, before rows that are not: they have to agree themselves. */
  lemma HeadsAgree(a: seq<Obligation>, b: seq<Obligation>, xs: seq<Obligation>, ys: seq<Obligation>, t: Target)
    requires |a| <= 1 && |b| <= 1 && (forall o <- a :: o.target == t) && (forall o <- b :: o.target == t)
    requires (forall o <- xs :: o.target != t) && (forall o <- ys :: o.target != t)
    ensures a + xs == b + ys <==> a == b && xs == ys
  {
    assert [] + xs == xs && [] + ys == ys;
    if |a| == |b| {
      assert (a + xs)[..|a|] == a && (b + ys)[..|b|] == b && (a + xs)[|a|..] == xs && (b + ys)[|b|..] == ys;
    } else if a != [] {
      HeadShows(a, xs, ys, t);
    } else {
      HeadShows(b, ys, xs, t);
    }
  }

  /** The charges behind the first cycle, before and after normalizing, are for other targets. */
  lemma ChargesElsewhere(cycles: seq<Cycle>, student: int, latest: map<int, int>, receipts: Receipts, rows: seq<Row>)
    requires UniqueIds(cycles) && cycles != []
    ensures forall o <- Charges(cycles[1..], student) :: o.target != CycleTarget(cycles[0].id)
    ensures forall o <- Charges(NormalizedAll(cycles[1..], student, latest, receipts, rows), student) :: o.target != CycleTarget(cycles[0].id)
  {
    var rest := NormalizedAll(cycles[1..], student, latest, receipts, rows);
    ChargeTargets(cycles[1..], student);
    ChargeTargets(rest, student);
    forall d | d in rest ensures d.id != cycles[0].id {
      var i :| 0 <= i < |rest| && rest[i] == d;
      assert d.id == cycles[i + 1].id;
    }
  }

  /** Normalizing leaves the obligations of the student alone if and only if all of his rows were in order. */
  lemma {:induction false} ChargesKeptIff(cycles: seq<Cycle>, student: int, latest: map<int, int>, receipts: Receipts, rows: seq<Row>)
    requires UniqueIds(cycles)
    ensures Charges(NormalizedAll(cycles, student, latest, receipts, rows), student) == Charges(cycles, student)
      <==> AllRowsRight(cycles, student, latest)
  {
    if cycles != [] {
      var after, c, rest := NormalizedAll(cycles, student, latest, receipts, rows), cycles[0], cycles[1..];
      var restAfter := NormalizedAll(rest, student, latest, receipts, rows);
      assert after[1..] == restAfter;
      ChargesKeptIff(rest, student, latest, receipts, rows);
      if c.student == student { ChargeKeptIff(c, student, latest, receipts, rows); }
      ChargesElsewhere(cycles, student, latest, receipts, rows);
      HeadsAgree(ChargeOf(after[0], student), ChargeOf(c, student), Charges(restAfter, student), Charges(rest, student), CycleTarget(c.id));
      HeadAndRest(cycles, student, latest);
    }
  }

  lemma HeadAndRest(cycles: seq<Cycle>, student: int, latest: map<int, int>)
    requires cycles != []
    ensures AllRowsRight(cycles, student, latest)
      <==> (cycles[0].student == student ==> RowIsRight(cycles[0], latest)) && AllRowsRight(cycles[1..], student, latest)
  {
    forall i | 0 <= i < |cycles[1..]| ensures cycles[1..][i] == cycles[i + 1] { }
    if AllRowsRight(cycles[1..], student, latest) {
      forall i | 1 <= i < |cycles| && cycles[i].student == student ensures RowIsRight(cycles[i], latest) {
        assert cycles[1..][i - 1] == cycles[i];
      }
    }
  }

  lemma NormalizedRowsAreRight(cycles: seq<Cycle>, student: int, latest: map<int, int>, receipts: Receipts, rows: seq<Row>)
    ensures AllRowsRight(NormalizedAll(cycles, student, latest, receipts, rows), student, latest)
  {
  }

  // ---- rebuilding ---------------------------------------------------------------------

  /** What a rebuild reads: receipts, the student's receipt ids by date, the lessons he owes by the session. */
  datatype Payer = Payer(student: int, receipts: Receipts, ids: seq<int>, lessons: seq<Obligation>, latest: map<int, int>)

  datatype Tables = Tables(cycles: seq<Cycle>, rows: seq<Row>)

  function ObligationsOf(p: Payer, cycles: seq<Cycle>): seq<Obligation> {
    SortObligations(Charges(cycles, p.student) + p.lessons)
  }

  /** rebuildStudentAllocations: release, collect again, normalize. */
  function RebuildOnce(p: Payer, t: Tables): Tables {
    var rows := Rebuilt(p.receipts, t.rows, p.ids, ObligationsOf(p, t.cycles));
    Tables(NormalizedAll(t.cycles, p.student, p.latest, p.receipts, rows), rows)
  }

  lemma RebuiltAgain(p: Payer, rows: seq<Row>, obs: seq<Obligation>, earlier: seq<Obligation>)
    ensures Rebuilt(p.receipts, Rebuilt(p.receipts, rows, p.ids, earlier), p.ids, obs) == Rebuilt(p.receipts, rows, p.ids, obs)
  {
    var plan := BulkPlan(p.receipts, Ledger.Without(rows, IdSet(p.ids)), ActiveIds(p.receipts, p.ids), earlier);
    assert plan[..|plan|] == plan;
    RebuildForgets(p.receipts, p.receipts, rows, p.ids, obs, earlier, |plan|);
  }

  /** When every row of the student was in order, one rebuild settles him: another changes nothing. */
  lemma RebuildSettles(p: Payer, t: Tables)
    requires AllRowsRight(t.cycles, p.student, p.latest)
    ensures RebuildOnce(p, RebuildOnce(p, t)) == RebuildOnce(p, t)
  {
    var u := RebuildOnce(p, t);
    ChargesKept(t.cycles, p.student, p.latest, p.receipts, u.rows);
    RebuiltAgain(p, t.rows, ObligationsOf(p, t.cycles), ObligationsOf(p, t.cycles));
    var v := RebuildOnce(p, u);
    forall i | 0 <= i < |u.cycles| ensures v.cycles[i] == u.cycles[i] {
      if t.cycles[i].student == p.student && t.cycles[i].status != Cancelled {
        NormalizedStatus(t.cycles[i], p.latest, p.receipts, u.rows);
      }
    }
  }

  /** Whatever state the rows were in, two rebuilds settle the student. */
  lemma TwoRebuildsSettle(p: Payer, t: Tables)
    ensures RebuildOnce(p, RebuildOnce(p, RebuildOnce(p, t))) == RebuildOnce(p, RebuildOnce(p, t))
  {
    var u := RebuildOnce(p, t);
    NormalizedRowsAreRight(t.cycles, p.student, p.latest, p.receipts, u.rows);
    RebuildSettles(p, u);
  }

  /**
   One rebuild is not enough when a row was not right: a cycle that is due although a lesson is missing is
   still collected against, becomes open afterwards, and the pence come back only with the next rebuild.
   */
  lemma OneRebuildMayNotSettle() returns (p: Payer, t: Tables)
    ensures RebuildOnce(p, RebuildOnce(p, t)) != RebuildOnce(p, t)
  {
    var c := Cycle(0, 1, 1, 8, 100, 0, true, 7, Due, 0, Some(5), None);
    p := Payer(1, map[7 := Receipt(ReceiptCommand(Some(1), None, 100, 6, 0), false)], [7], [], map[]);
    t := Tables([c], []);
    var u := RebuildOnce(p, t);
    var o := Obligation(CycleTarget(0), 5, 100);
    assert Charges([c], 1) + [] == [o] by { assert [c][1..] == []; }
    OneObligation(o);
    OneReceipt(p.receipts, 7);
    assert Plan(p.receipts, [], 7, 100, [o]) == [Row(7, o.target, 100)] by { assert [o][1..] == []; }
    assert BulkPlan(p.receipts, [], [7], [o]) == [Row(7, o.target, 100)] by {
      assert [7][1..] == [];
      assert [Row(7, o.target, 100)] + [] == [Row(7, o.target, 100)];
    }
    assert u.rows == [Row(7, o.target, 100)];
    assert u.cycles[0].status == Open;
    assert Charges(u.cycles, 1) + [] == [] by { assert u.cycles[1..] == []; }
    RebuiltAgain(p, [], [], [o]);
    var none: seq<Row> := [];
    assert BulkPlan(p.receipts, none, [7], []) == none by { assert [7][1..] == [] && none + none == none; }
    assert RebuildOnce(p, u).rows == [];
  }

  lemma OneObligation(o: Obligation)
    ensures SortObligations([o]) == [o] && SortObligations([]) == []
  {
    assert [o][1..] == [];
  }

  lemma OneReceipt(receipts: Receipts, rid: int)
    requires Active(receipts, rid)
    ensures ActiveIds(receipts, [rid]) == [rid]
  {
    assert [rid][1..] == [];
  }
}
