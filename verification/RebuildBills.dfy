/**
 What a second rebuild of a student's allocations can still move: the bills that the stored rows make
 against the bills that the normalized rows make.
 */
module RebuildBills {
  import opened Numbers
  import opened Waterfall
  import opened PackageCycles
  import opened Ledger
  import opened Collection
  import opened Rebalance
  import opened FinancialReconcile
  import opened ReceiptCorrections
  import opened CycleStatus

  // ---- only the bills matter ----------------------------------------------------------

  /** The obligations that take money, in their order and without their dates. */
  function Bills(obs: seq<Obligation>): (bills: seq<Obligation>)
    ensures forall b <- bills :: b.amountDue > 0 && b.dueAt == 0
  {
    if obs == [] then []
    else (if obs[0].amountDue > 0 then [obs[0].(dueAt := 0)] else []) + Bills(obs[1..])
  }

  lemma {:induction false} PlanOfBills(receipts: Receipts, rows: seq<Row>, rid: int, rem: nat, obs: seq<Obligation>)
    ensures Plan(receipts, rows, rid, rem, Bills(obs)) == Plan(receipts, rows, rid, rem, obs)
    decreases |obs|
  {
    if obs != [] && rem > 0 {
      var o, rest := obs[0], Bills(obs[1..]);
      if o.amountDue <= 0 {
        assert Bills(obs) == rest && Outstanding(receipts, rows, o) == 0;
        PlanOfBills(receipts, rows, rid, rem, obs[1..]);
      } else {
        assert Bills(obs)[0] == o.(dueAt := 0) && Bills(obs)[1..] == rest;
        var out := Outstanding(receipts, rows, o);
        assert Outstanding(receipts, rows, Bills(obs)[0]) == out;
        var row := Row(rid, o.target, Min(rem, out));
        if out == 0 { PlanOfBills(receipts, rows, rid, rem, obs[1..]); } else { PlanOfBills(receipts, rows + [row], rid, rem - row.amount, obs[1..]); }
      }
    }
  }

  lemma {:induction false} BulkPlanOfBills(receipts: Receipts, rows: seq<Row>, ids: seq<int>, obs: seq<Obligation>)
    ensures BulkPlan(receipts, rows, ids, Bills(obs)) == BulkPlan(receipts, rows, ids, obs)
    decreases |ids|
  {
    if ids != [] {
      var rem := Remaining(receipts, rows, ids[0]);
      PlanOfBills(receipts, rows, ids[0], rem, obs);
      BulkPlanOfBills(receipts, rows + Plan(receipts, rows, ids[0], rem, obs), ids[1..], obs);
    }
  }

  lemma SameBillsSameRows(receipts: Receipts, rows: seq<Row>, ids: seq<int>, a: seq<Obligation>, b: seq<Obligation>)
    requires Bills(a) == Bills(b)
    ensures Rebuilt(receipts, rows, ids, a) == Rebuilt(receipts, rows, ids, b)
  {
    var others := Ledger.Without(rows, IdSet(ids));
    BulkPlanOfBills(receipts, others, ActiveIds(receipts, ids), a);
    BulkPlanOfBills(receipts, others, ActiveIds(receipts, ids), b);
  }

  // ---- stored and normalized bills ----------------------------------------------------

  lemma {:induction false} ChargesIgnoreMoney(cycles: seq<Cycle>, student: int, latest: map<int, int>,
                                              receipts: Receipts, rows: seq<Row>, receipts': Receipts, rows': seq<Row>)
    ensures Charges(NormalizedAll(cycles, student, latest, receipts, rows), student)
         == Charges(NormalizedAll(cycles, student, latest, receipts', rows'), student)
  {
    if cycles != [] {
      var a, b := NormalizedAll(cycles, student, latest, receipts, rows), NormalizedAll(cycles, student, latest, receipts', rows');
      ChargesIgnoreMoney(cycles[1..], student, latest, receipts, rows, receipts', rows');
      assert a[1..] == NormalizedAll(cycles[1..], student, latest, receipts, rows);
      assert b[1..] == NormalizedAll(cycles[1..], student, latest, receipts', rows');
      assert ChargeOf(a[0], student) == ChargeOf(b[0], student);
    }
  }

  /** The bills of the rows as they are stored. */
  function StoredBills(student: int, cycles: seq<Cycle>, lessons: seq<Obligation>): seq<Obligation> {
    Bills(SortObligations(Charges(cycles, student) + lessons))
  }

  /** The bills once the rows are normalized, with whatever money. */
  function NormalizedBills(student: int, cycles: seq<Cycle>, latest: map<int, int>, lessons: seq<Obligation>): seq<Obligation> {
    StoredBills(student, NormalizedAll(cycles, student, latest, map[], []), lessons)
  }

  lemma BillsAfterRebuild(p: Payer, t: Tables)
    ensures Bills(ObligationsOf(p, RebuildOnce(p, t).cycles)) == NormalizedBills(p.student, t.cycles, p.latest, p.lessons)
  {
    ChargesIgnoreMoney(t.cycles, p.student, p.latest, p.receipts, RebuildOnce(p, t).rows, map[], []);
  }

  predicate Settles(p: Payer, t: Tables) {
    RebuildOnce(p, RebuildOnce(p, t)) == RebuildOnce(p, t)
  }

  lemma SameBillsSettle(p: Payer, t: Tables)
    requires StoredBills(p.student, t.cycles, p.lessons) == NormalizedBills(p.student, t.cycles, p.latest, p.lessons)
    ensures Settles(p, t)
  {
    var u := RebuildOnce(p, t);
    var before, after := ObligationsOf(p, t.cycles), ObligationsOf(p, u.cycles);
    BillsAfterRebuild(p, t);
    RebuiltAgain(p, t.rows, after, before);
    SameBillsSameRows(p.receipts, t.rows, p.ids, before, after);
    NormalizedAgain(t.cycles, p.student, p.latest, p.receipts, u.rows);
  }

  // ---- different bills receive different pence ----------------------------------------

  function Alone(amount: nat): Receipts {
    map[0 := Receipt(ReceiptCommand(Some(0), None, amount, 0, 0), false)]
  }

  /** What a single receipt gives to a target when nothing is allocated yet. */
  function Given(amount: nat, bills: seq<Obligation>, t: Target): nat {
    PairAmount(Plan(Alone(amount), [], 0, amount, bills), 0, t)
  }

  function Dues(bills: seq<Obligation>): (dues: seq<nat>)
    ensures |dues| == |bills| && forall j :: 0 <= j < |bills| ==> dues[j] == Max(0, bills[j].amountDue)
  {
    seq(|bills|, j requires 0 <= j < |bills| => Max(0, bills[j].amountDue))
  }

  lemma GivenAt(amount: nat, bills: seq<Obligation>, j: nat)
    requires DistinctTargets(bills) && j < |bills|
    ensures Given(amount, bills, bills[j].target) == Overlap(0, amount, Prefix(Dues(bills), j), Prefix(Dues(bills), j + 1))
  {
    var receipts := Alone(amount);
    assert Outstandings(receipts, [], bills) == Dues(bills);
    RebalanceClosedForm(receipts, [], [0], bills, 0, j);
    OneByOne(receipts, bills, amount);
    assert Prefix([amount], 1) == amount;
    assert Remainings(receipts, [], [0]) == [amount];
  }

  lemma OneByOne(receipts: Receipts, obs: seq<Obligation>, amount: nat)
    requires receipts == Alone(amount)
    ensures BulkPlan(receipts, [], [0], obs) == Plan(receipts, [], 0, amount, obs)
  {
    var plan := Plan(receipts, [], 0, amount, obs);
    assert [0][1..] == [] && [] + plan == plan && plan + [] == plan;
  }

  lemma {:induction false} GivenNowhere(receipts: Receipts, rows: seq<Row>, rid: int, rem: nat, bills: seq<Obligation>, t: Target)
    requires forall k :: 0 <= k < |bills| ==> bills[k].target != t
    ensures PairAmount(Plan(receipts, rows, rid, rem, bills), rid, t) == 0
    decreases |bills|
  {
    if bills != [] && rem > 0 {
      var out := Outstanding(receipts, rows, bills[0]);
      var row := Row(rid, bills[0].target, Min(rem, out));
      if out == 0 {
        GivenNowhere(receipts, rows, rid, rem, bills[1..], t);
      } else {
        var rest := Plan(receipts, rows + [row], rid, rem - row.amount, bills[1..]);
        GivenNowhere(receipts, rows + [row], rid, rem - row.amount, bills[1..], t);
        assert ([row] + rest)[1..] == rest;
      }
    }
  }

  lemma {:induction false} FirstDifference(a: seq<Obligation>, b: seq<Obligation>) returns (i: nat)
    requires a != b
    ensures i <= |a| && i <= |b| && a[..i] == b[..i] && (i < |a| || i < |b|) && (i < |a| && i < |b| ==> a[i] != b[i])
  {
    if a == [] || b == [] || a[0] != b[0] {
      i := 0;
    } else {
      assert a == [a[0]] + a[1..] && b == [b[0]] + b[1..];
      var k := FirstDifference(a[1..], b[1..]);
      i := k + 1;
      assert a[..i] == [a[0]] + a[1..][..k] && b[..i] == [b[0]] + b[1..][..k];
    }
  }

  lemma {:induction false} SamePrefix(a: seq<Obligation>, b: seq<Obligation>, i: nat)
    requires i <= |a| && i <= |b| && a[..i] == b[..i]
    ensures Prefix(Dues(a), i) == Prefix(Dues(b), i)
  {
    if i > 0 {
      assert a[i - 1] == a[..i][i - 1] && b[i - 1] == b[..i][i - 1];
      assert a[..i - 1] == a[..i][..i - 1] && b[..i - 1] == b[..i][..i - 1];
      SamePrefix(a, b, i - 1);
    }
  }

  /** A later bill starts behind one that is not full. */
  lemma LaterStartsBehind(bills: seq<Obligation>, i: nat, k: nat)
    requires i < k < |bills| && bills[i].amountDue > 0
    ensures Prefix(Dues(bills), k) >= Prefix(Dues(bills), i) + 1
  {
    PrefixStep(Dues(bills), i);
    PrefixMonotone(Dues(bills), i + 1, k);
  }

  lemma NothingBeyond(amount: nat, start: nat, end: nat)
    requires amount <= start
    ensures Overlap(0, amount, start, end) == 0
  {
  }

  /** It receives nothing from a receipt that ends there, nor does a target without a bill. */
  lemma OthersGetNothing(bills: seq<Obligation>, i: nat, t: Target, amount: nat)
    requires DistinctTargets(bills) && i <= |bills| && (i < |bills| ==> bills[i].amountDue > 0)
    requires amount == Prefix(Dues(bills), i) + 1
    requires forall k :: 0 <= k < |bills| && k <= i ==> bills[k].target != t
    ensures Given(amount, bills, t) == 0
  {
    if k :| i < k < |bills| && bills[k].target == t {
      LaterStartsBehind(bills, i, k);
      NothingBeyond(amount, Prefix(Dues(bills), k), Prefix(Dues(bills), k + 1));
      GivenAt(amount, bills, k);
    } else {
      GivenNowhere(Alone(amount), [], 0, amount, bills, t);
    }
  }

  /** `a` has a bill where `b` has another one or none. */
  lemma DifferAt(a: seq<Obligation>, b: seq<Obligation>, i: nat) returns (amount: nat, t: Target)
    requires DistinctTargets(a) && DistinctTargets(b) && i < |a| && i <= |b| && a[..i] == b[..i] && (i < |b| ==> a[i] != b[i])
    requires a[i].amountDue > 0 && a[i].dueAt == 0 && (i < |b| ==> b[i].amountDue > 0 && b[i].dueAt == 0)
    ensures Given(amount, a, t) != Given(amount, b, t)
  {
    var before := Prefix(Dues(a), i);
    t := a[i].target;
    SamePrefix(a, b, i);
    if i < |b| && b[i].target == t {
      amount := before + Max(a[i].amountDue, b[i].amountDue);
      GivenAt(amount, a, i);
      GivenAt(amount, b, i);
    } else {
      amount := before + 1;
      GivenAt(amount, a, i);
      forall k | 0 <= k < |b| && k <= i ensures b[k].target != t {
        if k < i { assert b[k] == b[..i][k] && a[k] == a[..i][k]; }
      }
      OthersGetNothing(b, i, t, amount);
    }
  }

  lemma DifferentBillsDiffer(a: seq<Obligation>, b: seq<Obligation>) returns (amount: nat, t: Target)
    requires a != b && DistinctTargets(a) && DistinctTargets(b)
    requires (forall o <- a :: o.amountDue > 0 && o.dueAt == 0) && (forall o <- b :: o.amountDue > 0 && o.dueAt == 0)
    ensures Given(amount, a, t) != Given(amount, b, t)
  {
    var i := FirstDifference(a, b);
    if i < |a| { amount, t := DifferAt(a, b, i); } else { amount, t := DifferAt(b, a, i); }
  }

  // ---- when one rebuild settles -------------------------------------------------------

  /** Ids are unique, and the lessons owed by the session are targets of their own. */
  predicate Listable(cycles: seq<Cycle>, lessons: seq<Obligation>) {
    UniqueIds(cycles) && DistinctTargets(lessons) && forall o <- lessons :: o.target.kind != PACKAGE_CYCLE
  }

  lemma {:induction false} ListedDistinct(cycles: seq<Cycle>, student: int, lessons: seq<Obligation>)
    requires Listable(cycles, lessons)
    ensures DistinctTargets(Charges(cycles, student) + lessons)
  {
    if cycles == [] {
      assert [] + lessons == lessons;
    } else {
      var head, rest := ChargeOf(cycles[0], student), Charges(cycles[1..], student) + lessons;
      ListedDistinct(cycles[1..], student, lessons);
      ChargeTargets(cycles[1..], student);
      assert Charges(cycles, student) + lessons == head + rest;
      forall j | 0 <= j < |rest| ensures rest[j].target != CycleTarget(cycles[0].id) {
        if j < |Charges(cycles[1..], student)| {
          assert rest[j] in Charges(cycles[1..], student);
        } else {
          assert rest[j] in lessons;
        }
      }
    }
  }

  lemma {:induction false} BillTargets(obs: seq<Obligation>)
    ensures forall b <- Bills(obs) :: exists o :: o in obs && o.target == b.target && o.amountDue == b.amountDue
  {
    if obs != [] {
      BillTargets(obs[1..]);
      forall b | b in Bills(obs) ensures exists o :: o in obs && o.target == b.target && o.amountDue == b.amountDue {
        if b in Bills(obs[1..]) {
          var o :| o in obs[1..] && o.target == b.target && o.amountDue == b.amountDue;
          assert o in obs;
        } else {
          assert obs[0] in obs;
        }
      }
    }
  }

  lemma {:induction false} BillsDistinct(obs: seq<Obligation>)
    requires DistinctTargets(obs)
    ensures DistinctTargets(Bills(obs))
  {
    if obs != [] {
      BillsDistinct(obs[1..]);
      BillTargets(obs[1..]);
      var rest := Bills(obs[1..]);
      forall j | 0 <= j < |rest| ensures rest[j].target != obs[0].target {
        assert rest[j] in rest;
        var o :| o in obs[1..] && o.target == rest[j].target;
      }
    }
  }

  lemma BillsAreDistinct(cycles: seq<Cycle>, student: int, lessons: seq<Obligation>)
    requires Listable(cycles, lessons)
    ensures DistinctTargets(StoredBills(student, cycles, lessons))
  {
    var obs := Charges(cycles, student) + lessons;
    ListedDistinct(cycles, student, lessons);
    SortKeepsDistinct(obs);
    BillsDistinct(SortObligations(obs));
  }

  /** Different bills: a single receipt is enough to make the second rebuild move pence between targets. */
  lemma DifferentBillsMovePence(student: int, cycles: seq<Cycle>, latest: map<int, int>, lessons: seq<Obligation>)
    returns (p: Payer, t: Tables, target: Target)
    requires Listable(cycles, lessons) && StoredBills(student, cycles, lessons) != NormalizedBills(student, cycles, latest, lessons)
    ensures t == Tables(cycles, []) && p == Payer(student, p.receipts, [0], lessons, latest)
    ensures PairAmount(RebuildOnce(p, RebuildOnce(p, t)).rows, 0, target) != PairAmount(RebuildOnce(p, t).rows, 0, target)
  {
    var a, b := StoredBills(student, cycles, lessons), NormalizedBills(student, cycles, latest, lessons);
    BillsAreDistinct(cycles, student, lessons);
    BillsAreDistinct(NormalizedAll(cycles, student, latest, map[], []), student, lessons);
    var amount;
    amount, target := DifferentBillsDiffer(a, b);
    p, t := Payer(student, Alone(amount), [0], lessons, latest), Tables(cycles, []);
    var u := RebuildOnce(p, t);
    BillsAfterRebuild(p, t);
    RebuiltAgain(p, [], ObligationsOf(p, u.cycles), ObligationsOf(p, cycles));
    RebuiltAlone(amount, ObligationsOf(p, cycles));
    RebuiltAlone(amount, ObligationsOf(p, u.cycles));
  }

  lemma RebuiltAlone(amount: nat, obs: seq<Obligation>)
    ensures Rebuilt(Alone(amount), [], [0], obs) == Plan(Alone(amount), [], 0, amount, Bills(obs))
  {
    OneReceipt(Alone(amount), 0);
    OneByOne(Alone(amount), obs, amount);
    PlanOfBills(Alone(amount), [], 0, amount, obs);
    var plan := Plan(Alone(amount), [], 0, amount, obs);
    assert [] + plan == plan;
  }

  /** Whatever receipts there are and whatever is allocated, one rebuild settles the student. */
  ghost predicate AlwaysSettles(student: int, cycles: seq<Cycle>, latest: map<int, int>, lessons: seq<Obligation>) {
    forall receipts, ids, rows :: Settles(Payer(student, receipts, ids, lessons, latest), Tables(cycles, rows))
  }

  /**
   One rebuild settles a student for all money if and only if normalizing his rows changes no bill:
   neither which obligations take money, nor how much, nor their order.
   */
  lemma RebuildSettlesIff(student: int, cycles: seq<Cycle>, latest: map<int, int>, lessons: seq<Obligation>)
    requires Listable(cycles, lessons)
    ensures AlwaysSettles(student, cycles, latest, lessons)
      <==> StoredBills(student, cycles, lessons) == NormalizedBills(student, cycles, latest, lessons)
  {
    if StoredBills(student, cycles, lessons) == NormalizedBills(student, cycles, latest, lessons) {
      forall receipts, ids, rows ensures Settles(Payer(student, receipts, ids, lessons, latest), Tables(cycles, rows)) {
        SameBillsSettle(Payer(student, receipts, ids, lessons, latest), Tables(cycles, rows));
      }
    } else {
      var p, t, target := DifferentBillsMovePence(student, cycles, latest, lessons);
      assert !Settles(p, t);
    }
  }

  // ---- which rows matter --------------------------------------------------------------

  function Priced(obs: seq<Obligation>): (priced: seq<Obligation>)
    ensures forall o :: o in priced <==> o in obs && o.amountDue > 0
  {
    if obs == [] then [] else (if obs[0].amountDue > 0 then [obs[0]] else []) + Priced(obs[1..])
  }

  lemma PricedCons(o: Obligation, rest: seq<Obligation>)
    ensures Priced([o] + rest) == (if o.amountDue > 0 then [o] else []) + Priced(rest)
    ensures Bills([o] + rest) == (if o.amountDue > 0 then [o.(dueAt := 0)] else []) + Bills(rest)
  {
    assert ([o] + rest)[1..] == rest;
  }

  lemma {:induction false} BillsOfPriced(obs: seq<Obligation>)
    ensures Bills(Priced(obs)) == Bills(obs)
  {
    if obs != [] {
      BillsOfPriced(obs[1..]);
      PricedCons(obs[0], Priced(obs[1..]));
      assert [] + Priced(obs[1..]) == Priced(obs[1..]);
    }
  }

  lemma {:induction false} PricedAppend(a: seq<Obligation>, b: seq<Obligation>)
    ensures Priced(a + b) == Priced(a) + Priced(b)
  {
    if a == [] {
      assert a + b == b;
    } else {
      assert (a + b)[1..] == a[1..] + b;
      PricedAppend(a[1..], b);
    }
  }

  /** An obligation that goes first of all goes first of the priced ones. */
  lemma InsertFirst(o: Obligation, sorted: seq<Obligation>)
    requires SortedObligations(sorted) && sorted != [] && NotAfter(o, sorted[0])
    ensures Insert(o, Priced(sorted)) == [o] + Priced(sorted)
  {
    var priced := Priced(sorted);
    if priced != [] {
      assert priced[0] in sorted;
      var k :| 0 <= k < |sorted| && sorted[k] == priced[0];
      if k > 0 { NotAfterIsTransitive(o, sorted[0], sorted[k]); }
    }
  }

  lemma InsertBehind(o: Obligation, head: Obligation, rest: seq<Obligation>)
    requires !NotAfter(o, head)
    ensures Insert(o, [head] + rest) == [head] + Insert(o, rest)
  {
    assert ([head] + rest)[1..] == rest;
  }

  lemma {:induction false} InsertPriced(o: Obligation, sorted: seq<Obligation>)
    requires SortedObligations(sorted)
    ensures Priced(Insert(o, sorted)) == if o.amountDue > 0 then Insert(o, Priced(sorted)) else Priced(sorted)
  {
    if sorted == [] {
    } else if NotAfter(o, sorted[0]) {
      PricedCons(o, sorted);
      InsertFirst(o, sorted);
      assert [] + Priced(sorted) == Priced(sorted);
    } else {
      InsertPriced(o, sorted[1..]);
      PricedCons(sorted[0], Insert(o, sorted[1..]));
      PricedCons(sorted[0], sorted[1..]);
      assert [sorted[0]] + sorted[1..] == sorted;
      InsertBehind(o, sorted[0], Priced(sorted[1..]));
      assert [] + Priced(sorted[1..]) == Priced(sorted[1..]);
      assert [] + Insert(o, Priced(sorted[1..])) == Insert(o, Priced(sorted[1..]));
    }
  }

  lemma {:induction false} SortPriced(obs: seq<Obligation>)
    ensures Priced(SortObligations(obs)) == SortObligations(Priced(obs))
  {
    if obs != [] {
      SortPriced(obs[1..]);
      SortIsSortedPermutation(obs[1..]);
      InsertPriced(obs[0], SortObligations(obs[1..]));
      assert [] + Priced(obs[1..]) == Priced(obs[1..]);
      assert ([obs[0]] + Priced(obs[1..]))[1..] == Priced(obs[1..]);
    }
  }

  /** Equal priced obligations make equal bills. */
  lemma SamePricedSameBills(a: seq<Obligation>, b: seq<Obligation>)
    requires Priced(a) == Priced(b)
    ensures Bills(SortObligations(a)) == Bills(SortObligations(b))
  {
    SortPriced(a);
    SortPriced(b);
    BillsOfPriced(SortObligations(a));
    BillsOfPriced(SortObligations(b));
  }

  /** Every row of the student that costs something is in order. */
  predicate PricedRowsRight(cycles: seq<Cycle>, student: int, latest: map<int, int>) {
    forall c <- cycles :: c.student == student && c.price > 0 ==> RowIsRight(c, latest)
  }

  lemma SamePricedCharge(c: Cycle, student: int, latest: map<int, int>)
    requires c.student == student && c.price > 0 ==> RowIsRight(c, latest)
    ensures var d := if c.student == student then Normalized(c, latest, map[], []) else c;
      Priced(ChargeOf(d, student)) == Priced(ChargeOf(c, student))
  {
    if c.student == student {
      ChargeKeptIff(c, student, latest, map[], []);
      if c.price == 0 {
        NothingPriced(ChargeOf(c, student));
        NothingPriced(ChargeOf(Normalized(c, latest, map[], []), student));
      }
    }
  }

  lemma NothingPriced(obs: seq<Obligation>)
    requires forall o <- obs :: o.amountDue <= 0
    ensures Priced(obs) == []
  {
    if Priced(obs) != [] { assert Priced(obs)[0] in Priced(obs); }
  }

  lemma {:induction false} SamePricedCharges(cycles: seq<Cycle>, student: int, latest: map<int, int>)
    requires PricedRowsRight(cycles, student, latest)
    ensures Priced(Charges(NormalizedAll(cycles, student, latest, map[], []), student)) == Priced(Charges(cycles, student))
  {
    if cycles != [] {
      var after := NormalizedAll(cycles, student, latest, map[], []);
      assert cycles[0] in cycles && forall c <- cycles[1..] :: c in cycles;
      SamePricedCharges(cycles[1..], student, latest);
      assert after[1..] == NormalizedAll(cycles[1..], student, latest, map[], []);
      SamePricedCharge(cycles[0], student, latest);
      PricedAppend(ChargeOf(after[0], student), Charges(after[1..], student));
      PricedAppend(ChargeOf(cycles[0], student), Charges(cycles[1..], student));
    }
  }

  /** Rows that cost nothing never matter: when all others are in order, one rebuild settles. */
  lemma PricedRowsRightSettle(student: int, cycles: seq<Cycle>, latest: map<int, int>, lessons: seq<Obligation>)
    requires PricedRowsRight(cycles, student, latest)
    ensures AlwaysSettles(student, cycles, latest, lessons)
  {
    var after := NormalizedAll(cycles, student, latest, map[], []);
    SamePricedCharges(cycles, student, latest);
    PricedAppend(Charges(after, student), lessons);
    PricedAppend(Charges(cycles, student), lessons);
    SamePricedSameBills(Charges(after, student) + lessons, Charges(cycles, student) + lessons);
    forall receipts, ids, rows ensures Settles(Payer(student, receipts, ids, lessons, latest), Tables(cycles, rows)) {
      SameBillsSettle(Payer(student, receipts, ids, lessons, latest), Tables(cycles, rows));
    }
  }

  /** A status that does not say whether the cycle is complete. */
  predicate WrongStatus(c: Cycle) {
    c.status != Cancelled && (Complete(c) <==> c.status == Open)
  }

  predicate Owes(obs: seq<Obligation>, t: Target) {
    exists j :: 0 <= j < |obs| && obs[j].target == t && obs[j].amountDue > 0
  }

  lemma {:induction false} OwesBilled(obs: seq<Obligation>, t: Target)
    ensures Owes(Bills(obs), t) <==> Owes(obs, t)
  {
    if obs != [] {
      OwesBilled(obs[1..], t);
      OwesAppend([obs[0]], obs[1..], t);
      var head := if obs[0].amountDue > 0 then [obs[0].(dueAt := 0)] else [];
      OwesAppend(head, Bills(obs[1..]), t);
      assert [obs[0]] + obs[1..] == obs;
      if obs[0].amountDue > 0 { assert head[0].target == [obs[0]][0].target; }
    }
  }

  lemma OwesAppend(a: seq<Obligation>, b: seq<Obligation>, t: Target)
    ensures Owes(a + b, t) <==> Owes(a, t) || Owes(b, t)
  {
    if j :| 0 <= j < |a| && a[j].target == t && a[j].amountDue > 0 { assert (a + b)[j] == a[j]; }
    if j :| 0 <= j < |b| && b[j].target == t && b[j].amountDue > 0 { assert (a + b)[|a| + j] == b[j]; }
  }

  lemma OwesSorted(obs: seq<Obligation>, t: Target)
    requires DistinctTargets(obs)
    ensures Owes(SortObligations(obs), t) <==> Owes(obs, t)
  {
    SortKeepsDistinct(obs);
    if j :| 0 <= j < |obs| && obs[j].target == t && obs[j].amountDue > 0 {
      assert obs[j] in SortObligations(obs);
    }
    if j :| 0 <= j < |SortObligations(obs)| && SortObligations(obs)[j].target == t && SortObligations(obs)[j].amountDue > 0 {
      assert SortObligations(obs)[j] in obs;
    }
  }

  lemma {:induction false} ChargedIff(cycles: seq<Cycle>, student: int, i: nat)
    requires UniqueIds(cycles) && i < |cycles| && cycles[i].student == student && cycles[i].price > 0
    ensures Owes(Charges(cycles, student), CycleTarget(cycles[i].id)) <==> cycles[i].status == Due || cycles[i].status == Paid
  {
    var head, rest, t := ChargeOf(cycles[0], student), Charges(cycles[1..], student), CycleTarget(cycles[i].id);
    OwesAppend(head, rest, t);
    if i == 0 {
      ChargeTargets(cycles[1..], student);
      forall j | 0 <= j < |rest| ensures rest[j].target != t {
        assert rest[j] in rest;
        var c :| c in cycles[1..] && rest[j].target == CycleTarget(c.id);
      }
      if head != [] { assert head[0].target == t && head[0].amountDue > 0; }
    } else {
      ChargedIff(cycles[1..], student, i - 1);
      assert cycles[1..][i - 1] == cycles[i] && cycles[0].id != cycles[i].id;
    }
  }

  lemma BilledIff(cycles: seq<Cycle>, student: int, lessons: seq<Obligation>, i: nat)
    requires Listable(cycles, lessons) && i < |cycles| && cycles[i].student == student && cycles[i].price > 0
    ensures Owes(StoredBills(student, cycles, lessons), CycleTarget(cycles[i].id)) <==> cycles[i].status == Due || cycles[i].status == Paid
  {
    var obs, t := Charges(cycles, student) + lessons, CycleTarget(cycles[i].id);
    ListedDistinct(cycles, student, lessons);
    OwesBilled(SortObligations(obs), t);
    OwesSorted(obs, t);
    OwesAppend(Charges(cycles, student), lessons, t);
    forall j | 0 <= j < |lessons| ensures lessons[j].target != t { assert lessons[j] in lessons; }
    ChargedIff(cycles, student, i);
  }

  /** A row that costs something and has the wrong status: some receipt makes the second rebuild move pence. */
  lemma WrongStatusUnsettles(student: int, cycles: seq<Cycle>, latest: map<int, int>, lessons: seq<Obligation>, i: nat)
    requires Listable(cycles, lessons) && i < |cycles| && cycles[i].student == student && cycles[i].price > 0 && WrongStatus(cycles[i])
    ensures !AlwaysSettles(student, cycles, latest, lessons)
  {
    var after := NormalizedAll(cycles, student, latest, map[], []);
    BilledIff(cycles, student, lessons, i);
    BilledIff(after, student, lessons, i);
    RebuildSettlesIff(student, cycles, latest, lessons);
  }

  // ---- what a rebuild pays ------------------------------------------------------------

  /**
   After a rebuild a complete cycle that was charged is paid if and only if others had covered it, or
   the receipts of the student reach the end of its interval among the sorted obligations.
   */
  lemma PaidIff(p: Payer, t: Tables, i: nat, j: nat)
    requires Listing(p.receipts, p.ids) && i < |t.cycles| && t.cycles[i].student == p.student
    requires var obs := ObligationsOf(p, t.cycles); DistinctTargets(obs) && j < |obs| && ChargeOf(t.cycles[i], p.student) == [obs[j]]
    ensures var outs := Outstandings(p.receipts, Ledger.Without(t.rows, IdSet(p.ids)), ObligationsOf(p, t.cycles));
      RebuildOnce(p, t).cycles[i].status == Paid <==>
        Complete(t.cycles[i]) && (outs[j] == 0 || Prefix(outs, j + 1) <= Sum(Held(p.receipts, ActiveIds(p.receipts, p.ids))))
  {
    var obs := ObligationsOf(p, t.cycles);
    assert [obs[j]][0] == obs[j] && ChargeOf(t.cycles[i], p.student)[0] == obs[j];
    assert obs[j].target == CycleTarget(t.cycles[i].id) && obs[j].amountDue == t.cycles[i].price;
    CoveredIff(p, t.rows, obs, j);
  }

  lemma CoveredIff(p: Payer, rows: seq<Row>, obs: seq<Obligation>, j: nat)
    requires Listing(p.receipts, p.ids) && DistinctTargets(obs) && j < |obs|
    ensures var outs := Outstandings(p.receipts, Ledger.Without(rows, IdSet(p.ids)), obs);
      Outstanding(p.receipts, Rebuilt(p.receipts, rows, p.ids, obs), obs[j]) == 0
      <==> outs[j] == 0 || Prefix(outs, j + 1) <= Sum(Held(p.receipts, ActiveIds(p.receipts, p.ids)))
  {
    var after := Outstandings(p.receipts, Rebuilt(p.receipts, rows, p.ids, obs), obs);
    LeftAfterRebuild(p, rows, obs);
    DrainedIff(Held(p.receipts, ActiveIds(p.receipts, p.ids)), Outstandings(p.receipts, Ledger.Without(rows, IdSet(p.ids)), obs), j);
    assert after[j] == Outstanding(p.receipts, Rebuilt(p.receipts, rows, p.ids, obs), obs[j]);
  }

  lemma LeftAfterRebuild(p: Payer, rows: seq<Row>, obs: seq<Obligation>)
    requires Listing(p.receipts, p.ids) && DistinctTargets(obs)
    ensures Outstandings(p.receipts, Rebuilt(p.receipts, rows, p.ids, obs), obs) ==
      DrainAll(Held(p.receipts, ActiveIds(p.receipts, p.ids)), Outstandings(p.receipts, Ledger.Without(rows, IdSet(p.ids)), obs))
  {
    var active, others := ActiveIds(p.receipts, p.ids), Ledger.Without(rows, IdSet(p.ids));
    ActiveIdsDistinct(p.receipts, p.ids);
    RemainingIsHeld(p, others, rows);
    BulkPlanDrains(p.receipts, others, active, obs);
  }

  lemma DrainedIff(rems: seq<nat>, outs: seq<nat>, j: nat)
    requires j < |outs|
    ensures |DrainAll(rems, outs)| == |outs| && (DrainAll(rems, outs)[j] == 0 <==> outs[j] == 0 || Prefix(outs, j + 1) <= Sum(rems))
  {
    DrainAllClosedForm(rems, outs, j);
    PrefixStep(outs, j);
  }

  lemma RemainingIsHeld(p: Payer, others: seq<Row>, rows: seq<Row>)
    requires Listing(p.receipts, p.ids) && others == Ledger.Without(rows, IdSet(p.ids))
    ensures Remainings(p.receipts, others, ActiveIds(p.receipts, p.ids)) == Held(p.receipts, ActiveIds(p.receipts, p.ids))
  {
    var active := ActiveIds(p.receipts, p.ids);
    forall k | 0 <= k < |active| ensures Remaining(p.receipts, others, active[k]) == Held(p.receipts, active)[k] {
      assert active[k] in active;
      var i :| 0 <= i < |p.ids| && p.ids[i] == active[k];
      WithoutAmounts(p.receipts, rows, IdSet(p.ids), active[k], CycleTarget(0));
    }
  }
}
