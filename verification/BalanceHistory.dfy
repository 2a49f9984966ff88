/**
 Totals over whole histories: receipts and obligations are only added, in any order, and each
 addition is followed by a rebalance.
 */
module BalanceHistory {
  import opened Numbers
  import opened Waterfall
  import opened Ledger
  import opened Collection
  import opened CollectionLaws
  import opened Rebalance

  // ---- totals of one run --------------------------------------------------------------

  lemma RunUnfolds(receipts: Receipts, rows: seq<Row>, ids: seq<int>, obs: seq<Obligation>)
    requires ids != []
    ensures var rows' := rows + Plan(receipts, rows, ids[0], Remaining(receipts, rows, ids[0]), obs);
            rows + BulkPlan(receipts, rows, ids, obs) == rows' + BulkPlan(receipts, rows', ids[1..], obs)
  {
    var plan := Plan(receipts, rows, ids[0], Remaining(receipts, rows, ids[0]), obs);
    var rest := BulkPlan(receipts, rows + plan, ids[1..], obs);
    assert BulkPlan(receipts, rows, ids, obs) == plan + rest;
    Regroup(rows, plan, rest);
  }

  lemma {:induction false} BulkPlanTakes(receipts: Receipts, rows: seq<Row>, ids: seq<int>, obs: seq<Obligation>, other: int)
    requires Distinct(ids) && AllActive(receipts, ids) && DistinctTargets(obs) && other !in ids
    ensures FromReceipt(rows + BulkPlan(receipts, rows, ids, obs), other) == FromReceipt(rows, other)
    decreases |ids|
  {
    if ids == [] {
      assert rows + [] == rows;
    } else {
      var plan := Plan(receipts, rows, ids[0], Remaining(receipts, rows, ids[0]), obs);
      PlanTakes(receipts, rows, ids[0], Remaining(receipts, rows, ids[0]), obs, other);
      BulkPlanTakes(receipts, rows + plan, ids[1..], obs, other);
      RunUnfolds(receipts, rows, ids, obs);
    }
  }

  /** Credit left and debt left after a run: never both positive. */
  lemma RunTotals(receipts: Receipts, rows: seq<Row>, ids: seq<int>, obs: seq<Obligation>)
    requires Distinct(ids) && AllActive(receipts, ids) && DistinctTargets(obs)
    ensures var after := rows + BulkPlan(receipts, rows, ids, obs);
            var r, d := Sum(Remainings(receipts, rows, ids)), Sum(Outstandings(receipts, rows, obs));
            && Sum(Remainings(receipts, after, ids)) == Max(0, r - d)
            && Sum(Outstandings(receipts, after, obs)) == Max(0, d - r)
    decreases |ids|
  {
    BulkPlanDrains(receipts, rows, ids, obs);
    WaterfallConserves(Remainings(receipts, rows, ids), Outstandings(receipts, rows, obs));
    CreditLeft(receipts, rows, ids, obs);
  }

  /** What the first receipt of a run keeps. */
  lemma FirstReceiptLeft(receipts: Receipts, rows: seq<Row>, ids: seq<int>, obs: seq<Obligation>)
    requires ids != [] && Distinct(ids) && AllActive(receipts, ids) && DistinctTargets(obs)
    ensures var rem: int, d: int := Remaining(receipts, rows, ids[0]), Sum(Outstandings(receipts, rows, obs));
            FromReceipt(rows + BulkPlan(receipts, rows, ids, obs), ids[0]) == FromReceipt(rows, ids[0]) + Min(rem, d)
  {
    var rem := Remaining(receipts, rows, ids[0]);
    RunUnfolds(receipts, rows, ids, obs);
    PlanTakes(receipts, rows, ids[0], rem, obs, ids[0]);
    BulkPlanTakes(receipts, rows + Plan(receipts, rows, ids[0], rem, obs), ids[1..], obs, ids[0]);
  }

  lemma DebtAfterFirst(receipts: Receipts, rows: seq<Row>, rid: int, rem: nat, obs: seq<Obligation>)
    requires Active(receipts, rid) && DistinctTargets(obs)
    ensures Sum(Outstandings(receipts, rows + Plan(receipts, rows, rid, rem, obs), obs))
         == Max(0, Sum(Outstandings(receipts, rows, obs)) - rem)
  {
    PlanDrains(receipts, rows, rid, rem, obs);
    DrainTotal(rem, Outstandings(receipts, rows, obs));
  }

  lemma RemainingsHead(receipts: Receipts, rows: seq<Row>, ids: seq<int>)
    requires ids != []
    ensures Sum(Remainings(receipts, rows, ids)) == Remaining(receipts, rows, ids[0]) + Sum(Remainings(receipts, rows, ids[1..]))
  {
    assert Remainings(receipts, rows, ids)[1..] == Remainings(receipts, rows, ids[1..]);
  }

  lemma {:induction false} CreditLeft(receipts: Receipts, rows: seq<Row>, ids: seq<int>, obs: seq<Obligation>)
    requires Distinct(ids) && AllActive(receipts, ids) && DistinctTargets(obs)
    ensures Sum(Remainings(receipts, rows + BulkPlan(receipts, rows, ids, obs), ids))
         == Max(0, Sum(Remainings(receipts, rows, ids)) - Sum(Outstandings(receipts, rows, obs)))
    decreases |ids|
  {
    if ids != [] {
      var rem := Remaining(receipts, rows, ids[0]);
      var rows' := rows + Plan(receipts, rows, ids[0], rem, obs);
      var after := rows + BulkPlan(receipts, rows, ids, obs);
      var debt := Sum(Outstandings(receipts, rows, obs));
      assert Remaining(receipts, after, ids[0]) == rem - Min(rem, debt) by { FirstReceiptLeft(receipts, rows, ids, obs); }
      assert after == rows' + BulkPlan(receipts, rows', ids[1..], obs) by { RunUnfolds(receipts, rows, ids, obs); }
      DebtAfterFirst(receipts, rows, ids[0], rem, obs);
      CreditLeft(receipts, rows', ids[1..], obs);
      RemainingsAfterPlan(receipts, rows, ids, obs);
      RemainingsHead(receipts, rows, ids);
      RemainingsHead(receipts, after, ids);
    }
  }

  lemma {:induction false} NothingToMove(receipts: Receipts, rows: seq<Row>, ids: seq<int>, obs: seq<Obligation>)
    requires (forall i :: 0 <= i < |ids| ==> Remaining(receipts, rows, ids[i]) == 0)
          || (forall j :: 0 <= j < |obs| ==> Outstanding(receipts, rows, obs[j]) == 0)
    ensures BulkPlan(receipts, rows, ids, obs) == []
    decreases |ids|
  {
    if ids != [] {
      NothingOwedNothingPlanned(receipts, rows, ids[0], Remaining(receipts, rows, ids[0]), obs);
      assert rows + [] == rows;
      NothingToMove(receipts, rows, ids[1..], obs);
    }
  }

  /** A second rebalance over the same receipts and obligations generates nothing. */
  lemma SecondRebalanceIsEmpty(receipts: Receipts, rows: seq<Row>, ids: seq<int>, obs: seq<Obligation>)
    requires Distinct(ids) && AllActive(receipts, ids) && DistinctTargets(obs)
    ensures BulkPlan(receipts, rows + BulkPlan(receipts, rows, ids, obs), ids, obs) == []
  {
    var after := rows + BulkPlan(receipts, rows, ids, obs);
    var rems, outs := Remainings(receipts, after, ids), Outstandings(receipts, after, obs);
    RunTotals(receipts, rows, ids, obs);
    if Sum(rems) == 0 {
      forall i | 0 <= i < |ids| ensures Remaining(receipts, after, ids[i]) == 0 { SumZero(rems, i); }
    } else {
      forall j | 0 <= j < |obs| ensures Outstanding(receipts, after, obs[j]) == 0 { SumZero(outs, j); }
    }
    NothingToMove(receipts, after, ids, obs);
  }

  // ---- histories ----------------------------------------------------------------------

  /** One payer's books: receipt ids and obligations in collection order, and the ledger rows. */
  datatype Books = Books(receipts: Receipts, ids: seq<int>, obs: seq<Obligation>, rows: seq<Row>)

  /** `at` is the place the date ordering puts the new receipt or obligation at. */
  datatype Event =
    | AddReceipt(rid: int, command: ReceiptCommand, at: nat)
    | AddObligation(obligation: Obligation, at: nat)

  function InsertAt<T>(s: seq<T>, k: nat, x: T): seq<T>
    requires k <= |s|
  {
    s[..k] + [x] + s[k..]
  }

  function Targets(obs: seq<Obligation>): set<Target> {
    set j | 0 <= j < |obs| :: obs[j].target
  }

  predicate Allowed(b: Books, e: Event) {
    match e
    case AddReceipt(rid, command, at) => rid !in b.receipts && command.amount > 0 && at <= |b.ids|
    case AddObligation(o, at) => o.target !in Targets(b.obs) && o.amountDue >= 0 && at <= |b.obs|
  }

  function Rebalanced(b: Books): Books {
    b.(rows := b.rows + BulkPlan(b.receipts, b.rows, b.ids, b.obs))
  }

  function Added(b: Books, e: Event): Books
    requires Allowed(b, e)
  {
    match e
    case AddReceipt(rid, command, at) =>
      b.(receipts := b.receipts[rid := Receipt(command, false)], ids := InsertAt(b.ids, at, rid))
    case AddObligation(o, at) => b.(obs := InsertAt(b.obs, at, o))
  }

  /** The books after the events, or None if one of them reuses an id. */
  function History(events: seq<Event>): Option<Books> {
    if events == [] then Some(Books(map[], [], [], [])) else After(History(events[..|events| - 1]), events[|events| - 1])
  }

  function After(before: Option<Books>, e: Event): Option<Books> {
    if before.None? || !Allowed(before.value, e) then None else Some(Rebalanced(Added(before.value, e)))
  }

  function Credit(b: Books): nat { Sum(Remainings(b.receipts, b.rows, b.ids)) }

  function Debt(b: Books): nat { Sum(Outstandings(b.receipts, b.rows, b.obs)) }

  /** Ids and targets are distinct, every listed receipt is active, rows mention only these. */
  ghost predicate BooksOk(b: Books) {
    && Distinct(b.ids) && AllActive(b.receipts, b.ids) && DistinctTargets(b.obs)
    && (forall rid :: rid in b.receipts <==> rid in b.ids)
    && (forall k :: 0 <= k < |b.rows| ==> b.rows[k].receiptId in b.receipts && b.rows[k].target in Targets(b.obs))
  }

  lemma {:induction false} PlanRowsFrom(receipts: Receipts, rows: seq<Row>, rid: int, rem: nat, obs: seq<Obligation>)
    ensures forall x :: x in Plan(receipts, rows, rid, rem, obs) ==> x.receiptId == rid && x.target in Targets(obs)
    decreases |obs|
  {
    if obs != [] && rem > 0 {
      assert Targets(obs[1..]) <= Targets(obs) by {
        forall j | 0 <= j < |obs[1..]| ensures obs[1..][j].target in Targets(obs) { assert obs[1..][j] == obs[j + 1]; }
      }
      var out := Outstanding(receipts, rows, obs[0]);
      var row := Row(rid, obs[0].target, Min(rem, out));
      if out == 0 {
        PlanRowsFrom(receipts, rows, rid, rem, obs[1..]);
      } else {
        PlanRowsFrom(receipts, rows + [row], rid, rem - row.amount, obs[1..]);
      }
    }
  }

  lemma {:induction false} BulkRowsFrom(receipts: Receipts, rows: seq<Row>, ids: seq<int>, obs: seq<Obligation>)
    ensures forall x :: x in BulkPlan(receipts, rows, ids, obs) ==> x.receiptId in ids && x.target in Targets(obs)
    decreases |ids|
  {
    if ids != [] {
      var plan := Plan(receipts, rows, ids[0], Remaining(receipts, rows, ids[0]), obs);
      PlanRowsFrom(receipts, rows, ids[0], Remaining(receipts, rows, ids[0]), obs);
      BulkRowsFrom(receipts, rows + plan, ids[1..], obs);
    }
  }

  lemma SumInsert(s: seq<nat>, t: seq<nat>, k: nat, x: nat)
    requires k <= |s| && t == s[..k] + [x] + s[k..]
    ensures Sum(t) == Sum(s) + x
  {
    SumAppend(s[..k] + [x], s[k..]);
    SumAppend(s[..k], [x]);
    SumAppend(s[..k], s[k..]);
    assert s == s[..k] + s[k..];
  }

  lemma {:induction false} NoRowsTo(receipts: Receipts, rows: seq<Row>, t: Target)
    requires forall k :: 0 <= k < |rows| ==> rows[k].target != t
    ensures ToTarget(receipts, rows, t) == 0
  {
    if rows != [] {
      NoRowsTo(receipts, rows[1..], t);
    }
  }

  lemma {:induction false} NewReceiptSameTotals(receipts: Receipts, rows: seq<Row>, rid: int, receipt: Receipt, t: Target)
    requires rid !in receipts && forall k :: 0 <= k < |rows| ==> rows[k].receiptId in receipts
    ensures ToTarget(receipts[rid := receipt], rows, t) == ToTarget(receipts, rows, t)
  {
    if rows != [] {
      NewReceiptSameTotals(receipts, rows[1..], rid, receipt, t);
    }
  }

  /** A new receipt adds its amount to the credit. */
  lemma AddReceiptCredit(b: Books, rid: int, command: ReceiptCommand, at: nat)
    requires BooksOk(b) && Allowed(b, AddReceipt(rid, command, at))
    ensures Credit(Added(b, AddReceipt(rid, command, at))) == Credit(b) + command.amount
  {
    var receipts', ids' := b.receipts[rid := Receipt(command, false)], InsertAt(b.ids, at, rid);
    var s, t := Remainings(b.receipts, b.rows, b.ids), Remainings(receipts', b.rows, ids');
    NoRowsMeansZero(b.rows, rid);
    forall i | 0 <= i < |t| ensures t[i] == (s[..at] + [command.amount] + s[at..])[i] {
      assert i < at ==> ids'[i] == b.ids[i];
      assert i == at ==> ids'[i] == rid;
      assert i > at ==> ids'[i] == b.ids[i - 1];
    }
    SumInsert(s, t, at, command.amount);
  }

  /** A new receipt leaves the debt alone. */
  lemma AddReceiptDebt(b: Books, rid: int, command: ReceiptCommand, at: nat)
    requires BooksOk(b) && Allowed(b, AddReceipt(rid, command, at))
    ensures BooksOk(Added(b, AddReceipt(rid, command, at)))
    ensures Debt(Added(b, AddReceipt(rid, command, at))) == Debt(b)
  {
    var receipts' := b.receipts[rid := Receipt(command, false)];
    forall j | 0 <= j < |b.obs| ensures Outstanding(receipts', b.rows, b.obs[j]) == Outstanding(b.receipts, b.rows, b.obs[j]) {
      NewReceiptSameTotals(b.receipts, b.rows, rid, Receipt(command, false), b.obs[j].target);
    }
    assert Outstandings(receipts', b.rows, b.obs) == Outstandings(b.receipts, b.rows, b.obs);
  }

  lemma TargetsInsert(obs: seq<Obligation>, k: nat, o: Obligation)
    requires k <= |obs|
    ensures Targets(InsertAt(obs, k, o)) == Targets(obs) + {o.target}
  {
    var obs' := InsertAt(obs, k, o);
    forall t | t in Targets(obs) + {o.target} ensures t in Targets(obs') {
      if t in Targets(obs) {
        var j :| 0 <= j < |obs| && obs[j].target == t;
        assert obs'[if j < k then j else j + 1] == obs[j];
      } else {
        assert obs'[k] == o;
      }
    }
    forall t | t in Targets(obs') ensures t in Targets(obs) + {o.target} {
      var j :| 0 <= j < |obs'| && obs'[j].target == t;
      if j != k {
        assert obs'[j] == obs[if j < k then j else j - 1];
      }
    }
  }

  /** A new obligation adds its amount to the debt. */
  lemma AddObligationDebt(b: Books, o: Obligation, at: nat)
    requires BooksOk(b) && Allowed(b, AddObligation(o, at))
    ensures Debt(Added(b, AddObligation(o, at))) == Debt(b) + o.amountDue
  {
    var obs' := InsertAt(b.obs, at, o);
    NoRowsTo(b.receipts, b.rows, o.target);
    var s, t := Outstandings(b.receipts, b.rows, b.obs), Outstandings(b.receipts, b.rows, obs');
    forall i | 0 <= i < |t| ensures t[i] == (s[..at] + [o.amountDue] + s[at..])[i] {
      assert i < at ==> obs'[i] == b.obs[i];
      assert i == at ==> obs'[i] == o;
      assert i > at ==> obs'[i] == b.obs[i - 1];
    }
    SumInsert(s, t, at, o.amountDue);
  }

  lemma AddObligationOk(b: Books, o: Obligation, at: nat)
    requires BooksOk(b) && Allowed(b, AddObligation(o, at))
    ensures BooksOk(Added(b, AddObligation(o, at)))
    ensures Credit(Added(b, AddObligation(o, at))) == Credit(b)
  {
    TargetsInsert(b.obs, at, o);
  }

  lemma RebalancedTotals(b: Books)
    requires BooksOk(b)
    ensures BooksOk(Rebalanced(b))
    ensures Credit(Rebalanced(b)) == Max(0, Credit(b) - Debt(b)) && Debt(Rebalanced(b)) == Max(0, Debt(b) - Credit(b))
  {
    RunTotals(b.receipts, b.rows, b.ids, b.obs);
    BulkRowsFrom(b.receipts, b.rows, b.ids, b.obs);
    var plan := BulkPlan(b.receipts, b.rows, b.ids, b.obs);
    forall k | 0 <= k < |b.rows + plan|
      ensures (b.rows + plan)[k].receiptId in b.receipts && (b.rows + plan)[k].target in Targets(b.obs)
    {
      if k >= |b.rows| {
        assert (b.rows + plan)[k] in plan;
      }
    }
  }

  function Income(e: Event): nat {
    match e
    case AddReceipt(_, command, _) => Max(0, command.amount)
    case AddObligation(_, _) => 0
  }

  function Charge(e: Event): nat {
    match e
    case AddReceipt(_, _, _) => 0
    case AddObligation(o, _) => Max(0, o.amountDue)
  }

  function Received(events: seq<Event>): nat {
    if events == [] then 0 else Received(events[..|events| - 1]) + Income(events[|events| - 1])
  }

  function Charged(events: seq<Event>): nat {
    if events == [] then 0 else Charged(events[..|events| - 1]) + Charge(events[|events| - 1])
  }

  lemma AddedTotals(b: Books, e: Event)
    requires BooksOk(b) && Allowed(b, e)
    ensures BooksOk(Added(b, e))
    ensures Credit(Added(b, e)) == Credit(b) + Income(e) && Debt(Added(b, e)) == Debt(b) + Charge(e)
  {
    match e {
      case AddReceipt(rid, command, at) =>
        AddReceiptCredit(b, rid, command, at);
        AddReceiptDebt(b, rid, command, at);
      case AddObligation(o, at) =>
        AddObligationDebt(b, o, at);
        AddObligationOk(b, o, at);
    }
  }

  /** Credit and debt are the two sides of received minus charged. */
  predicate Balanced(b: Books, received: int, charged: int) {
    Credit(b) == Max(0, received - charged) && Debt(b) == Max(0, charged - received)
  }

  lemma NetTotals(received: int, charged: int, income: int, charge: int)
    ensures var credit, debt := Max(0, received - charged) + income, Max(0, charged - received) + charge;
      && Max(0, credit - debt) == Max(0, received + income - (charged + charge))
      && Max(0, debt - credit) == Max(0, charged + charge - (received + income))
  {
  }

  lemma EventTotals(b: Books, e: Event)
    requires BooksOk(b) && Allowed(b, e)
    ensures BooksOk(Rebalanced(Added(b, e)))
    ensures var credit, debt := Credit(b) + Income(e), Debt(b) + Charge(e);
      Credit(Rebalanced(Added(b, e))) == Max(0, credit - debt) && Debt(Rebalanced(Added(b, e))) == Max(0, debt - credit)
  {
    AddedTotals(b, e);
    RebalancedTotals(Added(b, e));
  }

  lemma EventKeepsBalance(b: Books, e: Event, received: int, charged: int)
    requires BooksOk(b) && Allowed(b, e) && Balanced(b, received, charged)
    ensures BooksOk(Rebalanced(Added(b, e)))
    ensures Balanced(Rebalanced(Added(b, e)), received + Income(e), charged + Charge(e))
  {
    EventTotals(b, e);
    NetTotals(received, charged, Income(e), Charge(e));
  }

  /** The books are in order, and credit and debt are what was received and charged. */
  ghost predicate Kept(after: Option<Books>, received: int, charged: int) {
    after.Some? ==> BooksOk(after.value) && Balanced(after.value, received, charged)
  }

  lemma AfterIsKept(before: Option<Books>, e: Event, received: int, charged: int)
    requires Kept(before, received, charged)
    ensures Kept(After(before, e), received + Income(e), charged + Charge(e))
  {
    if After(before, e).Some? { EventKeepsBalance(before.value, e, received, charged); }
  }

  lemma EmptyIsKept()
    ensures Kept(History([]), 0, 0)
  {
  }

  lemma {:induction false} HistoryIsKept(events: seq<Event>)
    ensures Kept(History(events), Received(events), Charged(events))
  {
    if events == [] {
      EmptyIsKept();
    } else {
      var before, e := events[..|events| - 1], events[|events| - 1];
      HistoryIsKept(before);
      AfterIsKept(History(before), e, Received(before), Charged(before));
      assert History(events) == After(History(before), e);
      assert Received(events) == Received(before) + Income(e) && Charged(events) == Charged(before) + Charge(e);
    }
  }

  /**
   History independence: whatever the order of payments and charges, the credit is what was
   received beyond the charges and the debt is what was charged beyond the payments.
   */
  lemma TotalsIgnoreHistory(events: seq<Event>)
    requires History(events).Some?
    ensures BooksOk(History(events).value)
    ensures Balanced(History(events).value, Received(events), Charged(events))
  {
    HistoryIsKept(events);
  }
}
