/**
 Rebalancing a family account: reconcile its cycles, pour the account's receipts over those that
 are due or paid, reconcile again. Three transactions, so a crash may fall between any two.
 */
module FamilyBilling {
  import opened Numbers
  import opened Waterfall
  import opened Ledger
  import opened Collection
  import opened Rebalance
  import opened LocalRebalance
  import opened BalanceHistory
  import opened FamilyCycles

  /** 9999-12-31, for a cycle without any date. */
  const FAR_FUTURE: int := 99991231

  // ---- obligations of the account -----------------------------------------------------

  function ChargeOf(account: int, c: FamilyCycle): (charge: seq<Obligation>)
    ensures |charge| <= 1
  {
    if c.account == account && (c.status == Due || c.status == Paid) then
      [Obligation(TargetOf(c.id), First(c.completedOn, c.startedOn).GetOrElse(FAR_FUTURE), c.price)]
    else []
  }

  function Charges(account: int, cycles: seq<FamilyCycle>): seq<Obligation> {
    if cycles == [] then [] else ChargeOf(account, cycles[0]) + Charges(account, cycles[1..])
  }

  function Obligations(f: Family, cycles: seq<FamilyCycle>): seq<Obligation> {
    SortObligations(Charges(f.account.id, cycles))
  }

  lemma {:induction false} ChargesFrom(account: int, cycles: seq<FamilyCycle>, o: Obligation)
    ensures o in Charges(account, cycles) <==> exists i :: 0 <= i < |cycles| && o in ChargeOf(account, cycles[i])
  {
    if cycles != [] {
      ChargesFrom(account, cycles[1..], o);
      if o in Charges(account, cycles[1..]) {
        var i :| 0 <= i < |cycles[1..]| && o in ChargeOf(account, cycles[1..][i]);
        assert o in ChargeOf(account, cycles[i + 1]);
      }
      if i :| 0 <= i < |cycles| && o in ChargeOf(account, cycles[i]) {
        if i > 0 { assert cycles[1..][i - 1] == cycles[i]; }
      }
    }
  }

  /** What a row of the account asks for: its price, on the day it was completed, else started, else at the end of time. */
  predicate Asks(f: Family, c: FamilyCycle, o: Obligation) {
    && c.account == f.account.id && (c.status == Due || c.status == Paid)
    && o.target == Target(1, 2, c.id) && o.amountDue == c.price
    && o.dueAt == if c.completedOn.Some? then c.completedOn.value else if c.startedOn.Some? then c.startedOn.value else 99991231
  }

  /** The obligations of an account are exactly what its due and paid rows ask for. */
  lemma ObligationIff(f: Family, cycles: seq<FamilyCycle>, o: Obligation)
    ensures o in Obligations(f, cycles) <==> exists i :: 0 <= i < |cycles| && Asks(f, cycles[i], o)
  {
    ChargesFrom(f.account.id, cycles, o);
    SortIsSortedPermutation(Charges(f.account.id, cycles));
    assert o in multiset(Obligations(f, cycles)) <==> o in multiset(Charges(f.account.id, cycles));
    forall i | 0 <= i < |cycles| ensures o in ChargeOf(f.account.id, cycles[i]) <==> Asks(f, cycles[i], o) { }
    if i :| 0 <= i < |cycles| && o in ChargeOf(f.account.id, cycles[i]) { assert Asks(f, cycles[i], o); }
    if i :| 0 <= i < |cycles| && Asks(f, cycles[i], o) { assert o in ChargeOf(f.account.id, cycles[i]); }
  }

  predicate IdsUnique(cycles: seq<FamilyCycle>) {
    forall i, j :: 0 <= i < j < |cycles| ==> cycles[i].id != cycles[j].id
  }

  lemma {:induction false} ChargesDistinct(account: int, cycles: seq<FamilyCycle>)
    requires IdsUnique(cycles)
    ensures DistinctTargets(Charges(account, cycles)) && TutoringObligations(Charges(account, cycles))
  {
    if cycles != [] {
      ChargesDistinct(account, cycles[1..]);
      var rest := Charges(account, cycles[1..]);
      forall j | 0 <= j < |rest| ensures rest[j].target != TargetOf(cycles[0].id) {
        ChargesFrom(account, cycles[1..], rest[j]);
        var i :| 0 <= i < |cycles[1..]| && rest[j] in ChargeOf(account, cycles[1..][i]);
        assert cycles[1..][i] == cycles[i + 1];
      }
    }
  }

  lemma ObligationsDistinct(f: Family, t: Tables)
    requires TablesOk(t)
    ensures DistinctTargets(Obligations(f, t.cycles)) && TutoringObligations(Obligations(f, t.cycles))
    ensures forall o :: o in Obligations(f, t.cycles) <==> o in Charges(f.account.id, t.cycles)
  {
    var charges, sorted := Charges(f.account.id, t.cycles), Obligations(f, t.cycles);
    ChargesDistinct(f.account.id, t.cycles);
    SortKeepsDistinct(charges);
    forall j | 0 <= j < |sorted| ensures sorted[j].target.area == TUTORING {
      assert sorted[j] in charges;
    }
  }

  lemma {:induction false} SameCharges(account: int, cycles: seq<FamilyCycle>, later: seq<FamilyCycle>)
    requires |cycles| == |later| && forall i :: 0 <= i < |cycles| ==> SameCharge(cycles[i], later[i])
    ensures Charges(account, cycles) == Charges(account, later)
  {
    if cycles != [] {
      forall i | 0 <= i < |cycles[1..]| ensures SameCharge(cycles[1..][i], later[1..][i]) {
        assert SameCharge(cycles[i + 1], later[i + 1]);
      }
      SameCharges(account, cycles[1..], later[1..]);
    }
  }

  /** Whatever is paid after a reconcile, the next one leaves the obligations as they were. */
  lemma ObligationsStay(f: Family, t: Tables, rows: seq<Row>)
    ensures var u := Reconciled(f, t);
      Obligations(f, Reconciled(f, u.(rows := rows)).cycles) == Obligations(f, u.cycles)
  {
    var u := Reconciled(f, t);
    ReconcilingAgain(f, t, rows);
    SameCharges(f.account.id, u.cycles, Reconciled(f, u.(rows := rows)).cycles);
  }

  // ---- the rebalance ------------------------------------------------------------------

  function Payers(f: Family): seq<int> { ActiveIds(f.receipts, f.ids) }

  /** The rows of the account's own active receipts. */
  function Mine(f: Family, rows: seq<Row>): seq<Row> { RowsOf(rows, IdSet(Payers(f))) }

  predicate Overdrawn(f: Family, rows: seq<Row>) {
    AnyOverallocated(f.receipts, Mine(f, rows), Payers(f))
  }

  function Generated(f: Family, t: Tables): seq<Row> {
    BulkPlan(f.receipts, Mine(f, t.rows), Payers(f), Obligations(f, t.cycles))
  }

  function Poured(f: Family, t: Tables): Tables {
    t.(rows := t.rows + Generated(f, t))
  }

  datatype Outcome = Rebalanced(tables: Tables) | Threw(tables: Tables)

  function Rebalancing(f: Family, t: Tables): Outcome {
    var u := Reconciled(f, t);
    if Overdrawn(f, u.rows) then Threw(u) else Rebalanced(Reconciled(f, Poured(f, u)))
  }

  predicate FamilyOk(f: Family, t: Tables) {
    Distinct(f.ids) && TablesOk(t)
  }

  lemma {:induction false} RowsOfAppend(rows: seq<Row>, more: seq<Row>, ids: set<int>)
    requires forall x :: x in more ==> x.receiptId in ids
    ensures RowsOf(rows + more, ids) == RowsOf(rows, ids) + more
  {
    if rows == [] {
      assert rows + more == more;
      if more != [] {
        RowsOfAppend([], more[1..], ids);
        assert [] + more[1..] == more[1..];
      }
    } else {
      assert (rows + more)[1..] == rows[1..] + more;
      RowsOfAppend(rows[1..], more, ids);
    }
  }

  /** A run leaves every receipt within its amount. */
  lemma {:induction false} PlanStaysWithin(receipts: Receipts, rows: seq<Row>, ids: seq<int>, obs: seq<Obligation>, i: nat)
    requires Distinct(ids) && AllActive(receipts, ids) && DistinctTargets(obs) && i < |ids|
    requires !Overallocated(receipts, rows, ids[i])
    ensures !Overallocated(receipts, rows + BulkPlan(receipts, rows, ids, obs), ids[i])
    decreases |ids|
  {
    if i == 0 {
      FirstReceiptLeft(receipts, rows, ids, obs);
    } else {
      var rem := Remaining(receipts, rows, ids[0]);
      var rows' := rows + Plan(receipts, rows, ids[0], rem, obs);
      assert !Overallocated(receipts, rows', ids[i]) by {
        PlanTakes(receipts, rows, ids[0], rem, obs, ids[i]);
      }
      assert ids[1..][i - 1] == ids[i];
      PlanStaysWithin(receipts, rows', ids[1..], obs, i - 1);
      RunUnfolds(receipts, rows, ids, obs);
    }
  }

  /** The rows after pouring, seen from the account. */
  lemma PouredRowsAre(f: Family, t: Tables)
    requires FamilyOk(f, t)
    ensures Mine(f, Poured(f, t).rows) == Mine(f, t.rows) + Generated(f, t)
    ensures !Overdrawn(f, t.rows) ==> !Overdrawn(f, Poured(f, t).rows)
  {
    var ids, obs := Payers(f), Obligations(f, t.cycles);
    ActiveIdsDistinct(f.receipts, f.ids);
    ObligationsDistinct(f, t);
    BulkRowsFrom(f.receipts, Mine(f, t.rows), ids, obs);
    RowsOfAppend(t.rows, Generated(f, t), IdSet(ids));
    if !Overdrawn(f, t.rows) {
      forall i | 0 <= i < |ids| ensures !Overallocated(f.receipts, Mine(f, Poured(f, t).rows), ids[i]) {
        PlanStaysWithin(f.receipts, Mine(f, t.rows), ids, obs, i);
      }
    }
  }

  /** After pouring and reconciling, another pour moves nothing. */
  lemma NothingLeftToPour(f: Family, t: Tables)
    requires FamilyOk(f, t)
    ensures var p := Poured(f, Reconciled(f, t)); Poured(f, Reconciled(f, p)) == Reconciled(f, p)
  {
    var u := Reconciled(f, t);
    var p := Poured(f, u);
    var v := Reconciled(f, p);
    IdsStayUnique(f, t, Sequences(f));
    ActiveIdsDistinct(f.receipts, f.ids);
    ObligationsDistinct(f, u);
    ObligationsStay(f, t, p.rows);
    PouredRowsAre(f, u);
    SecondRebalanceIsEmpty(f.receipts, Mine(f, u.rows), Payers(f), Obligations(f, u.cycles));
    assert Generated(f, v) == [];
  }

  /**
   Stopped after the first reconcile, after the pour or not at all, a rebalance that is run again
   ends where an uninterrupted one does.
   */
  lemma RetryFinishesRebalance(f: Family, t: Tables)
    requires FamilyOk(f, t)
    ensures Rebalancing(f, Reconciled(f, t)) == Rebalancing(f, t)
    ensures Rebalancing(f, t).Rebalanced? ==> Rebalancing(f, Poured(f, Reconciled(f, t))) == Rebalancing(f, t)
    ensures Rebalancing(f, Rebalancing(f, t).tables) == Rebalancing(f, t)
  {
    var u := Reconciled(f, t);
    var p := Poured(f, u);
    var v := Reconciled(f, p);
    IdsStayUnique(f, t, Sequences(f));
    ReconcilingAgain(f, t, t.rows);
    assert u.(rows := t.rows) == u;
    ReconcilingAgain(f, p, p.rows);
    assert v.(rows := p.rows) == v;
    PouredRowsAre(f, u);
    NothingLeftToPour(f, t);
  }

  lemma {:induction false} MineReceivesLess(receipts: Receipts, rows: seq<Row>, ids: set<int>, t: Target)
    ensures ToTarget(receipts, RowsOf(rows, ids), t) <= ToTarget(receipts, rows, t)
  {
    if rows != [] {
      MineReceivesLess(receipts, rows[1..], ids, t);
      assert ([rows[0]] + RowsOf(rows[1..], ids))[1..] == RowsOf(rows[1..], ids);
    }
  }

  lemma DebtMeansSpent(receipts: Receipts, rows: seq<Row>, ids: seq<int>, obs: seq<Obligation>, o: Obligation, k: nat)
    requires Distinct(ids) && AllActive(receipts, ids) && DistinctTargets(obs) && o in obs && k < |ids|
    requires Outstanding(receipts, rows + BulkPlan(receipts, rows, ids, obs), o) > 0
    ensures Remaining(receipts, rows + BulkPlan(receipts, rows, ids, obs), ids[k]) == 0
  {
    var after := rows + BulkPlan(receipts, rows, ids, obs);
    var j :| 0 <= j < |obs| && obs[j] == o;
    RunTotals(receipts, rows, ids, obs);
    if Sum(Outstandings(receipts, after, obs)) == 0 { SumZero(Outstandings(receipts, after, obs), j); }
    SumZero(Remainings(receipts, after, ids), k);
  }

  /** A due cycle is an obligation with something outstanding. */
  lemma DueIsOutstanding(f: Family, t: Tables, i: nat) returns (o: Obligation)
    requires TablesOk(t) && i < |t.cycles| && t.cycles[i].account == f.account.id && t.cycles[i].status == Due
    requires ToTarget(f.receipts, t.rows, TargetOf(t.cycles[i].id)) < t.cycles[i].price
    ensures o in Obligations(f, t.cycles) && Outstanding(f.receipts, Mine(f, t.rows), o) > 0
  {
    o := ChargeOf(f.account.id, t.cycles[i])[0];
    ChargesFrom(f.account.id, t.cycles, o);
    ObligationsDistinct(f, t);
    MineReceivesLess(f.receipts, t.rows, IdSet(Payers(f)), o.target);
  }

  /** An outstanding obligation means that pouring and reconciling left the account no credit. */
  lemma OutstandingMeansSpent(f: Family, t: Tables, o: Obligation, k: nat)
    requires FamilyOk(f, t) && k < |Payers(f)|
    requires var v := Reconciled(f, Poured(f, Reconciled(f, t)));
      o in Obligations(f, v.cycles) && Outstanding(f.receipts, Mine(f, v.rows), o) > 0
    ensures Remaining(f.receipts, Poured(f, Reconciled(f, t)).rows, Payers(f)[k]) == 0
  {
    var u := Reconciled(f, t);
    var rows := Poured(f, u).rows;
    IdsStayUnique(f, t, Sequences(f));
    ActiveIdsDistinct(f.receipts, f.ids);
    ObligationsDistinct(f, u);
    ObligationsStay(f, t, rows);
    PouredRowsAre(f, u);
    DebtMeansSpent(f.receipts, Mine(f, u.rows), Payers(f), Obligations(f, u.cycles), o, k);
    RowsOfFrom(rows, IdSet(Payers(f)), Payers(f)[k]);
  }

  /**
   After a rebalance every sequence that a required student has entered has its cycle, paid exactly
   when it is complete and covered; while one is due, no receipt of the account has credit left.
   */
  lemma DueMeansNoCreditLeft(f: Family, t: Tables, n: int, k: nat)
    requires FamilyOk(f, t) && Rebalancing(f, t).Rebalanced? && n in Sequences(f) && k < |Payers(f)|
    ensures var v := Rebalancing(f, t).tables; var at := Existing(v.cycles, f.account.id, n);
      && at.Some?
      && var c := v.cycles[at.value];
      && (c.status == Paid <==> SequenceComplete(f, n) && ToTarget(f.receipts, v.rows, TargetOf(c.id)) >= c.price)
      && (c.status == Due ==> Remaining(f.receipts, v.rows, Payers(f)[k]) == 0)
  {
    var p := Poured(f, Reconciled(f, t));
    var v := Reconciled(f, p);
    ReconciledStatus(f, p, n);
    var i := Existing(v.cycles, f.account.id, n).value;
    if v.cycles[i].status == Due {
      IdsStayUnique(f, t, Sequences(f));
      IdsStayUnique(f, p, Sequences(f));
      var o := DueIsOutstanding(f, v, i);
      OutstandingMeansSpent(f, t, o, k);
    }
  }
}
