/**
 Whole histories of collecting: obligations and receipts are only added, any call may die after any
 of its writes and may be repeated at any later time. No call is ever answered with a conflict.
 */
module CollectionRuns {
  import opened Numbers
  import opened Ledger
  import opened Collection
  import opened CollectionLaws
  import opened Rebalance
  import opened BalanceHistory
  import opened FinancialReconcile

  /** An obligation and who has to meet it. */
  datatype Due = Due(payer: int, obligation: Obligation)

  datatype Shop = Shop(receipts: Receipts, rows: seq<Row>, owed: seq<Due>)

  const EMPTY := Shop(map[], [], [])

  function Obligations(owed: seq<Due>): (obs: seq<Obligation>)
    ensures |obs| == |owed| && forall j :: 0 <= j < |owed| ==> obs[j] == owed[j].obligation
  {
    seq(|owed|, j requires 0 <= j < |owed| => owed[j].obligation)
  }

  /** What the provider lists for a payer. */
  function OwedBy(owed: seq<Due>, payer: int): (obs: seq<Obligation>)
    ensures forall o :: o in obs ==> o in Obligations(owed)
  {
    if owed == [] then []
    else
      var before := OwedBy(owed[..|owed| - 1], payer);
      assert Obligations(owed)[|owed| - 1] == owed[|owed| - 1].obligation;
      assert forall o :: o in Obligations(owed[..|owed| - 1]) ==> o in Obligations(owed) by {
        forall o | o in Obligations(owed[..|owed| - 1]) ensures o in Obligations(owed) {
          var j :| 0 <= j < |owed| - 1 && Obligations(owed[..|owed| - 1])[j] == o;
          assert Obligations(owed)[j] == o;
        }
      }
      if owed[|owed| - 1].payer == payer then before + [owed[|owed| - 1].obligation] else before
  }

  /** A payer is listed exactly the obligations that are his. */
  lemma {:induction false} OwedByIff(owed: seq<Due>, payer: int, o: Obligation)
    ensures o in OwedBy(owed, payer) <==> Due(payer, o) in owed
  {
    if owed != [] {
      var n := |owed| - 1;
      OwedByIff(owed[..n], payer, o);
      assert owed == owed[..n] + [owed[n]];
    }
  }

  /** Calls carry the number of writes they live for; a reconcile goes over stored receipts in its order. */
  datatype Event =
    | Charge(due: Due)
    | Collect(rid: int, command: ReceiptCommand, lifetime: nat)
    | Reconcile(ids: seq<int>, lifetime: nat)

  function After(b: Shop, e: Event): Shop {
    match e
    case Charge(due) => if Chargeable(b, due) then b.(owed := b.owed + [due]) else b
    case Collect(rid, command, lifetime) =>
      var out := Call(b, rid, command, lifetime);
      b.(receipts := out.receipts, rows := out.rows)
    case Reconcile(ids, lifetime) => if forall x :: x in ids ==> x in b.receipts then Reconciled(b, ids, lifetime) else b
  }

  /** A reconcile collects each receipt again and stops at the first call that fails. */
  function Reconciled(b: Shop, ids: seq<int>, lifetime: nat): Shop
    decreases |ids|
  {
    if ids == [] || ids[0] !in b.receipts then b
    else
      var out := Call(b, ids[0], b.receipts[ids[0]].command, lifetime);
      var c := b.(receipts := out.receipts, rows := out.rows);
      if out.result.Rejected? then c else Reconciled(c, ids[1..], Max(0, lifetime - (|c.rows| - |b.rows|)))
  }

  /** The obligations of its payer are listed for a receipt. */
  function Listed(b: Shop, command: ReceiptCommand): seq<Obligation> {
    if command.payer.Some? then OwedBy(b.owed, command.payer.value) else []
  }

  function Call(b: Shop, rid: int, command: ReceiptCommand, lifetime: nat): Outcome {
    Collecting(b.receipts, b.rows, rid, command, Listed(b, command), lifetime)
  }

  /** A new obligation has a target of its own. */
  predicate Chargeable(b: Shop, due: Due) {
    forall j :: 0 <= j < |b.owed| ==> b.owed[j].obligation.target != due.obligation.target
  }

  function History(events: seq<Event>): Shop {
    if events == [] then EMPTY else After(History(events[..|events| - 1]), events[|events| - 1])
  }

  // ---- what every history keeps -------------------------------------------------------

  /** Some obligation has this target. */
  predicate IsOwed(owed: seq<Due>, t: Target) {
    exists j :: 0 <= j < |owed| && owed[j].obligation.target == t
  }

  /** Every row of an active receipt has an exhausted receipt or a satisfied target. */
  predicate ShopOk(b: Shop) {
    && ValidLedger(b.receipts, b.rows)
    && DistinctTargets(Obligations(b.owed))
    && Settled(b.receipts, b.rows, b.receipts.Keys, Obligations(b.owed))
    && (forall i :: 0 <= i < |b.rows| ==> IsOwed(b.owed, b.rows[i].target))
    && (forall rid <- b.receipts :: Active(b.receipts, rid) && Acceptable(b.receipts[rid].command))
  }

  lemma ChargeKeepsShop(b: Shop, due: Due)
    requires ShopOk(b) && Chargeable(b, due)
    ensures ShopOk(After(b, Charge(due)))
  {
    var c := After(b, Charge(due));
    forall i | 0 <= i < |b.rows| ensures b.rows[i].target != due.obligation.target {
      var k :| 0 <= k < |b.owed| && b.owed[k].obligation.target == b.rows[i].target;
    }
    forall i | 0 <= i < |c.rows| ensures IsOwed(c.owed, c.rows[i].target) {
      var k :| 0 <= k < |b.owed| && b.owed[k].obligation.target == b.rows[i].target;
      assert c.owed[k].obligation.target == c.rows[i].target;
    }
  }

  lemma ReceiptKeepsShop(b: Shop, rid: int, command: ReceiptCommand)
    requires ShopOk(b) && rid !in b.receipts && Acceptable(command)
    ensures ShopOk(b.(receipts := b.receipts[rid := Receipt(command, false)]))
    ensures FromReceipt(b.rows, rid) == 0
  {
    var receipts := b.receipts[rid := Receipt(command, false)];
    NewReceiptKeepsLedger(b.receipts, b.rows, rid, Receipt(command, false));
    NoRowsMeansZero(b.rows, rid);
    var obs := Obligations(b.owed);
    forall i, j | 0 <= i < |b.rows| && 0 <= j < |obs| && b.rows[i].target == obs[j].target
      ensures var x := b.rows[i].receiptId;
        FromReceipt(b.rows, x) >= receipts[x].Amount() || Outstanding(receipts, b.rows, obs[j]) == 0
    {
      NewReceiptSameTotals(b.receipts, b.rows, rid, Receipt(command, false), obs[j].target);
    }
  }

  /** A plan over some of the obligations, cut short anywhere, keeps the pairs of all of them closed. */
  lemma {:induction false} PlanKeepsAllSettled(receipts: Receipts, rows: seq<Row>, mine: set<int>, rid: int, rem: nat,
                                               obs: seq<Obligation>, all: seq<Obligation>, k: nat)
    requires Settled(receipts, rows, mine, all) && DistinctTargets(all) && forall o :: o in obs ==> o in all
    requires Unallocated(receipts, rows, rid, rem) && k <= |Plan(receipts, rows, rid, rem, obs)|
    ensures Settled(receipts, rows + Plan(receipts, rows, rid, rem, obs)[..k], mine, all)
    decreases |obs|
  {
    var plan := Plan(receipts, rows, rid, rem, obs);
    if k == 0 {
      assert rows + plan[..0] == rows;
    } else {
      assert obs[0] in all && forall o :: o in obs[1..] ==> o in all;
      if Outstanding(receipts, rows, obs[0]) == 0 {
        PlanKeepsAllSettled(receipts, rows, mine, rid, rem, obs[1..], all, k);
      } else {
        var j :| 0 <= j < |all| && all[j] == obs[0];
        var row := Row(rid, obs[0].target, Min(rem, Outstanding(receipts, rows, obs[0])));
        var tail := Plan(receipts, rows + [row], rid, rem - row.amount, obs[1..]);
        StepKeepsSettled(receipts, rows, mine, rid, rem, all, j);
        FromReceiptAppend(rows, [row], rid);
        PlanKeepsAllSettled(receipts, rows + [row], mine, rid, rem - row.amount, obs[1..], all, k - 1);
        HeadAndTail(rows, plan, row, tail, k);
      }
    }
  }

  lemma {:induction false} PlanTargets(receipts: Receipts, rows: seq<Row>, rid: int, rem: nat, obs: seq<Obligation>)
    ensures forall x :: x in Plan(receipts, rows, rid, rem, obs) ==> exists o :: o in obs && o.target == x.target
    decreases |obs|
  {
    if obs != [] && rem > 0 {
      var out := Outstanding(receipts, rows, obs[0]);
      var row := Row(rid, obs[0].target, Min(rem, out));
      if out == 0 {
        PlanTargets(receipts, rows, rid, rem, obs[1..]);
      } else {
        PlanTargets(receipts, rows + [row], rid, rem - row.amount, obs[1..]);
      }
      forall x | x in Plan(receipts, rows, rid, rem, obs) ensures exists o :: o in obs && o.target == x.target {
        if out == 0 || x != row {
          var o :| o in obs[1..] && o.target == x.target;
          assert o in obs;
        } else {
          assert obs[0] in obs;
        }
      }
    }
  }

  /** The listed obligations have distinct targets and are among all. */
  lemma {:induction false} OwedByIsDistinct(owed: seq<Due>, payer: int)
    requires DistinctTargets(Obligations(owed))
    ensures DistinctTargets(OwedBy(owed, payer))
  {
    if owed != [] {
      var last := |owed| - 1;
      forall i, j | 0 <= i < j < last ensures Obligations(owed[..last])[i].target != Obligations(owed[..last])[j].target {
        assert Obligations(owed)[i].target != Obligations(owed)[j].target;
      }
      OwedByIsDistinct(owed[..last], payer);
      var before := OwedBy(owed[..last], payer);
      forall i | 0 <= i < |before| ensures before[i].target != owed[last].obligation.target {
        assert before[i] in Obligations(owed[..last]);
        var j :| 0 <= j < last && Obligations(owed[..last])[j] == before[i];
        assert Obligations(owed)[j].target != Obligations(owed)[last].target;
      }
    }
  }

  /** Everything a run of a recorded receipt needs. */
  lemma ReadyToRun(b: Shop, rid: int)
    requires ShopOk(b) && rid in b.receipts
    ensures var obs := SortObligations(Listed(b, b.receipts[rid].command));
      && DistinctTargets(obs) && Consistent(obs) && (forall o :: o in obs ==> o in Obligations(b.owed))
      && AlreadyGiven(b.receipts, b.rows, rid) == FromReceipt(b.rows, rid) <= b.receipts[rid].Amount()
      && Unallocated(b.receipts, b.rows, rid, b.receipts[rid].Amount() - FromReceipt(b.rows, rid))
      && NoOpenPair(b.receipts, b.rows, rid, b.receipts[rid].Amount() - FromReceipt(b.rows, rid), obs)
  {
    var command := b.receipts[rid].command;
    var obs := SortObligations(Listed(b, command));
    if command.payer.Some? { OwedByIsDistinct(b.owed, command.payer.value); }
    SortKeepsDistinct(Listed(b, command));
    DistinctIsConsistent(obs);
    forall i, j | 0 <= i < |b.rows| && 0 <= j < |obs| && b.rows[i].receiptId == rid && b.rows[i].target == obs[j].target
      ensures FromReceipt(b.rows, rid) == b.receipts[rid].Amount() || Outstanding(b.receipts, b.rows, obs[j]) == 0
    {
      assert obs[j] in Obligations(b.owed);
      var k :| 0 <= k < |b.owed| && Obligations(b.owed)[k] == obs[j];
    }
  }

  /** The rows that a call with enough time adds. */
  function Missing(b: Shop, rid: int): seq<Row>
    requires rid in b.receipts
  {
    var command := b.receipts[rid].command;
    if command.payer.None? then []
    else Plan(b.receipts, b.rows, rid, Max(0, command.amount - FromReceipt(b.rows, rid)), SortObligations(Listed(b, command)))
  }

  /** No earlier row is in the way of the rows that a call adds. */
  predicate ReadyToAdd(b: Shop, rid: int)
    requires rid in b.receipts
  {
    var command := b.receipts[rid].command;
    var rem, obs := command.amount - FromReceipt(b.rows, rid), SortObligations(Listed(b, command));
    && Recorded(b.receipts, rid, command) && rem >= 0 && AlreadyGiven(b.receipts, b.rows, rid) == FromReceipt(b.rows, rid)
    && Unallocated(b.receipts, b.rows, rid, rem) && Consistent(obs) && NoOpenPair(b.receipts, b.rows, rid, rem, obs)
  }

  lemma ShopIsReady(b: Shop, rid: int)
    requires ShopOk(b) && rid in b.receipts
    ensures ReadyToAdd(b, rid)
  {
    ReadyToRun(b, rid);
  }

  /** The answer of a run that followed its plan. */
  lemma AnswerOfPlan(a: Attempt, rows: seq<Row>, plan: seq<Row>, amount: nat, rem: nat, lifetime: nat)
    requires FollowsPlan(a, rows, plan, rem, lifetime) && a.remaining <= rem <= amount && Amounts(plan) <= rem
    ensures a.rows == rows + plan[..Min(|plan|, lifetime)]
    ensures Answer(amount, a) ==
      if lifetime < |plan| then Rejected(Crashed) else Collected(amount - rem + Amounts(plan), rem - Amounts(plan), plan)
  {
    assert plan[..|plan|] == plan;
  }

  /** The part of a call behind its record, when no earlier row is in the way. */
  lemma CollectsPlan(receipts: Receipts, rows: seq<Row>, rid: int, command: ReceiptCommand, listed: seq<Obligation>, given: nat, lifetime: nat)
    requires Recorded(receipts, rid, command) && command.payer.Some? && AlreadyGiven(receipts, rows, rid) == given <= command.amount
    requires var rem, obs := command.amount - given, SortObligations(listed);
      Unallocated(receipts, rows, rid, rem) && Consistent(obs) && NoOpenPair(receipts, rows, rid, rem, obs)
    ensures var plan := Plan(receipts, rows, rid, command.amount - given, SortObligations(listed));
      var out := CollectingRecorded(receipts, rows, rid, command, listed, lifetime);
      && out.receipts == receipts && out.rows == rows + plan[..Min(|plan|, lifetime)] && given + Amounts(plan) <= command.amount
      && out.result == if lifetime < |plan| then Rejected(Crashed)
                       else Collected(given + Amounts(plan), command.amount - given - Amounts(plan), plan)
  {
    var rem, obs := command.amount - given, SortObligations(listed);
    var a, plan := Run(receipts, rows, rid, rem, obs, lifetime), Plan(receipts, rows, rid, rem, obs);
    RunFollowsPlan(receipts, rows, rid, rem, obs, lifetime);
    PlanWithinReceipt(receipts, rows, rid, rem, obs);
    AnswerOfPlan(a, rows, plan, command.amount, rem, lifetime);
    assert CollectingRecorded(receipts, rows, rid, command, listed, lifetime) == Outcome(receipts, a.rows, Answer(command.amount, a));
  }

  /** What a call on a recorded receipt adds and answers. */
  predicate AddsMissing(b: Shop, rid: int, lifetime: nat, out: Outcome)
    requires rid in b.receipts
  {
    var command, plan := b.receipts[rid].command, Missing(b, rid);
    && out.receipts == b.receipts
    && out.rows == b.rows + plan[..Min(|plan|, lifetime)]
    && FromReceipt(b.rows, rid) + Amounts(plan) <= command.amount
    && (if lifetime < |plan| then out.result == Rejected(Crashed)
        else out.result == Collected(FromReceipt(b.rows, rid) + Amounts(plan), command.amount - FromReceipt(b.rows, rid) - Amounts(plan), plan))
  }

  lemma CallWithPayer(b: Shop, rid: int, lifetime: nat)
    requires rid in b.receipts && ReadyToAdd(b, rid) && b.receipts[rid].command.payer.Some?
    ensures var command := b.receipts[rid].command;
      AddsMissing(b, rid, lifetime, CollectingRecorded(b.receipts, b.rows, rid, command, Listed(b, command), lifetime))
  {
    var command, given := b.receipts[rid].command, FromReceipt(b.rows, rid);
    CollectsPlan(b.receipts, b.rows, rid, command, Listed(b, command), given, lifetime);
    assert Missing(b, rid) == Plan(b.receipts, b.rows, rid, command.amount - given, SortObligations(Listed(b, command)));
  }

  lemma CallWithoutPayer(b: Shop, rid: int, lifetime: nat)
    requires rid in b.receipts && ReadyToAdd(b, rid) && b.receipts[rid].command.payer.None?
    ensures var command := b.receipts[rid].command;
      AddsMissing(b, rid, lifetime, CollectingRecorded(b.receipts, b.rows, rid, command, Listed(b, command), lifetime))
  {
    var command, given := b.receipts[rid].command, FromReceipt(b.rows, rid);
    assert Missing(b, rid) == [] && b.rows + [] == b.rows;
    assert CollectingRecorded(b.receipts, b.rows, rid, command, Listed(b, command), lifetime)
      == Outcome(b.receipts, b.rows, Collected(given, command.amount - given, []));
  }

  /** A call on a recorded receipt adds its missing rows, or as many as it lives for. */
  lemma RecordedCall(b: Shop, rid: int, lifetime: nat)
    requires ShopOk(b) && rid in b.receipts
    ensures var command := b.receipts[rid].command;
      && Recorded(b.receipts, rid, command)
      && AddsMissing(b, rid, lifetime, CollectingRecorded(b.receipts, b.rows, rid, command, Listed(b, command), lifetime))
  {
    ShopIsReady(b, rid);
    if b.receipts[rid].command.payer.Some? { CallWithPayer(b, rid, lifetime); } else { CallWithoutPayer(b, rid, lifetime); }
  }

  /** Every row that a call adds is for an obligation that is owed. */
  lemma MissingIsOwed(b: Shop, rid: int)
    requires ShopOk(b) && rid in b.receipts
    ensures forall x :: x in Missing(b, rid) ==> IsOwed(b.owed, x.target)
  {
    var command := b.receipts[rid].command;
    if command.payer.Some? {
      var obs := SortObligations(Listed(b, command));
      ReadyToRun(b, rid);
      PlanTargets(b.receipts, b.rows, rid, command.amount - FromReceipt(b.rows, rid), obs);
      forall x | x in Missing(b, rid) ensures IsOwed(b.owed, x.target) {
        var o :| o in obs && o.target == x.target;
        var j :| 0 <= j < |b.owed| && Obligations(b.owed)[j] == o;
        assert b.owed[j].obligation.target == x.target;
      }
    }
  }

  lemma MissingKeepsLedger(b: Shop, rid: int, k: nat)
    requires ShopOk(b) && rid in b.receipts && k <= |Missing(b, rid)|
    ensures var rows := b.rows + Missing(b, rid)[..k];
      ValidLedger(b.receipts, rows) && Settled(b.receipts, rows, b.receipts.Keys, Obligations(b.owed))
  {
    var command, plan := b.receipts[rid].command, Missing(b, rid);
    if command.payer.None? {
      assert b.rows + plan[..k] == b.rows;
    } else {
      var rem := command.amount - FromReceipt(b.rows, rid);
      var obs := SortObligations(Listed(b, command));
      ReadyToRun(b, rid);
      PlanKeepsAllSettled(b.receipts, b.rows, b.receipts.Keys, rid, rem, obs, Obligations(b.owed), k);
      RunFollowsPlan(b.receipts, b.rows, rid, rem, obs, k);
      RunKeepsLedger(b.receipts, b.rows, rid, rem, obs, k);
      assert plan[..|plan|] == plan;
    }
  }

  lemma RecordedCallKeepsShop(b: Shop, rid: int, k: nat)
    requires ShopOk(b) && rid in b.receipts && k <= |Missing(b, rid)|
    ensures ShopOk(b.(rows := b.rows + Missing(b, rid)[..k]))
  {
    var rows := b.rows + Missing(b, rid)[..k];
    MissingKeepsLedger(b, rid, k);
    MissingIsOwed(b, rid);
    forall i | 0 <= i < |rows| ensures IsOwed(b.owed, rows[i].target) {
      if i >= |b.rows| { assert rows[i] in Missing(b, rid); }
    }
  }

  // ---- no conflict, ever --------------------------------------------------------------

  /** The receipt is recorded by now, with this command. */
  predicate Known(b: Shop, rid: int, command: ReceiptCommand) {
    Acceptable(command) && rid in b.receipts && b.receipts[rid].command == command
  }

  /** The shop once the call has recorded its receipt. */
  function WithReceipt(b: Shop, rid: int, command: ReceiptCommand): Shop {
    if rid in b.receipts then b else b.(receipts := b.receipts[rid := Receipt(command, false)])
  }

  /** The writes a call has left when the receipt is recorded. */
  function LifeAfterRecord(b: Shop, rid: int, lifetime: nat): nat
    requires rid !in b.receipts ==> lifetime > 0
  {
    if rid in b.receipts then lifetime else lifetime - 1
  }

  /** A call that records its receipt, or finds it recorded with the same fields. */
  predicate Reaches(b: Shop, rid: int, command: ReceiptCommand, lifetime: nat) {
    Acceptable(command) && (if rid in b.receipts then b.receipts[rid].command == command else lifetime > 0)
  }

  lemma ReachingCall(b: Shop, rid: int, command: ReceiptCommand, lifetime: nat)
    requires ShopOk(b) && Reaches(b, rid, command, lifetime)
    ensures var c, life := WithReceipt(b, rid, command), LifeAfterRecord(b, rid, lifetime);
      && ShopOk(c) && Known(c, rid, command)
      && Call(b, rid, command, lifetime) == CollectingRecorded(c.receipts, c.rows, rid, command, Listed(c, command), life)
  {
    if rid !in b.receipts { ReceiptKeepsShop(b, rid, command); }
  }

  /** What a call may answer: success, a refusal that changed nothing, or the death of its process. */
  predicate NoConflict(result: CollectResult) {
    result.Rejected? ==> result.error in {InvalidReceipt, ReceiptIdConflict, Crashed}
  }

  lemma CallKeepsShop(b: Shop, rid: int, command: ReceiptCommand, lifetime: nat)
    requires ShopOk(b)
    ensures ShopOk(After(b, Collect(rid, command, lifetime))) && NoConflict(Call(b, rid, command, lifetime).result)
  {
    if Reaches(b, rid, command, lifetime) {
      var c, life := WithReceipt(b, rid, command), LifeAfterRecord(b, rid, lifetime);
      ReachingCall(b, rid, command, lifetime);
      RecordedCall(c, rid, life);
      RecordedCallKeepsShop(c, rid, Min(|Missing(c, rid)|, life));
    }
  }

  lemma {:induction false} ReconcileKeepsShop(b: Shop, ids: seq<int>, lifetime: nat)
    requires ShopOk(b)
    ensures ShopOk(Reconciled(b, ids, lifetime))
    decreases |ids|
  {
    if ids != [] && ids[0] in b.receipts {
      var command := b.receipts[ids[0]].command;
      var out := Call(b, ids[0], command, lifetime);
      var c := b.(receipts := out.receipts, rows := out.rows);
      CallKeepsShop(b, ids[0], command, lifetime);
      assert c == After(b, Collect(ids[0], command, lifetime));
      ReconcileKeepsShop(c, ids[1..], Max(0, lifetime - (|c.rows| - |b.rows|)));
    }
  }

  /**
   Whatever obligations and receipts are added, in whatever order calls and reconciles are made, die
   and are made again: no pair is left with credit and debt.
   */
  lemma {:induction false} HistoryKeepsShop(events: seq<Event>)
    ensures ShopOk(History(events))
  {
    if events != [] {
      var b := History(events[..|events| - 1]);
      HistoryKeepsShop(events[..|events| - 1]);
      match events[|events| - 1] {
        case Charge(due) => if Chargeable(b, due) { ChargeKeepsShop(b, due); }
        case Collect(rid, command, lifetime) => CallKeepsShop(b, rid, command, lifetime);
        case Reconcile(ids, lifetime) => ReconcileKeepsShop(b, ids, lifetime);
      }
    }
  }

  /** A receipt of its own over a single obligation. */
  lemma FirstPayment(rid: int, command: ReceiptCommand, o: Obligation, lifetime: nat)
    requires Acceptable(command) && lifetime > 0
    ensures var receipts: Receipts := map[rid := Receipt(command, false)];
      Run(receipts, [], rid, command.amount, [o], lifetime).rows
      == if o.amountDue <= 0 then [] else [Row(rid, o.target, Min(command.amount, o.amountDue))]
  {
    var receipts: Receipts := map[rid := Receipt(command, false)];
    assert FromReceipt([], rid) == 0 && ToTarget(receipts, [], o.target) == 0 && [o][1..] == [];
    var row := Row(rid, o.target, Min(command.amount, Max(0, o.amountDue)));
    assert Run(receipts, [], rid, command.amount, [], lifetime).rows == [];
    assert [] + [row] == [row] && Run(receipts, [row], rid, command.amount - row.amount, [], lifetime - 1).rows == [row];
  }

  /** A charge is owed from then on, and the first payment of its payer meets it as far as it reaches. */
  lemma PaymentMeetsCharge(due: Due, rid: int, command: ReceiptCommand, lifetime: nat)
    requires Acceptable(command) && command.payer == Some(due.payer) && lifetime >= 2
    ensures var b := History([Charge(due), Collect(rid, command, lifetime)]);
      && b.owed == [due] && b.receipts == map[rid := Receipt(command, false)]
      && b.rows == if due.obligation.amountDue <= 0 then []
                   else [Row(rid, due.obligation.target, Min(command.amount, due.obligation.amountDue))]
  {
    var c, o := EMPTY.(owed := [due]), due.obligation;
    assert [Charge(due), Collect(rid, command, lifetime)][..1] == [Charge(due)] && [Charge(due)][..0] == [];
    assert EMPTY.owed + [due] == [due] && History([Charge(due)]) == c;
    assert [due][..0] == [] && OwedBy([], due.payer) == [] && [] + [o] == [o];
    assert [o][1..] == [] && Insert(o, []) == [o];
    assert Listed(c, command) == [o] && SortObligations([o]) == [o];
    FirstPayment(rid, command, o, lifetime - 1);
  }

  /** After any history a new charge is owed, and a reconcile inserts the plan of its payer, as far as it lives. */
  lemma EventsTakeEffect(events: seq<Event>, due: Due, payer: int, ids: seq<int>, lifetime: nat)
    ensures Chargeable(History(events), due) ==> History(events + [Charge(due)]).owed == History(events).owed + [due]
    ensures ReceiptsOf(History(events), payer, ids) ==>
      InsertsPlan(History(events), ids, ReconcilePlan(History(events), payer, ids), lifetime)
      && History(events + [Reconcile(ids, lifetime)]) == Reconciled(History(events), ids, lifetime)
  {
    assert (events + [Charge(due)])[..|events|] == events && (events + [Reconcile(ids, lifetime)])[..|events|] == events;
    HistoryKeepsShop(events);
    if ReceiptsOf(History(events), payer, ids) { ReconcileFollowsPlan(History(events), payer, ids, lifetime); }
  }

  /** ALLOCATION_CONFLICT is unreachable: no history makes any call fail but for its own command or a crash. */
  lemma ConflictIsUnreachable(events: seq<Event>, rid: int, command: ReceiptCommand, lifetime: nat)
    ensures NoConflict(Call(History(events), rid, command, lifetime).result)
  {
    HistoryKeepsShop(events);
    CallKeepsShop(History(events), rid, command, lifetime);
  }

  // ---- crash and retry of a whole call ------------------------------------------------

  /** The writes a call still has to make. */
  function WritesLeft(b: Shop, rid: int, command: ReceiptCommand): nat
    requires rid in b.receipts || Acceptable(command)
  {
    |Missing(WithReceipt(b, rid, command), rid)| + if rid in b.receipts then 0 else 1
  }

  lemma MissingAfter(b: Shop, rid: int, k: nat)
    requires ShopOk(b) && rid in b.receipts && k <= |Missing(b, rid)|
    ensures var c := b.(rows := b.rows + Missing(b, rid)[..k]);
      Missing(c, rid) == Missing(b, rid)[k..] && FromReceipt(c.rows, rid) == FromReceipt(b.rows, rid) + Amounts(Missing(b, rid)[..k])
  {
    var command, plan := b.receipts[rid].command, Missing(b, rid);
    ReadyToRun(b, rid);
    if command.payer.None? {
      assert b.rows + plan[..k] == b.rows;
    } else {
      var rem, obs := command.amount - FromReceipt(b.rows, rid), SortObligations(Listed(b, command));
      assert plan == Plan(b.receipts, b.rows, rid, rem, obs);
      ResumePlansTheRest(b.receipts, b.rows, rid, rem, obs, k);
      assert FromReceipt(b.rows + plan[..k], rid) == FromReceipt(b.rows, rid) + Amounts(plan[..k]);
    }
  }

  /** What the call answers besides the list of rows it inserted itself. */
  predicate SameAnswer(a: CollectResult, b: CollectResult) {
    a.Collected? && b.Collected? && a.allocatedPence == b.allocatedPence && a.creditPence == b.creditPence
  }

  lemma WholePlan(rows: seq<Row>, plan: seq<Row>, k: nat, second: nat)
    requires k <= |plan| <= second
    ensures rows + plan[..k] + plan[k..][..Min(|plan[k..]|, second)] == rows + plan
    ensures Amounts(plan) == Amounts(plan[..k]) + Amounts(plan[k..])
  {
    assert plan == plan[..k] + plan[k..];
    AmountsAppend(plan[..k], plan[k..]);
  }

  /** The retry after k of the missing rows. */
  lemma RetryAfterPart(c: Shop, rid: int, k: nat, second: nat)
    requires ShopOk(c) && rid in c.receipts && k <= |Missing(c, rid)| <= second
    ensures var command, plan := c.receipts[rid].command, Missing(c, rid);
      var d := c.(rows := c.rows + plan[..k]);
      var out := CollectingRecorded(d.receipts, d.rows, rid, command, Listed(d, command), second);
      && Acceptable(command) && out.receipts == c.receipts && out.rows == c.rows + plan
      && out.result.Collected? && out.result.allocatedPence == FromReceipt(c.rows, rid) + Amounts(plan)
      && out.result.creditPence == command.amount - FromReceipt(c.rows, rid) - Amounts(plan)
  {
    var plan := Missing(c, rid);
    var d := c.(rows := c.rows + plan[..k]);
    RecordedCallKeepsShop(c, rid, k);
    MissingAfter(c, rid, k);
    RecordedCall(d, rid, second);
    WholePlan(c.rows, plan, k, second);
  }

  /** The first call died before it recorded the receipt, or recorded it and inserted k rows. */
  lemma FirstAttempt(b: Shop, rid: int, command: ReceiptCommand, first: nat)
    requires ShopOk(b) && Reaches(b, rid, command, first)
    ensures var c, life := WithReceipt(b, rid, command), LifeAfterRecord(b, rid, first);
      var plan := Missing(c, rid);
      && ShopOk(c) && Known(c, rid, command)
      && After(b, Collect(rid, command, first)) == c.(rows := c.rows + plan[..Min(|plan|, life)])
      && (life < |plan| ==> Call(b, rid, command, first).result == Rejected(Crashed))
  {
    ReachingCall(b, rid, command, first);
    RecordedCall(WithReceipt(b, rid, command), rid, LifeAfterRecord(b, rid, first));
  }

  lemma WholeAttempt(b: Shop, rid: int, command: ReceiptCommand, second: nat)
    requires ShopOk(b) && Acceptable(command) && (rid in b.receipts ==> b.receipts[rid].command == command)
    requires second >= WritesLeft(b, rid, command)
    ensures var c := WithReceipt(b, rid, command);
      var once, plan := Call(b, rid, command, second), Missing(c, rid);
      && ShopOk(c) && Known(c, rid, command) && once.receipts == c.receipts && once.rows == c.rows + plan
      && once.result.Collected? && once.result.allocatedPence == FromReceipt(c.rows, rid) + Amounts(plan)
      && once.result.creditPence == command.amount - FromReceipt(c.rows, rid) - Amounts(plan)
  {
    ReachingCall(b, rid, command, second);
    var c := WithReceipt(b, rid, command);
    RecordedCall(c, rid, LifeAfterRecord(b, rid, second));
    assert Missing(c, rid)[..|Missing(c, rid)|] == Missing(c, rid);
  }

  /**
   A call that died anywhere, before or after recording its receipt, and is made again with enough
   time leaves the receipts and rows of one uninterrupted call, and answers the same pence.
   */
  lemma CollectCrashThenRetry(events: seq<Event>, rid: int, command: ReceiptCommand, first: nat, second: nat)
    requires Acceptable(command)
    requires var b := History(events); (rid in b.receipts ==> b.receipts[rid].command == command) && second >= WritesLeft(b, rid, command)
    ensures var b := History(events);
      var crashed, once := After(b, Collect(rid, command, first)), Call(b, rid, command, second);
      var retried := Call(crashed, rid, command, second);
      retried.receipts == once.receipts && retried.rows == once.rows && SameAnswer(retried.result, once.result)
    ensures var b := History(events); first < WritesLeft(b, rid, command) ==> Call(b, rid, command, first).result == Rejected(Crashed)
  {
    HistoryKeepsShop(events);
    AnyCrashThenRetry(History(events), rid, command, first, second);
  }

  lemma AnyCrashThenRetry(b: Shop, rid: int, command: ReceiptCommand, first: nat, second: nat)
    requires ShopOk(b) && Acceptable(command) && (rid in b.receipts ==> b.receipts[rid].command == command)
    requires second >= WritesLeft(b, rid, command)
    ensures var crashed, once := After(b, Collect(rid, command, first)), Call(b, rid, command, second);
      var retried := Call(crashed, rid, command, second);
      retried.receipts == once.receipts && retried.rows == once.rows && SameAnswer(retried.result, once.result)
    ensures first < WritesLeft(b, rid, command) ==> Call(b, rid, command, first).result == Rejected(Crashed)
  {
    WholeAttempt(b, rid, command, second);
    if Reaches(b, rid, command, first) {
      var c := WithReceipt(b, rid, command);
      FirstAttempt(b, rid, command, first);
      RetryAfterPart(c, rid, Min(|Missing(c, rid)|, LifeAfterRecord(b, rid, first)), second);
    }
  }

  // ---- reconciling in a history -------------------------------------------------------

  lemma ListedIsSettled(b: Shop, payer: int, mine: set<int>)
    requires ShopOk(b) && mine <= b.receipts.Keys
    ensures var obs := SortObligations(OwedBy(b.owed, payer)); DistinctTargets(obs) && Settled(b.receipts, b.rows, mine, obs)
  {
    var obs := SortObligations(OwedBy(b.owed, payer));
    OwedByIsDistinct(b.owed, payer);
    SortKeepsDistinct(OwedBy(b.owed, payer));
    forall i, j | 0 <= i < |b.rows| && 0 <= j < |obs| && b.rows[i].receiptId in mine && b.rows[i].target == obs[j].target
      ensures var x := b.rows[i].receiptId; FromReceipt(b.rows, x) >= b.receipts[x].Amount() || Outstanding(b.receipts, b.rows, obs[j]) == 0
    {
      assert obs[j] in Obligations(b.owed);
      var k :| 0 <= k < |b.owed| && Obligations(b.owed)[k] == obs[j];
    }
  }

  /** Stored receipts of one payer, each listed once. */
  predicate ReceiptsOf(b: Shop, payer: int, ids: seq<int>) {
    Distinct(ids) && forall x :: x in ids ==> x in b.receipts && b.receipts[x].command.payer == Some(payer)
  }

  /** The rows that a reconcile of these receipts adds when nothing stops it. */
  function ReconcilePlan(b: Shop, payer: int, ids: seq<int>): seq<Row> {
    BulkPlan(b.receipts, b.rows, ids, SortObligations(OwedBy(b.owed, payer)))
  }

  /** The plan starts with the missing rows of the first receipt. */
  lemma ReconcilePlanHead(b: Shop, payer: int, ids: seq<int>)
    requires ids != [] && ReceiptsOf(b, payer, ids)
    ensures var first := Missing(b, ids[0]);
      var c := b.(rows := b.rows + first);
      ReceiptsOf(c, payer, ids[1..]) && ReconcilePlan(b, payer, ids) == first + ReconcilePlan(c, payer, ids[1..])
  {
    assert ids[0] in ids && forall x :: x in ids[1..] ==> x in ids;
  }

  /** One turn of a reconcile. */
  lemma ReconcileTurn(b: Shop, ids: seq<int>, lifetime: nat)
    requires ShopOk(b) && ids != [] && ids[0] in b.receipts
    ensures var first := Missing(b, ids[0]);
      Reconciled(b, ids, lifetime)
      == (if lifetime < |first| then b.(rows := b.rows + first[..lifetime])
          else Reconciled(b.(rows := b.rows + first), ids[1..], lifetime - |first|))
  {
    var first, out := Missing(b, ids[0]), Call(b, ids[0], b.receipts[ids[0]].command, lifetime);
    RecordedCall(b, ids[0], lifetime);
    assert first[..|first|] == first;
    assert out.receipts == b.receipts && out.rows == b.rows + first[..Min(|first|, lifetime)];
    assert out.result.Rejected? <==> lifetime < |first|;
  }

  lemma FullCallKeepsShop(b: Shop, rid: int)
    requires ShopOk(b) && rid in b.receipts
    ensures ShopOk(b.(rows := b.rows + Missing(b, rid)))
  {
    var plan := Missing(b, rid);
    RecordedCallKeepsShop(b, rid, |plan|);
    assert plan[..|plan|] == plan;
  }

  /** Taking from a concatenation, behind some rows. */
  lemma TakeBehind(rows: seq<Row>, first: seq<Row>, rest: seq<Row>, lifetime: nat)
    ensures var plan := first + rest;
      rows + plan[..Min(|plan|, lifetime)]
      == if lifetime < |first| then rows + first[..lifetime] else rows + first + rest[..Min(|rest|, lifetime - |first|)]
  {
  }

  /** What a reconcile leaves when it inserts its plan in order, or as much of it as it lives for. */
  predicate InsertsPlan(b: Shop, ids: seq<int>, plan: seq<Row>, lifetime: nat) {
    Reconciled(b, ids, lifetime) == b.(rows := b.rows + plan[..Min(|plan|, lifetime)])
  }

  lemma ReconcileContinues(b: Shop, ids: seq<int>, rest: seq<Row>, lifetime: nat)
    requires ShopOk(b) && ids != [] && ids[0] in b.receipts
    requires var first := Missing(b, ids[0]);
      lifetime >= |first| ==> InsertsPlan(b.(rows := b.rows + first), ids[1..], rest, lifetime - |first|)
    ensures InsertsPlan(b, ids, Missing(b, ids[0]) + rest, lifetime)
  {
    ReconcileTurn(b, ids, lifetime);
    TakeBehind(b.rows, Missing(b, ids[0]), rest, lifetime);
  }

  lemma NothingToReconcile(b: Shop, payer: int, lifetime: nat)
    ensures InsertsPlan(b, [], ReconcilePlan(b, payer, []), lifetime)
  {
    assert b.rows + [] == b.rows;
  }

  lemma {:induction false} ReconcileFollowsPlan(b: Shop, payer: int, ids: seq<int>, lifetime: nat)
    requires ShopOk(b) && ReceiptsOf(b, payer, ids)
    ensures InsertsPlan(b, ids, ReconcilePlan(b, payer, ids), lifetime)
    decreases |ids|
  {
    if ids == [] {
      NothingToReconcile(b, payer, lifetime);
    } else {
      assert ids[0] in ids;
      var first, c, rest := NextShop(b, payer, ids);
      if lifetime >= |first| { ReconcileFollowsPlan(c, payer, ids[1..], lifetime - |first|); }
      ReconcileContinues(b, ids, rest, lifetime);
    }
  }

  /** The shop behind the first receipt of a reconcile. */
  lemma NextShop(b: Shop, payer: int, ids: seq<int>) returns (first: seq<Row>, c: Shop, rest: seq<Row>)
    requires ShopOk(b) && ids != [] && ReceiptsOf(b, payer, ids) && ids[0] in b.receipts
    ensures first == Missing(b, ids[0]) && c == b.(rows := b.rows + first)
    ensures ShopOk(c) && ReceiptsOf(c, payer, ids[1..])
    ensures rest == ReconcilePlan(c, payer, ids[1..]) && ReconcilePlan(b, payer, ids) == first + rest
  {
    first := Missing(b, ids[0]);
    c := b.(rows := b.rows + first);
    rest := ReconcilePlan(c, payer, ids[1..]);
    ReconcilePlanHead(b, payer, ids);
    FullCallKeepsShop(b, ids[0]);
  }

  /** After k rows of the plan of a reconcile, another one plans the others. */
  lemma ReconcileResumesInShop(b: Shop, payer: int, ids: seq<int>, k: nat)
    requires ShopOk(b) && ReceiptsOf(b, payer, ids) && k <= |ReconcilePlan(b, payer, ids)|
    ensures var plan := ReconcilePlan(b, payer, ids);
      ReconcilePlan(b.(rows := b.rows + plan[..k]), payer, ids) == plan[k..]
  {
    ListedIsSettled(b, payer, IdSet(ids));
    forall i | 0 <= i < |ids| ensures Active(b.receipts, ids[i]) && FromReceipt(b.rows, ids[i]) <= b.receipts[ids[i]].Amount() {
      assert ids[i] in ids;
    }
    ReconcileResumes(b.receipts, b.rows, IdSet(ids), ids, SortObligations(OwedBy(b.owed, payer)), k);
  }

  lemma RestBehind(rows: seq<Row>, plan: seq<Row>, k: nat, second: nat)
    requires k <= |plan| <= second
    ensures rows + plan[..k] + plan[k..][..Min(|plan| - k, second)] == rows + plan[..Min(|plan|, second)]
  {
  }

  /**
   After any history, a reconcile of a payer's receipts that died after any of its inserts and is made
   again with enough time leaves exactly what one uninterrupted reconcile leaves.
   */
  lemma ReconcileCrashThenRetry(events: seq<Event>, payer: int, ids: seq<int>, first: nat, second: nat)
    requires ReceiptsOf(History(events), payer, ids) && second >= |ReconcilePlan(History(events), payer, ids)|
    ensures Reconciled(Reconciled(History(events), ids, first), ids, second) == Reconciled(History(events), ids, second)
  {
    var b := History(events);
    HistoryKeepsShop(events);
    var k := Min(|ReconcilePlan(b, payer, ids)|, first);
    ReconcileFollowsPlan(b, payer, ids, first);
    ReconcileFollowsPlan(b, payer, ids, second);
    ReconcileKeepsShop(b, ids, first);
    ReconcileResumesInShop(b, payer, ids, k);
    ReconcileFollowsPlan(Reconciled(b, ids, first), payer, ids, second);
    RestBehind(b.rows, ReconcilePlan(b, payer, ids), k, second);
  }
}
