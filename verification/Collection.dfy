/**
 FinanceCollectionService.collect: one receipt against all open obligations, oldest first,
 resumable after a crash between any two gateway writes.
 */
module Collection {
  import opened Numbers
  import opened Waterfall
  import opened Ledger

  // ---- ordering -----------------------------------------------------------------------

  /** compareFinancialObligations(a, b) <= 0. */
  predicate NotAfter(a: Obligation, b: Obligation) {
    a.dueAt < b.dueAt || (a.dueAt == b.dueAt && (
      a.target.area < b.target.area || (a.target.area == b.target.area && (
        a.target.kind < b.target.kind || (a.target.kind == b.target.kind && a.target.id <= b.target.id)))))
  }

  function Insert(o: Obligation, sorted: seq<Obligation>): seq<Obligation> {
    if sorted == [] || NotAfter(o, sorted[0]) then [o] + sorted
    else [sorted[0]] + Insert(o, sorted[1..])
  }

  function SortObligations(obs: seq<Obligation>): seq<Obligation> {
    if obs == [] then [] else Insert(obs[0], SortObligations(obs[1..]))
  }

  predicate SortedObligations(obs: seq<Obligation>) {
    forall i, j :: 0 <= i < j < |obs| ==> NotAfter(obs[i], obs[j])
  }

  lemma NotAfterIsTransitive(a: Obligation, b: Obligation, c: Obligation)
    requires NotAfter(a, b) && NotAfter(b, c)
    ensures NotAfter(a, c)
  {
  }

  lemma {:induction false} InsertMembers(o: Obligation, obs: seq<Obligation>)
    ensures forall x :: x in Insert(o, obs) <==> x == o || x in obs
  {
    if obs != [] && !NotAfter(o, obs[0]) {
      InsertMembers(o, obs[1..]);
      assert obs == [obs[0]] + obs[1..];
    }
  }

  lemma {:induction false} InsertPermutes(o: Obligation, obs: seq<Obligation>)
    ensures multiset(Insert(o, obs)) == multiset(obs) + multiset{o}
  {
    if obs != [] && !NotAfter(o, obs[0]) {
      InsertPermutes(o, obs[1..]);
      assert obs == [obs[0]] + obs[1..];
    }
  }

  lemma {:induction false} InsertSorts(o: Obligation, sorted: seq<Obligation>)
    requires SortedObligations(sorted)
    ensures SortedObligations(Insert(o, sorted))
  {
    if sorted == [] {
    } else if NotAfter(o, sorted[0]) {
      forall j | 0 < j < |sorted| ensures NotAfter(o, sorted[j]) {
        NotAfterIsTransitive(o, sorted[0], sorted[j]);
      }
    } else {
      var rest := Insert(o, sorted[1..]);
      InsertSorts(o, sorted[1..]);
      InsertMembers(o, sorted[1..]);
      forall j | 0 <= j < |rest| ensures NotAfter(sorted[0], rest[j]) {
        assert rest[j] in rest;
      }
    }
  }

  lemma {:induction false} SortIsSortedPermutation(obs: seq<Obligation>)
    ensures SortedObligations(SortObligations(obs))
    ensures multiset(SortObligations(obs)) == multiset(obs)
  {
    if obs != [] {
      SortIsSortedPermutation(obs[1..]);
      InsertSorts(obs[0], SortObligations(obs[1..]));
      InsertPermutes(obs[0], SortObligations(obs[1..]));
      assert obs == [obs[0]] + obs[1..];
    }
  }

  predicate DistinctTargets(obs: seq<Obligation>) {
    forall i, j :: 0 <= i < j < |obs| ==> obs[i].target != obs[j].target
  }

  lemma {:induction false} InsertKeepsDistinct(o: Obligation, obs: seq<Obligation>)
    requires DistinctTargets(obs) && forall j :: 0 <= j < |obs| ==> obs[j].target != o.target
    ensures DistinctTargets(Insert(o, obs))
  {
    if obs != [] && !NotAfter(o, obs[0]) {
      InsertKeepsDistinct(o, obs[1..]);
      InsertMembers(o, obs[1..]);
      var rest := Insert(o, obs[1..]);
      forall j | 0 <= j < |rest| ensures rest[j].target != obs[0].target {
        assert rest[j] in rest;
      }
    }
  }

  lemma {:induction false} SortKeepsDistinct(obs: seq<Obligation>)
    requires DistinctTargets(obs)
    ensures DistinctTargets(SortObligations(obs))
    ensures forall x :: x in SortObligations(obs) <==> x in obs
  {
    if obs != [] {
      SortKeepsDistinct(obs[1..]);
      var sorted := SortObligations(obs[1..]);
      forall j | 0 <= j < |sorted| ensures sorted[j].target != obs[0].target {
        assert sorted[j] in obs[1..];
      }
      InsertKeepsDistinct(obs[0], sorted);
      InsertMembers(obs[0], sorted);
    }
  }

  // ---- what the loop does -------------------------------------------------------------

  /** State after the loop: ledger rows, the rows it reports, what is left, and the error it threw. */
  datatype Attempt = Attempt(rows: seq<Row>, reported: seq<Row>, remaining: nat, error: Option<Error>)

  function Run(receipts: Receipts, rows: seq<Row>, rid: int, rem: nat, obs: seq<Obligation>, lifetime: nat): (a: Attempt)
    ensures a.remaining <= rem
    decreases |obs|
  {
    if obs == [] || rem == 0 then Attempt(rows, [], rem, None)
    else
      var o := obs[0];
      var out := Outstanding(receipts, rows, o);
      if out == 0 then Run(receipts, rows, rid, rem, obs[1..], lifetime)
      else
        var row := Row(rid, o.target, Min(rem, out));
        match Allocating(receipts, rows, rid, o.target, row.amount, lifetime)
        case Failed(error) => Attempt(rows, [], rem, Some(error))
        case AlreadyThere =>
          var rest := Run(receipts, rows, rid, rem - row.amount, obs[1..], lifetime);
          rest.(reported := [row] + rest.reported)
        case Inserted =>
          var rest := Run(receipts, rows + [row], rid, rem - row.amount, obs[1..], lifetime - 1);
          rest.(reported := [row] + rest.reported)
  }

  /** The rows an uninterrupted, conflict-free run inserts. */
  function Plan(receipts: Receipts, rows: seq<Row>, rid: int, rem: nat, obs: seq<Obligation>): seq<Row>
    decreases |obs|
  {
    if obs == [] || rem == 0 then []
    else
      var out := Outstanding(receipts, rows, obs[0]);
      if out == 0 then Plan(receipts, rows, rid, rem, obs[1..])
      else
        var row := Row(rid, obs[0].target, Min(rem, out));
        [row] + Plan(receipts, rows + [row], rid, rem - row.amount, obs[1..])
  }

  function Amounts(rows: seq<Row>): nat {
    if rows == [] then 0 else rows[0].amount + Amounts(rows[1..])
  }

  /** Every earlier row of this receipt has an exhausted receipt or a satisfied target. */
  predicate NoOpenPair(receipts: Receipts, rows: seq<Row>, rid: int, rem: nat, obs: seq<Obligation>) {
    rem == 0 || forall i, j :: 0 <= i < |rows| && 0 <= j < |obs| && rows[i].receiptId == rid && rows[i].target == obs[j].target ==>
      Outstanding(receipts, rows, obs[j]) == 0
  }

  /** The unallocated part of an active receipt. */
  predicate Unallocated(receipts: Receipts, rows: seq<Row>, rid: int, rem: nat) {
    Active(receipts, rid) && FromReceipt(rows, rid) + rem == receipts[rid].Amount()
  }

  lemma AppendedOutstanding(receipts: Receipts, rows: seq<Row>, row: Row, o: Obligation)
    requires Active(receipts, row.receiptId)
    ensures Outstanding(receipts, rows + [row], o)
         == if o.target == row.target then Max(0, Outstanding(receipts, rows, o) - row.amount) else Outstanding(receipts, rows, o)
  {
    ToTargetAppend(receipts, rows, [row], o.target);
  }

  /** The row a greedy step adds leaves no open pair behind. */
  lemma StepKeepsNoOpenPair(receipts: Receipts, rows: seq<Row>, rid: int, rem: nat, obs: seq<Obligation>)
    requires obs != [] && Unallocated(receipts, rows, rid, rem) && rem > 0
    requires NoOpenPair(receipts, rows, rid, rem, obs)
    requires forall j :: 0 <= j < |obs| && obs[j].target == obs[0].target ==> obs[j].amountDue == obs[0].amountDue
    ensures var row := Row(rid, obs[0].target, Min(rem, Outstanding(receipts, rows, obs[0])));
            && Unallocated(receipts, rows + [row], rid, rem - row.amount)
            && NoOpenPair(receipts, rows + [row], rid, rem - row.amount, obs[1..])
  {
    var row := Row(rid, obs[0].target, Min(rem, Outstanding(receipts, rows, obs[0])));
    FromReceiptAppend(rows, [row], rid);
    if rem - row.amount > 0 {
      var rows', obs' := rows + [row], obs[1..];
      forall i, j | 0 <= i < |rows'| && 0 <= j < |obs'| && rows'[i].receiptId == rid && rows'[i].target == obs'[j].target
        ensures Outstanding(receipts, rows', obs'[j]) == 0
      {
        AppendedOutstanding(receipts, rows, row, obs'[j]);
        assert obs'[j] == obs[j + 1];
      }
    }
  }

  /** The same target never appears with two different amounts. */
  predicate Consistent(obs: seq<Obligation>) {
    forall i, j :: 0 <= i < |obs| && 0 <= j < |obs| && obs[i].target == obs[j].target ==> obs[i].amountDue == obs[j].amountDue
  }

  lemma {:induction false} PlanWithinReceipt(receipts: Receipts, rows: seq<Row>, rid: int, rem: nat, obs: seq<Obligation>)
    ensures Amounts(Plan(receipts, rows, rid, rem, obs)) <= rem
    decreases |obs|
  {
    if obs == [] || rem == 0 {
    } else if Outstanding(receipts, rows, obs[0]) == 0 {
      PlanWithinReceipt(receipts, rows, rid, rem, obs[1..]);
    } else {
      var row := Row(rid, obs[0].target, Min(rem, Outstanding(receipts, rows, obs[0])));
      var tail := Plan(receipts, rows + [row], rid, rem - row.amount, obs[1..]);
      PlanWithinReceipt(receipts, rows + [row], rid, rem - row.amount, obs[1..]);
      assert ([row] + tail)[1..] == tail;
    }
  }

  predicate FollowsPlan(a: Attempt, rows: seq<Row>, plan: seq<Row>, rem: nat, lifetime: nat) {
    if |plan| <= lifetime then a.rows == rows + plan && a.reported == plan && a.remaining == rem - Amounts(plan) && a.error.None?
    else a.error == Some(Crashed) && a.rows == rows + plan[..lifetime]
  }

  lemma FollowsPlanStep(rest: Attempt, rows: seq<Row>, row: Row, tail: seq<Row>, rem: nat, lifetime: nat)
    requires lifetime > 0 && row.amount <= rem && Amounts(tail) <= rem - row.amount
    requires FollowsPlan(rest, rows + [row], tail, rem - row.amount, lifetime - 1)
    ensures FollowsPlan(rest.(reported := [row] + rest.reported), rows, [row] + tail, rem, lifetime)
  {
    var plan := [row] + tail;
    assert plan[1..] == tail;
    assert rows + [row] + tail == rows + plan;
    if |plan| > lifetime {
      assert plan[..lifetime] == [row] + tail[..lifetime - 1];
      assert rows + [row] + tail[..lifetime - 1] == rows + plan[..lifetime];
    }
  }

  /** Without an open pair the gateway finds no row in the way of a greedy one. */
  lemma GreedyInserts(receipts: Receipts, rows: seq<Row>, rid: int, rem: nat, obs: seq<Obligation>, lifetime: nat)
    requires Unallocated(receipts, rows, rid, rem) && NoOpenPair(receipts, rows, rid, rem, obs)
    requires obs != [] && rem > 0 && Outstanding(receipts, rows, obs[0]) > 0
    ensures Allocating(receipts, rows, rid, obs[0].target, Min(rem, Outstanding(receipts, rows, obs[0])), lifetime)
         == if lifetime > 0 then Inserted else Failed(Crashed)
  {
  }

  /**
   Without an open pair the gateway never answers ALLOCATION_CONFLICT: a run inserts its plan,
   or the first `lifetime` rows of it when the worker dies.
   */
  lemma {:induction false} RunFollowsPlan(receipts: Receipts, rows: seq<Row>, rid: int, rem: nat, obs: seq<Obligation>, lifetime: nat)
    requires Unallocated(receipts, rows, rid, rem) && Consistent(obs)
    requires NoOpenPair(receipts, rows, rid, rem, obs)
    ensures FollowsPlan(Run(receipts, rows, rid, rem, obs, lifetime), rows, Plan(receipts, rows, rid, rem, obs), rem, lifetime)
    decreases |obs|
  {
    if obs == [] || rem == 0 {
      assert rows + [] == rows;
    } else if Outstanding(receipts, rows, obs[0]) == 0 {
      RunFollowsPlan(receipts, rows, rid, rem, obs[1..], lifetime);
    } else {
      var row := Row(rid, obs[0].target, Min(rem, Outstanding(receipts, rows, obs[0])));
      var tail := Plan(receipts, rows + [row], rid, rem - row.amount, obs[1..]);
      GreedyInserts(receipts, rows, rid, rem, obs, lifetime);
      if lifetime > 0 {
        var rest := Run(receipts, rows + [row], rid, rem - row.amount, obs[1..], lifetime - 1);
        StepKeepsNoOpenPair(receipts, rows, rid, rem, obs);
        RunFollowsPlan(receipts, rows + [row], rid, rem - row.amount, obs[1..], lifetime - 1);
        PlanWithinReceipt(receipts, rows + [row], rid, rem - row.amount, obs[1..]);
        FollowsPlanStep(rest, rows, row, tail, rem, lifetime);
      } else {
        assert rows + ([row] + tail)[..0] == rows;
      }
    }
  }

  lemma HeadAndTail(rows: seq<Row>, plan: seq<Row>, row: Row, tail: seq<Row>, k: nat)
    requires plan == [row] + tail && 1 <= k <= |plan|
    ensures plan[..k] == [row] + tail[..k - 1] && plan[k..] == tail[k - 1..]
    ensures plan[..k][1..] == tail[..k - 1]
    ensures rows + plan[..k] == rows + [row] + tail[..k - 1]
  {
  }

  /** A satisfied obligation stays so, whatever is added. */
  lemma SatisfiedStays(receipts: Receipts, rows: seq<Row>, more: seq<Row>, o: Obligation)
    requires Outstanding(receipts, rows, o) == 0
    ensures Outstanding(receipts, rows + more, o) == 0
  {
    ToTargetAppend(receipts, rows, more, o.target);
  }

  /** A greedy row exhausts the receipt or satisfies its obligation. */
  lemma RowSatisfies(receipts: Receipts, rows: seq<Row>, rid: int, rem: nat, o: Obligation, more: seq<Row>)
    requires Active(receipts, rid)
    ensures var row := Row(rid, o.target, Min(rem, Outstanding(receipts, rows, o)));
            row.amount == rem || Outstanding(receipts, rows + [row] + more, o) == 0
  {
    var row := Row(rid, o.target, Min(rem, Outstanding(receipts, rows, o)));
    AppendedOutstanding(receipts, rows, row, o);
    if row.amount < rem { SatisfiedStays(receipts, rows + [row], more, o); }
  }

  /**
   Crash-resume: after any k of the planned inserts, a fresh attempt plans exactly the inserts
   that are missing, and again has no open pair.
   */
  lemma {:induction false} ResumePlansTheRest(receipts: Receipts, rows: seq<Row>, rid: int, rem: nat, obs: seq<Obligation>, k: nat)
    requires Unallocated(receipts, rows, rid, rem) && Consistent(obs)
    requires NoOpenPair(receipts, rows, rid, rem, obs)
    requires k <= |Plan(receipts, rows, rid, rem, obs)|
    ensures var plan := Plan(receipts, rows, rid, rem, obs);
            && Amounts(plan[..k]) <= rem
            && Unallocated(receipts, rows + plan[..k], rid, rem - Amounts(plan[..k]))
            && Plan(receipts, rows + plan[..k], rid, rem - Amounts(plan[..k]), obs) == plan[k..]
    decreases |obs|
  {
    var plan := Plan(receipts, rows, rid, rem, obs);
    if k == 0 {
      assert plan[..0] == [] && rows + [] == rows && plan[0..] == plan;
    } else if Outstanding(receipts, rows, obs[0]) == 0 {
      ResumePlansTheRest(receipts, rows, rid, rem, obs[1..], k);
      SatisfiedStays(receipts, rows, plan[..k], obs[0]);
    } else {
      var row := Row(rid, obs[0].target, Min(rem, Outstanding(receipts, rows, obs[0])));
      var tail := Plan(receipts, rows + [row], rid, rem - row.amount, obs[1..]);
      HeadAndTail(rows, plan, row, tail, k);
      StepKeepsNoOpenPair(receipts, rows, rid, rem, obs);
      ResumePlansTheRest(receipts, rows + [row], rid, rem - row.amount, obs[1..], k - 1);
      RowSatisfies(receipts, rows, rid, rem, obs[0], tail[..k - 1]);
    }
  }

  // ---- the service --------------------------------------------------------------------

  datatype CollectResult =
    | Collected(allocatedPence: nat, creditPence: nat, allocations: seq<Row>)
    | Rejected(error: Error)

  /** What the service answers for a finished attempt on a receipt of `amount`. */
  function Answer(amount: nat, a: Attempt): CollectResult
    requires a.remaining <= amount
  {
    if a.error.Some? then Rejected(a.error.value) else Collected(amount - a.remaining, a.remaining, a.reported)
  }

  /** Pence of a receipt that are already allocated; rows of a deleted receipt do not count. */
  function AlreadyGiven(receipts: Receipts, rows: seq<Row>, rid: int): nat {
    if Active(receipts, rid) then FromReceipt(rows, rid) else 0
  }

  predicate Acceptable(command: ReceiptCommand) {
    command.amount > 0 && (command.payer.Some? || command.source.Some?)
  }

  /** The receipt is stored with exactly the command's fields. */
  predicate Recorded(receipts: Receipts, rid: int, command: ReceiptCommand) {
    Acceptable(command) && rid in receipts && receipts[rid].command == command
  }

  /** Whatever a run inserts, no receipt gives away more than it holds and pairs stay unique. */
  lemma {:induction false} RunKeepsLedger(receipts: Receipts, rows: seq<Row>, rid: int, rem: nat, obs: seq<Obligation>, lifetime: nat)
    ensures ValidLedger(receipts, rows) ==> ValidLedger(receipts, Run(receipts, rows, rid, rem, obs, lifetime).rows)
    decreases |obs|
  {
    if obs != [] && rem > 0 {
      var out := Outstanding(receipts, rows, obs[0]);
      if out == 0 {
        RunKeepsLedger(receipts, rows, rid, rem, obs[1..], lifetime);
      } else {
        var row := Row(rid, obs[0].target, Min(rem, out));
        match Allocating(receipts, rows, rid, obs[0].target, row.amount, lifetime)
        case Failed(_) =>
        case AlreadyThere => RunKeepsLedger(receipts, rows, rid, rem - row.amount, obs[1..], lifetime);
        case Inserted =>
          InsertKeepsLedger(receipts, rows, rid, obs[0].target, row.amount, lifetime);
          RunKeepsLedger(receipts, rows + [row], rid, rem - row.amount, obs[1..], lifetime - 1);
      }
    }
  }

  datatype Outcome = Outcome(receipts: Receipts, rows: seq<Row>, result: CollectResult)

  /** The part of collect that follows recordReceipt. */
  function CollectingRecorded(receipts: Receipts, rows: seq<Row>, rid: int, command: ReceiptCommand, listed: seq<Obligation>,
                              lifetime: nat): Outcome
    requires Recorded(receipts, rid, command)
  {
    var before := AlreadyGiven(receipts, rows, rid);
    if before > command.amount then Outcome(receipts, rows, Rejected(ReceiptOverallocated))
    else if command.payer.None? then Outcome(receipts, rows, Collected(before, command.amount - before, []))
    else
      var a := Run(receipts, rows, rid, command.amount - before, SortObligations(listed), lifetime);
      Outcome(receipts, a.rows, Answer(command.amount, a))
  }

  /** The whole call: what is stored afterwards and what it answers. */
  function Collecting(receipts: Receipts, rows: seq<Row>, rid: int, command: ReceiptCommand, listed: seq<Obligation>, lifetime: nat): Outcome {
    if !Acceptable(command) then Outcome(receipts, rows, Rejected(InvalidReceipt))
    else if rid in receipts && receipts[rid].command != command then Outcome(receipts, rows, Rejected(ReceiptIdConflict))
    else if rid in receipts then CollectingRecorded(receipts, rows, rid, command, listed, lifetime)
    else if lifetime == 0 then Outcome(receipts, rows, Rejected(Crashed))
    else CollectingRecorded(receipts[rid := Receipt(command, false)], rows, rid, command, listed, lifetime - 1)
  }

  /** `whole` is what is left to do from here, after `done` rows were reported. */
  predicate Continues(whole: Attempt, done: seq<Row>, rest: Attempt) {
    whole.rows == rest.rows && whole.remaining == rest.remaining && whole.error == rest.error && whole.reported == done + rest.reported
  }

  lemma ContinuesStep(whole: Attempt, done: seq<Row>, receipts: Receipts, rows: seq<Row>, rid: int, rem: nat,
                      obs: seq<Obligation>, next: nat, lifetime: nat)
    requires next < |obs| && rem > 0
    requires Continues(whole, done, Run(receipts, rows, rid, rem, obs[next..], lifetime))
    ensures var o := obs[next];
            var out := Outstanding(receipts, rows, o);
            var row := Row(rid, o.target, Min(rem, out));
            if out == 0 then Continues(whole, done, Run(receipts, rows, rid, rem, obs[next + 1..], lifetime))
            else
              match Allocating(receipts, rows, rid, o.target, row.amount, lifetime)
              case Failed(error) => whole.rows == rows && whole.remaining == rem && whole.error == Some(error)
              case AlreadyThere => Continues(whole, done + [row], Run(receipts, rows, rid, rem - row.amount, obs[next + 1..], lifetime))
              case Inserted => Continues(whole, done + [row], Run(receipts, rows + [row], rid, rem - row.amount, obs[next + 1..], lifetime - 1))
  {
    assert obs[next..][0] == obs[next] && obs[next..][1..] == obs[next + 1..];
    var out := Outstanding(receipts, rows, obs[next]);
    var row := Row(rid, obs[next].target, Min(rem, out));
    if out != 0 {
      match Allocating(receipts, rows, rid, obs[next].target, row.amount, lifetime)
      case Failed(_) =>
      case AlreadyThere => Regroup(done, [row], Run(receipts, rows, rid, rem - row.amount, obs[next + 1..], lifetime).reported);
      case Inserted => Regroup(done, [row], Run(receipts, rows + [row], rid, rem - row.amount, obs[next + 1..], lifetime - 1).reported);
    }
  }

  class FinanceCollectionService {
    const gateway: FinanceGateway

    constructor (gateway: FinanceGateway)
      ensures this.gateway == gateway
    {
      this.gateway := gateway;
    }

    /** One obligation: allocate what is outstanding, as far as the receipt reaches. */
    method AllocateOne(rid: int, o: Obligation, remaining: nat) returns (taken: Option<Row>, error: Option<Error>)
      modifies gateway`rows, gateway`lifetime
      ensures var out := Outstanding(gateway.receipts, old(gateway.rows), o);
              var row := Row(rid, o.target, Min(remaining, out));
              if out == 0 then taken == None && error == None && gateway.rows == old(gateway.rows) && gateway.lifetime == old(gateway.lifetime)
              else
                match Allocating(gateway.receipts, old(gateway.rows), rid, o.target, row.amount, old(gateway.lifetime))
                case Failed(e) => error == Some(e) && gateway.rows == old(gateway.rows) && gateway.lifetime == old(gateway.lifetime)
                case AlreadyThere => error == None && taken == Some(row) && gateway.rows == old(gateway.rows) && gateway.lifetime == old(gateway.lifetime)
                case Inserted => error == None && taken == Some(row) && gateway.rows == old(gateway.rows) + [row] && gateway.lifetime == old(gateway.lifetime) - 1
      ensures error != Some(ReceiptOverallocated)
    {
      var alreadyAllocatedToTarget := gateway.GetAllocatedTotal(o.target);
      var outstanding := Max(0, o.amountDue - alreadyAllocatedToTarget);
      if outstanding == 0 { return None, None; }
      var amount := Min(remaining, outstanding);
      var outcome := gateway.AllocateReceipt(rid, o.target, amount);
      if outcome.Failed? { return None, Some(outcome.error); }
      return Some(Row(rid, o.target, amount)), None;
    }

    /** One turn of the obligation loop. */
    method AllocateNext(rid: int, obligations: seq<Obligation>, next: nat, remaining: nat, allocations: seq<Row>, ghost whole: Attempt)
      returns (remaining': nat, allocations': seq<Row>, error: Option<Error>)
      requires next < |obligations| && remaining > 0
      requires Continues(whole, allocations, Run(gateway.receipts, gateway.rows, rid, remaining, obligations[next..], gateway.lifetime))
      modifies gateway`rows, gateway`lifetime
      ensures error.Some? ==>
              gateway.rows == whole.rows && remaining' == whole.remaining && error == whole.error != Some(ReceiptOverallocated)
      ensures error.None? ==>
              Continues(whole, allocations', Run(gateway.receipts, gateway.rows, rid, remaining', obligations[next + 1..], gateway.lifetime))
      ensures remaining' <= remaining && gateway.lifetime + |gateway.rows| == old(gateway.lifetime + |gateway.rows|)
    {
      ContinuesStep(whole, allocations, gateway.receipts, gateway.rows, rid, remaining, obligations, next, gateway.lifetime);
      var taken: Option<Row>;
      taken, error := AllocateOne(rid, obligations[next], remaining);
      if taken.Some? && error.None? {
        return remaining - taken.value.amount, allocations + [taken.value], None;
      }
      return remaining, allocations, error;
    }

    /** The obligation loop. */
    method AllocateOver(rid: int, remaining0: nat, obligations: seq<Obligation>)
      returns (remaining: nat, allocations: seq<Row>, error: Option<Error>)
      modifies gateway`rows, gateway`lifetime
      ensures var a := Run(gateway.receipts, old(gateway.rows), rid, remaining0, obligations, old(gateway.lifetime));
              && gateway.rows == a.rows && remaining == a.remaining && error == a.error
              && (error.None? ==> allocations == a.reported)
      ensures remaining <= remaining0 && error != Some(ReceiptOverallocated)
      ensures gateway.lifetime + |gateway.rows| == old(gateway.lifetime + |gateway.rows|)
    {
      ghost var receipts := gateway.receipts;
      ghost var whole := Run(receipts, gateway.rows, rid, remaining0, obligations, gateway.lifetime);
      remaining, allocations, error := remaining0, [], None;
      var next := 0;
      assert obligations[0..] == obligations;
      while next < |obligations| && remaining > 0
        invariant 0 <= next <= |obligations| && remaining <= remaining0 && error == None
        invariant gateway.receipts == receipts
        invariant gateway.lifetime + |gateway.rows| == old(gateway.lifetime + |gateway.rows|)
        invariant Continues(whole, allocations, Run(receipts, gateway.rows, rid, remaining, obligations[next..], gateway.lifetime))
      {
        remaining, allocations, error := AllocateNext(rid, obligations, next, remaining, allocations, whole);
        if error.Some? { return; }
        next := next + 1;
      }
    }

    /** The loop over what is left of a receipt of `amount`, and the answer. */
    method PourRest(rid: int, amount: nat, remaining0: nat, obligations: seq<Obligation>) returns (result: CollectResult)
      requires remaining0 <= amount
      modifies gateway`rows, gateway`lifetime
      ensures old(gateway.Valid()) ==> gateway.Valid() && result != Rejected(ReceiptOverallocated)
      ensures var a := Run(gateway.receipts, old(gateway.rows), rid, remaining0, obligations, old(gateway.lifetime));
              gateway.rows == a.rows && result == Answer(amount, a)
      ensures gateway.lifetime + |gateway.rows| == old(gateway.lifetime + |gateway.rows|)
    {
      RunKeepsLedger(gateway.receipts, gateway.rows, rid, remaining0, obligations, gateway.lifetime);
      var remaining, allocations, error := AllocateOver(rid, remaining0, obligations);
      result := if error.Some? then Rejected(error.value) else Collected(amount - remaining, remaining, allocations);
    }

    /** The part of collect that follows recordReceipt. */
    method CollectRecorded(rid: int, command: ReceiptCommand, listed: seq<Obligation>) returns (result: CollectResult)
      requires Recorded(gateway.receipts, rid, command)
      modifies gateway`rows, gateway`lifetime
      ensures old(gateway.Valid()) ==> gateway.Valid() && result != Rejected(ReceiptOverallocated)
      ensures Outcome(gateway.receipts, gateway.rows, result)
           == CollectingRecorded(gateway.receipts, old(gateway.rows), rid, command, listed, old(gateway.lifetime))
      ensures gateway.lifetime + |gateway.rows| == old(gateway.lifetime + |gateway.rows|)
    {
      var previouslyAllocated := gateway.GetReceiptAllocatedTotal(rid);
      if previouslyAllocated > command.amount {
        return Rejected(ReceiptOverallocated);
      }
      var remaining := command.amount - previouslyAllocated;
      if command.payer.None? || remaining == 0 {
        return Collected(command.amount - remaining, remaining, []);
      }
      result := PourRest(rid, command.amount, remaining, SortObligations(listed));
    }

    /**
     Records the receipt and pours its unallocated part over the listed obligations, oldest
     first. Rows already in the ledger count, so a repeated command resumes.
     */
    method Collect(rid: int, command: ReceiptCommand, listed: seq<Obligation>) returns (result: CollectResult)
      modifies gateway
      ensures Outcome(gateway.receipts, gateway.rows, result)
           == Collecting(old(gateway.receipts), old(gateway.rows), rid, command, listed, old(gateway.lifetime))
      ensures old(gateway.Valid()) ==> gateway.Valid() && result != Rejected(ReceiptOverallocated)
      ensures rid in old(gateway.receipts) ==> gateway.lifetime + |gateway.rows| == old(gateway.lifetime + |gateway.rows|)
    {
      var recorded := gateway.RecordReceipt(rid, command);
      if recorded.Some? {
        return Rejected(recorded.value);
      }
      result := CollectRecorded(rid, command, listed);
    }
  }
}
