/** In which order `collect` pays: by due date, then by the key of the target. */
module CollectionOrder {
  import opened Numbers
  import opened Ledger
  import opened Collection
  import opened CollectionLaws
  import opened CollectionRuns

  /** Due before the other, or on the same day and with the smaller target key. */
  predicate Older(a: Obligation, b: Obligation) {
    || a.dueAt < b.dueAt
    || (a.dueAt == b.dueAt && a.target.area < b.target.area)
    || (a.dueAt == b.dueAt && a.target.area == b.target.area && a.target.kind < b.target.kind)
    || (a.dueAt == b.dueAt && a.target.area == b.target.area && a.target.kind == b.target.kind && a.target.id < b.target.id)
  }

  /** Sorting puts the older one first, and only equal keys may stand in either order. */
  lemma SortPutsOlderFirst(obs: seq<Obligation>, i: nat, j: nat)
    requires i < j < |SortObligations(obs)|
    ensures var a, b := SortObligations(obs)[i], SortObligations(obs)[j];
      Older(a, b) || (a.dueAt == b.dueAt && a.target == b.target)
  {
    SortIsSortedPermutation(obs);
  }

  lemma SortKeepsMembers(obs: seq<Obligation>, o: Obligation)
    ensures o in SortObligations(obs) <==> o in obs
  {
    SortIsSortedPermutation(obs);
    assert o in multiset(SortObligations(obs)) <==> o in multiset(obs);
  }

  // ---- one run ------------------------------------------------------------------------

  /** The obligation has what it asks for, or a row of this receipt was there before. */
  predicate Served(receipts: Receipts, rows: seq<Row>, before: seq<Row>, rid: int, o: Obligation) {
    Outstanding(receipts, rows, o) == 0 || FindRow(before, rid, o.target).Some?
  }

  lemma {:induction false} RunOnlyAdds(receipts: Receipts, rows: seq<Row>, rid: int, rem: nat, obs: seq<Obligation>, lifetime: nat)
    ensures rows <= Run(receipts, rows, rid, rem, obs, lifetime).rows
    decreases |obs|
  {
    if obs != [] && rem > 0 {
      var out := Outstanding(receipts, rows, obs[0]);
      var row := Row(rid, obs[0].target, Min(rem, out));
      if out == 0 {
        RunOnlyAdds(receipts, rows, rid, rem, obs[1..], lifetime);
      } else {
        match Allocating(receipts, rows, rid, obs[0].target, row.amount, lifetime)
        case Failed(_) =>
        case AlreadyThere => RunOnlyAdds(receipts, rows, rid, rem - row.amount, obs[1..], lifetime);
        case Inserted => RunOnlyAdds(receipts, rows + [row], rid, rem - row.amount, obs[1..], lifetime - 1);
      }
    }
  }

  lemma StaysSatisfied(receipts: Receipts, rows: seq<Row>, longer: seq<Row>, o: Obligation)
    requires rows <= longer && Outstanding(receipts, rows, o) == 0
    ensures Outstanding(receipts, longer, o) == 0
  {
    SatisfiedStays(receipts, rows, longer[|rows|..], o);
    assert rows + longer[|rows|..] == longer;
  }

  /** Row k is for obligation i, and every obligation before that is served. */
  predicate Reaches(receipts: Receipts, after: seq<Row>, before: seq<Row>, rid: int, obs: seq<Obligation>, k: nat, i: nat) {
    && k < |after| && i < |obs| && after[k].target == obs[i].target && after[k].receiptId == rid
    && forall h :: 0 <= h < i ==> Served(receipts, after, before, rid, obs[h])
  }

  lemma ReachesFurther(receipts: Receipts, after: seq<Row>, before: seq<Row>, later: seq<Row>, rid: int, obs: seq<Obligation>, k: nat, i: nat)
    requires obs != [] && Served(receipts, after, before, rid, obs[0]) && Reaches(receipts, after, later, rid, obs[1..], k, i)
    requires forall h :: 0 < h < |obs| ==> FindRow(later, rid, obs[h].target) == FindRow(before, rid, obs[h].target)
    ensures Reaches(receipts, after, before, rid, obs, k, i + 1)
  {
    forall h | 0 <= h < i + 1 ensures Served(receipts, after, before, rid, obs[h]) {
      if h > 0 { assert obs[1..][h - 1] == obs[h]; }
    }
  }

  /** The obligation that just got a row is served at the end, if anything is added after it. */
  lemma InsertedIsServed(receipts: Receipts, rows: seq<Row>, rid: int, rem: nat, obs: seq<Obligation>, lifetime: nat)
    requires obs != [] && rem > 0 && Active(receipts, rid)
    requires var row := Row(rid, obs[0].target, Min(rem, Outstanding(receipts, rows, obs[0])));
      lifetime > 0 && |rows| + 1 < |Run(receipts, rows + [row], rid, rem - row.amount, obs[1..], lifetime - 1).rows|
    ensures var row := Row(rid, obs[0].target, Min(rem, Outstanding(receipts, rows, obs[0])));
      Served(receipts, Run(receipts, rows + [row], rid, rem - row.amount, obs[1..], lifetime - 1).rows, rows, rid, obs[0])
  {
    var row := Row(rid, obs[0].target, Min(rem, Outstanding(receipts, rows, obs[0])));
    var after := Run(receipts, rows + [row], rid, rem - row.amount, obs[1..], lifetime - 1).rows;
    RunOnlyAdds(receipts, rows + [row], rid, rem - row.amount, obs[1..], lifetime - 1);
    RowSatisfies(receipts, rows, rid, rem, obs[0], after[|rows| + 1..]);
    assert rows + [row] + after[|rows| + 1..] == after;
  }

  /** A row that a run adds belongs to one of its obligations, and every one before that is served. */
  lemma {:induction false} RunServesInOrder(receipts: Receipts, rows: seq<Row>, rid: int, rem: nat, obs: seq<Obligation>, lifetime: nat, k: nat)
    returns (i: nat)
    requires DistinctTargets(obs) && |rows| <= k < |Run(receipts, rows, rid, rem, obs, lifetime).rows|
    ensures Reaches(receipts, Run(receipts, rows, rid, rem, obs, lifetime).rows, rows, rid, obs, k, i)
    decreases |obs|
  {
    var after := Run(receipts, rows, rid, rem, obs, lifetime).rows;
    var out := Outstanding(receipts, rows, obs[0]);
    var row := Row(rid, obs[0].target, Min(rem, out));
    if out == 0 {
      i := RunServesInOrder(receipts, rows, rid, rem, obs[1..], lifetime, k);
      RunOnlyAdds(receipts, rows, rid, rem, obs, lifetime);
      StaysSatisfied(receipts, rows, after, obs[0]);
      ReachesFurther(receipts, after, rows, rows, rid, obs, k, i);
      i := i + 1;
    } else if Allocating(receipts, rows, rid, obs[0].target, row.amount, lifetime).AlreadyThere? {
      i := RunServesInOrder(receipts, rows, rid, rem - row.amount, obs[1..], lifetime, k);
      ReachesFurther(receipts, after, rows, rows, rid, obs, k, i);
      i := i + 1;
    } else {
      i := RunServesBehindInsert(receipts, rows, rid, rem, obs, lifetime, k);
    }
  }

  lemma {:induction false} RunServesBehindInsert(receipts: Receipts, rows: seq<Row>, rid: int, rem: nat, obs: seq<Obligation>, lifetime: nat,
                                                 k: nat) returns (i: nat)
    requires DistinctTargets(obs) && |rows| <= k < |Run(receipts, rows, rid, rem, obs, lifetime).rows|
    requires obs != [] && rem > 0 && Outstanding(receipts, rows, obs[0]) > 0
    requires Allocating(receipts, rows, rid, obs[0].target, Min(rem, Outstanding(receipts, rows, obs[0])), lifetime).Inserted?
    ensures Reaches(receipts, Run(receipts, rows, rid, rem, obs, lifetime).rows, rows, rid, obs, k, i)
    decreases |obs|, 0
  {
    var row := Row(rid, obs[0].target, Min(rem, Outstanding(receipts, rows, obs[0])));
    var after := Run(receipts, rows + [row], rid, rem - row.amount, obs[1..], lifetime - 1).rows;
    assert Run(receipts, rows, rid, rem, obs, lifetime).rows == after;
    if k == |rows| {
      RunOnlyAdds(receipts, rows + [row], rid, rem - row.amount, obs[1..], lifetime - 1);
      assert after[k] == row;
      i := 0;
    } else {
      i := RunServesInOrder(receipts, rows + [row], rid, rem - row.amount, obs[1..], lifetime - 1, k);
      InsertedIsServed(receipts, rows, rid, rem, obs, lifetime);
      forall h | 0 < h < |obs| ensures FindRow(rows + [row], rid, obs[h].target) == FindRow(rows, rid, obs[h].target) {
        FindRowAppend(rows, row, rid, obs[h].target);
      }
      ReachesFurther(receipts, after, rows, rows + [row], rid, obs, k, i);
      i := i + 1;
    }
  }

  /**
   Whatever is in the ledger and however long the process lives: if a call adds a row, the row is for a listed
   obligation, and every older one has what it asks for, unless the receipt had a row for it before the call.
   */
  lemma OlderAreServedFirst(receipts: Receipts, rows: seq<Row>, rid: int, command: ReceiptCommand, listed: seq<Obligation>,
                            lifetime: nat, k: nat) returns (o: Obligation)
    requires DistinctTargets(listed) && |rows| <= k < |Collecting(receipts, rows, rid, command, listed, lifetime).rows|
    ensures var out := Collecting(receipts, rows, rid, command, listed, lifetime);
      && o in listed && out.rows[k].target == o.target && out.rows[k].receiptId == rid
      && forall p :: p in listed && Older(p, o) ==> Served(out.receipts, out.rows, rows, rid, p)
  {
    var out, obs := Collecting(receipts, rows, rid, command, listed, lifetime), SortObligations(listed);
    var life := if rid in receipts then lifetime else lifetime - 1;
    SortKeepsDistinct(listed);
    var i := RunServesInOrder(out.receipts, rows, rid, command.amount - AlreadyGiven(out.receipts, rows, rid), obs, life, k);
    o := obs[i];
    SortKeepsMembers(listed, o);
    forall p | p in listed && Older(p, o) ensures Served(out.receipts, out.rows, rows, rid, p) {
      SortKeepsMembers(listed, p);
      var h :| 0 <= h < |obs| && obs[h] == p;
      if h > i { SortPutsOlderFirst(listed, i, h); }
    }
  }

  /** What an obligation loop can throw. */
  lemma {:induction false} RunRefuses(receipts: Receipts, rows: seq<Row>, rid: int, rem: nat, obs: seq<Obligation>, lifetime: nat)
    ensures var error := Run(receipts, rows, rid, rem, obs, lifetime).error;
      error.Some? ==> error.value in {AllocationConflict, ReceiptNotFound, AllocationExceedsAmount, Crashed}
    decreases |obs|
  {
    if obs != [] && rem > 0 {
      var out := Outstanding(receipts, rows, obs[0]);
      var row := Row(rid, obs[0].target, Min(rem, out));
      if out == 0 {
        RunRefuses(receipts, rows, rid, rem, obs[1..], lifetime);
      } else {
        match Allocating(receipts, rows, rid, obs[0].target, row.amount, lifetime)
        case Failed(_) =>
        case AlreadyThere => RunRefuses(receipts, rows, rid, rem - row.amount, obs[1..], lifetime);
        case Inserted => RunRefuses(receipts, rows + [row], rid, rem - row.amount, obs[1..], lifetime - 1);
      }
    }
  }

  /** What a loop took from the receipt is what it reports. */
  lemma {:induction false} RunReports(receipts: Receipts, rows: seq<Row>, rid: int, rem: nat, obs: seq<Obligation>, lifetime: nat)
    ensures var a := Run(receipts, rows, rid, rem, obs, lifetime); a.error.None? ==> a.remaining + Amounts(a.reported) == rem
    decreases |obs|
  {
    if obs != [] && rem > 0 {
      var out := Outstanding(receipts, rows, obs[0]);
      var row := Row(rid, obs[0].target, Min(rem, out));
      if out == 0 {
        RunReports(receipts, rows, rid, rem, obs[1..], lifetime);
      } else {
        match Allocating(receipts, rows, rid, obs[0].target, row.amount, lifetime)
        case Failed(_) =>
        case AlreadyThere =>
          var rest := Run(receipts, rows, rid, rem - row.amount, obs[1..], lifetime);
          RunReports(receipts, rows, rid, rem - row.amount, obs[1..], lifetime);
          assert Run(receipts, rows, rid, rem, obs, lifetime) == rest.(reported := [row] + rest.reported);
          RowAmounts(row, rest.reported);
        case Inserted =>
          var rest := Run(receipts, rows + [row], rid, rem - row.amount, obs[1..], lifetime - 1);
          RunReports(receipts, rows + [row], rid, rem - row.amount, obs[1..], lifetime - 1);
          assert Run(receipts, rows, rid, rem, obs, lifetime) == rest.(reported := [row] + rest.reported);
          RowAmounts(row, rest.reported);
      }
    }
  }

  lemma RowAmounts(row: Row, rows: seq<Row>)
    ensures Amounts([row] + rows) == row.amount + Amounts(rows)
  {
    assert ([row] + rows)[1..] == rows;
  }

  /** Once the receipt is recorded, only an overdrawn one is refused before the loop; what is answered adds up. */
  lemma RecordedIsRefusedIff(receipts: Receipts, rows: seq<Row>, rid: int, command: ReceiptCommand, listed: seq<Obligation>, lifetime: nat)
    requires Recorded(receipts, rid, command)
    ensures var out := CollectingRecorded(receipts, rows, rid, command, listed, lifetime);
      && out.result != Rejected(InvalidReceipt) && out.result != Rejected(ReceiptIdConflict)
      && (out.result == Rejected(ReceiptOverallocated) <==> !receipts[rid].deleted && FromReceipt(rows, rid) > command.amount)
      && (out.result == Rejected(ReceiptOverallocated) ==> out.rows == rows)
      && (out.result.Collected? ==>
        && out.result.allocatedPence + out.result.creditPence == command.amount
        && out.result.allocatedPence == (if receipts[rid].deleted then 0 else FromReceipt(rows, rid)) + Amounts(out.result.allocations))
  {
    var before := AlreadyGiven(receipts, rows, rid);
    if before <= command.amount {
      RunRefuses(receipts, rows, rid, command.amount - before, SortObligations(listed), lifetime);
      RunReports(receipts, rows, rid, command.amount - before, SortObligations(listed), lifetime);
    }
  }

  /** The refusals of a call that do not come from a single allocation, by the fields of the command and the ledger. */
  lemma CollectIsRefusedIff(receipts: Receipts, rows: seq<Row>, rid: int, command: ReceiptCommand, listed: seq<Obligation>, lifetime: nat)
    ensures var out := Collecting(receipts, rows, rid, command, listed, lifetime);
      && (out.result == Rejected(InvalidReceipt) <==> command.amount <= 0 || (command.payer == None && command.source == None))
      && (out.result == Rejected(ReceiptIdConflict) <==>
            out.result != Rejected(InvalidReceipt) && rid in receipts && receipts[rid].command != command)
      && (out.result == Rejected(ReceiptOverallocated) <==>
            && out.result != Rejected(InvalidReceipt) && FromReceipt(rows, rid) > command.amount
            && if rid in receipts then receipts[rid].command == command && !receipts[rid].deleted else lifetime > 0)
      && (out.result in {Rejected(InvalidReceipt), Rejected(ReceiptIdConflict), Rejected(ReceiptOverallocated)} ==> out.rows == rows)
      && (out.result.Collected? ==> out.result.allocatedPence + out.result.creditPence == command.amount)
  {
    if Acceptable(command) {
      if rid !in receipts && lifetime > 0 {
        RecordedIsRefusedIff(receipts[rid := Receipt(command, false)], rows, rid, command, listed, lifetime - 1);
      } else if rid in receipts && receipts[rid].command == command {
        RecordedIsRefusedIff(receipts, rows, rid, command, listed, lifetime);
      }
    }
  }

  // ---- whole histories ----------------------------------------------------------------

  /**
   After any history of obligations, calls and reconciles that may have died anywhere: if a call adds a row, every
   obligation of its payer that is older than the one of the row has nothing outstanding any more.
   */
  lemma OldestAreMetFirst(events: seq<Event>, rid: int, command: ReceiptCommand, lifetime: nat, k: nat) returns (o: Obligation)
    requires var b := History(events);
      |b.rows| <= k < |Call(b, rid, command, lifetime).rows|
    ensures var b := History(events);
      var out := Call(b, rid, command, lifetime);
      && o in Listed(b, command) && out.rows[k].target == o.target && out.rows[k].receiptId == rid
      && forall p :: p in Listed(b, command) && Older(p, o) ==> Outstanding(out.receipts, out.rows, p) == 0
  {
    var b := History(events);
    var out, listed := Call(b, rid, command, lifetime), Listed(b, command);
    HistoryKeepsShop(events);
    if command.payer.Some? { OwedByIsDistinct(b.owed, command.payer.value); }
    o := OlderAreServedFirst(b.receipts, b.rows, rid, command, listed, lifetime, k);
    forall p | p in listed && Older(p, o) ensures Outstanding(out.receipts, out.rows, p) == 0 {
      if FindRow(b.rows, rid, p.target).Some? { EarlierRowIsClosed(b, rid, command, lifetime, p); }
    }
  }

  /** A call that adds a row had something left to give, and takes nothing back. */
  lemma AddingMeansCredit(b: Shop, rid: int, command: ReceiptCommand, lifetime: nat)
    requires ShopOk(b) && rid in b.receipts && |b.rows| < |Call(b, rid, command, lifetime).rows|
    ensures b.receipts[rid].command == command && FromReceipt(b.rows, rid) < command.amount
    ensures Call(b, rid, command, lifetime).receipts == b.receipts && b.rows <= Call(b, rid, command, lifetime).rows
  {
    RecordedCall(b, rid, lifetime);
  }

  /** A row that the receipt had before the call, and the call still adds one: its target had what it asked for. */
  lemma EarlierRowIsClosed(b: Shop, rid: int, command: ReceiptCommand, lifetime: nat, p: Obligation)
    requires ShopOk(b) && p in Listed(b, command) && FindRow(b.rows, rid, p.target).Some?
    requires |b.rows| < |Call(b, rid, command, lifetime).rows|
    ensures var out := Call(b, rid, command, lifetime); Outstanding(out.receipts, out.rows, p) == 0
  {
    var i :| 0 <= i < |b.rows| && b.rows[i].receiptId == rid && b.rows[i].target == p.target;
    AddingMeansCredit(b, rid, command, lifetime);
    PairIsClosed(b, rid, i, p);
    StaysSatisfied(b.receipts, b.rows, Call(b, rid, command, lifetime).rows, p);
  }

  lemma PairIsClosed(b: Shop, rid: int, i: nat, p: Obligation)
    requires ShopOk(b) && rid in b.receipts && p in Listed(b, b.receipts[rid].command)
    requires i < |b.rows| && b.rows[i].receiptId == rid && b.rows[i].target == p.target
    requires FromReceipt(b.rows, rid) < b.receipts[rid].Amount()
    ensures Outstanding(b.receipts, b.rows, p) == 0
  {
    var listed := Listed(b, b.receipts[rid].command);
    ReadyToRun(b, rid);
    SortKeepsMembers(listed, p);
    var j :| 0 <= j < |SortObligations(listed)| && SortObligations(listed)[j] == p;
  }
}
