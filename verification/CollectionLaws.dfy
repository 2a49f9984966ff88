/** What `collect` promises: crash-resume, the closed form, and exactly when it is faithful. */
module CollectionLaws {
  import opened Numbers
  import opened Waterfall
  import opened Ledger
  import opened Collection

  // ---- crash-resume -------------------------------------------------------------------

  /** A crash after k planned inserts leaves no open pair behind. */
  lemma {:induction false} CrashLeavesNoOpenPair(receipts: Receipts, rows: seq<Row>, rid: int, rem: nat, obs: seq<Obligation>, k: nat)
    requires Unallocated(receipts, rows, rid, rem) && Consistent(obs)
    requires NoOpenPair(receipts, rows, rid, rem, obs)
    requires k <= |Plan(receipts, rows, rid, rem, obs)|
    ensures var done := Plan(receipts, rows, rid, rem, obs)[..k];
            Amounts(done) <= rem && NoOpenPair(receipts, rows + done, rid, rem - Amounts(done), obs)
    decreases |obs|
  {
    var plan := Plan(receipts, rows, rid, rem, obs);
    if k == 0 {
      assert rows + plan[..0] == rows;
    } else if Outstanding(receipts, rows, obs[0]) == 0 {
      CrashLeavesNoOpenPair(receipts, rows, rid, rem, obs[1..], k);
      SatisfiedStays(receipts, rows, plan[..k], obs[0]);
      TailNoOpenPair(receipts, rows + plan[..k], rid, rem - Amounts(plan[..k]), obs);
    } else {
      var row := Row(rid, obs[0].target, Min(rem, Outstanding(receipts, rows, obs[0])));
      var tail := Plan(receipts, rows + [row], rid, rem - row.amount, obs[1..]);
      HeadAndTail(rows, plan, row, tail, k);
      StepKeepsNoOpenPair(receipts, rows, rid, rem, obs);
      CrashLeavesNoOpenPair(receipts, rows + [row], rid, rem - row.amount, obs[1..], k - 1);
      RowSatisfies(receipts, rows, rid, rem, obs[0], tail[..k - 1]);
      TailNoOpenPair(receipts, rows + plan[..k], rid, rem - Amounts(plan[..k]), obs);
    }
  }

  lemma TailNoOpenPair(receipts: Receipts, rows: seq<Row>, rid: int, rem: nat, obs: seq<Obligation>)
    requires obs != [] && NoOpenPair(receipts, rows, rid, rem, obs[1..])
    requires rem == 0 || Outstanding(receipts, rows, obs[0]) == 0
    ensures NoOpenPair(receipts, rows, rid, rem, obs)
  {
    forall i, j | rem > 0 && 0 <= i < |rows| && 0 <= j < |obs| && rows[i].receiptId == rid && rows[i].target == obs[j].target
      ensures Outstanding(receipts, rows, obs[j]) == 0
    {
      if j > 0 {
        assert obs[j] == obs[1..][j - 1];
      }
    }
  }

  /** The attempt after k inserts makes the others. */
  lemma RetryFollowsPlan(receipts: Receipts, rows: seq<Row>, rid: int, rem: nat, obs: seq<Obligation>, k: nat, second: nat)
    requires Unallocated(receipts, rows, rid, rem) && Consistent(obs)
    requires NoOpenPair(receipts, rows, rid, rem, obs)
    requires k <= |Plan(receipts, rows, rid, rem, obs)| <= second
    ensures var plan := Plan(receipts, rows, rid, rem, obs);
            && Amounts(plan[..k]) <= rem && Unallocated(receipts, rows + plan[..k], rid, rem - Amounts(plan[..k]))
            && var retried := Run(receipts, rows + plan[..k], rid, rem - Amounts(plan[..k]), obs, second);
               retried.rows == rows + plan && retried.remaining == rem - Amounts(plan) && retried.error.None?
  {
    var plan := Plan(receipts, rows, rid, rem, obs);
    var done, rest := plan[..k], plan[k..];
    ResumePlansTheRest(receipts, rows, rid, rem, obs, k);
    CrashLeavesNoOpenPair(receipts, rows, rid, rem, obs, k);
    RunFollowsPlan(receipts, rows + done, rid, rem - Amounts(done), obs, second);
    assert plan == done + rest;
    Regroup(rows, done, rest);
    AmountsAppend(done, rest);
  }

  /**
   Crash and retry: however many inserts the first attempt managed, the second one ends in the
   ledger of a single uninterrupted run.
   */
  lemma CrashThenRetry(receipts: Receipts, rows: seq<Row>, rid: int, rem: nat, obs: seq<Obligation>, first: nat, second: nat)
    requires Unallocated(receipts, rows, rid, rem) && Consistent(obs)
    requires NoOpenPair(receipts, rows, rid, rem, obs)
    requires second >= |Plan(receipts, rows, rid, rem, obs)| > first
    ensures var crashed := Run(receipts, rows, rid, rem, obs, first);
            && crashed.error == Some(Crashed)
            && FromReceipt(crashed.rows, rid) <= receipts[rid].Amount()
            && var retried := Run(receipts, crashed.rows, rid, receipts[rid].Amount() - FromReceipt(crashed.rows, rid), obs, second);
               var once := Run(receipts, rows, rid, rem, obs, second);
               retried.rows == once.rows && retried.remaining == once.remaining && retried.error.None? && once.error.None?
  {
    RunFollowsPlan(receipts, rows, rid, rem, obs, first);
    RunFollowsPlan(receipts, rows, rid, rem, obs, second);
    RetryFollowsPlan(receipts, rows, rid, rem, obs, first, second);
  }

  lemma {:induction false} AmountsAppend(xs: seq<Row>, ys: seq<Row>)
    ensures Amounts(xs + ys) == Amounts(xs) + Amounts(ys)
  {
    if xs == [] {
      assert xs + ys == ys;
    } else {
      assert (xs + ys)[1..] == xs[1..] + ys;
      AmountsAppend(xs[1..], ys);
    }
  }

  // ---- the plan is the waterfall ------------------------------------------------------

  /** The rows that give `given[j]` pence to obligation j, without the empty ones. */
  function PouredRows(rid: int, obs: seq<Obligation>, given: seq<nat>): seq<Row>
    requires |obs| == |given|
  {
    if obs == [] then []
    else (if given[0] > 0 then [Row(rid, obs[0].target, given[0])] else []) + PouredRows(rid, obs[1..], given[1..])
  }

  lemma {:induction false} PourNothing(rid: int, obs: seq<Obligation>, outs: seq<nat>)
    requires |obs| == |outs|
    ensures PouredRows(rid, obs, Pour(0, outs)) == []
  {
    if obs != [] {
      assert Pour(0, outs)[1..] == Pour(0, outs[1..]);
      PourNothing(rid, obs[1..], outs[1..]);
    }
  }

  lemma OutstandingsTail(receipts: Receipts, rows: seq<Row>, row: Row, obs: seq<Obligation>)
    requires obs != [] && DistinctTargets(obs) && Active(receipts, row.receiptId) && row.target == obs[0].target
    ensures Outstandings(receipts, rows, obs)[1..] == Outstandings(receipts, rows, obs[1..])
    ensures Outstandings(receipts, rows + [row], obs[1..]) == Outstandings(receipts, rows, obs[1..])
  {
    forall j | 0 <= j < |obs[1..]|
      ensures Outstanding(receipts, rows + [row], obs[1..][j]) == Outstanding(receipts, rows, obs[1..][j])
    {
      assert obs[1..][j] == obs[j + 1];
      AppendedOutstanding(receipts, rows, row, obs[j + 1]);
    }
  }

  lemma PouredHead(rid: int, obs: seq<Obligation>, rem: nat, outs: seq<nat>)
    requires obs != [] && |obs| == |outs|
    ensures var taken := Min(rem, outs[0]);
            PouredRows(rid, obs, Pour(rem, outs))
            == (if taken > 0 then [Row(rid, obs[0].target, taken)] else []) + PouredRows(rid, obs[1..], Pour(rem - taken, outs[1..]))
  {
    assert Pour(rem, outs)[1..] == Pour(rem - Min(rem, outs[0]), outs[1..]);
  }

  /** One receipt: the inserted rows are the pour over the outstanding amounts. */
  lemma {:induction false} PlanIsPour(receipts: Receipts, rows: seq<Row>, rid: int, rem: nat, obs: seq<Obligation>)
    requires Active(receipts, rid) && DistinctTargets(obs)
    ensures Plan(receipts, rows, rid, rem, obs) == PouredRows(rid, obs, Pour(rem, Outstandings(receipts, rows, obs)))
    decreases |obs|
  {
    var outs := Outstandings(receipts, rows, obs);
    if rem == 0 {
      PourNothing(rid, obs, outs);
    } else if obs != [] {
      var row := Row(rid, obs[0].target, Min(rem, outs[0]));
      OutstandingsTail(receipts, rows, row, obs);
      PouredHead(rid, obs, rem, outs);
      if outs[0] == 0 {
        PlanIsPour(receipts, rows, rid, rem, obs[1..]);
      } else {
        PlanIsPour(receipts, rows + [row], rid, rem - row.amount, obs[1..]);
      }
    }
  }

  // ---- exactly when collect is faithful -----------------------------------------------

  /** The call succeeds and the ledger really holds what it reports as allocated. */
  predicate Faithful(receipts: Receipts, rid: int, a: Attempt)
    requires rid in receipts
  {
    a.error.None? && FromReceipt(a.rows, rid) == receipts[rid].Amount() - a.remaining
  }

  /** Some obligation this receipt would still reach already has a row of this receipt. */
  predicate Collides(rows: seq<Row>, rid: int, rem: nat, obs: seq<Obligation>, outs: seq<nat>)
    requires |outs| == |obs|
  {
    exists j :: 0 <= j < |obs| && FindRow(rows, rid, obs[j].target).Some? && Pour(rem, outs)[j] > 0
  }

  lemma {:induction false} RunNeverOverReports(receipts: Receipts, rows: seq<Row>, rid: int, rem: nat, obs: seq<Obligation>, lifetime: nat)
    ensures var a := Run(receipts, rows, rid, rem, obs, lifetime);
            FromReceipt(a.rows, rid) + a.remaining <= FromReceipt(rows, rid) + rem
    decreases |obs|
  {
    if obs != [] && rem > 0 {
      var out := Outstanding(receipts, rows, obs[0]);
      if out == 0 {
        RunNeverOverReports(receipts, rows, rid, rem, obs[1..], lifetime);
      } else {
        var row := Row(rid, obs[0].target, Min(rem, out));
        FromReceiptAppend(rows, [row], rid);
        match Allocating(receipts, rows, rid, obs[0].target, row.amount, lifetime)
        case Failed(_) =>
        case AlreadyThere => RunNeverOverReports(receipts, rows, rid, rem - row.amount, obs[1..], lifetime);
        case Inserted => RunNeverOverReports(receipts, rows + [row], rid, rem - row.amount, obs[1..], lifetime - 1);
      }
    }
  }

  lemma {:induction false} FindRowAppend(rows: seq<Row>, row: Row, rid: int, t: Target)
    requires row.receiptId != rid || row.target != t
    ensures FindRow(rows + [row], rid, t) == FindRow(rows, rid, t)
  {
    if rows != [] {
      assert (rows + [row])[1..] == rows[1..] + [row];
      FindRowAppend(rows[1..], row, rid, t);
    }
  }

  /** Skipping the first obligation, whose target differs from all later ones, shifts the collision test. */
  lemma CollidesTail(rows: seq<Row>, rows': seq<Row>, rid: int, rem: nat, obs: seq<Obligation>, outs: seq<nat>)
    requires |outs| == |obs| > 0 && DistinctTargets(obs)
    requires rows' == rows || exists n: nat :: rows' == rows + [Row(rid, obs[0].target, n)]
    requires FindRow(rows, rid, obs[0].target).None? || Pour(rem, outs)[0] == 0
    ensures Collides(rows, rid, rem, obs, outs) <==> Collides(rows', rid, rem - Min(rem, outs[0]), obs[1..], outs[1..])
  {
    var rem' := rem - Min(rem, outs[0]);
    assert Pour(rem, outs)[1..] == Pour(rem', outs[1..]);
    forall j | 0 <= j < |obs[1..]|
      ensures FindRow(rows', rid, obs[1..][j].target) == FindRow(rows, rid, obs[j + 1].target)
      ensures Pour(rem', outs[1..])[j] == Pour(rem, outs)[j + 1]
    {
      if rows' != rows {
        var n: nat :| rows' == rows + [Row(rid, obs[0].target, n)];
        FindRowAppend(rows, Row(rid, obs[0].target, n), rid, obs[j + 1].target);
      }
    }
    if Collides(rows, rid, rem, obs, outs) {
      var j :| 0 <= j < |obs| && FindRow(rows, rid, obs[j].target).Some? && Pour(rem, outs)[j] > 0;
      assert FindRow(rows', rid, obs[1..][j - 1].target).Some? && Pour(rem', outs[1..])[j - 1] > 0;
    }
    if Collides(rows', rid, rem', obs[1..], outs[1..]) {
      var j :| 0 <= j < |obs[1..]| && FindRow(rows', rid, obs[1..][j].target).Some? && Pour(rem', outs[1..])[j] > 0;
      assert FindRow(rows, rid, obs[j + 1].target).Some? && Pour(rem, outs)[j + 1] > 0;
    }
  }

  /** Running into a row of the same receipt either throws or reports pence that the ledger does not hold. */
  lemma CollisionIsUnfaithful(receipts: Receipts, rows: seq<Row>, rid: int, rem: nat, obs: seq<Obligation>, lifetime: nat)
    requires Unallocated(receipts, rows, rid, rem) && obs != [] && rem > 0 && Outstanding(receipts, rows, obs[0]) > 0
    requires FindRow(rows, rid, obs[0].target).Some?
    ensures !Faithful(receipts, rid, Run(receipts, rows, rid, rem, obs, lifetime))
  {
    RunNeverOverReports(receipts, rows, rid, rem - Min(rem, Outstanding(receipts, rows, obs[0])), obs[1..], lifetime);
  }

  /** With nothing left to give, nothing collides. */
  lemma NothingToGive(rows: seq<Row>, rid: int, obs: seq<Obligation>, outs: seq<nat>)
    requires |outs| == |obs|
    ensures !Collides(rows, rid, 0, obs, outs)
  {
    forall j | 0 <= j < |obs| ensures Pour(0, outs)[j] == 0 {
      PourClosedForm(0, outs, j);
    }
  }

  lemma RunSkips(receipts: Receipts, rows: seq<Row>, rid: int, rem: nat, obs: seq<Obligation>, lifetime: nat)
    requires Unallocated(receipts, rows, rid, rem) && DistinctTargets(obs) && obs != [] && rem > 0
    requires Outstanding(receipts, rows, obs[0]) == 0
    ensures Run(receipts, rows, rid, rem, obs, lifetime) == Run(receipts, rows, rid, rem, obs[1..], lifetime)
    ensures Collides(rows, rid, rem, obs, Outstandings(receipts, rows, obs)) <==> Collides(rows, rid, rem, obs[1..], Outstandings(receipts, rows, obs[1..]))
  {
    OutstandingsTail(receipts, rows, Row(rid, obs[0].target, 0), obs);
    CollidesTail(rows, rows, rid, rem, obs, Outstandings(receipts, rows, obs));
  }

  lemma RunInserts(receipts: Receipts, rows: seq<Row>, rid: int, rem: nat, obs: seq<Obligation>, lifetime: nat)
    requires Unallocated(receipts, rows, rid, rem) && DistinctTargets(obs) && obs != [] && rem > 0 && lifetime > 0
    requires Outstanding(receipts, rows, obs[0]) > 0 && FindRow(rows, rid, obs[0].target).None?
    ensures var row := Row(rid, obs[0].target, Min(rem, Outstanding(receipts, rows, obs[0])));
            && Unallocated(receipts, rows + [row], rid, rem - row.amount)
            && Faithful(receipts, rid, Run(receipts, rows, rid, rem, obs, lifetime))
               == Faithful(receipts, rid, Run(receipts, rows + [row], rid, rem - row.amount, obs[1..], lifetime - 1))
            && Collides(rows, rid, rem, obs, Outstandings(receipts, rows, obs))
               == Collides(rows + [row], rid, rem - row.amount, obs[1..], Outstandings(receipts, rows + [row], obs[1..]))
  {
    var row := Row(rid, obs[0].target, Min(rem, Outstanding(receipts, rows, obs[0])));
    OutstandingsTail(receipts, rows, row, obs);
    FromReceiptAppend(rows, [row], rid);
    CollidesTail(rows, rows + [row], rid, rem, obs, Outstandings(receipts, rows, obs));
  }

  /**
   collect is faithful if and only if no obligation it still has to reach already carries a row
   of the same receipt. In every other case it throws ALLOCATION_CONFLICT or, when the two
   amounts happen to agree, reports pence that no row holds.
   */
  lemma {:induction false} FaithfulIffNoCollision(receipts: Receipts, rows: seq<Row>, rid: int, rem: nat, obs: seq<Obligation>, lifetime: nat)
    requires Unallocated(receipts, rows, rid, rem) && DistinctTargets(obs) && lifetime >= |obs|
    ensures Faithful(receipts, rid, Run(receipts, rows, rid, rem, obs, lifetime))
       <==> !Collides(rows, rid, rem, obs, Outstandings(receipts, rows, obs))
    decreases |obs|
  {
    if rem == 0 {
      NothingToGive(rows, rid, obs, Outstandings(receipts, rows, obs));
    } else if obs != [] {
      var out := Outstanding(receipts, rows, obs[0]);
      if out == 0 {
        RunSkips(receipts, rows, rid, rem, obs, lifetime);
        FaithfulIffNoCollision(receipts, rows, rid, rem, obs[1..], lifetime);
      } else if FindRow(rows, rid, obs[0].target).Some? {
        assert Pour(rem, Outstandings(receipts, rows, obs))[0] > 0;
        CollisionIsUnfaithful(receipts, rows, rid, rem, obs, lifetime);
      } else {
        var row := Row(rid, obs[0].target, Min(rem, out));
        RunInserts(receipts, rows, rid, rem, obs, lifetime);
        FaithfulIffNoCollision(receipts, rows + [row], rid, rem - row.amount, obs[1..], lifetime - 1);
      }
    }
  }

  /**
   The failing case exists: 10 pence cover an obligation of 4; if that obligation is raised to 6
   the next collect throws, and if it is raised to 8 it reports 8 pence although the ledger holds 4.
   */
  lemma RaisedObligationConflicts()
    ensures var t := Target(1, 1, 1);
            var receipts: Receipts := map[7 := Receipt(ReceiptCommand(Some(1), None, 10, 0, 0), false)];
            var rows := [Row(7, t, 4)];
            && Run(receipts, [], 7, 10, [Obligation(t, 0, 4)], 9).rows == rows
            && Run(receipts, rows, 7, 6, [Obligation(t, 0, 6)], 9).error == Some(AllocationConflict)
            && var silent := Run(receipts, rows, 7, 6, [Obligation(t, 0, 8)], 9);
               silent.error.None? && silent.rows == rows && silent.remaining == 2
  {
    var t := Target(1, 1, 1);
    var receipts: Receipts := map[7 := Receipt(ReceiptCommand(Some(1), None, 10, 0, 0), false)];
    var rows := [Row(7, t, 4)];
    var o4, o6, o8 := [Obligation(t, 0, 4)], [Obligation(t, 0, 6)], [Obligation(t, 0, 8)];
    assert ToTarget(receipts, [], t) == 0 && FromReceipt([], 7) == 0;
    assert ToTarget(receipts, rows, t) == 4 && FindRow(rows, 7, t) == Some(4);
    assert o4[1..] == [] && o6[1..] == [] && o8[1..] == [] && [] + rows == rows;
    assert Run(receipts, rows, 7, 6, [], 8) == Attempt(rows, [], 6, None);
    assert Run(receipts, rows, 7, 2, [], 9) == Attempt(rows, [], 2, None);
  }
}
