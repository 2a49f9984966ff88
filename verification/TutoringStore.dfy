/** The client's billing tables as the commands update them, one statement after another. */
module TutoringStore {
  import opened Numbers
  import opened PackageCycles
  import opened Renumbering
  import opened Attendance
  import opened Reopening
  import opened TutoringCommands

  /** What removing a link stores, for a cycle that exists. */
  lemma RemovedFromCycle(s: Store, x: Link, at: nat)
    requires Valid(s) && x in s.links && FindCycle(s.cycles, x.cycle) == Some(at)
    ensures s.cycles[at].limit >= 1 && s.cycles[at].realCount >= 1 && x.position >= 1
    ensures RemoveLink(s, x) == Store(
      s.plans, s.cycles[at := Recounted(s.cycles[at], s.cycles[at].realCount - 1)],
      CloseGap(WithoutLesson(s.links, x.cycle, x.occurrence), s.cycles[at], x.position), s.nextId)
  {
    var c := s.cycles[at];
    assert CycleOk(c, s.links) && c.id == x.cycle;
    ReopenedRows(c, s.links, x);
    assert RemoveLink(s, x) == s.(
      cycles := s.cycles[at := Recounted(c, c.realCount - 1)], links := CloseGap(WithoutLesson(s.links, c.id, x.occurrence), c, x.position));
  }

  /** The rows that are left of it, sorted from what was read beforehand. */
  lemma RowsWithGap(s: Store, x: Link, at: nat)
    requires Valid(s) && x in s.links && FindCycle(s.cycles, x.cycle) == Some(at)
    ensures var remaining := SortByPosition(WithoutLesson(LinksOf(s.links, x.cycle), x.cycle, x.occurrence));
      && Gapped(WithoutLesson(s.links, x.cycle, x.occurrence), s.cycles[at], x.position, remaining)
      && |remaining| == s.cycles[at].realCount - 1
  {
    RemovalLeavesGap(s.cycles[at], s.links, x);
    WithoutSame(s.links, x.cycle, x.occurrence);
  }

  class BillingTables {
    var plans: map<int, Plan>
    var cycles: seq<Cycle>
    var links: seq<Link>
    var nextId: int

    ghost function Snapshot(): Store
      reads this
    {
      Store(plans, cycles, links, nextId)
    }

    constructor ()
      ensures Snapshot() == EMPTY && Valid(Snapshot())
    {
      plans, cycles, links, nextId := map[], [], [], 0;
    }

    /** The body of the loop over billed students in completeLocalSession. */
    method CompleteOne(student: int, occurrence: int, date: int) returns (error: Option<Error>)
      requires Valid(Snapshot())
      modifies this
      ensures error == None
      ensures CompleteFor(old(Snapshot()), student, occurrence, date) == Done(Snapshot()) && Valid(Snapshot())
    {
      CompletingIsSound(Snapshot(), student, occurrence, date);
      if student !in plans || !plans[student].packaged { return None; }
      var s := Store(plans, cycles, links, nextId);
      if AlreadyLinked(s, student, occurrence) { return None; }
      var at := OpenCycle(cycles, student);
      var cycle: Cycle;
      if at.Some? {
        cycle := cycles[at.value];
      } else {
        cycle := NewCycle(s, student, date);
        nextId := nextId + 1;
      }
      if cycle.opening + cycle.realCount + 1 > cycle.limit { return Some(PackageCycleAlreadyComplete); }
      links := links + [NextLink(cycle, occurrence)];
      var updated := Advanced(cycle, date);
      if at.Some? { cycles := cycles[at.value := updated]; } else { cycles := cycles + [updated]; }
      return None;
    }

    /** Complete a lesson for every student it is billed to; room in a cycle never runs out. */
    method Complete(billed: seq<int>, occurrence: int, date: int) returns (error: Option<Error>)
      requires Valid(Snapshot())
      modifies this
      ensures error == None && Valid(Snapshot())
      ensures CompleteAll(old(Snapshot()), billed, occurrence, date) == Done(Snapshot())
    {
      ghost var before := Snapshot();
      var k := 0;
      error := None;
      while k < |billed|
        invariant k <= |billed| && error == None && Valid(Snapshot())
        invariant CompleteAll(before, billed[..k], occurrence, date) == Done(Snapshot())
      {
        error := CompleteOne(billed[k], occurrence, date);
        assert billed[..k + 1][..k] == billed[..k];
        k := k + 1;
      }
      assert billed[..k] == billed;
    }

    /** The inner loop of reopenLocalOccurrence: store the remaining rows at their new positions. */
    method Renumber(c: Cycle, remaining: seq<Link>, ghost gap: int) returns (count: nat)
      requires Gapped(links, c, gap, remaining)
      modifies this`links
      ensures count == |remaining| && links == CloseGap(old(links), c, gap)
    {
      ghost var left := links;
      NothingShifted(left, c, gap, remaining);
      count := 0;
      while count < |remaining|
        invariant count <= |remaining| && links == Partly(left, c, gap, count, 0)
      {
        RenumberStep(left, c, gap, remaining, count, 0);
        links := PutLink(links, FinalRow(c, remaining[count].occurrence, count));
        count := count + 1;
      }
      RenumberDone(left, c, gap, remaining, 0);
    }

    /** The cycle still looks the way it did in the snapshot that reopening read first. */
    ghost predicate Untouched(snapshot: seq<Cycle>, mappings: seq<Link>, id: int)
      reads this
    {
      LinksOf(links, id) == LinksOf(mappings, id) && FindCycle(cycles, id) == FindCycle(snapshot, id)
      && (FindCycle(cycles, id).Some? ==> cycles[FindCycle(cycles, id).value] == snapshot[FindCycle(cycles, id).value])
    }

    /** Renumber the remaining rows of a cycle, count them and store the cycle. */
    method Recount(at: nat, cycle: Cycle, remaining: seq<Link>, ghost gap: int)
      requires at < |cycles| && Gapped(links, cycle, gap, remaining)
      modifies this`cycles, this`links
      ensures cycles == old(cycles)[at := Recounted(cycle, |remaining|)] && links == CloseGap(old(links), cycle, gap)
    {
      var count := Renumber(cycle, remaining, gap);
      var completed := cycle.opening + count >= cycle.limit;
      cycles := cycles[at := cycle.(
        locked := true, realCount := count, status := if completed then Due else Open,
        completedOn := if completed then cycle.completedOn else None,
        paidOn := if completed then cycle.paidOn else None)];
    }

    /** The part of it that concerns the cycle of the link. */
    method CloseCycle(at: nat, cycle: Cycle, remaining: seq<Link>, removed: Link, ghost s: Store)
      requires Valid(s) && removed in s.links && FindCycle(s.cycles, removed.cycle) == Some(at) && cycle == s.cycles[at]
      requires remaining == SortByPosition(WithoutLesson(LinksOf(s.links, removed.cycle), removed.cycle, removed.occurrence))
      requires Snapshot() == s.(links := WithoutLesson(s.links, removed.cycle, removed.occurrence))
      modifies this`cycles, this`links
      ensures Snapshot() == RemoveLink(s, removed)
    {
      RowsWithGap(s, removed, at);
      RemovedFromCycle(s, removed, at);
      Recount(at, cycle, remaining, removed.position);
    }

    /** One affected link of reopenLocalOccurrence, worked out from the rows read beforehand. */
    method RemoveOne(removed: Link, snapshot: seq<Cycle>, mappings: seq<Link>)
      requires Valid(Snapshot()) && removed in links && Untouched(snapshot, mappings, removed.cycle)
      modifies this`cycles, this`links
      ensures Snapshot() == RemoveLink(old(Snapshot()), removed)
    {
      ghost var s := Snapshot();
      var at := FindCycle(snapshot, removed.cycle);
      links := WithoutLesson(links, removed.cycle, removed.occurrence);
      if at.None? { return; }
      var cycle := snapshot[at.value];
      var remaining := SortByPosition(WithoutLesson(LinksOf(mappings, cycle.id), cycle.id, removed.occurrence));
      CloseCycle(at.value, cycle, remaining, removed, s);
    }

    /** From the n-th affected link on, everything still looks as it was read, and the work left leads to the goal. */
    ghost predicate Underway(affected: seq<Link>, n: nat, occurrence: int, snapshot: seq<Cycle>, mappings: seq<Link>, goal: Store)
      reads this
    {
      && n <= |affected| && Valid(Snapshot()) && Pending(Snapshot(), affected[n..], occurrence)
      && RemoveAll(Snapshot(), affected[n..], occurrence) == goal
      && forall m :: n <= m < |affected| ==> Untouched(snapshot, mappings, affected[m].cycle)
    }

    lemma UnderwayStarts(affected: seq<Link>, occurrence: int)
      requires Valid(Snapshot()) && Pending(Snapshot(), affected, occurrence)
      ensures Underway(affected, 0, occurrence, cycles, links, RemoveAll(Snapshot(), affected, occurrence))
    {
      assert affected[0..] == affected;
    }

    lemma UnderwayEnds(affected: seq<Link>, occurrence: int, snapshot: seq<Cycle>, mappings: seq<Link>, goal: Store)
      requires Underway(affected, |affected|, occurrence, snapshot, mappings, goal)
      ensures Snapshot() == goal
    {
      assert affected[|affected|..] == [];
    }

    /** One turn of the loop over affected links. */
    method RemoveNext(affected: seq<Link>, n: nat, occurrence: int, snapshot: seq<Cycle>, mappings: seq<Link>, ghost goal: Store)
      requires n < |affected| && Underway(affected, n, occurrence, snapshot, mappings, goal)
      modifies this`cycles, this`links
      ensures Underway(affected, n + 1, occurrence, snapshot, mappings, goal)
    {
      ghost var s := Snapshot();
      assert affected[n..][0] == affected[n] && affected[n..][1..] == affected[n + 1..];
      assert affected[n] in affected[n..];
      RemoveOne(affected[n], snapshot, mappings);
      RemovingIsSound(s, affected[n]);
      PendingShrinks(s, affected[n..], occurrence);
      forall m | n < m < |affected| ensures Untouched(snapshot, mappings, affected[m].cycle) {
        assert affected[n..][m - n] == affected[m];
        RemovalElsewhere(s, affected[n], affected[m].cycle);
      }
    }

    /** The loop over the links of the lesson, working from the rows read before it. */
    method RemoveAffected(affected: seq<Link>, occurrence: int)
      requires Valid(Snapshot()) && Pending(Snapshot(), affected, occurrence)
      modifies this`cycles, this`links
      ensures Snapshot() == RemoveAll(old(Snapshot()), affected, occurrence)
    {
      var mappings, snapshot := links, cycles;
      ghost var goal := RemoveAll(Snapshot(), affected, occurrence);
      UnderwayStarts(affected, occurrence);
      var n := 0;
      while n < |affected|
        invariant Underway(affected, n, occurrence, snapshot, mappings, goal)
      {
        RemoveNext(affected, n, occurrence, snapshot, mappings, goal);
        n := n + 1;
      }
      UnderwayEnds(affected, occurrence, snapshot, mappings, goal);
    }

    /** Return a completed lesson to the schedule. */
    method Reopen(sessionStudents: seq<int>, occurrence: int) returns (error: Option<Error>)
      requires Valid(Snapshot())
      modifies this`cycles, this`links
      ensures Valid(Snapshot())
      ensures match error
        case None => Reopened(old(Snapshot()), sessionStudents, occurrence) == Done(Snapshot())
        case Some(e) => Reopened(old(Snapshot()), sessionStudents, occurrence) == Rejected(e) && Snapshot() == old(Snapshot())
    {
      var affected := Affected(links, occurrence);
      AffectedIsPending(Snapshot(), occurrence);
      if affected == [] && (exists k :: 0 <= k < |sessionStudents| && HasCycle(cycles, sessionStudents[k])) {
        return Some(CorrectionRequiresSync);
      }
      RemoveAffected(affected, occurrence);
      return None;
    }

    /** The row that a rebalance stores for a cycle that is not cancelled. */
    method BalanceCycle(c: Cycle, covered: map<int, Option<int>>) returns (d: Cycle)
      requires c.status != Cancelled
      ensures d == Balanced(c, covered)
    {
      if c.opening + c.realCount < c.limit {
        if c.status == Open && c.paidOn.None? { return c; }
        return c.(status := Open, paidOn := None);
      }
      var paid := c.id in covered;
      return c.(status := if paid then Paid else Due, paidOn := if !paid then None else if covered[c.id].Some? then covered[c.id] else c.paidOn);
    }

    /** The end of rebalanceStudentLocally: the student's cycles are open, due or paid by what is allocated to them. */
    method Balance(student: int, covered: map<int, Option<int>>)
      modifies this`cycles
      ensures Snapshot() == BalancedStore(old(Snapshot()), student, covered)
      ensures old(Valid(Snapshot())) ==> Valid(Snapshot())
    {
      ghost var s := Snapshot();
      var packaged, i := student in plans && plans[student].packaged, 0;
      while packaged && i < |cycles|
        invariant i <= |cycles| == |s.cycles|
        invariant forall j :: 0 <= j < i ==> cycles[j] == BalancedStore(s, student, covered).cycles[j]
        invariant forall j :: i <= j < |cycles| ==> cycles[j] == s.cycles[j]
      {
        if cycles[i].student == student && cycles[i].status != Cancelled {
          var stored := BalanceCycle(cycles[i], covered);
          cycles := cycles[i := stored];
        }
        i := i + 1;
      }
      assert cycles == BalancedStore(s, student, covered).cycles;
      if Valid(s) { BalancingIsSound(s, student, covered); }
    }

    /** The checks of configureLocalStudentBilling. */
    method CheckBilling(student: int, input: BillingInput) returns (error: Option<Error>)
      requires Valid(Snapshot())
      ensures error == Refusal(Snapshot(), student, input)
    {
      var hasCycle, at := HasCycle(cycles, student), CurrentCycle(cycles, student);
      if student in plans && hasCycle && plans[student].packaged != input.Package? {
        return Some(BillingModeLockedByHistory);
      }
      if input.Package? {
        if at.None? && input.opening > input.size { return Some(OpeningProgressExceedsPackage); }
        if at.Some? {
          if input.opening > cycles[at.value].limit { return Some(OpeningProgressExceedsPackage); }
          if !CanChangeOpening(cycles[at.value], input.opening) { return Some(OpeningProgressLockedByRealLessons); }
        }
      }
      return None;
    }

    /** Set a student's billing plan, his first cycle or his opening progress. */
    method Configure(student: int, input: BillingInput) returns (error: Option<Error>)
      requires Valid(Snapshot()) && InputOk(input)
      modifies this
      ensures Valid(Snapshot())
      ensures match error
        case None => Configured(old(Snapshot()), student, input) == Done(Snapshot())
        case Some(e) => Configured(old(Snapshot()), student, input) == Rejected(e) && Snapshot() == old(Snapshot())
    {
      error := CheckBilling(student, input);
      if error.Some? { return; }
      ConfiguringIsSound(Snapshot(), student, input);
      ghost var before := Snapshot();
      if input.PerSession? {
        plans := plans[student := Plan(false, None, None)];
      } else {
        plans := plans[student := Plan(true, Some(input.size), Some(input.price))];
        var at := CurrentCycle(cycles, student);
        if !HasCycle(cycles, student) {
          cycles, nextId := cycles + [FirstCycle(Store(plans, cycles, links, nextId), student, input)], nextId + 1;
        } else if at.Some? && cycles[at.value].opening != input.opening {
          cycles := cycles[at.value := Corrected(cycles[at.value], input)];
        }
      }
      assert Configured(before, student, input) == Done(Snapshot());
    }
  }

  /** Removing a link leaves the rows of another cycle, and that cycle's row, alone. */
  lemma RemovalElsewhere(s: Store, x: Link, id: int)
    requires Valid(s) && x in s.links && id != x.cycle
    ensures LinksOf(RemoveLink(s, x).links, id) == LinksOf(s.links, id)
    ensures FindCycle(RemoveLink(s, x).cycles, id) == FindCycle(s.cycles, id)
    ensures var at := FindCycle(s.cycles, id); at.Some? ==> RemoveLink(s, x).cycles[at.value] == s.cycles[at.value]
  {
    var at, t := FindCycle(s.cycles, x.cycle), RemoveLink(s, x);
    RemovingIsSound(s, x);
    WithoutOther(s.links, x.cycle, x.occurrence, id);
    if at.Some? {
      var c := s.cycles[at.value];
      ReopenedRows(c, s.links, x);
      ReopenElsewhere(c, s.links, x.occurrence, x.position, id);
    }
    forall j | 0 <= j < |s.cycles| ensures t.cycles[j].id == s.cycles[j].id { assert SameTerms(s.cycles[j], t.cycles[j]); }
    var found := FindCycle(s.cycles, id);
    if found.Some? {
      StudentOfAt(t.cycles, found.value);
    }
  }
}
