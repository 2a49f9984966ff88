/** What configuring a package comes to, read off the fields of the input, on the client and on the server. */
module BillingTerms {
  import opened Numbers
  import opened PackageCycles
  import opened Attendance
  import opened Reopening
  import opened TutoringCommands
  import opened ServerConfigure
  import opened LessonCompletion

  predicate HasNoCycle(s: Store, student: int) {
    forall i :: 0 <= i < |s.cycles| ==> s.cycles[i].student != student
  }

  // ---- the first package --------------------------------------------------------------

  /** The row of a student's first package. */
  predicate IsFirstPackage(c: Cycle, student: int, input: BillingInput)
    requires input.Package?
  {
    && c.student == student && c.sequenceNo == 1 && c.limit == input.size && c.price == input.price
    && c.opening == input.opening && c.realCount == 0 && !c.locked && c.paidOn == None
    && (input.anchor.Some? ==> c.startedOn == input.anchor.value)
    && (input.anchor.None? ==> c.startedOn == input.effectiveFrom)
    && (input.opening == input.size ==> c.status == Due && c.completedOn == Some(input.effectiveFrom))
    && (input.opening != input.size ==> c.status == Open && c.completedOn == None)
  }

  /** t is s with the plan of this student replaced, and everything else of the plans as it was. */
  predicate OnlyPlanSet(s: Store, t: Store, student: int, plan: Plan) {
    && student in t.plans && t.plans[student] == plan
    && (forall x :: x in s.plans && x != student ==> x in t.plans && t.plans[x] == s.plans[x])
    && (forall x :: x in t.plans && x != student ==> x in s.plans)
    && t.links == s.links
  }

  predicate AddsFirstPackage(s: Store, t: Store, student: int, input: BillingInput)
    requires input.Package?
  {
    && OnlyPlanSet(s, t, student, Plan(true, Some(input.size), Some(input.price)))
    && |t.cycles| == |s.cycles| + 1 && s.cycles <= t.cycles && t.nextId == s.nextId + 1
    && t.cycles[|s.cycles|].id == s.nextId && IsFirstPackage(t.cycles[|s.cycles|], student, input)
  }

  /** A package for a student without cycles is refused if and only if more lessons were taken than it holds. */
  lemma FirstPackage(s: Store, student: int, input: BillingInput)
    requires input.Package? && HasNoCycle(s, student)
    ensures var out := Configured(s, student, input);
      if input.opening > input.size then out == Rejected(OpeningProgressExceedsPackage)
      else out.Done? && AddsFirstPackage(s, out.store, student, input)
  {
    assert CurrentCycle(s.cycles, student).None? && !HasCycle(s.cycles, student);
  }

  lemma FirstPackageOnServer(s: Store, lessons: bool, student: int, input: BillingInput)
    requires input.Package? && HasNoCycle(s, student) && !(lessons && student in s.plans && !s.plans[student].packaged)
    ensures if input.opening > input.size then ServerRefusal(s, lessons, student, input) == Some(OpeningProgressExceedsPackage)
      else && ServerRefusal(s, lessons, student, input).None? && !InsertFails(s, student, input)
           && AddsFirstPackage(s, Final(s, student, input), student, input)
  {
    assert CurrentCycle(s.cycles, student).None? && !HasCycle(s.cycles, student);
  }

  /** A student who pays per lesson gets no cycle, and what he had stays. */
  lemma PerSessionKeepsCycles(s: Store, student: int)
    ensures var out := Configured(s, student, PerSession);
      if student in s.plans && s.plans[student].packaged && !HasNoCycle(s, student) then out == Rejected(BillingModeLockedByHistory)
      else out.Done? && OnlyPlanSet(s, out.store, student, Plan(false, None, None)) && out.store.cycles == s.cycles
  {
  }

  /**
   A student whose cycles are all cancelled gets his plan, and no cycle from the client. The server creates a first one,
   unless one of the cancelled rows has the number 1: then its INSERT is ignored and the command fails behind the plan.
   */
  lemma AllCancelled(s: Store, lessons: bool, student: int, input: BillingInput)
    requires input.Package? && !HasNoCycle(s, student) && input.opening <= input.size
    requires student in s.plans ==> s.plans[student].packaged
    requires forall i :: 0 <= i < |s.cycles| && s.cycles[i].student == student ==> s.cycles[i].status == Cancelled
    ensures var out, t := Configured(s, student, input), Final(s, student, input);
      && out.Done? && OnlyPlanSet(s, out.store, student, Plan(true, Some(input.size), Some(input.price))) && out.store.cycles == s.cycles
      && ServerRefusal(s, lessons, student, input).None?
      && (InsertFails(s, student, input) <==>
            exists i :: 0 <= i < |s.cycles| && s.cycles[i].student == student && s.cycles[i].sequenceNo == 1)
      && (InsertFails(s, student, input) ==> t == out.store)
      && (!InsertFails(s, student, input) ==> AddsFirstPackage(s, t, student, input))
  {
    assert CurrentCycle(s.cycles, student).None?;
    var i :| 0 <= i < |s.cycles| && s.cycles[i].student == student;
    assert HasCycle(s.cycles, student);
  }

  // ---- a student with cycles ----------------------------------------------------------

  /** Cycle i is the uncancelled one of the student with the highest sequence number. */
  predicate IsCurrent(s: Store, student: int, i: nat) {
    && i < |s.cycles| && s.cycles[i].student == student && s.cycles[i].status != Cancelled
    && forall j :: 0 <= j < |s.cycles| && j != i && s.cycles[j].student == student && s.cycles[j].status != Cancelled ==>
        s.cycles[j].sequenceNo < s.cycles[i].sequenceNo
  }

  /** Only the progress of the row was corrected; it is due exactly when it is complete now. */
  predicate IsCorrected(c: Cycle, d: Cycle, input: BillingInput)
    requires input.Package?
  {
    && d.id == c.id && d.student == c.student && d.sequenceNo == c.sequenceNo && d.limit == c.limit && d.price == c.price
    && d.realCount == c.realCount && d.locked == c.locked && d.startedOn == c.startedOn
    && d.opening == input.opening && d.paidOn == None
    && (d.opening + d.realCount == d.limit ==>
          d.status == Due && d.completedOn == if c.completedOn.Some? then c.completedOn else Some(input.effectiveFrom))
    && (d.opening + d.realCount != d.limit ==> d.status == Open && d.completedOn == None)
  }

  /** Configuring a package for a student with a current cycle, refusals included. */
  predicate Reconfigures(s: Store, student: int, input: BillingInput, i: nat, refused: Option<Error>, t: Store)
    requires input.Package? && i < |s.cycles|
  {
    var c := s.cycles[i];
    if student in s.plans && !s.plans[student].packaged then refused == Some(BillingModeLockedByHistory)
    else if input.opening > c.limit then refused == Some(OpeningProgressExceedsPackage)
    else if input.opening != c.opening && (c.locked || c.realCount > 0) then refused == Some(OpeningProgressLockedByRealLessons)
    else
      && refused == None && OnlyPlanSet(s, t, student, Plan(true, Some(input.size), Some(input.price)))
      && |t.cycles| == |s.cycles| && t.nextId == s.nextId
      && (forall j :: 0 <= j < |s.cycles| && j != i ==> t.cycles[j] == s.cycles[j])
      && (input.opening == c.opening ==> t.cycles[i] == c)
      && (input.opening != c.opening ==> IsCorrected(c, t.cycles[i], input))
  }

  lemma CurrentIsFound(s: Store, student: int, i: nat)
    requires IsCurrent(s, student, i)
    ensures CurrentCycle(s.cycles, student) == Some(i) && HasCycle(s.cycles, student)
  {
  }

  lemma NextPackage(s: Store, student: int, input: BillingInput, i: nat)
    requires input.Package? && IsCurrent(s, student, i)
    ensures match Configured(s, student, input)
      case Done(t) => Reconfigures(s, student, input, i, None, t)
      case Rejected(error) => Reconfigures(s, student, input, i, Some(error), s)
  {
    CurrentIsFound(s, student, i);
  }

  lemma NextPackageOnServer(s: Store, lessons: bool, student: int, input: BillingInput, i: nat)
    requires input.Package? && IsCurrent(s, student, i)
    ensures Reconfigures(s, student, input, i, ServerRefusal(s, lessons, student, input), Final(s, student, input))
    ensures !InsertFails(s, student, input)
  {
    CurrentIsFound(s, student, i);
    ProgressOnce(s, student, input);
  }

  // ---- the cycles that lessons open and fill ------------------------------------------

  /** One lesson more; the last one makes the cycle due on its date. */
  predicate TookLesson(c: Cycle, d: Cycle, date: int) {
    && d.id == c.id && d.student == c.student && d.sequenceNo == c.sequenceNo && d.limit == c.limit && d.price == c.price
    && d.opening == c.opening && d.startedOn == c.startedOn && d.locked && d.realCount == c.realCount + 1
    && (d.opening + d.realCount == d.limit ==> d.status == Due && d.completedOn == Some(date) && d.paidOn == c.paidOn)
    && (d.opening + d.realCount < d.limit ==> d.status == Open && d.completedOn == c.completedOn && d.paidOn == None)
  }

  /** The lesson's row: the next position, and the pence that this position adds to the price earned so far. */
  predicate NextRow(x: Link, c: Cycle, occurrence: int)
    requires c.limit >= 1
  {
    && x.cycle == c.id && x.occurrence == occurrence && x.position == c.opening + c.realCount + 1
    && x.earned == c.price * x.position / c.limit - c.price * (x.position - 1) / c.limit
  }

  lemma AdvancedTookLesson(c: Cycle, occurrence: int, date: int)
    requires c.limit >= 1 && c.opening + c.realCount < c.limit
    ensures TookLesson(c, Advanced(c, date), date) && NextRow(NextLink(c, occurrence), c, occurrence)
  {
  }

  /** A lesson enters the student's open cycle, the one with the highest sequence number if there are several. */
  lemma LessonEntersOpenCycle(s: Store, student: int, occurrence: int, date: int, i: nat)
    requires Valid(s) && Packaged(s, student) && !AlreadyLinked(s, student, occurrence)
    requires i < |s.cycles| && s.cycles[i].student == student && s.cycles[i].status == Open
    requires forall j :: 0 <= j < |s.cycles| && j != i && s.cycles[j].student == student && s.cycles[j].status == Open ==>
      s.cycles[j].sequenceNo < s.cycles[i].sequenceNo
    ensures var out := CompleteFor(s, student, occurrence, date);
      && out.Done? && out.store.plans == s.plans && |out.store.cycles| == |s.cycles| && out.store.nextId == s.nextId
      && TookLesson(s.cycles[i], out.store.cycles[i], date)
      && (forall j :: 0 <= j < |s.cycles| && j != i ==> out.store.cycles[j] == s.cycles[j])
      && |out.store.links| == |s.links| + 1 && s.links <= out.store.links
      && s.cycles[i].limit >= 1 && NextRow(out.store.links[|s.links|], s.cycles[i], occurrence)
  {
    assert CycleOk(s.cycles[i], s.links);
    assert OpenCycle(s.cycles, student) == Some(i);
    var c, t := s.cycles[i], WithLesson(s, i, s.cycles[i], occurrence, date);
    assert CompleteFor(s, student, occurrence, date) == Done(t);
    assert t.cycles == s.cycles[i := Advanced(c, date)] && t.links == s.links + [NextLink(c, occurrence)];
    AdvancedTookLesson(c, occurrence, date);
  }

  /** Some cycle of the student that is not cancelled has this number. */
  predicate IsTaken(cycles: seq<Cycle>, student: int, sequenceNo: int) {
    exists j :: 0 <= j < |cycles| && cycles[j].student == student && cycles[j].status != Cancelled && cycles[j].sequenceNo == sequenceNo
  }

  /** The row that a lesson opens under the student's plan, before it takes the lesson. */
  predicate IsNextPackage(s: Store, c: Cycle, student: int, date: int)
    requires student in s.plans
  {
    && c.id == s.nextId && c.student == student && c.opening == 0 && c.realCount == 0 && c.startedOn == date
    && c.completedOn == None && c.paidOn == None
    && (s.plans[student].size.Some? ==> c.limit == s.plans[student].size.value)
    && (s.plans[student].size.None? ==> c.limit == 8)
    && (s.plans[student].price.Some? ==> c.price == s.plans[student].price.value)
    && (s.plans[student].price.None? ==> c.price == 0)
    && (forall j :: 0 <= j < |s.cycles| && s.cycles[j].student == student && s.cycles[j].status != Cancelled ==>
          s.cycles[j].sequenceNo < c.sequenceNo)
    && (c.sequenceNo == 1 || IsTaken(s.cycles, student, c.sequenceNo - 1))
  }

  lemma {:induction false} LastIsTaken(cycles: seq<Cycle>, student: int)
    ensures LastSequence(cycles, student) == 0 || IsTaken(cycles, student, LastSequence(cycles, student))
  {
    if cycles != [] {
      var n := |cycles| - 1;
      LastIsTaken(cycles[..n], student);
      if LastSequence(cycles, student) == LastSequence(cycles[..n], student) != 0 {
        var j :| 0 <= j < n && cycles[..n][j].student == student && cycles[..n][j].status != Cancelled
          && cycles[..n][j].sequenceNo == LastSequence(cycles, student);
        assert cycles[j].sequenceNo == LastSequence(cycles, student);
      }
    }
  }

  lemma NewCycleIsNext(s: Store, student: int, date: int)
    requires student in s.plans
    ensures IsNextPackage(s, NewCycle(s, student, date), student, date)
  {
    LastIsTaken(s.cycles, student);
  }

  /** Without an open cycle a lesson opens the next one, numbered behind all that are not cancelled, on its own date. */
  lemma LessonOpensNextCycle(s: Store, student: int, occurrence: int, date: int) returns (c: Cycle)
    requires Valid(s) && Packaged(s, student) && !AlreadyLinked(s, student, occurrence)
    requires forall j :: 0 <= j < |s.cycles| && s.cycles[j].student == student ==> s.cycles[j].status != Open
    ensures IsNextPackage(s, c, student, date) && c.limit >= 1
    ensures var out := CompleteFor(s, student, occurrence, date);
      && out.Done? && out.store.plans == s.plans && |out.store.cycles| == |s.cycles| + 1 && s.cycles <= out.store.cycles
      && out.store.nextId == s.nextId + 1 && TookLesson(c, out.store.cycles[|s.cycles|], date)
      && |out.store.links| == |s.links| + 1 && s.links <= out.store.links && NextRow(out.store.links[|s.links|], c, occurrence)
  {
    c := NewCycle(s, student, date);
    NewCycleIsNext(s, student, date);
    assert OpenCycle(s.cycles, student).None?;
    TargetIsSound(s, student, date);
    assert CycleOk(c, s.links) && c.status == Open;
    var t := WithLesson(s, |s.cycles|, c, occurrence, date);
    assert CompleteFor(s, student, occurrence, date) == Done(t);
    assert t.cycles == s.cycles + [Advanced(c, date)] && t.links == s.links + [NextLink(c, occurrence)];
    AdvancedTookLesson(c, occurrence, date);
  }

  // ---- the same on the server ---------------------------------------------------------

  /** One lesson more; unlike on the client a date of payment stays. */
  predicate TookLessonOnServer(c: Cycle, d: Cycle, date: int) {
    && d.id == c.id && d.student == c.student && d.sequenceNo == c.sequenceNo && d.limit == c.limit && d.price == c.price
    && d.opening == c.opening && d.startedOn == c.startedOn && d.locked && d.realCount == c.realCount + 1 && d.paidOn == c.paidOn
    && (d.opening + d.realCount == d.limit ==> d.status == Due && d.completedOn == Some(date))
    && (d.opening + d.realCount < d.limit ==> d.status == Open && d.completedOn == c.completedOn)
  }

  lemma AdvancedOnServerTookLesson(c: Cycle, occurrence: int, date: int)
    requires c.limit >= 1 && c.opening + c.realCount < c.limit
    ensures TookLessonOnServer(c, AdvancedOnServer(c, date), date) && NextRow(NextLink(c, occurrence), c, occurrence)
  {
  }

  predicate HasPlan(s: Store, student: int) {
    student in s.plans && s.plans[student].packaged && s.plans[student].size.Some? && s.plans[student].price.Some?
  }

  /** A lesson of the student that is not linked enters his open cycle, unless that is full. */
  lemma ServerLessonEntersOpenCycle(s: Store, student: int, occurrence: int, date: int, i: nat)
    requires Sane(s) && HasPlan(s, student) && !AlreadyLinked(s, student, occurrence)
    requires i < |s.cycles| && s.cycles[i].student == student && s.cycles[i].status == Open
    requires forall j :: 0 <= j < |s.cycles| && j != i && s.cycles[j].student == student && s.cycles[j].status == Open ==>
      s.cycles[j].sequenceNo < s.cycles[i].sequenceNo
    ensures var c, t := s.cycles[i], Settle(s, student, occurrence, date);
      && (c.opening + c.realCount >= c.limit ==> t == s && Blocked(s, student, occurrence))
      && (c.opening + c.realCount < c.limit ==>
        && t.plans == s.plans && |t.cycles| == |s.cycles| && t.nextId == s.nextId && TookLessonOnServer(c, t.cycles[i], date)
        && (forall j :: 0 <= j < |s.cycles| && j != i ==> t.cycles[j] == s.cycles[j])
        && |t.links| == |s.links| + 1 && s.links <= t.links && c.limit >= 1 && NextRow(t.links[|s.links|], c, occurrence))
  {
    var c := s.cycles[i];
    assert OpenCycle(s.cycles, student) == Some(i) && LinkedCycle(s, student, occurrence).None?;
    if c.opening + c.realCount < c.limit {
      SettleLinks(s, student, occurrence, i, date);
      AdvancedOnServerTookLesson(c, occurrence, date);
    }
  }

  /** The row that the server creates for a lesson; its number is behind all of the student's, cancelled or not. */
  predicate IsCreated(s: Store, c: Cycle, student: int, date: int)
    requires HasPlan(s, student)
  {
    && c.id == s.nextId && c.student == student && c.limit == s.plans[student].size.value && c.price == s.plans[student].price.value
    && c.opening == 0 && c.realCount == 0 && !c.locked && c.status == Open && c.startedOn == date && c.completedOn == None && c.paidOn == None
    && (forall j :: 0 <= j < |s.cycles| && s.cycles[j].student == student ==> s.cycles[j].sequenceNo < c.sequenceNo)
    && (c.sequenceNo == 1 || exists j :: 0 <= j < |s.cycles| && s.cycles[j].student == student && s.cycles[j].sequenceNo + 1 == c.sequenceNo)
  }

  lemma {:induction false} NextIsBehind(cycles: seq<Cycle>, student: int)
    ensures NextSequence(cycles, student) == 1
      || exists j :: 0 <= j < |cycles| && cycles[j].student == student && cycles[j].sequenceNo + 1 == NextSequence(cycles, student)
  {
    if cycles != [] {
      var n := |cycles| - 1;
      NextIsBehind(cycles[..n], student);
      if NextSequence(cycles, student) == NextSequence(cycles[..n], student) != 1 {
        var j :| 0 <= j < n && cycles[..n][j].student == student && cycles[..n][j].sequenceNo + 1 == NextSequence(cycles, student);
        assert cycles[j].student == student;
      }
    }
  }

  lemma CreatedIsNext(s: Store, student: int, date: int)
    requires HasPlan(s, student)
    ensures IsCreated(s, CreatedCycle(s, student, date), student, date)
  {
    NextIsBehind(s.cycles, student);
  }

  /** The table with the created row and its first lesson. */
  lemma CreatedRowTakesLesson(s: Store, t: Store, c: Cycle, occurrence: int, date: int)
    requires c.limit >= 1 && c.opening == 0 && c.realCount == 0
    requires t == Store(s.plans, s.cycles + [AdvancedOnServer(c, date)], s.links + [NextLink(c, occurrence)], s.nextId + 1)
    ensures && t.plans == s.plans && |t.cycles| == |s.cycles| + 1 && s.cycles <= t.cycles && t.nextId == s.nextId + 1
      && TookLessonOnServer(c, t.cycles[|s.cycles|], date)
      && |t.links| == |s.links| + 1 && s.links <= t.links && NextRow(t.links[|s.links|], c, occurrence)
  {
    AdvancedOnServerTookLesson(c, occurrence, date);
  }

  /** Without an open cycle the first write creates one, and the lesson is linked to it. */
  lemma ServerLessonOpensNextCycle(s: Store, student: int, occurrence: int, date: int) returns (c: Cycle)
    requires Sane(s) && HasPlan(s, student) && s.plans[student].size.value >= 1 && !AlreadyLinked(s, student, occurrence)
    requires forall j :: 0 <= j < |s.cycles| && s.cycles[j].student == student ==> s.cycles[j].status != Open
    ensures IsCreated(s, c, student, date) && c.limit >= 1
    ensures NextWrite(s, student, occurrence, date) == Some(s.(cycles := s.cycles + [c], nextId := s.nextId + 1))
    ensures var t := Settle(s, student, occurrence, date);
      && t.plans == s.plans && |t.cycles| == |s.cycles| + 1 && s.cycles <= t.cycles && t.nextId == s.nextId + 1
      && TookLessonOnServer(c, t.cycles[|s.cycles|], date)
      && |t.links| == |s.links| + 1 && s.links <= t.links && NextRow(t.links[|s.links|], c, occurrence)
  {
    c := CreatedCycle(s, student, date);
    CreatedIsNext(s, student, date);
    assert OpenCycle(s.cycles, student).None? && LinkedCycle(s, student, occurrence).None?;
    SettleCreates(s, student, occurrence, date);
    CreatedRowTakesLesson(s, Settle(s, student, occurrence, date), c, occurrence, date);
  }

  /** A lesson that is linked already only closes its cycle, if an earlier run stopped before doing so. */
  lemma ServerClosesLinkedCycle(s: Store, student: int, occurrence: int, date: int) returns (i: nat)
    requires Sane(s) && HasPlan(s, student) && AlreadyLinked(s, student, occurrence)
    ensures i < |s.cycles| && s.cycles[i].student == student
    ensures exists x :: x in s.links && x.occurrence == occurrence && x.cycle == s.cycles[i].id
    ensures var c := s.cycles[i];
      Settle(s, student, occurrence, date)
      == if c.status == Open && c.opening + c.realCount >= c.limit
         then s.(cycles := s.cycles[i := c.(status := Due, completedOn := Some(date), locked := true)]) else s
  {
    var linked := LinkedCycle(s, student, occurrence);
    i := linked.value;
    var c := s.cycles[i];
    var j :| 0 <= j < |s.links| && s.links[j].occurrence == occurrence && StudentOf(s.cycles, s.links[j].cycle) == Some(student)
      && FindCycle(s.cycles, s.links[j].cycle) == linked;
    assert s.links[j] in s.links;
    if c.status == Open && c.opening + c.realCount >= c.limit {
      AfterDue(s, student, occurrence, date);
      SettleStep(s, MarkedDue(s, i, date), student, occurrence, date);
    }
  }

  // ---- the commands, one after the other ----------------------------------------------

  /** Reopening leaves the rows that removing the lesson's links leaves, also where it is refused: then there were none. */
  lemma ReopenCommand(t: Store, sessionStudents: seq<int>, occurrence: int, i: nat)
    requires Valid(t) && i < |t.cycles|
    ensures Pending(t, Affected(t.links, occurrence), occurrence)
    ensures var u := Next(t, Reopen(sessionStudents, occurrence));
      && u == RemoveAll(t, Affected(t.links, occurrence), occurrence)
      && i < |u.cycles| && u.cycles[i].id == t.cycles[i].id
      && forall x :: x in u.links ==> x.occurrence != occurrence
  {
    var rows := Affected(t.links, occurrence);
    AffectedAreDistinct(t.links, occurrence);
    ReopenIsRefusedIff(t, sessionStudents, occurrence);
    if rows == [] { assert RemoveAll(t, rows, occurrence) == t; }
    assert SameTerms(t.cycles[i], RemoveAll(t, rows, occurrence).cycles[i]);
  }

  /** Complete a lesson that was never recorded, then reopen it: every cycle has its old rows, whoever it was billed to. */
  lemma CompleteThenReopen(s: Store, billed: seq<int>, occurrence: int, date: int, sessionStudents: seq<int>, i: nat)
    requires Valid(s) && i < |s.cycles| && forall x :: x in s.links ==> x.occurrence != occurrence
    ensures var t := Next(Next(s, Complete(billed, occurrence, date)), Reopen(sessionStudents, occurrence));
      && i < |t.cycles| && t.cycles[i].id == s.cycles[i].id && t.cycles[i].realCount == s.cycles[i].realCount
      && InOrder(t.links, s.cycles[i].id) == InOrder(s.links, s.cycles[i].id)
      && forall x :: x in t.links ==> x.occurrence != occurrence
  {
    var t := CompleteAll(s, billed, occurrence, date).store;
    CommandsDo(s, 0, PerSession, billed, occurrence, date);
    ReopenUndoesComplete(s, billed, occurrence, date, i);
    CompleteAllOnlyAdds(s, billed, occurrence, date);
    assert SameTerms(s.cycles[i], t.cycles[i]);
    ReopenCommand(t, sessionStudents, occurrence, i);
  }

  // ---- payments -----------------------------------------------------------------------

  /** Only the status and the date of payment follow the money. */
  predicate FollowsMoney(c: Cycle, d: Cycle, paid: bool, on: Option<int>) {
    && d.id == c.id && d.student == c.student && d.sequenceNo == c.sequenceNo && d.limit == c.limit && d.price == c.price
    && d.opening == c.opening && d.locked == c.locked && d.realCount == c.realCount && d.startedOn == c.startedOn
    && d.completedOn == c.completedOn
    && (c.status == Cancelled ==> d == c)
    && (c.status != Cancelled && c.opening + c.realCount < c.limit ==> d.status == Open && d.paidOn == None)
    && (c.status != Cancelled && c.opening + c.realCount >= c.limit && !paid ==> d.status == Due && d.paidOn == None)
    && (c.status != Cancelled && c.opening + c.realCount >= c.limit && paid ==> d.status == Paid)
    && (d.status == Paid && c.status != Cancelled && on.Some? ==> d.paidOn == on)
    && (d.status == Paid && c.status != Cancelled && on.None? ==> d.paidOn == c.paidOn)
  }

  /**
   After a rebalance each cycle of a packaged student follows the money: a paid one bears the date of its last payment,
   or keeps the date it has if no payment is dated, any other one bears none. The same payments again change nothing.
   */
  lemma PaymentsDateCycles(s: Store, student: int, covered: map<int, Option<int>>)
    ensures var t := BalancedStore(s, student, covered);
      && |t.cycles| == |s.cycles|
      && (forall i :: 0 <= i < |s.cycles| && Packaged(s, student) && s.cycles[i].student == student ==>
            FollowsMoney(s.cycles[i], t.cycles[i], s.cycles[i].id in covered,
                         if s.cycles[i].id in covered then covered[s.cycles[i].id] else None))
      && (forall i :: 0 <= i < |s.cycles| && (!Packaged(s, student) || s.cycles[i].student != student) ==> t.cycles[i] == s.cycles[i])
      && BalancedStore(t, student, covered) == t
  {
    var t := BalancedStore(s, student, covered);
    assert BalancedStore(t, student, covered).cycles == t.cycles;
  }

  // ---- what the package earns ---------------------------------------------------------

  lemma CommandsDo(s: Store, student: int, input: BillingInput, billed: seq<int>, occurrence: int, date: int)
    requires Valid(s) && InputOk(input)
    ensures Next(s, Complete(billed, occurrence, date)) == CompleteAll(s, billed, occurrence, date).store
    ensures Configured(s, student, input).Done? ==> Next(s, Configure(student, input)) == Configured(s, student, input).store
  {
  }

  /** The student takes these lessons one after the other. */
  function Takes(s: Store, student: int, occurrences: seq<int>, dates: seq<int>): (t: Store)
    requires Valid(s) && |dates| == |occurrences|
    ensures Valid(t)
  {
    if occurrences == [] then s
    else
      var n := |occurrences| - 1;
      CompleteAll(Takes(s, student, occurrences[..n], dates[..n]), [student], occurrences[n], dates[n]).store
  }

  /** Cycle i is the student's only one, under the terms of the input, with this many lessons. */
  ghost predicate Holds(t: Store, i: nat, student: int, input: BillingInput, count: nat)
    requires input.Package?
  {
    && Packaged(t, student) && i < |t.cycles| && t.cycles[i].student == student
    && (forall j :: 0 <= j < |t.cycles| && t.cycles[j].student == student ==> j == i)
    && t.cycles[i].limit == input.size && t.cycles[i].price == input.price && t.cycles[i].opening == 0
    && t.cycles[i].realCount == count && t.cycles[i].status != Cancelled
  }

  lemma {:induction false} LessonIsListed(rows: seq<Link>, x: Link)
    requires x in rows
    ensures x.occurrence in Lessons(rows)
  {
    if x != rows[0] { LessonIsListed(rows[1..], x); }
  }

  /** A lesson that the student's only cycle does not list is not linked for him. */
  lemma UnlistedIsUnlinked(t: Store, i: nat, student: int, input: BillingInput, count: nat, next: int)
    requires Valid(t) && input.Package? && Holds(t, i, student, input, count) && next !in LessonsOf(t, t.cycles[i].id)
    ensures !AlreadyLinked(t, student, next)
  {
    forall k | 0 <= k < |t.links| && StudentOf(t.cycles, t.links[k].cycle) == Some(student) ensures t.links[k].occurrence != next {
      assert t.links[k].cycle == t.cycles[i].id;
      LessonIsListed(InOrder(t.links, t.cycles[i].id), t.links[k]);
    }
  }

  lemma TakesOne(t: Store, i: nat, student: int, input: BillingInput, count: nat, next: int, date: int)
    requires Valid(t) && input.Package? && Holds(t, i, student, input, count) && count < input.size
    requires next !in LessonsOf(t, t.cycles[i].id)
    ensures var u := CompleteAll(t, [student], next, date).store;
      && Holds(u, i, student, input, count + 1) && u.cycles[i].id == t.cycles[i].id
      && LessonsOf(u, t.cycles[i].id) == LessonsOf(t, t.cycles[i].id) + [next]
      && (count + 1 == input.size ==> u.cycles[i].status == Due && u.cycles[i].completedOn == Some(date))
  {
    var c := t.cycles[i];
    assert [student][..0] == [];
    assert CycleOk(c, t.links) && c.status == Open && OpenCycle(t.cycles, student) == Some(i);
    UnlistedIsUnlinked(t, i, student, input, count, next);
    assert CompleteAll(t, [student], next, date).store == WithLesson(t, i, c, next, date);
    WithLessonAppends(t, i, c, next, date, i);
  }

  /** The commands that the lessons come to. */
  function Commanded(s: Store, student: int, occurrences: seq<int>, dates: seq<int>): (t: Store)
    requires Valid(s) && |dates| == |occurrences|
    ensures Valid(t)
  {
    if occurrences == [] then s
    else
      var n := |occurrences| - 1;
      Next(Commanded(s, student, occurrences[..n], dates[..n]), Complete([student], occurrences[n], dates[n]))
  }

  lemma {:induction false} CommandsTake(s: Store, student: int, occurrences: seq<int>, dates: seq<int>)
    requires Valid(s) && |dates| == |occurrences|
    ensures Commanded(s, student, occurrences, dates) == Takes(s, student, occurrences, dates)
  {
    if occurrences != [] {
      var n := |occurrences| - 1;
      CommandsTake(s, student, occurrences[..n], dates[..n]);
      CommandsDo(Takes(s, student, occurrences[..n], dates[..n]), student, PerSession, [student], occurrences[n], dates[n]);
    }
  }

  lemma TakesUnfolds(s: Store, student: int, occurrences: seq<int>, dates: seq<int>, n: nat)
    requires Valid(s) && |dates| == |occurrences| == n + 1
    ensures Takes(s, student, occurrences, dates)
         == CompleteAll(Takes(s, student, occurrences[..n], dates[..n]), [student], occurrences[n], dates[n]).store
  {
  }

  predicate DistinctIds(ids: seq<int>) {
    forall a, b :: 0 <= a < b < |ids| ==> ids[a] != ids[b]
  }

  lemma LastOfDistinct(ids: seq<int>, n: nat)
    requires DistinctIds(ids) && |ids| == n + 1
    ensures DistinctIds(ids[..n]) && ids[n] !in ids[..n] && ids[..n] + [ids[n]] == ids
  {
  }

  /** Cycle i of t lists these lessons, and is due on the day of the last if they fill it. */
  ghost predicate Lists(t: Store, i: nat, student: int, input: BillingInput, id: int, occurrences: seq<int>, last: Option<int>)
    requires input.Package?
  {
    && Holds(t, i, student, input, |occurrences|) && t.cycles[i].id == id && LessonsOf(t, id) == occurrences
    && (last.Some? && |occurrences| == input.size ==> t.cycles[i].status == Due && t.cycles[i].completedOn == last)
  }

  lemma ListsOneMore(t: Store, i: nat, student: int, input: BillingInput, id: int, before: seq<int>, last: Option<int>, next: int, date: int)
    requires Valid(t) && input.Package? && Lists(t, i, student, input, id, before, last) && next !in before && |before| < input.size
    ensures Lists(CompleteAll(t, [student], next, date).store, i, student, input, id, before + [next], Some(date))
  {
    TakesOne(t, i, student, input, |before|, next, date);
  }

  lemma {:induction false} TakesAll(s: Store, i: nat, student: int, input: BillingInput, id: int, occurrences: seq<int>, dates: seq<int>)
    requires Valid(s) && input.Package? && Lists(s, i, student, input, id, [], None)
    requires |dates| == |occurrences| <= input.size && DistinctIds(occurrences)
    ensures Lists(Takes(s, student, occurrences, dates), i, student, input, id, occurrences, if dates == [] then None else Some(dates[|dates| - 1]))
  {
    if occurrences == [] {
      assert dates == [];
    } else {
      var n := |occurrences| - 1;
      var m := Takes(s, student, occurrences[..n], dates[..n]);
      LastOfDistinct(occurrences, n);
      TakesAll(s, i, student, input, id, occurrences[..n], dates[..n]);
      var last := if dates[..n] == [] then None else Some(dates[..n][n - 1]);
      ListsOneMore(m, i, student, input, id, occurrences[..n], last, occurrences[n], dates[n]);
      TakesUnfolds(s, student, occurrences, dates, n);
    }
  }

  /** The first package before any lesson. */
  lemma FreshPackageHolds(s: Store, student: int, input: BillingInput)
    requires Valid(s) && InputOk(input) && input.Package? && input.opening == 0 && HasNoCycle(s, student)
    ensures var u := Configured(s, student, input);
      u.Done? && Valid(u.store) && Lists(u.store, |s.cycles|, student, input, s.nextId, [], None)
  {
    var i := |s.cycles|;
    FirstPackage(s, student, input);
    ConfiguringIsSound(s, student, input);
    var u := Configured(s, student, input).store;
    EmptyCycleIsSound(u.cycles[i], u.links);
  }

  /**
   Configure a package without opening progress and take as many lessons as it holds: the cycle holds exactly these
   lessons in their order, they earn exactly the configured price, and the last one makes the cycle due.
   */
  lemma PackageEarnsItsPrice(s: Store, student: int, input: BillingInput, occurrences: seq<int>, dates: seq<int>)
    requires Valid(s) && InputOk(input) && input.Package? && input.opening == 0 && HasNoCycle(s, student)
    requires |dates| == |occurrences| == input.size && DistinctIds(occurrences)
    ensures var t := Commanded(Next(s, Configure(student, input)), student, occurrences, dates);
      && |s.cycles| < |t.cycles| && t.cycles[|s.cycles|].id == s.nextId && LessonsOf(t, s.nextId) == occurrences
      && Earned(LinksOf(t.links, s.nextId)) == input.price
      && t.cycles[|s.cycles|].status == Due && t.cycles[|s.cycles|].completedOn == Some(dates[|dates| - 1])
  {
    var i, u := |s.cycles|, Configured(s, student, input).store;
    FreshPackageHolds(s, student, input);
    CommandsDo(s, student, input, [], 0, 0);
    TakesAll(u, i, student, input, s.nextId, occurrences, dates);
    CommandsTake(u, student, occurrences, dates);
    var t := Takes(u, student, occurrences, dates);
    FullCycleEarnsPrice(t.cycles[i], t.links);
  }
}
