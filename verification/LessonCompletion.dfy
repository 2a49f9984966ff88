/**
 Completing a lesson on the server, where the process may stop at any repository call. Every write
 is chosen from what the tables say, so a retry carries on exactly where the last run stopped.
 */
module LessonCompletion {
  import opened Numbers
  import opened PackageCycles
  import opened Renumbering
  import opened Attendance

  datatype OccurrenceStatus = Scheduled | Missed | Completed | OccurrenceCancelled

  // ---- the billing writes for one student ---------------------------------------------

  /** The cycle of the student that holds the lesson. */
  function LinkedCycle(s: Store, student: int, occurrence: int): (found: Option<nat>)
    ensures found.Some? ==> found.value < |s.cycles| && s.cycles[found.value].student == student && AlreadyLinked(s, student, occurrence)
    ensures found.None? ==> !AlreadyLinked(s, student, occurrence)
  {
    LinkedFrom(s, student, occurrence, 0)
  }

  function LinkedFrom(s: Store, student: int, occurrence: int, k: nat): (found: Option<nat>)
    requires k <= |s.links|
    ensures found.Some? ==> found.value < |s.cycles| && s.cycles[found.value].student == student
    ensures found.Some? ==> (exists j :: k <= j < |s.links| && s.links[j].occurrence == occurrence && StudentOf(s.cycles, s.links[j].cycle) == Some(student) && FindCycle(s.cycles, s.links[j].cycle) == found)
    ensures found.None? ==> forall j :: k <= j < |s.links| ==> !(s.links[j].occurrence == occurrence && StudentOf(s.cycles, s.links[j].cycle) == Some(student))
    decreases |s.links| - k
  {
    if k == |s.links| then None
    else if s.links[k].occurrence == occurrence && StudentOf(s.cycles, s.links[k].cycle) == Some(student)
    then FindCycle(s.cycles, s.links[k].cycle)
    else LinkedFrom(s, student, occurrence, k + 1)
  }

  predicate PlanUsable(s: Store, student: int) {
    Packaged(s, student) && s.plans[student].size.Some? && s.plans[student].price.Some?
  }

  /** The next sequence number counts cancelled cycles as well. */
  function NextSequence(cycles: seq<Cycle>, student: int): (next: int)
    ensures forall i :: 0 <= i < |cycles| && cycles[i].student == student ==> cycles[i].sequenceNo < next
    ensures next >= 1
  {
    if cycles == [] then 1
    else
      var n := |cycles| - 1;
      var before := NextSequence(cycles[..n], student);
      if cycles[n].student == student then Max(before, cycles[n].sequenceNo + 1) else before
  }

  function CreatedCycle(s: Store, student: int, date: int): Cycle
    requires PlanUsable(s, student)
  {
    Cycle(s.nextId, student, NextSequence(s.cycles, student), s.plans[student].size.value, s.plans[student].price.value,
          0, false, 0, Open, date, None, None)
  }

  predicate Full(c: Cycle) {
    c.opening + c.realCount >= c.limit
  }

  /** The link and the count that the server derives from it; the status is a separate write. */
  function Linked(s: Store, k: nat, occurrence: int): Store
    requires k < |s.cycles| && s.cycles[k].limit >= 1
  {
    var c := s.cycles[k];
    s.(cycles := s.cycles[k := c.(locked := true, realCount := c.realCount + 1)], links := s.links + [NextLink(c, occurrence)])
  }

  function MarkedDue(s: Store, k: nat, date: int): Store
    requires k < |s.cycles|
  {
    s.(cycles := s.cycles[k := s.cycles[k].(status := Due, completedOn := Some(date), locked := true)])
  }

  /** The open cycle has no room, or the plan lacks its package: the command fails for this student. */
  predicate Blocked(s: Store, student: int, occurrence: int) {
    Packaged(s, student)
    && (!PlanUsable(s, student)
        || (LinkedCycle(s, student, occurrence).None? && OpenCycle(s.cycles, student).Some? && Full(s.cycles[OpenCycle(s.cycles, student).value])))
  }

  /** The next repository write of recordCompletedOccurrence, if there is one left. */
  function NextWrite(s: Store, student: int, occurrence: int, date: int): Option<Store>
    requires Sane(s)
  {
    if !PlanUsable(s, student) then None
    else
      var linked := LinkedCycle(s, student, occurrence);
      if linked.Some? then
        if Full(s.cycles[linked.value]) && s.cycles[linked.value].status == Open then Some(MarkedDue(s, linked.value, date)) else None
      else
        var at := OpenCycle(s.cycles, student);
        if at.None? then Some(s.(cycles := s.cycles + [CreatedCycle(s, student, date)], nextId := s.nextId + 1))
        else if Full(s.cycles[at.value]) then None
        else Some(Linked(s, at.value, occurrence))
  }

  /** What every write keeps; between two writes a full cycle may still be open. */
  ghost predicate Sane(s: Store) {
    && PlansOk(s.plans) && IdsBelow(s) && UniqueIds(s.cycles) && KeysUnique(s.links) && OneLinkPerStudent(s.cycles, s.links)
    && (forall i :: 0 <= i < |s.cycles| ==> s.cycles[i].limit >= 1)
  }

  lemma ChangedCycleKeepsSane(s: Store, k: nat, c: Cycle)
    requires Sane(s) && k < |s.cycles| && c.id == s.cycles[k].id && c.student == s.cycles[k].student && c.limit == s.cycles[k].limit
    ensures Sane(s.(cycles := s.cycles[k := c]))
    ensures forall id :: StudentOf(s.cycles[k := c], id) == StudentOf(s.cycles, id)
    ensures forall id :: FindCycle(s.cycles[k := c], id) == FindCycle(s.cycles, id)
  {
    var t := s.cycles[k := c];
    forall id ensures FindCycle(t, id) == FindCycle(s.cycles, id) { SameIdsSameIndex(s.cycles, t, id, 0); }
  }

  lemma {:induction false} SameIdsSameIndex(a: seq<Cycle>, b: seq<Cycle>, id: int, k: nat)
    requires |a| == |b| && k <= |a| && forall i :: 0 <= i < |a| ==> a[i].id == b[i].id
    ensures FindCycleFrom(a, id, k) == FindCycleFrom(b, id, k)
    decreases |a| - k
  {
    if k < |a| { SameIdsSameIndex(a, b, id, k + 1); }
  }

  lemma NewLinkKeepsSane(s: Store, k: nat, occurrence: int)
    requires Sane(s) && k < |s.cycles| && !AlreadyLinked(s, s.cycles[k].student, occurrence)
    ensures Sane(s.(links := s.links + [NextLink(s.cycles[k], occurrence)]))
    ensures AlreadyLinked(s.(links := s.links + [NextLink(s.cycles[k], occurrence)]), s.cycles[k].student, occurrence)
  {
    var c, x := s.cycles[k], NextLink(s.cycles[k], occurrence);
    StudentOfAt(s.cycles, k);
    forall y | y in s.links && y.occurrence == occurrence ensures StudentOf(s.cycles, y.cycle) != Some(c.student) {
      var m :| 0 <= m < |s.links| && s.links[m] == y;
    }
    assert (s.links + [x])[|s.links|] == x;
  }

  lemma NewCycleKeepsSane(s: Store, c: Cycle)
    requires Sane(s) && c.id == s.nextId && c.limit >= 1
    ensures Sane(s.(cycles := s.cycles + [c], nextId := s.nextId + 1))
    ensures forall y :: y in s.links ==> StudentOf(s.cycles + [c], y.cycle) == StudentOf(s.cycles, y.cycle)
  {
    var t := PutCycle(s.cycles, |s.cycles|, c);
    forall y | y in s.links ensures StudentOf(t, y.cycle) == StudentOf(s.cycles, y.cycle) {
      StudentsKept(s.cycles, |s.cycles|, c, y.cycle);
    }
    StudentsKept(s.cycles, |s.cycles|, c, c.id);
  }

  /** How many writes are still to come for this student. */
  function Remaining(s: Store, student: int, occurrence: int): nat {
    if !PlanUsable(s, student) then 0
    else
      var linked := LinkedCycle(s, student, occurrence);
      if linked.Some? then (if Full(s.cycles[linked.value]) && s.cycles[linked.value].status == Open then 1 else 0)
      else
        var at := OpenCycle(s.cycles, student);
        if at.None? then 3 else if Full(s.cycles[at.value]) then 0 else 2
  }

  lemma WriteProgresses(s: Store, student: int, occurrence: int, date: int)
    requires Sane(s) && NextWrite(s, student, occurrence, date).Some?
    ensures var t := NextWrite(s, student, occurrence, date).value;
      Sane(t) && t.plans == s.plans && Remaining(t, student, occurrence) < Remaining(s, student, occurrence)
  {
    var t, linked, at := NextWrite(s, student, occurrence, date).value, LinkedCycle(s, student, occurrence), OpenCycle(s.cycles, student);
    if linked.Some? {
      DueIsLast(s, student, occurrence, date);
    } else if at.None? {
      CreateIsFirst(s, student, occurrence, date);
    } else {
      LinkFollows(s, student, occurrence, at.value);
    }
  }

  lemma DueIsLast(s: Store, student: int, occurrence: int, date: int)
    requires Sane(s) && LinkedCycle(s, student, occurrence).Some?
    ensures var k := LinkedCycle(s, student, occurrence).value;
      var t := MarkedDue(s, k, date);
      Sane(t) && LinkedCycle(t, student, occurrence) == Some(k) && t.cycles[k].status == Due
  {
    var k := LinkedCycle(s, student, occurrence).value;
    ChangedCycleKeepsSane(s, k, MarkedDue(s, k, date).cycles[k]);
    SameLinks(s, MarkedDue(s, k, date), student, occurrence, 0);
  }

  lemma {:induction false} SameLinks(s: Store, t: Store, student: int, occurrence: int, k: nat)
    requires k <= |s.links| && t.links == s.links
    requires forall j :: 0 <= j < |s.links| ==> FindCycle(t.cycles, s.links[j].cycle) == FindCycle(s.cycles, s.links[j].cycle)
    requires forall j :: 0 <= j < |s.links| ==> StudentOf(t.cycles, s.links[j].cycle) == StudentOf(s.cycles, s.links[j].cycle)
    ensures LinkedFrom(t, student, occurrence, k) == LinkedFrom(s, student, occurrence, k)
    decreases |s.links| - k
  {
    if k < |s.links| { SameLinks(s, t, student, occurrence, k + 1); }
  }

  lemma {:induction false} LinkFoundAt(s: Store, student: int, occurrence: int, k: nat)
    requires k < |s.links| && (forall j :: k <= j < |s.links| - 1 ==> !(s.links[j].occurrence == occurrence && StudentOf(s.cycles, s.links[j].cycle) == Some(student)))
    requires s.links[|s.links| - 1].occurrence == occurrence && StudentOf(s.cycles, s.links[|s.links| - 1].cycle) == Some(student)
    ensures LinkedFrom(s, student, occurrence, k) == FindCycle(s.cycles, s.links[|s.links| - 1].cycle)
    decreases |s.links| - k
  {
    if k < |s.links| - 1 { LinkFoundAt(s, student, occurrence, k + 1); }
  }

  /** The link just written is the one that a later look-up finds. */
  lemma LinkedIsFound(s: Store, student: int, occurrence: int, k: nat)
    requires Sane(s) && k < |s.cycles| && s.cycles[k].student == student && LinkedCycle(s, student, occurrence).None?
    ensures LinkedCycle(Linked(s, k, occurrence), student, occurrence) == Some(k)
  {
    var t, c := Linked(s, k, occurrence), s.cycles[k];
    ChangedCycleKeepsSane(s, k, t.cycles[k]);
    StudentOfAt(s.cycles, k);
    forall j | 0 <= j < |s.links| ensures t.links[j] == s.links[j] { }
    LinkFoundAt(t, student, occurrence, 0);
  }

  lemma LinkedKeepsSane(s: Store, k: nat, occurrence: int)
    requires Sane(s) && k < |s.cycles| && !AlreadyLinked(s, s.cycles[k].student, occurrence)
    ensures Sane(Linked(s, k, occurrence))
  {
    var c, m := s.cycles[k], s.(links := s.links + [NextLink(s.cycles[k], occurrence)]);
    NewLinkKeepsSane(s, k, occurrence);
    var counted := c.(locked := true, realCount := c.realCount + 1);
    ChangedCycleKeepsSane(m, k, counted);
    assert Linked(s, k, occurrence) == m.(cycles := m.cycles[k := counted]);
  }

  lemma LinkFollows(s: Store, student: int, occurrence: int, k: nat)
    requires Sane(s) && k < |s.cycles| && s.cycles[k].student == student && LinkedCycle(s, student, occurrence).None?
    ensures Sane(Linked(s, k, occurrence)) && LinkedCycle(Linked(s, k, occurrence), student, occurrence) == Some(k)
  {
    LinkedKeepsSane(s, k, occurrence);
    LinkedIsFound(s, student, occurrence, k);
  }

  lemma StillNotLinked(s: Store, t: Store, student: int, occurrence: int)
    requires LinkedCycle(s, student, occurrence).None? && t.links == s.links
    requires forall y :: y in s.links ==> StudentOf(t.cycles, y.cycle) == StudentOf(s.cycles, y.cycle)
    ensures LinkedCycle(t, student, occurrence).None?
  {
    forall k | 0 <= k < |t.links| ensures StudentOf(t.cycles, t.links[k].cycle) == StudentOf(s.cycles, s.links[k].cycle) {
      assert t.links[k] in s.links;
    }
  }

  lemma AppendedIsOpen(cycles: seq<Cycle>, c: Cycle)
    requires OpenCycle(cycles, c.student).None? && c.status == Open
    ensures OpenCycle(cycles + [c], c.student) == Some(|cycles|)
  {
    assert (cycles + [c])[..|cycles|] == cycles;
  }

  lemma CreateIsFirst(s: Store, student: int, occurrence: int, date: int)
    requires Sane(s) && PlanUsable(s, student) && OpenCycle(s.cycles, student).None? && LinkedCycle(s, student, occurrence).None?
    ensures var t := s.(cycles := s.cycles + [CreatedCycle(s, student, date)], nextId := s.nextId + 1);
      && Sane(t) && LinkedCycle(t, student, occurrence).None?
      && OpenCycle(t.cycles, student) == Some(|s.cycles|) && !Full(t.cycles[|s.cycles|])
  {
    var c := CreatedCycle(s, student, date);
    NewCycleKeepsSane(s, c);
    AppendedIsOpen(s.cycles, c);
    StillNotLinked(s, s.(cycles := s.cycles + [c], nextId := s.nextId + 1), student, occurrence);
  }

  /** All remaining writes for this student. */
  function Settle(s: Store, student: int, occurrence: int, date: int): (t: Store)
    requires Sane(s)
    ensures Sane(t) && t.plans == s.plans && NextWrite(t, student, occurrence, date) == None
    decreases Remaining(s, student, occurrence)
  {
    var next := NextWrite(s, student, occurrence, date);
    if next.None? then s
    else
      WriteProgresses(s, student, occurrence, date);
      Settle(next.value, student, occurrence, date)
  }

  /** Afterwards a student who can be billed is linked to the lesson and no full cycle of it is left open. */
  lemma SettledMeansLinked(s: Store, student: int, occurrence: int, date: int)
    requires Sane(s) && NextWrite(s, student, occurrence, date) == None && Packaged(s, student) && !Blocked(s, student, occurrence)
    ensures AlreadyLinked(s, student, occurrence)
    ensures var c := s.cycles[LinkedCycle(s, student, occurrence).value]; Full(c) ==> c.status != Open
  {
  }

  // ---- one student's writes leave the others alone ------------------------------------

  /** t differs from s in nothing that billing this student looks at. */
  ghost predicate Untouched(s: Store, t: Store, student: int, occurrence: int) {
    && t.plans == s.plans && |s.cycles| <= |t.cycles|
    && LinkedCycle(t, student, occurrence) == LinkedCycle(s, student, occurrence)
    && OpenCycle(t.cycles, student) == OpenCycle(s.cycles, student)
    && forall i :: 0 <= i < |s.cycles| && s.cycles[i].student == student ==> t.cycles[i] == s.cycles[i]
  }

  lemma {:induction false} SameOpenCycle(a: seq<Cycle>, b: seq<Cycle>, student: int)
    requires |a| == |b|
    requires forall i :: 0 <= i < |a| ==> (b[i].student == student <==> a[i].student == student)
    requires forall i :: 0 <= i < |a| ==> (a[i].student == student ==> b[i] == a[i])
    ensures OpenCycle(b, student) == OpenCycle(a, student)
  {
    if b != [] {
      var n := |b| - 1;
      SameOpenCycle(a[..n], b[..n], student);
      assert a[n].student != student || a[n] == b[n];
    }
  }

  lemma OthersAppended(cycles: seq<Cycle>, c: Cycle, student: int)
    requires c.student != student
    ensures OpenCycle(cycles + [c], student) == OpenCycle(cycles, student)
  {
    assert (cycles + [c])[..|cycles|] == cycles;
  }

  lemma {:induction false} SameLinksBefore(s: Store, t: Store, student: int, occurrence: int, k: nat)
    requires k <= |s.links| <= |t.links| && t.links[..|s.links|] == s.links
    requires forall j :: 0 <= j < |s.links| ==> FindCycle(t.cycles, s.links[j].cycle) == FindCycle(s.cycles, s.links[j].cycle)
    requires forall j :: 0 <= j < |s.links| ==> StudentOf(t.cycles, s.links[j].cycle) == StudentOf(s.cycles, s.links[j].cycle)
    requires forall j :: |s.links| <= j < |t.links| ==> StudentOf(t.cycles, t.links[j].cycle) != Some(student)
    ensures LinkedFrom(t, student, occurrence, k) == LinkedFrom(s, student, occurrence, k)
    decreases |s.links| - k
  {
    if k < |s.links| {
      assert t.links[k] == s.links[k];
      SameLinksBefore(s, t, student, occurrence, k + 1);
    } else {
      NoLinkFrom(t, student, occurrence, k);
    }
  }

  lemma {:induction false} NoLinkFrom(t: Store, student: int, occurrence: int, k: nat)
    requires k <= |t.links| && forall j :: k <= j < |t.links| ==> StudentOf(t.cycles, t.links[j].cycle) != Some(student)
    ensures LinkedFrom(t, student, occurrence, k) == None
    decreases |t.links| - k
  {
    if k < |t.links| { NoLinkFrom(t, student, occurrence, k + 1); }
  }

  lemma {:induction false} FindInLonger(a: seq<Cycle>, b: seq<Cycle>, id: int, k: nat)
    requires k <= |a| <= |b| && (forall i :: 0 <= i < |a| ==> a[i].id == b[i].id) && FindCycleFrom(a, id, k).Some?
    ensures FindCycleFrom(b, id, k) == FindCycleFrom(a, id, k)
    decreases |a| - k
  {
    if k < |a| && a[k].id != id { FindInLonger(a, b, id, k + 1); }
  }

  lemma DueUntouched(s: Store, k: nat, date: int, other: int, occurrence: int)
    requires Sane(s) && k < |s.cycles| && s.cycles[k].student != other
    ensures Untouched(s, MarkedDue(s, k, date), other, occurrence)
  {
    var t := MarkedDue(s, k, date);
    ChangedCycleKeepsSane(s, k, t.cycles[k]);
    SameLinks(s, t, other, occurrence, 0);
    SameOpenCycle(s.cycles, t.cycles, other);
  }

  lemma LinkUntouched(s: Store, k: nat, other: int, occurrence: int)
    requires Sane(s) && k < |s.cycles| && s.cycles[k].student != other
    ensures Untouched(s, Linked(s, k, occurrence), other, occurrence)
  {
    var t := Linked(s, k, occurrence);
    ChangedCycleKeepsSane(s, k, t.cycles[k]);
    StudentOfAt(s.cycles, k);
    assert t.links[|s.links|].cycle == s.cycles[k].id;
    SameLinksBefore(s, t, other, occurrence, 0);
    SameOpenCycle(s.cycles, t.cycles, other);
  }

  lemma CreateUntouched(s: Store, c: Cycle, other: int, occurrence: int)
    requires Sane(s) && c.id == s.nextId && c.limit >= 1 && c.student != other
    ensures Untouched(s, s.(cycles := s.cycles + [c], nextId := s.nextId + 1), other, occurrence)
  {
    var t := s.(cycles := s.cycles + [c], nextId := s.nextId + 1);
    NewCycleKeepsSane(s, c);
    forall j | 0 <= j < |s.links|
      ensures FindCycle(t.cycles, s.links[j].cycle) == FindCycle(s.cycles, s.links[j].cycle)
      ensures StudentOf(t.cycles, s.links[j].cycle) == StudentOf(s.cycles, s.links[j].cycle)
    {
      assert s.links[j] in s.links;
      if FindCycle(s.cycles, s.links[j].cycle).Some? { FindInLonger(s.cycles, t.cycles, s.links[j].cycle, 0); }
    }
    SameLinks(s, t, other, occurrence, 0);
    OthersAppended(s.cycles, c, other);
  }

  lemma WriteUntouched(s: Store, student: int, other: int, occurrence: int, date: int)
    requires Sane(s) && NextWrite(s, student, occurrence, date).Some? && student != other
    ensures Untouched(s, NextWrite(s, student, occurrence, date).value, other, occurrence)
  {
    var t, linked, at := NextWrite(s, student, occurrence, date).value, LinkedCycle(s, student, occurrence), OpenCycle(s.cycles, student);
    if linked.Some? {
      assert t == MarkedDue(s, linked.value, date);
      DueUntouched(s, linked.value, date, other, occurrence);
    } else if at.None? {
      var c := CreatedCycle(s, student, date);
      assert t == s.(cycles := s.cycles + [c], nextId := s.nextId + 1);
      CreateUntouched(s, c, other, occurrence);
    } else {
      assert t == Linked(s, at.value, occurrence);
      LinkUntouched(s, at.value, other, occurrence);
    }
  }

  /** A student with nothing left to write stays so. */
  ghost predicate Settled(s: Store, student: int, occurrence: int, date: int)
    requires Sane(s)
  {
    NextWrite(s, student, occurrence, date) == None && !Blocked(s, student, occurrence)
  }

  lemma SettledStays(s: Store, student: int, other: int, occurrence: int, date: int)
    requires Sane(s) && NextWrite(s, student, occurrence, date).Some? && Settled(s, other, occurrence, date)
    ensures Sane(NextWrite(s, student, occurrence, date).value)
    ensures Settled(NextWrite(s, student, occurrence, date).value, other, occurrence, date)
  {
    WriteProgresses(s, student, occurrence, date);
    WriteUntouched(s, student, other, occurrence, date);
  }

  /** After the link only closing a full cycle is left. */
  lemma AfterLink(s: Store, student: int, occurrence: int, k: nat, date: int)
    requires Sane(s) && PlanUsable(s, student) && LinkedCycle(s, student, occurrence).None?
    requires OpenCycle(s.cycles, student) == Some(k) && !Full(s.cycles[k])
    ensures NextWrite(s, student, occurrence, date) == Some(Linked(s, k, occurrence))
    ensures var t := Linked(s, k, occurrence);
      && Sane(t) && PlanUsable(t, student) && !Blocked(t, student, occurrence)
      && NextWrite(t, student, occurrence, date) == if Full(t.cycles[k]) then Some(MarkedDue(t, k, date)) else None
  {
    LinkFollows(s, student, occurrence, k);
  }

  /** After closing the cycle nothing is left. */
  lemma AfterDue(s: Store, student: int, occurrence: int, date: int)
    requires Sane(s) && PlanUsable(s, student) && LinkedCycle(s, student, occurrence).Some?
    ensures var t := MarkedDue(s, LinkedCycle(s, student, occurrence).value, date);
      Sane(t) && NextWrite(t, student, occurrence, date) == None && !Blocked(t, student, occurrence)
  {
    DueIsLast(s, student, occurrence, date);
  }

  // ---- server and client agree --------------------------------------------------------

  lemma ValidIsSane(s: Store)
    requires Valid(s)
    ensures Sane(s)
  {
    forall i | 0 <= i < |s.cycles| ensures s.cycles[i].limit >= 1 { assert CycleOk(s.cycles[i], s.links); }
  }

  lemma SettleStep(s: Store, t: Store, student: int, occurrence: int, date: int)
    requires Sane(s) && Sane(t) && NextWrite(s, student, occurrence, date) == Some(t)
    ensures Settle(s, student, occurrence, date) == Settle(t, student, occurrence, date)
  {
  }

  /** The server's row after the lesson: a payment date stays where the client clears it. */
  function AdvancedOnServer(c: Cycle, date: int): Cycle {
    Advanced(c, date).(paidOn := c.paidOn)
  }

  /** Linking in two writes, the second only for a full cycle. */
  lemma SettleLinks(s: Store, student: int, occurrence: int, k: nat, date: int)
    requires Sane(s) && PlanUsable(s, student) && LinkedCycle(s, student, occurrence).None?
    requires OpenCycle(s.cycles, student) == Some(k) && !Full(s.cycles[k])
    ensures Settle(s, student, occurrence, date)
         == s.(cycles := s.cycles[k := AdvancedOnServer(s.cycles[k], date)], links := s.links + [NextLink(s.cycles[k], occurrence)])
  {
    var t := Linked(s, k, occurrence);
    AfterLink(s, student, occurrence, k, date);
    LinkedIsFound(s, student, occurrence, k);
    SettleStep(s, t, student, occurrence, date);
    if Full(t.cycles[k]) {
      AfterDue(t, student, occurrence, date);
      SettleStep(t, MarkedDue(t, k, date), student, occurrence, date);
    }
  }

  /** Without an open cycle the server creates one, numbered after all of them, and links the lesson. */
  lemma SettleCreates(s: Store, student: int, occurrence: int, date: int)
    requires Sane(s) && PlanUsable(s, student) && LinkedCycle(s, student, occurrence).None? && OpenCycle(s.cycles, student) == None
    requires s.plans[student].size.value >= 1
    ensures var c := CreatedCycle(s, student, date);
      Settle(s, student, occurrence, date) == Store(
        s.plans, s.cycles + [AdvancedOnServer(c, date)], s.links + [NextLink(c, occurrence)], s.nextId + 1)
  {
    var c := CreatedCycle(s, student, date);
    var t := s.(cycles := s.cycles + [c], nextId := s.nextId + 1);
    CreateIsFirst(s, student, occurrence, date);
    SettleStep(s, t, student, occurrence, date);
    SettleLinks(t, student, occurrence, |s.cycles|, date);
    assert t.cycles[|s.cycles| := AdvancedOnServer(c, date)] == s.cycles + [AdvancedOnServer(c, date)];
  }

  // ---- the client's transaction -------------------------------------------------------

  lemma ClientLinks(s: Store, student: int, occurrence: int, k: nat, date: int)
    requires Valid(s) && PlanUsable(s, student) && !AlreadyLinked(s, student, occurrence) && OpenCycle(s.cycles, student) == Some(k)
    ensures CompleteFor(s, student, occurrence, date) == Done(
      s.(cycles := s.cycles[k := Advanced(s.cycles[k], date)], links := s.links + [NextLink(s.cycles[k], occurrence)]))
  {
    assert CycleOk(s.cycles[k], s.links);
  }

  lemma ClientCreates(s: Store, student: int, occurrence: int, date: int)
    requires Valid(s) && PlanUsable(s, student) && !AlreadyLinked(s, student, occurrence) && OpenCycle(s.cycles, student) == None
    ensures var c := NewCycle(s, student, date);
      CompleteFor(s, student, occurrence, date) == Done(Store(
        s.plans, s.cycles + [Advanced(c, date)], s.links + [NextLink(c, occurrence)], s.nextId + 1))
  {
    CompletingIsSound(s, student, occurrence, date);
  }

  /** What decides whether both number and date the student's cycle alike. */
  predicate SameCycleRow(s: Store, student: int) {
    var at := OpenCycle(s.cycles, student);
    if at.Some? then s.cycles[at.value].paidOn == None || s.cycles[at.value].opening + s.cycles[at.value].realCount + 1 >= s.cycles[at.value].limit
    else NextSequence(s.cycles, student) == LastSequence(s.cycles, student) + 1
  }

  lemma LinkedAlready(s: Store, student: int, occurrence: int)
    requires Valid(s)
    ensures AlreadyLinked(s, student, occurrence) <==> LinkedCycle(s, student, occurrence).Some?
  {
  }

  lemma RowsDifferAt(cycles: seq<Cycle>, k: nat, a: Cycle, b: Cycle)
    requires k < |cycles|
    ensures cycles[k := a] == cycles[k := b] <==> a == b
  {
    if cycles[k := a] == cycles[k := b] { assert cycles[k := a][k] == cycles[k := b][k]; }
  }

  /** Both tables after a lesson that goes to an open cycle. */
  lemma SameForOpenIff(s: Store, student: int, occurrence: int, k: nat, date: int)
    requires Valid(s) && Sane(s) && PlanUsable(s, student) && LinkedCycle(s, student, occurrence).None?
    requires !AlreadyLinked(s, student, occurrence) && OpenCycle(s.cycles, student) == Some(k)
    ensures CompleteFor(s, student, occurrence, date) == Done(Settle(s, student, occurrence, date)) <==> SameCycleRow(s, student)
  {
    var c := s.cycles[k];
    assert !Full(c) by { assert CycleOk(c, s.links); }
    SettleLinks(s, student, occurrence, k, date);
    ClientLinks(s, student, occurrence, k, date);
    RowsDifferAt(s.cycles, k, AdvancedOnServer(c, date), Advanced(c, date));
    assert AdvancedOnServer(c, date) == Advanced(c, date) <==> SameCycleRow(s, student);
  }

  /** Both tables after a lesson that needs a new cycle. */
  lemma SameForNewIff(s: Store, student: int, occurrence: int, date: int)
    requires Valid(s) && Sane(s) && PlanUsable(s, student) && LinkedCycle(s, student, occurrence).None?
    requires !AlreadyLinked(s, student, occurrence) && OpenCycle(s.cycles, student) == None
    ensures CompleteFor(s, student, occurrence, date) == Done(Settle(s, student, occurrence, date)) <==> SameCycleRow(s, student)
  {
    var mine, theirs := AdvancedOnServer(CreatedCycle(s, student, date), date), Advanced(NewCycle(s, student, date), date);
    SettleCreates(s, student, occurrence, date);
    ClientCreates(s, student, occurrence, date);
    assert (s.cycles + [mine])[|s.cycles|] == mine && (s.cycles + [theirs])[|s.cycles|] == theirs;
    assert mine == theirs <==> SameCycleRow(s, student);
  }

  /** A lesson that finds room in an open cycle is recorded. */
  lemma RoomIsEnough(s: Store, student: int, occurrence: int, k: nat, date: int)
    requires Sane(s) && PlanUsable(s, student) && LinkedCycle(s, student, occurrence).None?
    requires OpenCycle(s.cycles, student) == Some(k) && !Full(s.cycles[k])
    ensures !Blocked(Settle(s, student, occurrence, date), student, occurrence)
  {
    var t := Linked(s, k, occurrence);
    AfterLink(s, student, occurrence, k, date);
    LinkedIsFound(s, student, occurrence, k);
    SettleStep(s, t, student, occurrence, date);
    if Full(t.cycles[k]) {
      AfterDue(t, student, occurrence, date);
      SettleStep(t, MarkedDue(t, k, date), student, occurrence, date);
    }
  }

  /** On sound tables the server records every lesson of a student whose plan has its package. */
  lemma UsablePlanIsEnough(s: Store, student: int, occurrence: int, date: int)
    requires Valid(s) && Sane(s) && PlanUsable(s, student)
    ensures !Blocked(Settle(s, student, occurrence, date), student, occurrence)
  {
    var linked, at := LinkedCycle(s, student, occurrence), OpenCycle(s.cycles, student);
    if linked.Some? {
      assert CycleOk(s.cycles[linked.value], s.links);
    } else if at.Some? {
      assert CycleOk(s.cycles[at.value], s.links);
      RoomIsEnough(s, student, occurrence, at.value, date);
    } else {
      var c := CreatedCycle(s, student, date);
      var t := s.(cycles := s.cycles + [c], nextId := s.nextId + 1);
      CreateIsFirst(s, student, occurrence, date);
      SettleStep(s, t, student, occurrence, date);
      RoomIsEnough(t, student, occurrence, |s.cycles|, date);
    }
  }

  /** Both record the lesson, in the same tables. */
  ghost predicate SameResult(s: Store, student: int, occurrence: int, date: int)
    requires Valid(s) && Sane(s)
  {
    var t := Settle(s, student, occurrence, date);
    !Blocked(t, student, occurrence) && CompleteFor(s, student, occurrence, date) == Done(t)
  }

  /** A plan without its package: the server refuses, the client bills with defaults. */
  lemma UnusablePlanDiffers(s: Store, student: int, occurrence: int, date: int)
    requires Valid(s) && Sane(s) && Packaged(s, student) && !PlanUsable(s, student)
    ensures CompleteFor(s, student, occurrence, date).Done? && !SameResult(s, student, occurrence, date)
  {
    CompletingIsSound(s, student, occurrence, date);
  }

  /**
   The server's writes and the client's single transaction record the lesson in the same tables if and
   only if the student has no package, or his plan names its size and price and the lesson is linked
   already, or it goes to an open cycle without a date of payment or fills it, or no cancelled cycle has
   the student's highest sequence number.
   */
  lemma ServerMatchesClientIff(s: Store, student: int, occurrence: int, date: int)
    requires Valid(s)
    ensures Sane(s)
    ensures SameResult(s, student, occurrence, date) <==>
      !Packaged(s, student) || (PlanUsable(s, student) && (AlreadyLinked(s, student, occurrence) || SameCycleRow(s, student)))
  {
    ValidIsSane(s);
    if PlanUsable(s, student) {
      UsablePlanIsEnough(s, student, occurrence, date);
      SameTablesIff(s, student, occurrence, date);
    } else if Packaged(s, student) {
      UnusablePlanDiffers(s, student, occurrence, date);
    }
  }

  lemma SameTablesIff(s: Store, student: int, occurrence: int, date: int)
    requires Valid(s) && Sane(s) && PlanUsable(s, student)
    ensures CompleteFor(s, student, occurrence, date) == Done(Settle(s, student, occurrence, date)) <==>
      AlreadyLinked(s, student, occurrence) || SameCycleRow(s, student)
  {
    LinkedAlready(s, student, occurrence);
    var linked, at := LinkedCycle(s, student, occurrence), OpenCycle(s.cycles, student);
    if linked.Some? {
      assert CycleOk(s.cycles[linked.value], s.links);
    } else if at.Some? {
      SameForOpenIff(s, student, occurrence, at.value, date);
    } else {
      SameForNewIff(s, student, occurrence, date);
    }
  }

  /** A student whose only cycle was cancelled: the client starts again at 1, the server goes on with 2. */
  lemma CancelledCycleIsCounted(occurrence: int, date: int)
    ensures var s := Store(map[1 := Plan(true, Some(8), Some(100))], [Cycle(0, 1, 1, 8, 100, 0, false, 0, Cancelled, 0, None, None)], [], 1);
      && Valid(s) && Sane(s) && PlanUsable(s, 1)
      && CompleteFor(s, 1, occurrence, date) != Done(Settle(s, 1, occurrence, date))
  {
    var s := Store(map[1 := Plan(true, Some(8), Some(100))], [Cycle(0, 1, 1, 8, 100, 0, false, 0, Cancelled, 0, None, None)], [], 1);
    assert s.cycles[..0] == [];
    assert InOrder(s.links, 0) == [];
    assert CycleOk(s.cycles[0], s.links);
    ValidIsSane(s);
    SameTablesIff(s, 1, occurrence, date);
  }
}
