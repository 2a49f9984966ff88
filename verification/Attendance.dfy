/**
 Completing, reopening and configuring lessons over the client's tables of billing cycles and
 of the lessons linked to them.
 */
module Attendance {
  import opened Numbers
  import opened PackageCycles
  import opened Renumbering

  const DEFAULT_PACKAGE_SIZE := 8

  /** A student's billing plan; `size` and `price` are absent for a plan billed by lesson. */
  datatype Plan = Plan(packaged: bool, size: Option<int>, price: Option<nat>)

  /** Plans by student, the tables of cycles and links, and the next fresh cycle id. */
  datatype Store = Store(plans: map<int, Plan>, cycles: seq<Cycle>, links: seq<Link>, nextId: int)

  datatype Error = PackageCycleAlreadyComplete | CorrectionRequiresSync | BillingModeLockedByHistory
    | OpeningProgressExceedsPackage | OpeningProgressLockedByRealLessons

  datatype Outcome = Done(store: Store) | Rejected(error: Error)

  predicate PlansOk(plans: map<int, Plan>) {
    forall student <- plans :: plans[student].size.Some? ==> 1 <= plans[student].size.value <= 100
  }

  /** A link is stored under its cycle and lesson. */
  predicate KeysUnique(links: seq<Link>) {
    forall i, j :: 0 <= i < j < |links| && links[i].cycle == links[j].cycle ==> links[i].occurrence != links[j].occurrence
  }

  /** Two links of one lesson never belong to cycles of the same student. */
  ghost predicate OneLinkPerStudent(cycles: seq<Cycle>, links: seq<Link>) {
    forall x, y :: x in links && y in links && x.occurrence == y.occurrence && SameStudent(cycles, x.cycle, y.cycle) ==> x.cycle == y.cycle
  }

  ghost predicate Sound(cycles: seq<Cycle>, links: seq<Link>) {
    StoreOk(cycles, links) && KeysUnique(links) && OneLinkPerStudent(cycles, links)
  }

  ghost predicate IdsBelow(s: Store) {
    && (forall i :: 0 <= i < |s.cycles| ==> s.cycles[i].id < s.nextId)
    && (forall x :: x in s.links ==> x.cycle < s.nextId)
  }

  ghost predicate Valid(s: Store) {
    PlansOk(s.plans) && IdsBelow(s) && Sound(s.cycles, s.links)
  }

  function FindCycle(cycles: seq<Cycle>, id: int): (found: Option<nat>)
    ensures found.Some? ==> found.value < |cycles| && cycles[found.value].id == id
    ensures found.None? ==> forall i :: 0 <= i < |cycles| ==> cycles[i].id != id
  {
    FindCycleFrom(cycles, id, 0)
  }

  function FindCycleFrom(cycles: seq<Cycle>, id: int, k: nat): (found: Option<nat>)
    requires k <= |cycles|
    ensures found.Some? ==> k <= found.value < |cycles| && cycles[found.value].id == id
    ensures found.None? ==> forall i :: k <= i < |cycles| ==> cycles[i].id != id
    decreases |cycles| - k
  {
    if k == |cycles| then None
    else if cycles[k].id == id then Some(k)
    else FindCycleFrom(cycles, id, k + 1)
  }

  function StudentOf(cycles: seq<Cycle>, id: int): Option<int> {
    var at := FindCycle(cycles, id);
    if at.Some? then Some(cycles[at.value].student) else None
  }

  predicate SameStudent(cycles: seq<Cycle>, a: int, b: int) {
    StudentOf(cycles, a).Some? && StudentOf(cycles, a) == StudentOf(cycles, b)
  }

  lemma StudentOfAt(cycles: seq<Cycle>, i: nat)
    requires UniqueIds(cycles) && i < |cycles|
    ensures FindCycle(cycles, cycles[i].id) == Some(i)
  {
  }

  predicate AlreadyLinked(s: Store, student: int, occurrence: int) {
    exists k :: 0 <= k < |s.links| && s.links[k].occurrence == occurrence && StudentOf(s.cycles, s.links[k].cycle) == Some(student)
  }

  /** The first open cycle of a student when his cycles are sorted by descending sequence number. */
  function OpenCycle(cycles: seq<Cycle>, student: int): (found: Option<nat>)
    ensures found.Some? ==> found.value < |cycles| && cycles[found.value].student == student && cycles[found.value].status == Open
    ensures found.Some? ==> (forall i :: 0 <= i < |cycles| && cycles[i].student == student && cycles[i].status == Open ==> cycles[i].sequenceNo <= cycles[found.value].sequenceNo)
    ensures found.None? ==> forall i :: 0 <= i < |cycles| && cycles[i].student == student ==> cycles[i].status != Open
  {
    if cycles == [] then None
    else
      var n := |cycles| - 1;
      var before := OpenCycle(cycles[..n], student);
      if cycles[n].student == student && cycles[n].status == Open
         && (before.None? || cycles[before.value].sequenceNo < cycles[n].sequenceNo)
      then Some(n) else before
  }

  function LastSequence(cycles: seq<Cycle>, student: int): (last: int)
    ensures last >= 0
    ensures forall i :: 0 <= i < |cycles| && cycles[i].student == student && cycles[i].status != Cancelled ==> cycles[i].sequenceNo <= last
  {
    if cycles == [] then 0
    else
      var n := |cycles| - 1;
      var before := LastSequence(cycles[..n], student);
      if cycles[n].student == student && cycles[n].status != Cancelled then Max(before, cycles[n].sequenceNo) else before
  }

  function NewCycle(s: Store, student: int, date: int): Cycle
    requires student in s.plans
  {
    var plan := s.plans[student];
    Cycle(s.nextId, student, LastSequence(s.cycles, student) + 1,
          plan.size.GetOrElse(DEFAULT_PACKAGE_SIZE), plan.price.GetOrElse(0),
          0, false, 0, Open, date, None, None)
  }

  function NextLink(c: Cycle, occurrence: int): Link
    requires c.limit >= 1
  {
    var position := c.opening + c.realCount + 1;
    Link(c.id, occurrence, position, UnitShare(c.price, c.limit, position))
  }

  /** The cycle's row after its next lesson; a lesson that fills the cycle makes it due. */
  function Advanced(c: Cycle, date: int): Cycle {
    var full := c.opening + c.realCount + 1 >= c.limit;
    c.(locked := true, realCount := c.realCount + 1,
       status := if full then Due else Open,
       completedOn := if full then Some(date) else c.completedOn,
       paidOn := if full then c.paidOn else None)
  }

  /** The cycle's row after a renumbering loop counted `count` lessons in it. */
  function Recounted(c: Cycle, count: nat): Cycle {
    var full := c.opening + count >= c.limit;
    c.(locked := true, realCount := count,
       status := if full then Due else Open,
       completedOn := if full then c.completedOn else None,
       paidOn := if full then c.paidOn else None)
  }

  // ---- completing a lesson for one student --------------------------------------------

  predicate Packaged(s: Store, student: int) {
    student in s.plans && s.plans[student].packaged
  }

  function CompleteFor(s: Store, student: int, occurrence: int, date: int): Outcome
    requires Valid(s)
  {
    if !Packaged(s, student) || AlreadyLinked(s, student, occurrence) then Done(s)
    else
      var (k, c) := Target(s, student, date);
      if c.opening + c.realCount + 1 > c.limit then Rejected(PackageCycleAlreadyComplete)
      else Done(WithLesson(s, k, c, occurrence, date))
  }

  /** The lessons of a cycle in order; with the cycle's row they determine its links. */
  function LessonsOf(s: Store, cycle: int): seq<int> {
    Lessons(InOrder(s.links, cycle))
  }

  lemma SameRowsSameCycle(c: Cycle, links: seq<Link>, after: seq<Link>)
    requires CycleOk(c, links) && LinksOf(after, c.id) == LinksOf(links, c.id)
    ensures CycleOk(c, after)
  {
  }

  lemma NumberedExtends(rows: seq<Link>, x: Link, opening: nat, price: nat, limit: int)
    requires limit >= 1 && Numbered(rows, opening, price, limit)
    requires x.position == opening + 1 + |rows| && x.earned == UnitShare(price, limit, x.position)
    ensures Numbered(rows + [x], opening, price, limit)
  {
    forall k | 0 <= k < |rows + [x]|
      ensures (rows + [x])[k].position == opening + 1 + k && (rows + [x])[k].earned == UnitShare(price, limit, opening + 1 + k)
    {
      if k == |rows| { assert (rows + [x])[k] == x; } else { assert (rows + [x])[k] == rows[k]; }
    }
  }

  lemma AppendedRows(c: Cycle, links: seq<Link>, x: Link)
    requires CycleOk(c, links) && x.cycle == c.id
    requires x.position == c.opening + c.realCount + 1 && x.earned == UnitShare(c.price, c.limit, x.position)
    requires forall y :: y in links && y.cycle == c.id ==> y.occurrence != x.occurrence
    ensures |LinksOf(links + [x], c.id)| == c.realCount + 1
    ensures InOrder(links + [x], c.id) == InOrder(links, c.id) + [x]
    ensures Numbered(InOrder(links + [x], c.id), c.opening, c.price, c.limit)
    ensures OccurrencesDistinct(InOrder(links + [x], c.id))
  {
    var rows := InOrder(links, c.id);
    LinksOfAppend(links, x, c.id);
    AppendedInOrder(c, links, x);
    RowsBelong(links, c.id);
    NumberedExtends(rows, x, c.opening, c.price, c.limit);
  }

  lemma AdvancedIsSound(c: Cycle, links: seq<Link>, occurrence: int, date: int)
    requires CycleOk(c, links) && c.status != Cancelled && c.opening + c.realCount < c.limit
    requires forall x :: x in links && x.cycle == c.id ==> x.occurrence != occurrence
    ensures CycleOk(Advanced(c, date), links + [NextLink(c, occurrence)])
    ensures InOrder(links + [NextLink(c, occurrence)], c.id) == InOrder(links, c.id) + [NextLink(c, occurrence)]
  {
    AppendedRows(c, links, NextLink(c, occurrence));
  }

  lemma {:induction false} NoRows(links: seq<Link>, cycle: int)
    requires forall x :: x in links ==> x.cycle != cycle
    ensures LinksOf(links, cycle) == []
  {
    if links != [] {
      assert links[0] in links;
      NoRows(links[1..], cycle);
    }
  }

  lemma EmptyCycleIsSound(c: Cycle, links: seq<Link>)
    requires 1 <= c.limit <= 100 && c.opening <= c.limit && c.realCount == 0
    requires c.status != Cancelled ==> (c.status == Open <==> c.opening < c.limit)
    requires forall x :: x in links ==> x.cycle != c.id
    ensures CycleOk(c, links) && InOrder(links, c.id) == []
  {
    NoRows(links, c.id);
  }

  /** Store cycle k; one past the end appends it. */
  function PutCycle(cycles: seq<Cycle>, k: nat, c: Cycle): (after: seq<Cycle>)
    requires k <= |cycles|
    ensures |after| == Max(|cycles|, k + 1) && after[k] == c
    ensures forall i :: 0 <= i < |cycles| && i != k ==> after[i] == cycles[i]
  {
    if k < |cycles| then cycles[k := c] else cycles + [c]
  }

  /** c takes the place of cycle k: the same id and student, or a new id at the end. */
  ghost predicate Replaces(cycles: seq<Cycle>, k: nat, c: Cycle) {
    && k <= |cycles|
    && (k < |cycles| ==> cycles[k].id == c.id && cycles[k].student == c.student)
    && (k == |cycles| ==> forall i :: 0 <= i < |cycles| ==> cycles[i].id != c.id)
  }

  lemma StudentsKept(cycles: seq<Cycle>, k: nat, c: Cycle, id: int)
    requires UniqueIds(cycles) && Replaces(cycles, k, c)
    ensures UniqueIds(PutCycle(cycles, k, c))
    ensures StudentOf(PutCycle(cycles, k, c), id) == if id == c.id then Some(c.student) else StudentOf(cycles, id)
  {
    var after := PutCycle(cycles, k, c);
    if id == c.id {
      StudentOfAt(after, k);
    } else {
      var at := FindCycle(cycles, id);
      if at.Some? {
        assert after[at.value].id == id;
        StudentOfAt(after, at.value);
      }
    }
  }

  lemma OthersKeepRows(links: seq<Link>, c: Cycle, x: Link)
    requires CycleOk(c, links) && c.id != x.cycle
    ensures CycleOk(c, links + [x])
    ensures InOrder(links + [x], c.id) == InOrder(links, c.id)
  {
    LinksOfAppend(links, x, c.id);
    assert LinksOf(links + [x], c.id) == LinksOf(links, c.id);
  }

  lemma OneLinkKept(cycles: seq<Cycle>, links: seq<Link>, k: nat, c: Cycle, x: Link)
    requires UniqueIds(cycles) && Replaces(cycles, k, c) && OneLinkPerStudent(cycles, links)
    requires k == |cycles| ==> forall y :: y in links ==> y.cycle != c.id
    requires x.cycle == c.id
    requires forall y :: y in links && y.occurrence == x.occurrence ==> StudentOf(cycles, y.cycle) != Some(c.student)
    ensures OneLinkPerStudent(PutCycle(cycles, k, c), links + [x])
  {
    var after := PutCycle(cycles, k, c);
    forall y | y in links ensures StudentOf(after, y.cycle) == StudentOf(cycles, y.cycle) {
      StudentsKept(cycles, k, c, y.cycle);
      if k < |cycles| { StudentOfAt(cycles, k); }
    }
    StudentsKept(cycles, k, c, c.id);
  }

  lemma CyclesKept(cycles: seq<Cycle>, links: seq<Link>, k: nat, c: Cycle, x: Link)
    requires StoreOk(cycles, links) && Replaces(cycles, k, c) && x.cycle == c.id && CycleOk(c, links + [x])
    ensures StoreOk(PutCycle(cycles, k, c), links + [x])
  {
    var after := PutCycle(cycles, k, c);
    StudentsKept(cycles, k, c, c.id);
    forall i | 0 <= i < |after| ensures CycleOk(after[i], links + [x]) {
      if i != k {
        assert after[i] == cycles[i] && after[k].id == c.id;
        OthersKeepRows(links, cycles[i], x);
      }
    }
  }

  /** The store after cycle k took one more lesson. */
  function WithLesson(s: Store, k: nat, c: Cycle, occurrence: int, date: int): Store
    requires k <= |s.cycles| && c.limit >= 1
  {
    Store(s.plans, PutCycle(s.cycles, k, Advanced(c, date)), s.links + [NextLink(c, occurrence)],
          if k < |s.cycles| then s.nextId else s.nextId + 1)
  }

  lemma LessonKeepsSound(cycles: seq<Cycle>, links: seq<Link>, k: nat, c: Cycle, occurrence: int, date: int)
    requires Sound(cycles, links) && Replaces(cycles, k, c)
    requires k == |cycles| ==> forall y :: y in links ==> y.cycle != c.id
    requires forall y :: y in links && y.occurrence == occurrence ==> StudentOf(cycles, y.cycle) != Some(c.student)
    requires CycleOk(c, links) && c.status == Open
    ensures Sound(PutCycle(cycles, k, Advanced(c, date)), links + [NextLink(c, occurrence)])
  {
    AdvancedIsSound(c, links, occurrence, date);
    CyclesKept(cycles, links, k, Advanced(c, date), NextLink(c, occurrence));
    OneLinkKept(cycles, links, k, Advanced(c, date), NextLink(c, occurrence));
  }

  lemma WithLessonIsValid(s: Store, k: nat, c: Cycle, occurrence: int, date: int)
    requires Valid(s) && k <= |s.cycles| && !AlreadyLinked(s, c.student, occurrence)
    requires if k < |s.cycles| then c == s.cycles[k] else c.id == s.nextId
    requires CycleOk(c, s.links) && c.status == Open
    ensures Valid(WithLesson(s, k, c, occurrence, date))
  {
    forall y | y in s.links && y.occurrence == occurrence ensures StudentOf(s.cycles, y.cycle) != Some(c.student) {
      var m :| 0 <= m < |s.links| && s.links[m] == y;
    }
    LessonKeepsSound(s.cycles, s.links, k, c, occurrence, date);
  }

  /** The cycle a student's next lesson enters, and its place in the table. */
  function Target(s: Store, student: int, date: int): (r: (nat, Cycle))
    requires student in s.plans
    ensures r.0 <= |s.cycles| && (r.0 < |s.cycles| ==> s.cycles[r.0] == r.1)
  {
    var at := OpenCycle(s.cycles, student);
    if at.Some? then (at.value, s.cycles[at.value]) else (|s.cycles|, NewCycle(s, student, date))
  }

  lemma TargetIsSound(s: Store, student: int, date: int)
    requires Valid(s) && student in s.plans
    ensures var (k, c) := Target(s, student, date);
      && CycleOk(c, s.links) && c.status == Open && c.student == student
      && (k == |s.cycles| ==> c.id == s.nextId)
  {
    if OpenCycle(s.cycles, student).None? {
      EmptyCycleIsSound(NewCycle(s, student, date), s.links);
    }
  }

  /** Completing a lesson for a student always succeeds on a sound store and keeps it sound. */
  lemma CompletingIsSound(s: Store, student: int, occurrence: int, date: int)
    requires Valid(s)
    ensures var out := CompleteFor(s, student, occurrence, date); out.Done? && Valid(out.store)
    ensures Packaged(s, student) && !AlreadyLinked(s, student, occurrence) ==>
      var (k, c) := Target(s, student, date);
      && CycleOk(c, s.links) && c.student == student
      && CompleteFor(s, student, occurrence, date) == Done(WithLesson(s, k, c, occurrence, date))
  {
    if Packaged(s, student) && !AlreadyLinked(s, student, occurrence) {
      var (k, c) := Target(s, student, date);
      TargetIsSound(s, student, date);
      WithLessonIsValid(s, k, c, occurrence, date);
    }
  }

  /** It appends at most one link, and leaves a packaged student linked to the lesson. */
  lemma CompletingLinks(s: Store, student: int, occurrence: int, date: int)
    requires Valid(s)
    ensures CompleteFor(s, student, occurrence, date).Done?
    ensures var t := CompleteFor(s, student, occurrence, date).store;
      && t.plans == s.plans && s.links <= t.links && |t.links| <= |s.links| + 1
      && (Packaged(s, student) ==> AlreadyLinked(t, student, occurrence))
      && (forall k :: |s.links| <= k < |t.links| ==> t.links[k].occurrence == occurrence)
  {
    CompletingIsSound(s, student, occurrence, date);
    if Packaged(s, student) && !AlreadyLinked(s, student, occurrence) {
      var (k, c) := Target(s, student, date);
      NowLinked(s, k, c, occurrence, date);
    }
  }

  lemma NowLinked(s: Store, k: nat, c: Cycle, occurrence: int, date: int)
    requires k <= |s.cycles| && c.limit >= 1 && UniqueIds(PutCycle(s.cycles, k, Advanced(c, date)))
    ensures AlreadyLinked(WithLesson(s, k, c, occurrence, date), c.student, occurrence)
  {
    var t := WithLesson(s, k, c, occurrence, date);
    StudentOfAt(t.cycles, k);
    assert t.links[|s.links|] == NextLink(c, occurrence);
  }

  /** Two cycle rows that agree on everything completing and reopening lessons leaves alone. */
  predicate SameTerms(a: Cycle, b: Cycle) {
    a.id == b.id && a.student == b.student && a.sequenceNo == b.sequenceNo && a.limit == b.limit
    && a.price == b.price && a.opening == b.opening
  }

  /** A later table of cycles: the same cycles under the same terms, possibly followed by new ones. */
  predicate Extends(before: seq<Cycle>, after: seq<Cycle>) {
    |before| <= |after| && forall i :: 0 <= i < |before| ==> SameTerms(before[i], after[i])
  }

  lemma ExtendsKeepsStudent(before: seq<Cycle>, after: seq<Cycle>, id: int)
    requires UniqueIds(after) && Extends(before, after) && StudentOf(before, id).Some?
    ensures StudentOf(after, id) == StudentOf(before, id)
  {
    var i := FindCycle(before, id).value;
    assert SameTerms(before[i], after[i]);
    StudentOfAt(after, i);
  }

  lemma WithLessonAppends(s: Store, k: nat, c: Cycle, occurrence: int, date: int, i: nat)
    requires StoreOk(s.cycles, s.links) && Replaces(s.cycles, k, c) && CycleOk(c, s.links)
    requires k < |s.cycles| ==> c == s.cycles[k]
    requires i < |s.cycles|
    ensures SameTerms(s.cycles[i], WithLesson(s, k, c, occurrence, date).cycles[i])
    ensures LessonsOf(WithLesson(s, k, c, occurrence, date), s.cycles[i].id)
         == LessonsOf(s, s.cycles[i].id) + if i == k then [occurrence] else []
  {
    var x := NextLink(c, occurrence);
    if i == k {
      AppendedInOrder(c, s.links, x);
    } else {
      if k < |s.cycles| { assert s.cycles[i].id != s.cycles[k].id; }
      OthersKeepRows(s.links, s.cycles[i], x);
    }
  }

  /** Completing a lesson appends it to at most one existing cycle. */
  lemma CompletingAppends(s: Store, student: int, occurrence: int, date: int, i: nat)
    requires Valid(s) && i < |s.cycles|
    ensures var t := CompleteFor(s, student, occurrence, date);
      && t.Done? && |s.cycles| <= |t.store.cycles| && SameTerms(s.cycles[i], t.store.cycles[i])
      && (LessonsOf(t.store, s.cycles[i].id) == LessonsOf(s, s.cycles[i].id)
          || LessonsOf(t.store, s.cycles[i].id) == LessonsOf(s, s.cycles[i].id) + [occurrence])
  {
    CompletingIsSound(s, student, occurrence, date);
    if Packaged(s, student) && !AlreadyLinked(s, student, occurrence) {
      var (k, c) := Target(s, student, date);
      WithLessonAppends(s, k, c, occurrence, date, i);
    }
  }

  // ---- completing a lesson for everybody it is billed to ------------------------------

  function CompleteAll(s: Store, billed: seq<int>, occurrence: int, date: int): (out: Outcome)
    requires Valid(s)
    ensures out.Done? && Valid(out.store)
  {
    if billed == [] then Done(s)
    else
      var last := |billed| - 1;
      var before := CompleteAll(s, billed[..last], occurrence, date).store;
      CompletingIsSound(before, billed[last], occurrence, date);
      CompleteFor(before, billed[last], occurrence, date)
  }

  /** t has everything s had, and only links of this lesson on top. */
  ghost predicate OnlyAdds(s: Store, t: Store, occurrence: int) {
    && t.plans == s.plans && s.links <= t.links && Extends(s.cycles, t.cycles)
    && forall k :: |s.links| <= k < |t.links| ==> t.links[k].occurrence == occurrence
  }

  lemma LinkStays(s: Store, t: Store, student: int, occurrence: int)
    requires AlreadyLinked(s, student, occurrence)
    requires UniqueIds(t.cycles) && OnlyAdds(s, t, occurrence)
    ensures AlreadyLinked(t, student, occurrence)
  {
    var k :| 0 <= k < |s.links| && s.links[k].occurrence == occurrence && StudentOf(s.cycles, s.links[k].cycle) == Some(student);
    ExtendsKeepsStudent(s.cycles, t.cycles, s.links[k].cycle);
    assert t.links[k] == s.links[k];
  }

  lemma CompletingOnlyAdds(s: Store, student: int, occurrence: int, date: int)
    requires Valid(s)
    ensures CompleteFor(s, student, occurrence, date).Done?
    ensures OnlyAdds(s, CompleteFor(s, student, occurrence, date).store, occurrence)
  {
    CompletingLinks(s, student, occurrence, date);
  }

  /** Completing a lesson only adds links of that lesson. */
  lemma {:induction false} CompleteAllOnlyAdds(s: Store, billed: seq<int>, occurrence: int, date: int)
    requires Valid(s)
    ensures OnlyAdds(s, CompleteAll(s, billed, occurrence, date).store, occurrence)
  {
    if billed != [] {
      var last := |billed| - 1;
      CompleteAllOnlyAdds(s, billed[..last], occurrence, date);
      var m := CompleteAll(s, billed[..last], occurrence, date).store;
      CompletingOnlyAdds(m, billed[last], occurrence, date);
    }
  }

  /** Every packaged student the lesson is billed to ends up linked to it. */
  lemma {:induction false} EveryBilledStudentIsLinked(s: Store, billed: seq<int>, occurrence: int, date: int, student: int)
    requires Valid(s) && student in billed && Packaged(s, student)
    ensures AlreadyLinked(CompleteAll(s, billed, occurrence, date).store, student, occurrence)
  {
    var last := |billed| - 1;
    var m, t := CompleteAll(s, billed[..last], occurrence, date).store, CompleteAll(s, billed, occurrence, date).store;
    CompleteAllOnlyAdds(s, billed[..last], occurrence, date);
    if student == billed[last] {
      CompletingLinks(m, student, occurrence, date);
    } else {
      EveryBilledStudentIsLinked(s, billed[..last], occurrence, date, student);
      CompletingOnlyAdds(m, billed[last], occurrence, date);
      LinkStays(m, t, student, occurrence);
    }
  }

}
