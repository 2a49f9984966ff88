/** Reopening a completed lesson: what removing its links does to every cycle. */
module Reopening {
  import opened Numbers
  import opened PackageCycles
  import opened Renumbering
  import opened Attendance

  /** The links of one lesson, in table order. */
  function Affected(links: seq<Link>, occurrence: int): (rows: seq<Link>)
    ensures forall x :: x in rows <==> x in links && x.occurrence == occurrence
  {
    if links == [] then []
    else if links[0].occurrence == occurrence then [links[0]] + Affected(links[1..], occurrence)
    else Affected(links[1..], occurrence)
  }

  ghost predicate CyclesDistinct(rows: seq<Link>) {
    forall i, j :: 0 <= i < j < |rows| ==> rows[i].cycle != rows[j].cycle
  }

  lemma {:induction false} AffectedAreDistinct(links: seq<Link>, occurrence: int)
    requires KeysUnique(links)
    ensures CyclesDistinct(Affected(links, occurrence))
  {
    if links != [] {
      assert forall i, j :: 1 <= i < j < |links| ==> links[1..][i - 1] == links[i] && links[1..][j - 1] == links[j];
      AffectedAreDistinct(links[1..], occurrence);
      var rest := Affected(links[1..], occurrence);
      forall j | 0 <= j < |rest| && links[0].occurrence == occurrence ensures rest[j].cycle != links[0].cycle {
        assert rest[j] in links[1..];
        var m :| 0 <= m < |links[1..]| && links[1..][m] == rest[j];
        assert links[m + 1] == rest[j];
      }
    }
  }

  // ---- one link -----------------------------------------------------------------------

  /** Delete a link; when its cycle exists, close the gap and recount the cycle. */
  function RemoveLink(s: Store, x: Link): Store
    requires Valid(s) && x in s.links
  {
    var left := WithoutLesson(s.links, x.cycle, x.occurrence);
    var at := FindCycle(s.cycles, x.cycle);
    if at.None? then s.(links := left)
    else
      var c := s.cycles[at.value];
      ReopenedRows(c, s.links, x);
      s.(cycles := s.cycles[at.value := Recounted(c, c.realCount - 1)], links := CloseGap(left, c, x.position))
  }

  lemma {:induction false} RemovalKeepsKeys(links: seq<Link>, cycle: int, occurrence: int)
    requires KeysUnique(links)
    ensures KeysUnique(WithoutLesson(links, cycle, occurrence))
  {
    if links != [] {
      assert forall i, j :: 1 <= i < j < |links| ==> links[1..][i - 1] == links[i] && links[1..][j - 1] == links[j];
      RemovalKeepsKeys(links[1..], cycle, occurrence);
      var rest := WithoutLesson(links[1..], cycle, occurrence);
      forall j | 0 <= j < |rest| && rest[j].cycle == links[0].cycle ensures rest[j].occurrence != links[0].occurrence {
        assert rest[j] in links[1..];
        var m :| 0 <= m < |links[1..]| && links[1..][m] == rest[j];
        assert links[m + 1] == rest[j];
      }
    }
  }

  ghost predicate HasKey(links: seq<Link>, cycle: int, occurrence: int) {
    exists z :: z in links && z.cycle == cycle && z.occurrence == occurrence
  }

  lemma ClosedGapKeepsKeys(left: seq<Link>, c: Cycle, gap: int)
    requires c.limit >= 1 && gap >= 1 && KeysUnique(left)
    ensures KeysUnique(CloseGap(left, c, gap))
  {
    var moved := CloseGap(left, c, gap);
    forall i, j | 0 <= i < j < |moved| && moved[i].cycle == moved[j].cycle ensures moved[i].occurrence != moved[j].occurrence {
      assert left[i].cycle == moved[i].cycle && left[j].cycle == moved[j].cycle;
    }
  }

  lemma ClosedGapHasKey(left: seq<Link>, c: Cycle, gap: int, y: Link)
    requires c.limit >= 1 && gap >= 1 && y in CloseGap(left, c, gap)
    ensures HasKey(left, y.cycle, y.occurrence)
  {
    var moved := CloseGap(left, c, gap);
    var j :| 0 <= j < |moved| && moved[j] == y;
    assert left[j] in left;
  }

  lemma SameReplay(a: Cycle, b: Cycle, lessons: seq<int>)
    requires a.limit >= 1 && a.limit == b.limit && a.id == b.id && a.price == b.price && a.opening == b.opening
    ensures Replayed(a, lessons) == Replayed(b, lessons)
  {
    var p, q := Replayed(a, lessons), Replayed(b, lessons);
    forall k | 0 <= k < |lessons| ensures p[k] == q[k] {
      var position := a.opening + 1 + k;
      assert p[k] == Link(a.id, lessons[k], position, UnitShare(a.price, a.limit, position));
      assert q[k] == Link(a.id, lessons[k], position, UnitShare(a.price, a.limit, position));
    }
  }

  lemma CycleFromRows(c: Cycle, links: seq<Link>, lessons: seq<int>)
    requires 1 <= c.limit <= 100 && c.opening + c.realCount <= c.limit && c.realCount == |lessons|
    requires c.status != Cancelled ==> (c.status == Open <==> c.opening + c.realCount < c.limit)
    requires DistinctLessons(lessons) && InOrder(links, c.id) == Replayed(c, lessons)
    ensures CycleOk(c, links)
  {
  }

  lemma RecountedIsSound(c: Cycle, links: seq<Link>, x: Link)
    requires CycleOk(c, links) && x in links && x.cycle == c.id && x.position >= 1 && c.realCount >= 1
    ensures CycleOk(Recounted(c, c.realCount - 1), CloseGap(WithoutLesson(links, c.id, x.occurrence), c, x.position))
  {
    ReopenedRows(c, links, x);
    var after := CloseGap(WithoutLesson(links, c.id, x.occurrence), c, x.position);
    var left, t := Without(Lessons(InOrder(links, c.id)), x.occurrence), Recounted(c, c.realCount - 1);
    WithoutKeepsDistinct(Lessons(InOrder(links, c.id)), x.occurrence);
    SameReplay(t, c, left);
    CycleFromRows(t, after, left);
  }

  predicate DistinctLessons(lessons: seq<int>) {
    forall i, j :: 0 <= i < j < |lessons| ==> lessons[i] != lessons[j]
  }

  lemma {:induction false} WithoutKeepsDistinct(lessons: seq<int>, lesson: int)
    requires DistinctLessons(lessons)
    ensures DistinctLessons(Without(lessons, lesson))
  {
    if lessons != [] {
      assert forall i, j :: 1 <= i < j < |lessons| ==> lessons[1..][i - 1] == lessons[i] && lessons[1..][j - 1] == lessons[j];
      WithoutKeepsDistinct(lessons[1..], lesson);
      assert lessons[0] !in lessons[1..];
    }
  }

  lemma RemovalIsSound(cycles: seq<Cycle>, links: seq<Link>, i: nat, x: Link)
    requires Sound(cycles, links) && i < |cycles| && x in links && x.cycle == cycles[i].id
    ensures x.position >= 1 && cycles[i].realCount >= 1
    ensures var c := cycles[i];
      Sound(cycles[i := Recounted(c, c.realCount - 1)], CloseGap(WithoutLesson(links, c.id, x.occurrence), c, x.position))
  {
    var c := cycles[i];
    ReopenedRows(c, links, x);
    var left, t := WithoutLesson(links, c.id, x.occurrence), cycles[i := Recounted(c, c.realCount - 1)];
    RemovalKeepsKeys(links, c.id, x.occurrence);
    ClosedGapKeepsKeys(left, c, x.position);
    RemovalKeepsCycles(cycles, links, i, x);
    RemovalKeepsOneLink(cycles, links, t, c, x);
  }

  lemma RemovalKeepsCycles(cycles: seq<Cycle>, links: seq<Link>, i: nat, x: Link)
    requires StoreOk(cycles, links) && i < |cycles| && x in links && x.cycle == cycles[i].id
    requires x.position >= 1 && cycles[i].realCount >= 1
    ensures var c := cycles[i];
      StoreOk(cycles[i := Recounted(c, c.realCount - 1)], CloseGap(WithoutLesson(links, c.id, x.occurrence), c, x.position))
  {
    var c := cycles[i];
    var after := CloseGap(WithoutLesson(links, c.id, x.occurrence), c, x.position);
    var t := cycles[i := Recounted(c, c.realCount - 1)];
    RecountedIsSound(c, links, x);
    forall j | 0 <= j < |t| ensures CycleOk(t[j], after) {
      if j != i {
        ReopenElsewhere(c, links, x.occurrence, x.position, cycles[j].id);
        SameRowsSameCycle(cycles[j], links, after);
      }
    }
  }

  lemma RemovalKeepsOneLink(cycles: seq<Cycle>, links: seq<Link>, t: seq<Cycle>, c: Cycle, x: Link)
    requires UniqueIds(cycles) && UniqueIds(t) && |t| == |cycles| && Extends(cycles, t) && OneLinkPerStudent(cycles, links)
    requires c.limit >= 1 && x.position >= 1
    ensures OneLinkPerStudent(t, CloseGap(WithoutLesson(links, c.id, x.occurrence), c, x.position))
  {
    var left := WithoutLesson(links, c.id, x.occurrence);
    var after := CloseGap(left, c, x.position);
    forall y | y in after ensures HasKey(links, y.cycle, y.occurrence) {
      ClosedGapHasKey(left, c, x.position, y);
    }
    FewerLinks(cycles, links, t, after);
  }

  lemma FewerLinks(cycles: seq<Cycle>, links: seq<Link>, t: seq<Cycle>, after: seq<Link>)
    requires UniqueIds(cycles) && UniqueIds(t) && |t| == |cycles| && Extends(cycles, t) && OneLinkPerStudent(cycles, links)
    requires forall y :: y in after ==> HasKey(links, y.cycle, y.occurrence)
    ensures OneLinkPerStudent(t, after)
  {
    forall y, w | y in after && w in after && y.occurrence == w.occurrence && SameStudent(t, y.cycle, w.cycle)
      ensures y.cycle == w.cycle
    {
      SameStudentsBack(cycles, t, y.cycle);
      SameStudentsBack(cycles, t, w.cycle);
      var a :| a in links && a.cycle == y.cycle && a.occurrence == y.occurrence;
      var b :| b in links && b.cycle == w.cycle && b.occurrence == w.occurrence;
      assert SameStudent(cycles, a.cycle, b.cycle);
    }
  }

  lemma SameStudentsBack(cycles: seq<Cycle>, t: seq<Cycle>, id: int)
    requires UniqueIds(t) && UniqueIds(cycles) && |t| == |cycles| && Extends(cycles, t)
    ensures StudentOf(t, id) == StudentOf(cycles, id)
  {
    var at := FindCycle(t, id);
    if at.Some? {
      assert SameTerms(cycles[at.value], t[at.value]);
      StudentOfAt(cycles, at.value);
    } else if FindCycle(cycles, id).Some? {
      ExtendsKeepsStudent(cycles, t, id);
    }
  }

  /** Removing a link keeps the store sound. */
  lemma RemovingIsSound(s: Store, x: Link)
    requires Valid(s) && x in s.links
    ensures Valid(RemoveLink(s, x)) && RemoveLink(s, x).plans == s.plans && RemoveLink(s, x).nextId == s.nextId
    ensures |RemoveLink(s, x).cycles| == |s.cycles| && Extends(s.cycles, RemoveLink(s, x).cycles)
  {
    var t, at := RemoveLink(s, x), FindCycle(s.cycles, x.cycle);
    var left := WithoutLesson(s.links, x.cycle, x.occurrence);
    if at.None? {
      RemovalKeepsKeys(s.links, x.cycle, x.occurrence);
      forall j | 0 <= j < |s.cycles| ensures CycleOk(s.cycles[j], left) {
        WithoutOther(s.links, x.cycle, x.occurrence, s.cycles[j].id);
        SameRowsSameCycle(s.cycles[j], s.links, left);
      }
    } else {
      RemovalIsSound(s.cycles, s.links, at.value, x);
    }
  }

  /** It takes the lesson out of its own cycle and leaves every other cycle's lessons alone. */
  lemma RemovingTakesLesson(s: Store, x: Link, i: nat)
    requires Valid(s) && x in s.links && i < |s.cycles|
    ensures LessonsOf(RemoveLink(s, x), s.cycles[i].id)
         == if s.cycles[i].id == x.cycle then Without(LessonsOf(s, x.cycle), x.occurrence) else LessonsOf(s, s.cycles[i].id)
  {
    var at := FindCycle(s.cycles, x.cycle);
    if at.None? {
      WithoutOther(s.links, x.cycle, x.occurrence, s.cycles[i].id);
    } else {
      var c := s.cycles[at.value];
      ReopenedRows(c, s.links, x);
      if s.cycles[i].id != x.cycle {
        ReopenElsewhere(c, s.links, x.occurrence, x.position, s.cycles[i].id);
      }
    }
  }

  // ---- all links of the lesson --------------------------------------------------------

  /** These are the links of the lesson that the store still holds. */
  ghost predicate Pending(s: Store, rows: seq<Link>, occurrence: int) {
    CyclesDistinct(rows) && forall x :: x in rows <==> x in s.links && x.occurrence == occurrence
  }

  function RemoveAll(s: Store, rows: seq<Link>, occurrence: int): (t: Store)
    requires Valid(s) && Pending(s, rows, occurrence)
    ensures Valid(t) && |t.cycles| == |s.cycles| && Extends(s.cycles, t.cycles) && t.plans == s.plans
    ensures Pending(t, [], occurrence)
    decreases |rows|
  {
    if rows == [] then s
    else
      var m := RemoveLink(s, rows[0]);
      RemovingIsSound(s, rows[0]);
      PendingShrinks(s, rows, occurrence);
      var t := RemoveAll(m, rows[1..], occurrence);
      t
  }

  lemma PendingShrinks(s: Store, rows: seq<Link>, occurrence: int)
    requires Valid(s) && Pending(s, rows, occurrence) && rows != []
    ensures Pending(RemoveLink(s, rows[0]), rows[1..], occurrence)
  {
    var t := RemoveLink(s, rows[0]);
    forall y: Link | y.occurrence == occurrence ensures y in rows[1..] <==> y in t.links {
      if y in rows[1..] {
        var j :| 0 <= j < |rows[1..]| && rows[1..][j] == y;
        assert rows[j + 1] == y;
      }
      assert y in rows ==> y == rows[0] || y in rows[1..];
    }
    forall y | y in rows[1..] ensures y.occurrence == occurrence { assert y in rows; }
    assert forall i, j :: 0 <= i < j < |rows[1..]| ==> rows[1..][i] == rows[i + 1] && rows[1..][j] == rows[j + 1];
  }

  /** Reopening a lesson on the client's tables. */
  function Reopened(s: Store, sessionStudents: seq<int>, occurrence: int): (out: Outcome)
    requires Valid(s)
    ensures out.Done? ==> Valid(out.store)
  {
    var rows := Affected(s.links, occurrence);
    AffectedAreDistinct(s.links, occurrence);
    if rows == [] && (exists k :: 0 <= k < |sessionStudents| && HasCycle(s.cycles, sessionStudents[k]))
    then Rejected(CorrectionRequiresSync)
    else Done(RemoveAll(s, rows, occurrence))
  }

  predicate HasCycle(cycles: seq<Cycle>, student: int) {
    exists i :: 0 <= i < |cycles| && cycles[i].student == student
  }

  /**
   Reopening is refused if and only if the tables know no link of the lesson and somebody of its session has a cycle; a
   lesson with a link is never refused. Otherwise no link of the lesson is left.
   */
  lemma ReopenIsRefusedIff(s: Store, sessionStudents: seq<int>, occurrence: int)
    requires Valid(s)
    ensures var out := Reopened(s, sessionStudents, occurrence);
      && (out.Rejected? <==>
            && (forall x :: x in s.links ==> x.occurrence != occurrence)
            && exists i, k :: 0 <= i < |s.cycles| && 0 <= k < |sessionStudents| && s.cycles[i].student == sessionStudents[k])
      && (out.Rejected? ==> out.error == CorrectionRequiresSync)
      && (out.Done? ==> forall x :: x in out.store.links ==> x.occurrence != occurrence)
  {
    var out, rows := Reopened(s, sessionStudents, occurrence), Affected(s.links, occurrence);
    AffectedAreDistinct(s.links, occurrence);
    if out.Done? {
      forall x | x in out.store.links ensures x.occurrence != occurrence { assert x.occurrence == occurrence ==> x in []; }
    } else {
      var k :| 0 <= k < |sessionStudents| && HasCycle(s.cycles, sessionStudents[k]);
      var i :| 0 <= i < |s.cycles| && s.cycles[i].student == sessionStudents[k];
    }
  }

  lemma {:induction false} RemoveAllTakesLesson(s: Store, rows: seq<Link>, occurrence: int, i: nat)
    requires Valid(s) && Pending(s, rows, occurrence) && i < |s.cycles|
    ensures LessonsOf(RemoveAll(s, rows, occurrence), s.cycles[i].id) == Without(LessonsOf(s, s.cycles[i].id), occurrence)
    decreases |rows|
  {
    var id := s.cycles[i].id;
    if rows == [] {
      RowsBelong(s.links, id);
      WithoutAbsentLesson(s, id, occurrence);
    } else {
      var m := RemoveLink(s, rows[0]);
      assert rows[0] in rows;
      RemovingIsSound(s, rows[0]);
      PendingShrinks(s, rows, occurrence);
      RemovingTakesLesson(s, rows[0], i);
      assert SameTerms(s.cycles[i], m.cycles[i]);
      RemoveAllTakesLesson(m, rows[1..], occurrence, i);
      if id == rows[0].cycle { WithoutTwice(LessonsOf(s, id), occurrence); }
    }
  }

  lemma WithoutAbsentLesson(s: Store, cycle: int, occurrence: int)
    requires forall x :: x in s.links ==> x.occurrence != occurrence
    ensures Without(LessonsOf(s, cycle), occurrence) == LessonsOf(s, cycle)
  {
    var rows := InOrder(s.links, cycle);
    RowsBelong(s.links, cycle);
    forall k | 0 <= k < |rows| ensures rows[k].occurrence != occurrence { assert rows[k] in rows; }
    WithoutAbsent(LessonsOf(s, cycle), occurrence);
  }

  lemma WithoutTwice(lessons: seq<int>, lesson: int)
    ensures Without(Without(lessons, lesson), lesson) == Without(lessons, lesson)
  {
    WithoutAbsent(Without(lessons, lesson), lesson);
  }

  /**
   Reopening equals replaying: afterwards every cycle holds exactly the rows that completing its
   remaining lessons in their old order builds in the empty cycle.
   */
  lemma ReopenIsReplay(s: Store, occurrence: int, i: nat)
    requires Valid(s) && Pending(s, Affected(s.links, occurrence), occurrence) && i < |s.cycles|
    ensures var t, c := RemoveAll(s, Affected(s.links, occurrence), occurrence), s.cycles[i];
      && SameTerms(c, t.cycles[i])
      && InOrder(t.links, c.id) == Replayed(c, Without(LessonsOf(s, c.id), occurrence))
      && t.cycles[i].realCount == |Without(LessonsOf(s, c.id), occurrence)|
  {
    var t, c := RemoveAll(s, Affected(s.links, occurrence), occurrence), s.cycles[i];
    RemoveAllTakesLesson(s, Affected(s.links, occurrence), occurrence, i);
    assert SameTerms(c, t.cycles[i]) && CycleOk(t.cycles[i], t.links);
    RowsAreReplayed(t.cycles[i], t.links);
    var left := LessonsOf(t, c.id);
    SameReplay(t.cycles[i], c, left);
  }
}
