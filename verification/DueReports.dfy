/**
 What is due today, computed twice by the reports: once in a walk over cycles and lessons, once
 student by student. Without family accounts and with each attendee recorded once, the totals agree.
 */
module DueReports {
  import opened Numbers

  datatype Target = PackageCycle(cycle: int) | StudentLesson(lesson: int, student: int)

  datatype Allocation = Allocation(target: Target, amount: nat)

  /** A billing cycle; only cycles with status due are owed. */
  datatype Cycle = Cycle(id: int, student: int, isDue: bool, price: nat)

  /** A completed lesson of a known session: priced per attendee, or as a whole to one payer. */
  datatype Lesson =
    | PerStudent(id: int, price: nat, attendees: seq<int>)
    | WholeSession(id: int, gross: nat, payer: Option<int>)

  /** `perSession` maps the students with a billing plan to whether they pay per session. */
  datatype Data = Data(cycles: seq<Cycle>, lessons: seq<Lesson>, perSession: map<int, bool>, allocations: seq<Allocation>)

  function Allocated(allocations: seq<Allocation>, target: Target): nat {
    if allocations == [] then 0
    else
      var last := allocations[|allocations| - 1];
      Allocated(allocations[..|allocations| - 1], target) + if last.target == target then last.amount else 0
  }

  function Open(d: Data, target: Target, obligation: nat): nat {
    Max(0, obligation - Allocated(d.allocations, target) as int)
  }

  predicate PaysPerSession(d: Data, x: int) {
    x in d.perSession && d.perSession[x]
  }

  // ---- student by student -------------------------------------------------------------

  function CycleDue(d: Data, c: Cycle, x: int): nat {
    if c.isDue && c.student == x then Open(d, PackageCycle(c.id), c.price) else 0
  }

  function LessonDue(d: Data, l: Lesson, x: int): nat {
    if !PaysPerSession(d, x) then 0
    else match l
      case PerStudent(id, price, attendees) => if x in attendees then Open(d, StudentLesson(id, x), price) else 0
      case WholeSession(id, gross, payer) => if payer == Some(x) then Open(d, StudentLesson(id, x), gross) else 0
  }

  function CyclesDue(d: Data, cycles: seq<Cycle>, x: int): nat {
    if cycles == [] then 0 else CyclesDue(d, cycles[..|cycles| - 1], x) + CycleDue(d, cycles[|cycles| - 1], x)
  }

  function LessonsDue(d: Data, lessons: seq<Lesson>, x: int): nat {
    if lessons == [] then 0 else LessonsDue(d, lessons[..|lessons| - 1], x) + LessonDue(d, lessons[|lessons| - 1], x)
  }

  // ---- what is owed, and what of it was paid ------------------------------------------

  /** A due target and its price. */
  datatype Item = Item(target: Target, price: nat)

  /** The due cycles of a student. */
  function CycleItems(cycles: seq<Cycle>, x: int): seq<Item> {
    if cycles == [] then []
    else
      var c := cycles[|cycles| - 1];
      CycleItems(cycles[..|cycles| - 1], x) + if c.isDue && c.student == x then [Item(PackageCycle(c.id), c.price)] else []
  }

  /** The lessons that a student who pays per session attended, or paid for as a whole. */
  function LessonItems(lessons: seq<Lesson>, x: int): seq<Item> {
    if lessons == [] then []
    else
      var l := lessons[|lessons| - 1];
      LessonItems(lessons[..|lessons| - 1], x)
      + match l
        case PerStudent(id, price, attendees) => if x in attendees then [Item(StudentLesson(id, x), price)] else []
        case WholeSession(id, gross, payer) => if payer.Some? && payer.value == x then [Item(StudentLesson(id, x), gross)] else []
  }

  function Bill(d: Data, x: int): seq<Item> {
    CycleItems(d.cycles, x) + if x in d.perSession && d.perSession[x] then LessonItems(d.lessons, x) else []
  }

  function Bills(d: Data, students: seq<int>): seq<Item> {
    if students == [] then [] else Bills(d, students[..|students| - 1]) + Bill(d, students[|students| - 1])
  }

  /** The pence that were allocated to a target. */
  function Paid(allocations: seq<Allocation>, target: Target): nat {
    if allocations == [] then 0
    else (if allocations[0].target == target then allocations[0].amount else 0) + Paid(allocations[1..], target)
  }

  function Prices(items: seq<Item>): nat {
    if items == [] then 0 else Prices(items[..|items| - 1]) + items[|items| - 1].price
  }

  /** The part of the prices that allocations cover; more than the price of a target is never counted. */
  function CoveredPart(items: seq<Item>, allocations: seq<Allocation>): nat {
    if items == [] then 0
    else
      var last := items[|items| - 1];
      CoveredPart(items[..|items| - 1], allocations)
      + if Paid(allocations, last.target) < last.price then Paid(allocations, last.target) else last.price
  }

  lemma {:induction false} PaidAppend(allocations: seq<Allocation>, a: Allocation, target: Target)
    ensures Paid(allocations + [a], target) == Paid(allocations, target) + if a.target == target then a.amount else 0
  {
    if allocations != [] {
      assert (allocations + [a])[1..] == allocations[1..] + [a];
      PaidAppend(allocations[1..], a, target);
    }
  }

  lemma {:induction false} AllocatedIsPaid(allocations: seq<Allocation>, target: Target)
    ensures Allocated(allocations, target) == Paid(allocations, target)
  {
    if allocations != [] {
      var n := |allocations| - 1;
      AllocatedIsPaid(allocations[..n], target);
      PaidAppend(allocations[..n], allocations[n], target);
      assert allocations[..n] + [allocations[n]] == allocations;
    }
  }

  lemma {:induction false} SumsAppend(a: seq<Item>, b: seq<Item>, allocations: seq<Allocation>)
    ensures Prices(a + b) == Prices(a) + Prices(b)
    ensures CoveredPart(a + b, allocations) == CoveredPart(a, allocations) + CoveredPart(b, allocations)
  {
    if b == [] {
      assert a + b == a;
    } else {
      assert (a + b)[..|a + b| - 1] == a + b[..|b| - 1];
      SumsAppend(a, b[..|b| - 1], allocations);
    }
  }

  lemma OneItem(item: Item, d: Data)
    ensures [item][..0] == [] && Prices([item]) == item.price
    ensures Open(d, item.target, item.price) + CoveredPart([item], d.allocations) == item.price
  {
    assert [item][..0] == [];
    AllocatedIsPaid(d.allocations, item.target);
  }

  lemma {:induction false} CycleDuesAddUp(d: Data, cycles: seq<Cycle>, x: int)
    ensures CyclesDue(d, cycles, x) + CoveredPart(CycleItems(cycles, x), d.allocations) == Prices(CycleItems(cycles, x))
  {
    if cycles != [] {
      var n := |cycles| - 1;
      CycleDuesAddUp(d, cycles[..n], x);
      if cycles[n].isDue && cycles[n].student == x {
        var item := Item(PackageCycle(cycles[n].id), cycles[n].price);
        OneItem(item, d);
        SumsAppend(CycleItems(cycles[..n], x), [item], d.allocations);
      } else {
        assert CycleItems(cycles[..n], x) + [] == CycleItems(cycles[..n], x);
      }
    }
  }

  lemma {:induction false} LessonDuesAddUp(d: Data, lessons: seq<Lesson>, x: int)
    requires PaysPerSession(d, x)
    ensures LessonsDue(d, lessons, x) + CoveredPart(LessonItems(lessons, x), d.allocations) == Prices(LessonItems(lessons, x))
  {
    if lessons != [] {
      var n := |lessons| - 1;
      var l, before := lessons[n], LessonItems(lessons[..n], x);
      LessonDuesAddUp(d, lessons[..n], x);
      if l.PerStudent? && x in l.attendees {
        OneItem(Item(StudentLesson(l.id, x), l.price), d);
        SumsAppend(before, [Item(StudentLesson(l.id, x), l.price)], d.allocations);
      } else if l.WholeSession? && l.payer == Some(x) {
        OneItem(Item(StudentLesson(l.id, x), l.gross), d);
        SumsAppend(before, [Item(StudentLesson(l.id, x), l.gross)], d.allocations);
      } else {
        assert before + [] == before;
      }
    }
  }

  /** What a student owes and what he has covered add up to the prices on his bill. */
  lemma StudentDuesAddUp(d: Data, x: int)
    ensures CyclesDue(d, d.cycles, x) + LessonsDue(d, d.lessons, x) + CoveredPart(Bill(d, x), d.allocations) == Prices(Bill(d, x))
  {
    CycleDuesAddUp(d, d.cycles, x);
    if PaysPerSession(d, x) {
      LessonDuesAddUp(d, d.lessons, x);
      SumsAppend(CycleItems(d.cycles, x), LessonItems(d.lessons, x), d.allocations);
    } else {
      NothingPerSession(d, d.lessons, x);
      assert CycleItems(d.cycles, x) + [] == CycleItems(d.cycles, x);
    }
  }

  /** buildStudentFinancialSummary(...).duePence */
  method StudentDue(d: Data, x: int) returns (due: nat)
    ensures due == CyclesDue(d, d.cycles, x) + LessonsDue(d, d.lessons, x)
    ensures due + CoveredPart(Bill(d, x), d.allocations) == Prices(Bill(d, x))
  {
    StudentDuesAddUp(d, x);
    due := 0;
    var k := 0;
    while k < |d.cycles|
      invariant k <= |d.cycles| && due == CyclesDue(d, d.cycles[..k], x)
    {
      assert d.cycles[..k + 1][..k] == d.cycles[..k];
      if d.cycles[k].student == x && d.cycles[k].isDue {
        due := due + Open(d, PackageCycle(d.cycles[k].id), d.cycles[k].price);
      }
      k := k + 1;
    }
    assert d.cycles[..k] == d.cycles;
    if !PaysPerSession(d, x) {
      NothingPerSession(d, d.lessons, x);
      return;
    }
    k := 0;
    while k < |d.lessons|
      invariant k <= |d.lessons| && due == CyclesDue(d, d.cycles, x) + LessonsDue(d, d.lessons[..k], x)
    {
      assert d.lessons[..k + 1][..k] == d.lessons[..k];
      match d.lessons[k] {
        case PerStudent(id, price, attendees) => if x in attendees { due := due + Open(d, StudentLesson(id, x), price); }
        case WholeSession(id, gross, payer) => if payer == Some(x) { due := due + Open(d, StudentLesson(id, x), gross); }
      }
      k := k + 1;
    }
    assert d.lessons[..k] == d.lessons;
  }

  lemma {:induction false} NothingPerSession(d: Data, lessons: seq<Lesson>, x: int)
    requires !PaysPerSession(d, x)
    ensures LessonsDue(d, lessons, x) == 0
  {
    if lessons != [] { NothingPerSession(d, lessons[..|lessons| - 1], x); }
  }

  // ---- sums over students -------------------------------------------------------------

  function CycleTotal(d: Data, c: Cycle, students: seq<int>): nat {
    if students == [] then 0 else CycleTotal(d, c, students[..|students| - 1]) + CycleDue(d, c, students[|students| - 1])
  }

  function LessonTotal(d: Data, l: Lesson, students: seq<int>): nat {
    if students == [] then 0 else LessonTotal(d, l, students[..|students| - 1]) + LessonDue(d, l, students[|students| - 1])
  }

  /** The sum of the students' summaries, restricted to some cycles and lessons. */
  function SummaryTotal(d: Data, cycles: seq<Cycle>, lessons: seq<Lesson>, students: seq<int>): nat {
    if students == [] then 0
    else
      var x := students[|students| - 1];
      SummaryTotal(d, cycles, lessons, students[..|students| - 1]) + CyclesDue(d, cycles, x) + LessonsDue(d, lessons, x)
  }

  predicate Distinct(ids: seq<int>) {
    forall i, j :: 0 <= i < j < |ids| ==> ids[i] != ids[j]
  }

  lemma {:induction false} NextCycle(d: Data, cycles: seq<Cycle>, c: Cycle, lessons: seq<Lesson>, students: seq<int>)
    ensures SummaryTotal(d, cycles + [c], lessons, students) == SummaryTotal(d, cycles, lessons, students) + CycleTotal(d, c, students)
  {
    assert (cycles + [c])[..|cycles|] == cycles;
    if students != [] { NextCycle(d, cycles, c, lessons, students[..|students| - 1]); }
  }

  lemma {:induction false} NextLesson(d: Data, cycles: seq<Cycle>, lessons: seq<Lesson>, l: Lesson, students: seq<int>)
    ensures SummaryTotal(d, cycles, lessons + [l], students) == SummaryTotal(d, cycles, lessons, students) + LessonTotal(d, l, students)
  {
    assert (lessons + [l])[..|lessons|] == lessons;
    if students != [] { NextLesson(d, cycles, lessons, l, students[..|students| - 1]); }
  }

  lemma {:induction false} NobodyOwes(d: Data, students: seq<int>)
    ensures SummaryTotal(d, [], [], students) == 0
  {
    if students != [] { NobodyOwes(d, students[..|students| - 1]); }
  }

  lemma {:induction false} CycleOwner(d: Data, c: Cycle, students: seq<int>)
    requires Distinct(students)
    ensures CycleTotal(d, c, students) == if c.student in students then CycleDue(d, c, c.student) else 0
  {
    if students != [] {
      CycleOwner(d, c, students[..|students| - 1]);
    }
  }

  lemma {:induction false} SessionPayer(d: Data, l: Lesson, students: seq<int>)
    requires Distinct(students) && l.WholeSession?
    ensures LessonTotal(d, l, students) == if l.payer.Some? && l.payer.value in students then LessonDue(d, l, l.payer.value) else 0
  {
    if students != [] {
      SessionPayer(d, l, students[..|students| - 1]);
    }
  }

  /** Summing over the attendees or over all students is the same, if nobody is counted twice. */
  function AttendeeTotal(d: Data, l: Lesson, attendees: seq<int>): nat {
    if attendees == [] then 0
    else AttendeeTotal(d, l, attendees[..|attendees| - 1]) + LessonDue(d, l, attendees[|attendees| - 1])
  }

  lemma {:induction false} DropAttendee(d: Data, l: Lesson, attendees: seq<int>, k: nat)
    requires k < |attendees|
    ensures AttendeeTotal(d, l, attendees) == AttendeeTotal(d, l, attendees[..k] + attendees[k + 1..]) + LessonDue(d, l, attendees[k])
  {
    var last, rest := |attendees| - 1, attendees[..k] + attendees[k + 1..];
    if k == last {
      assert rest == attendees[..last];
    } else {
      DropAttendee(d, l, attendees[..last], k);
      assert rest[..last - 1] == attendees[..last][..k] + attendees[..last][k + 1..];
      assert rest[last - 1] == attendees[last];
    }
  }

  lemma WithoutOne(ids: seq<int>, k: nat)
    requires Distinct(ids) && k < |ids|
    ensures Distinct(ids[..k] + ids[k + 1..])
    ensures forall y :: y in ids[..k] + ids[k + 1..] <==> y in ids && y != ids[k]
  {
    var rest := ids[..k] + ids[k + 1..];
    forall y | y in ids && y != ids[k] ensures y in rest {
      var j :| 0 <= j < |ids| && ids[j] == y;
      assert rest[if j < k then j else j - 1] == y;
    }
  }

  lemma {:induction false} AttendeesAreStudents(d: Data, l: Lesson, attendees: seq<int>, students: seq<int>)
    requires Distinct(students) && Distinct(attendees)
    requires forall x :: x in attendees && LessonDue(d, l, x) > 0 ==> x in students
    requires forall x :: x in students && LessonDue(d, l, x) > 0 ==> x in attendees
    ensures AttendeeTotal(d, l, attendees) == LessonTotal(d, l, students)
    decreases |students|
  {
    if students == [] {
      NoneOwes(d, l, attendees);
    } else {
      var last := |students| - 1;
      var x := students[last];
      WithoutOne(students, last);
      assert students[..last] + students[last + 1..] == students[..last];
      if x in attendees {
        var k :| 0 <= k < |attendees| && attendees[k] == x;
        var rest := attendees[..k] + attendees[k + 1..];
        DropAttendee(d, l, attendees, k);
        WithoutOne(attendees, k);
        AttendeesAreStudents(d, l, rest, students[..last]);
      } else {
        AttendeesAreStudents(d, l, attendees, students[..last]);
      }
    }
  }

  lemma {:induction false} NoneOwes(d: Data, l: Lesson, attendees: seq<int>)
    requires forall x :: x in attendees ==> LessonDue(d, l, x) == 0
    ensures AttendeeTotal(d, l, attendees) == 0
  {
    if attendees != [] {
      assert attendees[|attendees| - 1] in attendees;
      NoneOwes(d, l, attendees[..|attendees| - 1]);
    }
  }

  // ---- what payments do to the total --------------------------------------------------

  /** The total due and the covered part of the bills add up to their prices. */
  lemma {:induction false} TotalAddsUp(d: Data, students: seq<int>)
    ensures SummaryTotal(d, d.cycles, d.lessons, students) + CoveredPart(Bills(d, students), d.allocations) == Prices(Bills(d, students))
  {
    if students != [] {
      var n := |students| - 1;
      TotalAddsUp(d, students[..n]);
      StudentDuesAddUp(d, students[n]);
      SumsAppend(Bills(d, students[..n]), Bill(d, students[n]), d.allocations);
    }
  }

  predicate DistinctItems(items: seq<Item>) {
    forall i, j :: 0 <= i < j < |items| ==> items[i].target != items[j].target
  }

  lemma {:induction false} CoveredMore(items: seq<Item>, allocations: seq<Allocation>, a: Allocation, k: nat)
    requires DistinctItems(items) && k < |items| && items[k].target == a.target
    ensures CoveredPart(items, allocations + [a])
         == CoveredPart(items, allocations) + Min(a.amount, Max(0, items[k].price - Paid(allocations, a.target)))
  {
    var n := |items| - 1;
    PaidAppend(allocations, a, items[n].target);
    if k == n { CoveredSame(items[..n], allocations, a); } else { CoveredMore(items[..n], allocations, a, k); }
  }

  lemma {:induction false} CoveredSame(items: seq<Item>, allocations: seq<Allocation>, a: Allocation)
    requires forall k :: 0 <= k < |items| ==> items[k].target != a.target
    ensures CoveredPart(items, allocations + [a]) == CoveredPart(items, allocations)
  {
    if items != [] {
      var n := |items| - 1;
      PaidAppend(allocations, a, items[n].target);
      CoveredSame(items[..n], allocations, a);
    }
  }

  lemma {:induction false} SameBills(d: Data, allocations: seq<Allocation>, students: seq<int>)
    ensures Bills(d.(allocations := allocations), students) == Bills(d, students)
  {
    if students != [] { SameBills(d, allocations, students[..|students| - 1]); }
  }

  /** One more allocation to a due target lowers the total by what of it was still outstanding, and no other by anything. */
  lemma OneMoreAllocation(d: Data, students: seq<int>, a: Allocation)
    requires DistinctItems(Bills(d, students))
    ensures var items, e := Bills(d, students), d.(allocations := d.allocations + [a]);
      var before, after := SummaryTotal(d, d.cycles, d.lessons, students), SummaryTotal(e, e.cycles, e.lessons, students);
      && (forall k :: 0 <= k < |items| && items[k].target == a.target ==>
            after == before - Min(a.amount, Max(0, items[k].price - Paid(d.allocations, a.target))))
      && ((forall k :: 0 <= k < |items| ==> items[k].target != a.target) ==> after == before)
  {
    var items, e := Bills(d, students), d.(allocations := d.allocations + [a]);
    TotalAddsUp(d, students);
    TotalAddsUp(e, students);
    SameBills(d, e.allocations, students);
    forall k | 0 <= k < |items| && items[k].target == a.target
      ensures CoveredPart(items, e.allocations)
           == CoveredPart(items, d.allocations) + Min(a.amount, Max(0, items[k].price - Paid(d.allocations, a.target)))
    {
      CoveredMore(items, d.allocations, a, k);
    }
    if forall k :: 0 <= k < |items| ==> items[k].target != a.target { CoveredSame(items, d.allocations, a); }
  }

  lemma {:induction false} NothingOpen(items: seq<Item>, allocations: seq<Allocation>)
    ensures CoveredPart(items, allocations) <= Prices(items)
    ensures CoveredPart(items, allocations) == Prices(items)
       <==> forall k :: 0 <= k < |items| ==> Paid(allocations, items[k].target) >= items[k].price
  {
    if items != [] {
      var n := |items| - 1;
      NothingOpen(items[..n], allocations);
      assert items == items[..n] + [items[n]];
    }
  }

  /** Nothing is due if and only if the allocations of every due target reach its price. */
  lemma NothingDueIff(d: Data, students: seq<int>)
    ensures SummaryTotal(d, d.cycles, d.lessons, students) == 0 <==>
      forall k :: 0 <= k < |Bills(d, students)| ==> Paid(d.allocations, Bills(d, students)[k].target) >= Bills(d, students)[k].price
  {
    TotalAddsUp(d, students);
    NothingOpen(Bills(d, students), d.allocations);
  }

  // ---- the walk over occurrences ------------------------------------------------------

  /** Everybody who may owe something is listed, and each attendance is recorded once. */
  ghost predicate Covers(d: Data, students: seq<int>) {
    && Distinct(students)
    && (forall k :: 0 <= k < |d.cycles| && d.cycles[k].isDue ==> d.cycles[k].student in students)
    && (forall x :: PaysPerSession(d, x) ==> x in students)
    && (forall k :: 0 <= k < |d.lessons| && d.lessons[k].PerStudent? ==> Distinct(d.lessons[k].attendees))
  }

  /** One lesson of the walk. */
  method WalkLesson(d: Data, l: Lesson, ghost students: seq<int>) returns (due: nat)
    requires Distinct(students) && (forall x :: PaysPerSession(d, x) ==> x in students) && (l.PerStudent? ==> Distinct(l.attendees))
    ensures due == LessonTotal(d, l, students)
  {
    due := 0;
    match l {
      case PerStudent(id, price, attendees) =>
        AttendeesAreStudents(d, l, attendees, students);
        var k := 0;
        while k < |attendees|
          invariant k <= |attendees| && due == AttendeeTotal(d, l, attendees[..k])
        {
          assert attendees[..k + 1][..k] == attendees[..k] && attendees[k] in attendees;
          if PaysPerSession(d, attendees[k]) { due := due + Open(d, StudentLesson(id, attendees[k]), price); }
          k := k + 1;
        }
        assert attendees[..k] == attendees;
      case WholeSession(id, gross, payer) =>
        SessionPayer(d, l, students);
        if payer.Some? && PaysPerSession(d, payer.value) { due := Open(d, StudentLesson(id, payer.value), gross); }
    }
  }

  /** currentDuePence: the walk comes to the sum of the students' summaries. */
  method CurrentDue(d: Data, ghost students: seq<int>) returns (due: nat)
    requires Covers(d, students)
    ensures due == SummaryTotal(d, d.cycles, d.lessons, students)
    ensures due + CoveredPart(Bills(d, students), d.allocations) == Prices(Bills(d, students))
  {
    due := 0;
    TotalAddsUp(d, students);
    NobodyOwes(d, students);
    var k := 0;
    while k < |d.cycles|
      invariant k <= |d.cycles| && due == SummaryTotal(d, d.cycles[..k], [], students)
    {
      assert d.cycles[..k + 1] == d.cycles[..k] + [d.cycles[k]];
      NextCycle(d, d.cycles[..k], d.cycles[k], [], students);
      CycleOwner(d, d.cycles[k], students);
      if d.cycles[k].isDue { due := due + Open(d, PackageCycle(d.cycles[k].id), d.cycles[k].price); }
      k := k + 1;
    }
    assert d.cycles[..k] == d.cycles;
    k := 0;
    while k < |d.lessons|
      invariant k <= |d.lessons| && due == SummaryTotal(d, d.cycles, d.lessons[..k], students)
    {
      assert d.lessons[..k + 1] == d.lessons[..k] + [d.lessons[k]];
      NextLesson(d, d.cycles, d.lessons[..k], d.lessons[k], students);
      var owed := WalkLesson(d, d.lessons[k], students);
      due := due + owed;
      k := k + 1;
    }
    assert d.lessons[..k] == d.lessons;
  }
}
