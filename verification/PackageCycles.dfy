/**
 Package billing cycles: numbered positions, integer money shares, and what removing a lesson
 from the middle of a cycle means.
 */
module PackageCycles {
  import opened Numbers

  datatype Status = Open | Due | Paid | Cancelled

  /** One billing cycle of one student; `opening` lessons were completed before tracking. */
  datatype Cycle = Cycle(
    id: int, student: int, sequenceNo: int, limit: int, price: nat,
    opening: nat, locked: bool, realCount: nat, status: Status,
    startedOn: int, completedOn: Option<int>, paidOn: Option<int>)

  /** A completed lesson inside a cycle. */
  datatype Link = Link(cycle: int, occurrence: int, position: int, earned: int)

  // ---- money shares -------------------------------------------------------------------

  /** Whole pence earned by the first k positions of a package. */
  function EarnedUpTo(price: nat, size: int, k: nat): nat
    requires size >= 1
  {
    price * k / size
  }

  /** packageUnitShare: pence earned by one position. */
  function UnitShare(price: nat, size: int, position: int): int
    requires size >= 1 && position >= 1
  {
    price * position / size - price * (position - 1) / size
  }

  /** Shares of neighbouring positions differ by at most one penny. */
  lemma ShareIsFair(price: nat, size: int, position: int)
    requires size >= 1 && position >= 1
    ensures price / size <= UnitShare(price, size, position) <= price / size + 1
  {
    var q, r := price / size, price % size;
    assert price == q * size + r;
    var a, b := r * (position - 1), r * position;
    assert price * position == (q * position) * size + b;
    assert price * (position - 1) == (q * (position - 1)) * size + a;
    DivShift(q * position, size, b);
    DivShift(q * (position - 1), size, a);
    assert b == a + r;
    DivStep(a, r, size);
    assert q * position - q * (position - 1) == q;
  }

  lemma DivShift(k: int, size: int, rest: int)
    requires size >= 1
    ensures (k * size + rest) / size == k + rest / size
  {
    var d, m := rest / size, rest % size;
    assert k * size + rest == (k + d) * size + m;
    DivUnique(k * size + rest, size, k + d, m);
  }

  lemma DivStep(a: int, r: int, size: int)
    requires size >= 1 && 0 <= r < size
    ensures a / size <= (a + r) / size <= a / size + 1
  {
    var q, m := a / size, a % size;
    assert a == q * size + m;
    if m + r < size {
      DivUnique(a + r, size, q, m + r);
    } else {
      assert (q + 1) * size == q * size + size;
      DivUnique(a + r, size, q + 1, m + r - size);
    }
  }

  // ---- rows of one cycle --------------------------------------------------------------

  function LinksOf(links: seq<Link>, cycle: int): (rows: seq<Link>)
    ensures forall x :: x in rows <==> x in links && x.cycle == cycle
  {
    if links == [] then []
    else if links[0].cycle == cycle then [links[0]] + LinksOf(links[1..], cycle)
    else LinksOf(links[1..], cycle)
  }

  function InsertByPosition(x: Link, sorted: seq<Link>): seq<Link> {
    if sorted == [] || x.position <= sorted[0].position then [x] + sorted
    else [sorted[0]] + InsertByPosition(x, sorted[1..])
  }

  function SortByPosition(rows: seq<Link>): (sorted: seq<Link>)
    ensures |sorted| == |rows|
    ensures forall x :: x in sorted <==> x in rows
    ensures SortedByPosition(sorted)
  {
    if rows == [] then []
    else
      InsertIsSorted(rows[0], SortByPosition(rows[1..]));
      InsertByPosition(rows[0], SortByPosition(rows[1..]))
  }

  predicate SortedByPosition(rows: seq<Link>) {
    forall i, j :: 0 <= i < j < |rows| ==> rows[i].position <= rows[j].position
  }

  lemma {:induction false} InsertIsSorted(x: Link, sorted: seq<Link>)
    requires SortedByPosition(sorted)
    ensures SortedByPosition(InsertByPosition(x, sorted)) && |InsertByPosition(x, sorted)| == |sorted| + 1
    ensures forall y :: y in InsertByPosition(x, sorted) <==> y == x || y in sorted
  {
    if sorted != [] && x.position > sorted[0].position {
      InsertIsSorted(x, sorted[1..]);
      var rest := InsertByPosition(x, sorted[1..]);
      forall j | 0 <= j < |rest| ensures sorted[0].position <= rest[j].position {
        assert rest[j] in rest;
      }
    }
  }

  /** The lessons of a cycle in position order. */
  function InOrder(links: seq<Link>, cycle: int): seq<Link> {
    SortByPosition(LinksOf(links, cycle))
  }

  // ---- the cycle invariant ------------------------------------------------------------

  /** Row k of a cycle in position order. */
  predicate Numbered(rows: seq<Link>, opening: nat, price: nat, limit: int)
    requires limit >= 1
  {
    forall k :: 0 <= k < |rows| ==> rows[k].position == opening + 1 + k && rows[k].earned == UnitShare(price, limit, opening + 1 + k)
  }

  predicate OccurrencesDistinct(rows: seq<Link>) {
    forall i, j :: 0 <= i < j < |rows| ==> rows[i].occurrence != rows[j].occurrence
  }

  /**
   Positions are exactly opening+1 .. opening+realCount with their shares, realCount counts the links,
   the cycle never overflows, and it is open exactly while it is incomplete.
   */
  predicate CycleOk(c: Cycle, links: seq<Link>) {
    && 1 <= c.limit <= 100
    && c.opening + c.realCount <= c.limit
    && |LinksOf(links, c.id)| == c.realCount
    && Numbered(InOrder(links, c.id), c.opening, c.price, c.limit)
    && OccurrencesDistinct(InOrder(links, c.id))
    && (c.status != Cancelled ==> (c.status == Open <==> c.opening + c.realCount < c.limit))
  }

  predicate UniqueIds(cycles: seq<Cycle>) {
    forall i, j :: 0 <= i < j < |cycles| ==> cycles[i].id != cycles[j].id
  }

  predicate StoreOk(cycles: seq<Cycle>, links: seq<Link>) {
    UniqueIds(cycles) && forall i :: 0 <= i < |cycles| ==> CycleOk(cycles[i], links)
  }

  // ---- sum of shares ------------------------------------------------------------------

  function Earned(rows: seq<Link>): int {
    if rows == [] then 0 else rows[0].earned + Earned(rows[1..])
  }

  lemma {:induction false} InsertKeepsEarned(x: Link, sorted: seq<Link>)
    ensures Earned(InsertByPosition(x, sorted)) == x.earned + Earned(sorted)
  {
    if sorted != [] && x.position > sorted[0].position {
      InsertKeepsEarned(x, sorted[1..]);
      assert InsertByPosition(x, sorted)[1..] == InsertByPosition(x, sorted[1..]);
    } else {
      assert ([x] + sorted)[1..] == sorted;
    }
  }

  lemma {:induction false} SortKeepsEarned(rows: seq<Link>)
    ensures Earned(SortByPosition(rows)) == Earned(rows)
  {
    if rows != [] {
      SortKeepsEarned(rows[1..]);
      InsertKeepsEarned(rows[0], SortByPosition(rows[1..]));
    }
  }

  lemma {:induction false} SharesTelescope(rows: seq<Link>, opening: nat, price: nat, limit: int, last: nat)
    requires limit >= 1 && Numbered(rows, opening, price, limit) && last == opening + |rows|
    ensures Earned(rows) == EarnedUpTo(price, limit, last) - EarnedUpTo(price, limit, opening)
  {
    if rows != [] {
      SharesTelescope(rows[1..], opening + 1, price, limit, last);
    }
  }

  lemma RowsEarn(rows: seq<Link>, opening: nat, price: nat, limit: int, last: nat)
    requires limit >= 1 && last == opening + |rows| && Numbered(SortByPosition(rows), opening, price, limit)
    ensures Earned(rows) == EarnedUpTo(price, limit, last) - EarnedUpTo(price, limit, opening)
  {
    SortKeepsEarned(rows);
    SharesTelescope(SortByPosition(rows), opening, price, limit, last);
  }

  lemma FullPackage(price: nat, size: int)
    requires size >= 1
    ensures EarnedUpTo(price, size, size) == price && EarnedUpTo(price, size, 0) == 0
  {
    DivUnique(price * size, size, price, 0);
    assert price * 0 == 0;
    DivUnique(0, size, 0, 0);
  }

  /** The pence earned by a cycle's lessons, whatever order the rows are stored in. */
  lemma CycleEarnings(c: Cycle, links: seq<Link>)
    requires CycleOk(c, links)
    ensures Earned(LinksOf(links, c.id)) == EarnedUpTo(c.price, c.limit, c.opening + c.realCount) - EarnedUpTo(c.price, c.limit, c.opening)
  {
    RowsEarn(LinksOf(links, c.id), c.opening, c.price, c.limit, c.opening + c.realCount);
  }

  /** A full cycle without opening progress earns its whole price. */
  lemma FullCycleEarnsPrice(c: Cycle, links: seq<Link>)
    requires CycleOk(c, links) && c.opening == 0 && c.realCount == c.limit
    ensures Earned(LinksOf(links, c.id)) == c.price
  {
    CycleEarnings(c, links);
    FullPackage(c.price, c.limit);
  }

  // ---- adding a lesson ----------------------------------------------------------------

  lemma {:induction false} LinksOfAppend(links: seq<Link>, x: Link, cycle: int)
    ensures LinksOf(links + [x], cycle) == LinksOf(links, cycle) + if x.cycle == cycle then [x] else []
  {
    if links != [] {
      assert (links + [x])[1..] == links[1..] + [x];
      LinksOfAppend(links[1..], x, cycle);
    }
  }

  lemma {:induction false} InsertBeforeLast(y: Link, sorted: seq<Link>, x: Link)
    requires y.position <= x.position
    ensures InsertByPosition(y, sorted + [x]) == InsertByPosition(y, sorted) + [x]
  {
    if sorted == [] {
    } else if y.position > sorted[0].position {
      assert (sorted + [x])[1..] == sorted[1..] + [x];
      InsertBeforeLast(y, sorted[1..], x);
    }
  }

  lemma {:induction false} SortAppendLast(rows: seq<Link>, x: Link)
    requires forall k :: 0 <= k < |rows| ==> rows[k].position <= x.position
    ensures SortByPosition(rows + [x]) == SortByPosition(rows) + [x]
  {
    if rows != [] {
      assert (rows + [x])[1..] == rows[1..] + [x];
      SortAppendLast(rows[1..], x);
      InsertBeforeLast(rows[0], SortByPosition(rows[1..]), x);
    }
  }

  /** A lesson appended at the next position keeps the cycle in order. */
  lemma AppendedInOrder(c: Cycle, links: seq<Link>, x: Link)
    requires CycleOk(c, links) && x.cycle == c.id && x.position == c.opening + c.realCount + 1
    ensures InOrder(links + [x], c.id) == InOrder(links, c.id) + [x]
  {
    var rows, sorted := LinksOf(links, c.id), InOrder(links, c.id);
    LinksOfAppend(links, x, c.id);
    forall k | 0 <= k < |rows| ensures rows[k].position <= x.position {
      assert rows[k] in sorted;
      var i :| 0 <= i < |sorted| && sorted[i] == rows[k];
    }
    SortAppendLast(rows, x);
  }

  // ---- removing a lesson --------------------------------------------------------------

  /** The table without one lesson of one cycle. */
  function WithoutLesson(links: seq<Link>, cycle: int, occurrence: int): (left: seq<Link>)
    ensures forall x :: x in left <==> x in links && !(x.cycle == cycle && x.occurrence == occurrence)
  {
    if links == [] then []
    else if links[0].cycle == cycle && links[0].occurrence == occurrence then WithoutLesson(links[1..], cycle, occurrence)
    else [links[0]] + WithoutLesson(links[1..], cycle, occurrence)
  }

  /** The table after position `gap` of a cycle became free and the later lessons moved down. */
  function CloseGap(links: seq<Link>, c: Cycle, gap: int): (moved: seq<Link>)
    requires c.limit >= 1 && gap >= 1
    ensures |moved| == |links|
    ensures forall k :: 0 <= k < |links| ==> moved[k] == Moved(links[k], c, gap)
  {
    seq(|links|, k requires 0 <= k < |links| => Moved(links[k], c, gap))
  }

  function Moved(x: Link, c: Cycle, gap: int): Link
    requires c.limit >= 1 && gap >= 1
  {
    if x.cycle == c.id && x.position > gap
    then x.(position := x.position - 1, earned := UnitShare(c.price, c.limit, x.position - 1))
    else x
  }

  lemma {:induction false} WithoutOther(links: seq<Link>, cycle: int, occurrence: int, other: int)
    requires other != cycle
    ensures LinksOf(WithoutLesson(links, cycle, occurrence), other) == LinksOf(links, other)
  {
    if links != [] {
      WithoutOther(links[1..], cycle, occurrence, other);
      var rest := WithoutLesson(links[1..], cycle, occurrence);
      assert ([links[0]] + rest)[1..] == rest;
    }
  }

  lemma {:induction false} WithoutSame(links: seq<Link>, cycle: int, occurrence: int)
    ensures LinksOf(WithoutLesson(links, cycle, occurrence), cycle) == WithoutLesson(LinksOf(links, cycle), cycle, occurrence)
  {
    if links != [] {
      WithoutSame(links[1..], cycle, occurrence);
      var rest := WithoutLesson(links[1..], cycle, occurrence);
      assert ([links[0]] + rest)[1..] == rest;
      var tail := LinksOf(links[1..], cycle);
      assert ([links[0]] + tail)[1..] == tail;
    }
  }

  lemma {:induction false} InsertThenRemove(x: Link, sorted: seq<Link>, cycle: int, occurrence: int)
    requires SortedByPosition(sorted)
    ensures WithoutLesson(InsertByPosition(x, sorted), cycle, occurrence)
         == if x.cycle == cycle && x.occurrence == occurrence then WithoutLesson(sorted, cycle, occurrence)
            else InsertByPosition(x, WithoutLesson(sorted, cycle, occurrence))
  {
    if sorted == [] || x.position <= sorted[0].position {
      assert ([x] + sorted)[1..] == sorted;
      var left := WithoutLesson(sorted, cycle, occurrence);
      if left != [] {
        assert left[0] in sorted;
        var i :| 0 <= i < |sorted| && sorted[i] == left[0];
      }
    } else {
      InsertThenRemove(x, sorted[1..], cycle, occurrence);
      var ins := InsertByPosition(x, sorted[1..]);
      assert ([sorted[0]] + ins)[1..] == ins;
    }
  }

  /** Removing a row and sorting commute. */
  lemma {:induction false} SortThenRemove(rows: seq<Link>, cycle: int, occurrence: int)
    ensures SortByPosition(WithoutLesson(rows, cycle, occurrence)) == WithoutLesson(SortByPosition(rows), cycle, occurrence)
  {
    if rows != [] {
      SortThenRemove(rows[1..], cycle, occurrence);
      InsertThenRemove(rows[0], SortByPosition(rows[1..]), cycle, occurrence);
    }
  }

  lemma {:induction false} LinksOfCloseGap(links: seq<Link>, c: Cycle, gap: int, cycle: int)
    requires c.limit >= 1 && gap >= 1
    ensures LinksOf(CloseGap(links, c, gap), cycle) == CloseGap(LinksOf(links, cycle), c, gap)
  {
    if links != [] {
      LinksOfCloseGap(links[1..], c, gap, cycle);
      assert CloseGap(links, c, gap)[1..] == CloseGap(links[1..], c, gap);
    }
  }

  lemma {:induction false} InsertMoved(x: Link, sorted: seq<Link>, c: Cycle, gap: int)
    requires c.limit >= 1 && gap >= 1 && x.cycle == c.id && x.position != gap
    requires forall y :: y in sorted ==> y.cycle == c.id && y.position != gap
    ensures InsertByPosition(Moved(x, c, gap), CloseGap(sorted, c, gap)) == CloseGap(InsertByPosition(x, sorted), c, gap)
  {
    if sorted != [] {
      var moved := CloseGap(sorted, c, gap);
      assert sorted[0] in sorted;
      assert moved[1..] == CloseGap(sorted[1..], c, gap);
      InsertMoved(x, sorted[1..], c, gap);
    }
  }

  /** Closing a gap keeps the order of a cycle's rows. */
  lemma {:induction false} SortMoved(rows: seq<Link>, c: Cycle, gap: int)
    requires c.limit >= 1 && gap >= 1
    requires forall y :: y in rows ==> y.cycle == c.id && y.position != gap
    ensures SortByPosition(CloseGap(rows, c, gap)) == CloseGap(SortByPosition(rows), c, gap)
  {
    if rows != [] {
      assert rows[0] in rows;
      SortMoved(rows[1..], c, gap);
      assert CloseGap(rows, c, gap)[1..] == CloseGap(rows[1..], c, gap);
      InsertMoved(rows[0], SortByPosition(rows[1..]), c, gap);
    }
  }

  // ---- a cycle as the list of its lessons ---------------------------------------------

  function Lessons(rows: seq<Link>): (ids: seq<int>)
    ensures |ids| == |rows|
    ensures forall k :: 0 <= k < |rows| ==> ids[k] == rows[k].occurrence
  {
    seq(|rows|, k requires 0 <= k < |rows| => rows[k].occurrence)
  }

  /** The rows that completing these lessons one after another in an empty cycle builds. */
  function Replayed(c: Cycle, lessons: seq<int>): (rows: seq<Link>)
    requires c.limit >= 1
    ensures |rows| == |lessons|
    ensures forall k :: 0 <= k < |lessons| ==>
      rows[k] == Link(c.id, lessons[k], c.opening + 1 + k, UnitShare(c.price, c.limit, c.opening + 1 + k))
  {
    seq(|lessons|, k requires 0 <= k < |lessons| =>
      Link(c.id, lessons[k], c.opening + 1 + k, UnitShare(c.price, c.limit, c.opening + 1 + k)))
  }

  /** In a sound cycle the rows are determined by the order of the lessons alone. */
  lemma RowsAreReplayed(c: Cycle, links: seq<Link>)
    requires CycleOk(c, links)
    ensures InOrder(links, c.id) == Replayed(c, Lessons(InOrder(links, c.id)))
  {
    var rows := InOrder(links, c.id);
    forall k | 0 <= k < |rows| ensures rows[k].cycle == c.id {
      assert rows[k] in LinksOf(links, c.id);
    }
  }

  function Without(lessons: seq<int>, lesson: int): (left: seq<int>)
    ensures forall x :: x in left <==> x in lessons && x != lesson
  {
    if lessons == [] then []
    else if lessons[0] == lesson then Without(lessons[1..], lesson)
    else [lessons[0]] + Without(lessons[1..], lesson)
  }

  lemma {:induction false} WithoutAbsent(lessons: seq<int>, lesson: int)
    requires lesson !in lessons
    ensures Without(lessons, lesson) == lessons
  {
    if lessons != [] { WithoutAbsent(lessons[1..], lesson); }
  }

  lemma {:induction false} RowsWithout(rows: seq<Link>, cycle: int, lesson: int)
    requires forall y :: y in rows ==> y.cycle == cycle
    ensures Lessons(WithoutLesson(rows, cycle, lesson)) == Without(Lessons(rows), lesson)
  {
    if rows != [] {
      assert rows[0] in rows && forall y :: y in rows[1..] ==> y in rows;
      RowsWithout(rows[1..], cycle, lesson);
      assert Lessons(rows)[1..] == Lessons(rows[1..]);
      var rest := WithoutLesson(rows[1..], cycle, lesson);
      assert WithoutLesson(rows, cycle, lesson) == if rows[0].occurrence == lesson then rest else [rows[0]] + rest;
      assert Lessons([rows[0]] + rest) == [rows[0].occurrence] + Lessons(rest);
    }
  }

  lemma {:induction false} WithoutLessonAt(rows: seq<Link>, cycle: int, k: nat)
    requires k < |rows| && OccurrencesDistinct(rows)
    requires forall y :: y in rows ==> y.cycle == cycle
    ensures WithoutLesson(rows, cycle, rows[k].occurrence) == rows[..k] + rows[k + 1..]
  {
    var x := rows[0];
    assert x in rows;
    if k == 0 {
      forall y | y in rows[1..] ensures y.occurrence != x.occurrence {
        var j :| 0 <= j < |rows[1..]| && rows[1..][j] == y;
        assert rows[j + 1] == y;
      }
      NothingToRemove(rows[1..], cycle, x.occurrence);
    } else {
      WithoutLessonAt(rows[1..], cycle, k - 1);
      assert rows[1..][..k - 1] == rows[1..k];
      assert rows[1..][k..] == rows[k + 1..];
      assert rows[..k] == [x] + rows[1..k];
    }
  }

  lemma {:induction false} NothingToRemove(rows: seq<Link>, cycle: int, lesson: int)
    requires forall y :: y in rows ==> !(y.cycle == cycle && y.occurrence == lesson)
    ensures WithoutLesson(rows, cycle, lesson) == rows
  {
    if rows != [] {
      assert rows[0] in rows;
      NothingToRemove(rows[1..], cycle, lesson);
    }
  }

  /** The rows left in position order once lesson k of a sound cycle is gone and the gap is closed. */
  lemma GapClosedRows(c: Cycle, rows: seq<Link>, k: nat)
    requires c.limit >= 1 && k < |rows| && Numbered(rows, c.opening, c.price, c.limit)
    requires forall y :: y in rows ==> y.cycle == c.id
    ensures CloseGap(rows[..k] + rows[k + 1..], c, c.opening + 1 + k) == Replayed(c, Lessons(rows[..k] + rows[k + 1..]))
  {
    var left := rows[..k] + rows[k + 1..];
    forall i | 0 <= i < |left|
      ensures Moved(left[i], c, c.opening + 1 + k) == Replayed(c, Lessons(left))[i]
    {
      var j := if i < k then i else i + 1;
      assert left[i] == rows[j] && rows[j] in rows;
    }
  }

  lemma RowsBelong(links: seq<Link>, cycle: int)
    ensures forall y :: y in InOrder(links, cycle) <==> y in links && y.cycle == cycle
  {
  }

  lemma RemovedInOrder(c: Cycle, links: seq<Link>, k: nat)
    requires k < |InOrder(links, c.id)| && OccurrencesDistinct(InOrder(links, c.id))
    ensures var rows := InOrder(links, c.id);
      InOrder(WithoutLesson(links, c.id, rows[k].occurrence), c.id) == rows[..k] + rows[k + 1..]
  {
    var rows := InOrder(links, c.id);
    RowsBelong(links, c.id);
    WithoutSame(links, c.id, rows[k].occurrence);
    SortThenRemove(LinksOf(links, c.id), c.id, rows[k].occurrence);
    WithoutLessonAt(rows, c.id, k);
  }

  lemma GapClosedInOrder(c: Cycle, left: seq<Link>, gap: int)
    requires c.limit >= 1 && gap >= 1
    requires forall y :: y in InOrder(left, c.id) ==> y.position != gap
    ensures InOrder(CloseGap(left, c, gap), c.id) == CloseGap(InOrder(left, c.id), c, gap)
  {
    LinksOfCloseGap(left, c, gap, c.id);
    SortMoved(LinksOf(left, c.id), c, gap);
  }

  lemma RowAt(links: seq<Link>, x: Link) returns (k: nat)
    requires x in links
    ensures k < |InOrder(links, x.cycle)| && InOrder(links, x.cycle)[k] == x
  {
    RowsBelong(links, x.cycle);
    k :| 0 <= k < |InOrder(links, x.cycle)| && InOrder(links, x.cycle)[k] == x;
  }

  /** The cycle after one of its lessons was reopened: what replaying the other lessons builds. */
  lemma ReopenedRows(c: Cycle, links: seq<Link>, x: Link)
    requires CycleOk(c, links) && x in links && x.cycle == c.id
    ensures x.position >= 1
    ensures var after := CloseGap(WithoutLesson(links, c.id, x.occurrence), c, x.position);
      InOrder(after, c.id) == Replayed(c, Without(Lessons(InOrder(links, c.id)), x.occurrence))
    ensures |Without(Lessons(InOrder(links, c.id)), x.occurrence)| == c.realCount - 1
  {
    var rows := InOrder(links, c.id);
    var k := RowAt(links, x);
    RowsBelong(links, c.id);
    var left := WithoutLesson(links, c.id, x.occurrence);
    RemovedInOrder(c, links, k);
    forall y | y in InOrder(left, c.id) ensures y.position != x.position {
    }
    GapClosedInOrder(c, left, x.position);
    GapClosedRows(c, rows, k);
    RowsWithout(rows, c.id, x.occurrence);
    WithoutLessonAt(rows, c.id, k);
  }

  lemma ReopenElsewhere(c: Cycle, links: seq<Link>, occurrence: int, gap: int, other: int)
    requires c.limit >= 1 && gap >= 1 && other != c.id
    ensures LinksOf(CloseGap(WithoutLesson(links, c.id, occurrence), c, gap), other) == LinksOf(links, other)
  {
    var left := WithoutLesson(links, c.id, occurrence);
    WithoutOther(links, c.id, occurrence, other);
    LinksOfCloseGap(left, c, gap, other);
  }
}
