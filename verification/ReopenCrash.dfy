/**
 A server reopen that dies behind the DELETE: between two affected cycles, or within the repair of one.
 The links of the lesson are gone by then, so sending the command again finds nothing to repair.
 */
module ReopenCrash {
  import opened Numbers
  import opened PackageCycles
  import opened Renumbering
  import opened Attendance
  import opened Reopening
  import opened TutoringCommands
  import opened ServerReopen

  /** The lesson held the last position of its cycle. */
  ghost predicate WasLast(s: Store, x: Link) {
    var at := FindCycle(s.cycles, x.cycle);
    at.Some? ==> x.position == s.cycles[at.value].opening + s.cycles[at.value].realCount
  }

  /** The row of a cycle that is under way: locked by its lessons, open, and without a date of completion or payment. */
  predicate UnderWay(c: Cycle) {
    c.locked && c.status == Open && c.completedOn == None && c.paidOn == None
  }

  /** Nothing is left to do for the deleted link: no later position, and no column of its cycle to change. */
  ghost predicate NothingToRepair(s: Store, x: Link) {
    var at := FindCycle(s.cycles, x.cycle);
    WasLast(s, x) && (at.Some? ==> UnderWay(s.cycles[at.value]))
  }

  /** The columns of a cycle's row; its lessons are counted from the links. */
  function Columns(c: Cycle): Cycle { c.(realCount := 0) }

  predicate SameColumns(a: seq<Cycle>, b: seq<Cycle>) {
    |a| == |b| && forall i :: 0 <= i < |a| ==> Columns(a[i]) == Columns(b[i])
  }

  lemma {:induction false} NothingAffected(links: seq<Link>, occurrence: int)
    requires forall y :: y in links ==> y.occurrence != occurrence
    ensures Affected(links, occurrence) == []
  {
    if links != [] {
      assert links[0] in links;
      NothingAffected(links[1..], occurrence);
    }
  }

  // ---- which gaps are open ------------------------------------------------------------

  lemma {:induction false} GapOfMember(rows: seq<Link>, m: nat)
    requires CyclesDistinct(rows) && m < |rows|
    ensures GapFor(rows, rows[m].cycle) == Some(rows[m])
  {
    if m > 0 { GapOfMember(rows[1..], m - 1); }
  }

  lemma {:induction false} GapOfPrefix(rows: seq<Link>, n: nat, id: int)
    requires n <= |rows|
    ensures GapFor(rows[..n], id).Some? ==> GapFor(rows, id) == GapFor(rows[..n], id)
    ensures GapFor(rows[..n], id).None? && GapFor(rows, id).Some? ==> GapFor(rows, id).value in rows[n..]
  {
    if n == 0 {
      assert rows[..0] == [] && rows[0..] == rows;
    } else {
      assert rows[..n][0] == rows[0] && rows[..n][1..] == rows[1..][..n - 1] && rows[n..] == rows[1..][n - 1..];
      GapOfPrefix(rows[1..], n - 1, id);
    }
  }

  lemma PositionInCycle(s: Store, y: Link, i: nat)
    requires Valid(s) && y in s.links && FindCycle(s.cycles, y.cycle) == Some(i)
    ensures y.position <= s.cycles[i].opening + s.cycles[i].realCount
  {
    var k := RowAt(s.links, y);
    assert InOrder(s.links, y.cycle)[k] == y;
  }

  lemma FollowingRow(s: Store, x: Link) returns (y: Link)
    requires Valid(s) && NoOrphans(s) && x in s.links && !WasLast(s, x)
    ensures y in s.links && y.cycle == x.cycle && y.occurrence != x.occurrence && y.position == x.position + 1
  {
    var i := FindCycle(s.cycles, x.cycle).value;
    var k := RowAt(s.links, x);
    PositionInCycle(s, x, i);
    var rows := InOrder(s.links, x.cycle);
    y := rows[k + 1];
    RowsBelong(s.links, x.cycle);
    assert y in rows;
  }

  /** When the links from the n-th on were last, closing their gaps moves no row. */
  lemma LastLeavesRow(s: Store, rows: seq<Link>, n: nat, y: Link)
    requires Valid(s) && NoOrphans(s) && n <= |rows| && GapsOk(s.cycles, rows) && GapsOk(s.cycles, rows[..n]) && y in s.links
    requires forall x :: x in rows[n..] ==> WasLast(s, x)
    ensures ClosedRow(y, s.cycles, rows) == ClosedRow(y, s.cycles, rows[..n])
  {
    PositionInCycle(s, y, FindCycle(s.cycles, y.cycle).value);
    GapOfPrefix(rows, n, y.cycle);
  }

  /** A later row of a cycle whose gap is still open has yet to move. */
  lemma EarlierLeavesGap(s: Store, rows: seq<Link>, n: nat, m: nat, y: Link)
    requires NoOrphans(s) && n <= m < |rows| && GapsOk(s.cycles, rows) && GapsOk(s.cycles, rows[..n]) && CyclesDistinct(rows)
    requires y in s.links && y.cycle == rows[m].cycle && y.position == rows[m].position + 1
    ensures ClosedRow(y, s.cycles, rows) != ClosedRow(y, s.cycles, rows[..n])
  {
    GapOfMember(rows, m);
    assert forall z :: z in rows[..n] ==> z.cycle != rows[m].cycle;
    assert ClosedRow(y, s.cycles, rows).position == y.position - 1;
  }

  lemma OpenGapShows(s: Store, rows: seq<Link>, n: nat, m: nat, left: seq<Link>)
    requires Valid(s) && NoOrphans(s) && CyclesDistinct(rows) && n <= m < |rows| && GapsOk(s.cycles, rows) && GapsOk(s.cycles, rows[..n])
    requires rows[m] in s.links && !WasLast(s, rows[m])
    requires forall y :: y in s.links && y.occurrence != rows[m].occurrence ==> y in left
    ensures Closed(left, s.cycles, rows[..n]) != Closed(left, s.cycles, rows)
  {
    var y := FollowingRow(s, rows[m]);
    var j :| 0 <= j < |left| && left[j] == y;
    EarlierLeavesGap(s, rows, n, m, y);
    assert Closed(left, s.cycles, rows)[j] != Closed(left, s.cycles, rows[..n])[j];
  }

  lemma NoGapIsOpen(s: Store, rows: seq<Link>, n: nat, left: seq<Link>)
    requires Valid(s) && NoOrphans(s) && n <= |rows| && GapsOk(s.cycles, rows) && GapsOk(s.cycles, rows[..n])
    requires forall x :: x in rows[n..] ==> WasLast(s, x)
    requires forall y :: y in left ==> y in s.links
    ensures Closed(left, s.cycles, rows[..n]) == Closed(left, s.cycles, rows)
  {
    forall j | 0 <= j < |left| ensures ClosedRow(left[j], s.cycles, rows) == ClosedRow(left[j], s.cycles, rows[..n]) {
      assert left[j] in left;
      LastLeavesRow(s, rows, n, left[j]);
    }
  }

  lemma LinksRightIff(s: Store, rows: seq<Link>, n: nat, occurrence: int)
    requires Valid(s) && NoOrphans(s) && Pending(s, rows, occurrence) && n <= |rows| && GapsOk(s.cycles, rows) && GapsOk(s.cycles, rows[..n])
    ensures var left := DeleteLesson(s.links, occurrence);
      Closed(left, s.cycles, rows[..n]) == Closed(left, s.cycles, rows) <==> forall x :: x in rows[n..] ==> WasLast(s, x)
  {
    if m :| n <= m < |rows| && !WasLast(s, rows[m]) {
      assert rows[n..][m - n] == rows[m] && rows[m] in rows;
      OpenGapShows(s, rows, n, m, DeleteLesson(s.links, occurrence));
    } else {
      forall x | x in rows[n..] ensures WasLast(s, x) {
        var k :| 0 <= k < |rows[n..]| && rows[n..][k] == x;
        assert rows[n + k] == x;
      }
      NoGapIsOpen(s, rows, n, DeleteLesson(s.links, occurrence));
    }
  }

  // ---- which cycle rows are right -----------------------------------------------------

  /** A cycle that lost a lesson keeps its columns exactly when it was under way. */
  lemma ColumnsKeptIff(c: Cycle)
    requires c.realCount >= 1 && c.opening + c.realCount <= c.limit
    ensures Columns(Recounted(c, c.realCount - 1)) == Columns(c) <==> UnderWay(c)
  {
  }

  lemma CycleRightIff(s: Store, rows: seq<Link>, n: nat, now: seq<Cycle>, final: seq<Cycle>, i: nat)
    requires Valid(s) && n <= |rows| && CyclesDistinct(rows) && (forall x :: x in rows ==> x in s.links) && i < |s.cycles|
    requires CyclesAfter(s.cycles, now, rows[..n]) && CyclesAfter(s.cycles, final, rows)
    ensures Columns(now[i]) == Columns(final[i]) <==> forall x :: x in rows[n..] && x.cycle == s.cycles[i].id ==> UnderWay(s.cycles[i])
  {
    var c := s.cycles[i];
    GapOfPrefix(rows, n, c.id);
    if x :| x in rows[n..] && x.cycle == c.id {
      var k :| 0 <= k < |rows[n..]| && rows[n..][k] == x;
      assert rows[n + k] == x;
      GapOfMember(rows, n + k);
      assert forall z :: z in rows[..n] ==> z.cycle != c.id;
      assert CycleOk(c, s.links);
      assert x in LinksOf(s.links, c.id) by { RowsBelong(s.links, c.id); }
      ColumnsKeptIff(c);
    }
  }

  lemma CyclesRightIff(s: Store, rows: seq<Link>, n: nat, now: seq<Cycle>, final: seq<Cycle>)
    requires Valid(s) && NoOrphans(s) && n <= |rows| && CyclesDistinct(rows) && forall x :: x in rows ==> x in s.links
    requires CyclesAfter(s.cycles, now, rows[..n]) && CyclesAfter(s.cycles, final, rows)
    ensures SameColumns(now, final) <==> forall x :: x in rows[n..] ==> UnderWay(s.cycles[FindCycle(s.cycles, x.cycle).value])
  {
    if SameColumns(now, final) {
      forall x | x in rows[n..] ensures UnderWay(s.cycles[FindCycle(s.cycles, x.cycle).value]) {
        assert x in rows;
        CycleRightIff(s, rows, n, now, final, FindCycle(s.cycles, x.cycle).value);
      }
    }
    if forall x :: x in rows[n..] ==> UnderWay(s.cycles[FindCycle(s.cycles, x.cycle).value]) {
      forall i | 0 <= i < |s.cycles| ensures Columns(now[i]) == Columns(final[i]) {
        StudentOfAt(s.cycles, i);
        CycleRightIff(s, rows, n, now, final, i);
      }
    }
  }

  lemma BothRightIff(s: Store, left: seq<Link>)
    requires NoOrphans(s) && forall x :: x in left ==> x in s.links
    ensures (forall x :: x in left ==> NothingToRepair(s, x)) <==>
      (forall x :: x in left ==> WasLast(s, x)) && (forall x :: x in left ==> UnderWay(s.cycles[FindCycle(s.cycles, x.cycle).value]))
  {
  }

  /** Links and cycle rows after n repaired cycles against those of an uninterrupted reopen. */
  lemma TablesRightIff(s: Store, rows: seq<Link>, occurrence: int, n: nat, cycles: seq<Cycle>)
    requires Valid(s) && NoOrphans(s) && Pending(s, rows, occurrence) && n <= |rows| && GapsOk(s.cycles, rows[..n])
    requires CyclesAfter(s.cycles, cycles, rows[..n])
    ensures Closed(DeleteLesson(s.links, occurrence), s.cycles, rows[..n]) == RemoveAll(s, rows, occurrence).links
      && SameColumns(cycles, RemoveAll(s, rows, occurrence).cycles)
      <==> forall x :: x in rows[n..] ==> NothingToRepair(s, x)
  {
    var final := RemoveAll(s, rows, occurrence);
    ClientClosesAllGaps(s, rows, occurrence);
    ClientCyclesAfter(s, rows, occurrence);
    LinksRightIff(s, rows, n, occurrence);
    CyclesRightIff(s, rows, n, cycles, final.cycles);
    BothRightIff(s, rows[n..]);
  }

  lemma LessonIsGone(s: Store, occurrence: int, rows: seq<Link>)
    requires GapsOk(s.cycles, rows)
    ensures Affected(Closed(DeleteLesson(s.links, occurrence), s.cycles, rows), occurrence) == []
  {
    ClosedWithoutLesson(s.links, occurrence, s.cycles, rows);
    NothingAffected(Closed(DeleteLesson(s.links, occurrence), s.cycles, rows), occurrence);
  }

  /**
   After a crash behind the n-th repaired cycle a retry repairs nothing. Links and cycle rows are what
   an uninterrupted reopen leaves exactly when each remaining lesson was the last of a cycle whose row
   was under way: the last lesson of a full cycle leaves it due, an earlier one leaves a gap.
   */
  lemma RetryAfterCrash(s: Store, occurrence: int, n: nat, cycles: seq<Cycle>, links: seq<Link>)
    requires Valid(s) && NoOrphans(s) && Repaired(s, occurrence, n, cycles, links)
    ensures var rows := Affected(s.links, occurrence);
      && Pending(s, rows, occurrence) && Affected(links, occurrence) == []
      && (links == RemoveAll(s, rows, occurrence).links && SameColumns(cycles, RemoveAll(s, rows, occurrence).cycles)
          <==> forall x :: x in rows[n..] ==> NothingToRepair(s, x))
  {
    var rows := Affected(s.links, occurrence);
    AffectedIsPending(s, occurrence);
    LessonIsGone(s, occurrence, rows[..n]);
    TablesRightIff(s, rows, occurrence, n, cycles);
  }

  /** The crash right behind the DELETE is the case of no repaired cycle. */
  lemma RetryAfterDelete(s: Store, occurrence: int)
    requires Valid(s) && NoOrphans(s)
    ensures var rows, crashed := Affected(s.links, occurrence), DeleteLesson(s.links, occurrence);
      && Pending(s, rows, occurrence) && Affected(crashed, occurrence) == []
      && (crashed == RemoveAll(s, rows, occurrence).links && SameColumns(s.cycles, RemoveAll(s, rows, occurrence).cycles)
          <==> forall x :: x in rows ==> NothingToRepair(s, x))
  {
    RepairStarts(s, occurrence);
    RetryAfterCrash(s, occurrence, 0, s.cycles, DeleteLesson(s.links, occurrence));
    assert Affected(s.links, occurrence)[0..] == Affected(s.links, occurrence);
  }

  // ---- a stop within the repair of one cycle ------------------------------------------

  /** The next cycle to repair, its row as it was read before, and the number of its remaining lessons. */
  ghost predicate NextToRepair(s: Store, occurrence: int, n: nat, cycles: seq<Cycle>, left: seq<Link>, x: Link, c: Cycle, m: nat) {
    var rows := Affected(s.links, occurrence);
    && Repaired(s, occurrence, n, cycles, left) && n < |rows| && x == rows[n]
    && c in s.cycles && c.id == x.cycle && m == |InOrder(left, c.id)|
  }

  lemma NextIsGapped(s: Store, occurrence: int, n: nat, cycles: seq<Cycle>, left: seq<Link>, x: Link, c: Cycle, m: nat)
    requires Valid(s) && NoOrphans(s) && NextToRepair(s, occurrence, n, cycles, left, x, c, m)
    ensures var rows := Affected(s.links, occurrence);
      && Pending(s, rows, occurrence) && GapsOk(s.cycles, rows) && GapsOk(s.cycles, rows[..n + 1])
      && Gapped(left, c, x.position, InOrder(left, c.id))
      && CloseGap(left, c, x.position) == Closed(DeleteLesson(s.links, occurrence), s.cycles, rows[..n + 1])
      && FindCycle(s.cycles, x.cycle).Some? && s.cycles[FindCycle(s.cycles, x.cycle).value] == c
  {
    var rows := Affected(s.links, occurrence);
    AffectedIsPending(s, occurrence);
    ValidGaps(s, rows);
    var i :| 0 <= i < |s.cycles| && s.cycles[i] == c;
    StudentOfAt(s.cycles, i);
    NextGap(s, rows, n, occurrence, i);
  }

  /** A row that still waits at its shifted position. */
  lemma WaitingRow(left: seq<Link>, c: Cycle, gap: int, k: nat) returns (j: nat)
    requires Gapped(left, c, gap, InOrder(left, c.id)) && k < |InOrder(left, c.id)|
    ensures j < |left| && left[j].cycle == c.id
    ensures Partly(left, c, gap, k, SERVER_SHIFT)[j].position == left[j].position + SERVER_SHIFT
  {
    var y := InOrder(left, c.id)[k];
    assert y in InOrder(left, c.id);
    RowsBelong(left, c.id);
    j :| 0 <= j < |left| && left[j] == y;
    GappedRowMoves(y, c, gap, k);
  }

  /** It is not where a reopen puts it. */
  lemma WaitingRowShows(deleted: seq<Link>, cycles: seq<Cycle>, rows: seq<Link>, n: nat, c: Cycle, gap: int, k: nat)
    requires GapsOk(cycles, rows) && n <= |rows| && GapsOk(cycles, rows[..n]) && forall z :: z in rows[..n] ==> z.cycle != c.id
    requires var left := Closed(deleted, cycles, rows[..n]); Gapped(left, c, gap, InOrder(left, c.id)) && k < |InOrder(left, c.id)|
    ensures Partly(Closed(deleted, cycles, rows[..n]), c, gap, k, SERVER_SHIFT) != Closed(deleted, cycles, rows)
  {
    var left := Closed(deleted, cycles, rows[..n]);
    var j := WaitingRow(left, c, gap, k);
    assert left[j] == ClosedRow(deleted[j], cycles, rows[..n]);
    assert deleted[j].cycle == c.id && left[j] == deleted[j];
    assert ClosedRow(deleted[j], cycles, rows).position <= deleted[j].position;
    assert Closed(deleted, cycles, rows)[j] == ClosedRow(deleted[j], cycles, rows);
  }

  lemma LessonStaysGone(left: seq<Link>, c: Cycle, gap: int, k: nat, occurrence: int)
    requires c.limit >= 1 && gap >= 1 && forall y :: y in left ==> y.occurrence != occurrence
    ensures Affected(Partly(left, c, gap, k, SERVER_SHIFT), occurrence) == []
  {
    var links := Partly(left, c, gap, k, SERVER_SHIFT);
    forall j | 0 <= j < |links| ensures links[j].occurrence != occurrence {
      assert left[j] in left;
    }
    NothingAffected(links, occurrence);
  }

  lemma FirstAndLater(s: Store, rows: seq<Link>, n: nat, c: Cycle)
    requires NoOrphans(s) && n < |rows| && forall x :: x in rows ==> x in s.links
    requires FindCycle(s.cycles, rows[n].cycle).Some? && s.cycles[FindCycle(s.cycles, rows[n].cycle).value] == c
    ensures (forall x :: x in rows[n..] ==> UnderWay(s.cycles[FindCycle(s.cycles, x.cycle).value])) <==>
      UnderWay(c) && forall x :: x in rows[n + 1..] ==> UnderWay(s.cycles[FindCycle(s.cycles, x.cycle).value])
  {
    assert rows[n..] == [rows[n]] + rows[n + 1..];
  }

  /** With all rows of the next cycle renumbered only the update of its row is missing. */
  lemma RenumberedRightIff(s: Store, rows: seq<Link>, occurrence: int, n: nat, cycles: seq<Cycle>, c: Cycle)
    requires Valid(s) && NoOrphans(s) && Pending(s, rows, occurrence) && n < |rows| && GapsOk(s.cycles, rows[..n + 1])
    requires CyclesAfter(s.cycles, cycles, rows[..n])
    requires FindCycle(s.cycles, rows[n].cycle).Some? && s.cycles[FindCycle(s.cycles, rows[n].cycle).value] == c
    ensures Closed(DeleteLesson(s.links, occurrence), s.cycles, rows[..n + 1]) == RemoveAll(s, rows, occurrence).links
      && SameColumns(cycles, RemoveAll(s, rows, occurrence).cycles)
      <==> UnderWay(c) && forall y :: y in rows[n + 1..] ==> NothingToRepair(s, y)
  {
    ClientClosesAllGaps(s, rows, occurrence);
    ClientCyclesAfter(s, rows, occurrence);
    LinksRightIff(s, rows, n + 1, occurrence);
    CyclesRightIff(s, rows, n, cycles, RemoveAll(s, rows, occurrence).cycles);
    FirstAndLater(s, rows, n, c);
    BothRightIff(s, rows[n + 1..]);
  }

  lemma ClosedWithoutLesson(links: seq<Link>, occurrence: int, cycles: seq<Cycle>, rows: seq<Link>)
    requires GapsOk(cycles, rows)
    ensures forall y :: y in Closed(DeleteLesson(links, occurrence), cycles, rows) ==> y.occurrence != occurrence
  {
    var deleted := DeleteLesson(links, occurrence);
    var left := Closed(deleted, cycles, rows);
    forall y | y in left ensures y.occurrence != occurrence {
      var j :| 0 <= j < |left| && left[j] == y;
      assert deleted[j] in deleted;
    }
  }

  lemma GoneWithinCycle(s: Store, occurrence: int, n: nat, cycles: seq<Cycle>, left: seq<Link>, x: Link, c: Cycle, m: nat, k: nat)
    requires Valid(s) && NoOrphans(s) && NextToRepair(s, occurrence, n, cycles, left, x, c, m)
    ensures c.limit >= 1 && x.position >= 1 && Affected(Partly(left, c, x.position, k, SERVER_SHIFT), occurrence) == []
  {
    NextIsGapped(s, occurrence, n, cycles, left, x, c, m);
    ClosedWithoutLesson(s.links, occurrence, s.cycles, Affected(s.links, occurrence)[..n]);
    LessonStaysGone(left, c, x.position, k, occurrence);
  }

  lemma WaitingIsWrong(s: Store, occurrence: int, n: nat, cycles: seq<Cycle>, left: seq<Link>, x: Link, c: Cycle, m: nat, k: nat)
    requires Valid(s) && NoOrphans(s) && NextToRepair(s, occurrence, n, cycles, left, x, c, m) && k < m
    ensures c.limit >= 1 && x.position >= 1 && Pending(s, Affected(s.links, occurrence), occurrence)
    ensures Partly(left, c, x.position, k, SERVER_SHIFT) != RemoveAll(s, Affected(s.links, occurrence), occurrence).links
  {
    var rows := Affected(s.links, occurrence);
    NextIsGapped(s, occurrence, n, cycles, left, x, c, m);
    ClientClosesAllGaps(s, rows, occurrence);
    assert forall z :: z in rows[..n] ==> z.cycle != c.id;
    WaitingRowShows(DeleteLesson(s.links, occurrence), s.cycles, rows, n, c, x.position, k);
  }

  lemma RenumberedIsClosed(s: Store, occurrence: int, n: nat, cycles: seq<Cycle>, left: seq<Link>, x: Link, c: Cycle, m: nat)
    requires Valid(s) && NoOrphans(s) && NextToRepair(s, occurrence, n, cycles, left, x, c, m)
    ensures c.limit >= 1 && x.position >= 1 && GapsOk(s.cycles, Affected(s.links, occurrence)[..n + 1])
    ensures Partly(left, c, x.position, m, SERVER_SHIFT)
         == Closed(DeleteLesson(s.links, occurrence), s.cycles, Affected(s.links, occurrence)[..n + 1])
  {
    NextIsGapped(s, occurrence, n, cycles, left, x, c, m);
    RenumberDone(left, c, x.position, InOrder(left, c.id), SERVER_SHIFT);
  }

  /**
   After a stop within the repair of the n-th cycle, behind its shift and k renumbered rows, a retry
   repairs nothing either. The tables are right exactly when all m remaining rows had been renumbered,
   the row of that cycle was under way, and nothing was left to do for the later ones.
   */
  lemma RetryWithinCycle(s: Store, occurrence: int, n: nat, cycles: seq<Cycle>, left: seq<Link>, x: Link, c: Cycle, m: nat, k: nat)
    requires Valid(s) && NoOrphans(s) && NextToRepair(s, occurrence, n, cycles, left, x, c, m) && k <= m
    ensures c.limit >= 1 && x.position >= 1
    ensures var rows, links := Affected(s.links, occurrence), Partly(left, c, x.position, k, SERVER_SHIFT);
      && Pending(s, rows, occurrence) && Affected(links, occurrence) == []
      && (links == RemoveAll(s, rows, occurrence).links && SameColumns(cycles, RemoveAll(s, rows, occurrence).cycles)
          <==> k == m && UnderWay(c) && forall y :: y in rows[n + 1..] ==> NothingToRepair(s, y))
  {
    GoneWithinCycle(s, occurrence, n, cycles, left, x, c, m, k);
    AffectedIsPending(s, occurrence);
    if k == m {
      NextIsGapped(s, occurrence, n, cycles, left, x, c, m);
      RenumberedIsClosed(s, occurrence, n, cycles, left, x, c, m);
      RenumberedRightIff(s, Affected(s.links, occurrence), occurrence, n, cycles, c);
    } else {
      WaitingIsWrong(s, occurrence, n, cycles, left, x, c, m, k);
    }
  }
}
