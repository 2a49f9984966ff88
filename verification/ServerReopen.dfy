/**
 The server's way of reopening a lesson: delete all its links at once, then for every affected
 cycle move the remaining rows out of the way and renumber them one statement at a time.
 */
module ServerReopen {
  import opened Numbers
  import opened PackageCycles
  import opened Renumbering
  import opened Attendance
  import opened Reopening
  import opened TutoringCommands

  function DeleteLesson(links: seq<Link>, occurrence: int): (left: seq<Link>)
    ensures forall y :: y in left <==> y in links && y.occurrence != occurrence
  {
    if links == [] then []
    else if links[0].occurrence == occurrence then DeleteLesson(links[1..], occurrence)
    else [links[0]] + DeleteLesson(links[1..], occurrence)
  }

  /** The deleted link of a cycle. */
  function GapFor(rows: seq<Link>, cycle: int): (found: Option<Link>)
    ensures found.Some? ==> found.value in rows && found.value.cycle == cycle
    ensures found.None? ==> forall x :: x in rows ==> x.cycle != cycle
  {
    if rows == [] then None
    else if rows[0].cycle == cycle then Some(rows[0])
    else GapFor(rows[1..], cycle)
  }

  ghost predicate GapsOk(cycles: seq<Cycle>, rows: seq<Link>) {
    (forall i :: 0 <= i < |cycles| ==> cycles[i].limit >= 1) && forall x :: x in rows ==> x.position >= 1
  }

  /** Where a remaining row ends up once the gaps of all affected cycles are closed. */
  function ClosedRow(y: Link, cycles: seq<Cycle>, rows: seq<Link>): Link
    requires GapsOk(cycles, rows)
  {
    var gap, at := GapFor(rows, y.cycle), FindCycle(cycles, y.cycle);
    if gap.Some? && at.Some? then Moved(y, cycles[at.value], gap.value.position) else y
  }

  function Closed(left: seq<Link>, cycles: seq<Cycle>, rows: seq<Link>): (table: seq<Link>)
    requires GapsOk(cycles, rows)
    ensures |table| == |left| && forall j :: 0 <= j < |left| ==> table[j] == ClosedRow(left[j], cycles, rows)
  {
    seq(|left|, j requires 0 <= j < |left| => ClosedRow(left[j], cycles, rows))
  }

  // ---- the two orders of deleting and renumbering agree -------------------------------

  lemma {:induction false} DeleteAfterRemoval(links: seq<Link>, cycle: int, occurrence: int)
    ensures DeleteLesson(WithoutLesson(links, cycle, occurrence), occurrence) == DeleteLesson(links, occurrence)
  {
    if links != [] {
      DeleteAfterRemoval(links[1..], cycle, occurrence);
      var rest := WithoutLesson(links[1..], cycle, occurrence);
      assert ([links[0]] + rest)[1..] == rest;
    }
  }

  lemma DeleteCons(y: Link, rest: seq<Link>, occurrence: int)
    ensures DeleteLesson([y] + rest, occurrence) == (if y.occurrence == occurrence then [] else [y]) + DeleteLesson(rest, occurrence)
  {
    assert ([y] + rest)[1..] == rest;
  }

  lemma CloseCons(y: Link, rest: seq<Link>, c: Cycle, gap: int)
    requires c.limit >= 1 && gap >= 1
    ensures CloseGap([y] + rest, c, gap) == [Moved(y, c, gap)] + CloseGap(rest, c, gap)
  {
  }

  lemma {:induction false} DeleteAfterClosing(links: seq<Link>, c: Cycle, gap: int, occurrence: int)
    requires c.limit >= 1 && gap >= 1
    ensures DeleteLesson(CloseGap(links, c, gap), occurrence) == CloseGap(DeleteLesson(links, occurrence), c, gap)
  {
    if links != [] {
      var y, rest := links[0], links[1..];
      assert links == [y] + rest;
      DeleteAfterClosing(rest, c, gap, occurrence);
      CloseCons(y, rest, c, gap);
      DeleteCons(Moved(y, c, gap), CloseGap(rest, c, gap), occurrence);
      DeleteCons(y, rest, occurrence);
      CloseCons(y, DeleteLesson(rest, occurrence), c, gap);
    }
  }

  lemma {:induction false} DeletedNothing(links: seq<Link>, occurrence: int)
    requires forall y :: y in links ==> y.occurrence != occurrence
    ensures DeleteLesson(links, occurrence) == links
  {
    if links != [] {
      assert links[0] in links;
      DeletedNothing(links[1..], occurrence);
    }
  }

  /** Every link belongs to a stored cycle, as the foreign key of the server's table demands. */
  ghost predicate NoOrphans(s: Store) {
    forall x :: x in s.links ==> FindCycle(s.cycles, x.cycle).Some?
  }

  lemma RemovalKeepsNoOrphans(s: Store, x: Link)
    requires Valid(s) && NoOrphans(s) && x in s.links
    ensures NoOrphans(RemoveLink(s, x))
  {
    var t, c := RemoveLink(s, x), s.cycles[FindCycle(s.cycles, x.cycle).value];
    RemovingIsSound(s, x);
    ReopenedRows(c, s.links, x);
    forall y | y in t.links ensures FindCycle(t.cycles, y.cycle).Some? {
      ClosedGapHasKey(WithoutLesson(s.links, x.cycle, x.occurrence), c, x.position, y);
      var at := FindCycle(s.cycles, y.cycle);
      assert SameTerms(s.cycles[at.value], t.cycles[at.value]);
    }
  }

  lemma ValidGaps(s: Store, rows: seq<Link>)
    requires Valid(s) && NoOrphans(s) && forall x :: x in rows ==> x in s.links
    ensures GapsOk(s.cycles, rows)
  {
    forall x | x in rows ensures x.position >= 1 { }
  }

  lemma ClosedUnderSameTerms(y: Link, a: seq<Cycle>, b: seq<Cycle>, rows: seq<Link>)
    requires UniqueIds(a) && UniqueIds(b) && |a| == |b| && Extends(a, b) && GapsOk(a, rows) && GapsOk(b, rows)
    ensures ClosedRow(y, a, rows) == ClosedRow(y, b, rows)
  {
    forall j | 0 <= j < |a| ensures a[j].id == b[j].id { assert SameTerms(a[j], b[j]); }
    var gap, found := GapFor(rows, y.cycle), FindCycle(a, y.cycle);
    if found.Some? {
      StudentOfAt(b, found.value);
    }
  }

  lemma ClosedStep(cycles: seq<Cycle>, rows: seq<Link>, i: nat, y: Link)
    requires CyclesDistinct(rows) && rows != [] && GapsOk(cycles, rows)
    requires FindCycle(cycles, rows[0].cycle) == Some(i)
    ensures rows[0].position >= 1 && GapsOk(cycles, rows[1..])
    ensures ClosedRow(Moved(y, cycles[i], rows[0].position), cycles, rows[1..]) == ClosedRow(y, cycles, rows)
  {
    var x := rows[0];
    assert x in rows;
    assert forall z :: z in rows[1..] ==> z.cycle != x.cycle;
  }

  /** Removing the links one cycle at a time, as the client does, also just closes all gaps. */
  lemma {:induction false} ClientClosesAllGaps(s: Store, rows: seq<Link>, occurrence: int)
    requires Valid(s) && NoOrphans(s) && Pending(s, rows, occurrence)
    ensures GapsOk(s.cycles, rows)
    ensures RemoveAll(s, rows, occurrence).links == Closed(DeleteLesson(s.links, occurrence), s.cycles, rows)
    decreases |rows|
  {
    ValidGaps(s, rows);
    var deleted := DeleteLesson(s.links, occurrence);
    if rows == [] {
      DeletedNothing(s.links, occurrence);
      assert Closed(deleted, s.cycles, rows) == deleted;
    } else {
      var x, t := rows[0], RemoveLink(s, rows[0]);
      assert x in rows;
      RemovingIsSound(s, x);
      RemovalKeepsNoOrphans(s, x);
      PendingShrinks(s, rows, occurrence);
      ClientClosesAllGaps(t, rows[1..], occurrence);
      ClosedAfterFirst(s, rows, occurrence);
    }
  }

  lemma ClosedAfterFirst(s: Store, rows: seq<Link>, occurrence: int)
    requires Valid(s) && NoOrphans(s) && Pending(s, rows, occurrence) && rows != [] && rows[0] in s.links
    requires GapsOk(s.cycles, rows) && GapsOk(RemoveLink(s, rows[0]).cycles, rows[1..])
    ensures Closed(DeleteLesson(RemoveLink(s, rows[0]).links, occurrence), RemoveLink(s, rows[0]).cycles, rows[1..])
         == Closed(DeleteLesson(s.links, occurrence), s.cycles, rows)
  {
    var x, t, deleted := rows[0], RemoveLink(s, rows[0]), DeleteLesson(s.links, occurrence);
    assert x in rows;
    var at := FindCycle(s.cycles, x.cycle);
    RemovingIsSound(s, x);
    var c := s.cycles[at.value];
    DeleteAfterRemoval(s.links, x.cycle, occurrence);
    DeleteAfterClosing(WithoutLesson(s.links, x.cycle, occurrence), c, x.position, occurrence);
    var later := CloseGap(deleted, c, x.position);
    assert DeleteLesson(t.links, occurrence) == later;
    var a, b := Closed(later, t.cycles, rows[1..]), Closed(deleted, s.cycles, rows);
    forall j | 0 <= j < |deleted| ensures a[j] == b[j] {
      ClosedStep(s.cycles, rows, at.value, deleted[j]);
      ClosedUnderSameTerms(later[j], s.cycles, t.cycles, rows[1..]);
    }
  }

  lemma RemovedCycle(s: Store, x: Link, i: nat)
    requires Valid(s) && x in s.links && i < |s.cycles|
    ensures |RemoveLink(s, x).cycles| == |s.cycles|
    ensures s.cycles[i].id == x.cycle ==> s.cycles[i].realCount >= 1 && RemoveLink(s, x).cycles[i] == Recounted(s.cycles[i], s.cycles[i].realCount - 1)
    ensures s.cycles[i].id != x.cycle ==> RemoveLink(s, x).cycles[i] == s.cycles[i]
  {
    if s.cycles[i].id == x.cycle {
      ReopenedRows(s.cycles[i], s.links, x);
      StudentOfAt(s.cycles, i);
    }
  }

  /** An affected cycle is open again with one lesson less; any other cycle row is untouched. */
  ghost predicate RowAfter(c: Cycle, now: Cycle, rows: seq<Link>) {
    if GapFor(rows, c.id).Some? then c.realCount >= 1 && now == Recounted(c, c.realCount - 1) else now == c
  }

  lemma {:induction false} RemovedCycles(s: Store, rows: seq<Link>, occurrence: int, i: nat)
    requires Valid(s) && Pending(s, rows, occurrence) && i < |s.cycles|
    ensures RowAfter(s.cycles[i], RemoveAll(s, rows, occurrence).cycles[i], rows)
    decreases |rows|
  {
    if rows != [] {
      assert rows[0] in rows;
      RemovingIsSound(s, rows[0]);
      PendingShrinks(s, rows, occurrence);
      RemovedCycle(s, rows[0], i);
      RemovedCycles(RemoveLink(s, rows[0]), rows[1..], occurrence, i);
    }
  }

  // ---- shifting keeps the order -------------------------------------------------------

  function ShiftAll(rows: seq<Link>, c: Cycle): seq<Link> {
    ShiftedUpTo(rows, c, |rows|)
  }

  lemma LinksOfCons(y: Link, rest: seq<Link>, cycle: int)
    ensures LinksOf([y] + rest, cycle) == (if y.cycle == cycle then [y] else []) + LinksOf(rest, cycle)
  {
    assert ([y] + rest)[1..] == rest;
  }

  lemma ShiftCons(y: Link, rest: seq<Link>, c: Cycle)
    ensures ShiftAll([y] + rest, c) == [ShiftedRow(y, c, true)] + ShiftAll(rest, c)
  {
  }

  lemma {:induction false} LinksOfShift(links: seq<Link>, c: Cycle)
    ensures LinksOf(ShiftAll(links, c), c.id) == ShiftAll(LinksOf(links, c.id), c)
  {
    if links != [] {
      var y, rest := links[0], links[1..];
      assert links == [y] + rest;
      LinksOfShift(rest, c);
      ShiftCons(y, rest, c);
      LinksOfCons(ShiftedRow(y, c, true), ShiftAll(rest, c), c.id);
      LinksOfCons(y, rest, c.id);
      ShiftCons(y, LinksOf(rest, c.id), c);
    }
  }

  lemma {:induction false} InsertShifted(x: Link, sorted: seq<Link>, c: Cycle)
    requires x.cycle == c.id && forall y :: y in sorted ==> y.cycle == c.id
    ensures InsertByPosition(ShiftedRow(x, c, true), ShiftAll(sorted, c)) == ShiftAll(InsertByPosition(x, sorted), c)
  {
    if sorted != [] {
      assert sorted[0] in sorted;
      assert ShiftAll(sorted, c)[1..] == ShiftAll(sorted[1..], c);
      InsertShifted(x, sorted[1..], c);
    }
  }

  lemma {:induction false} SortShifted(rows: seq<Link>, c: Cycle)
    requires forall y :: y in rows ==> y.cycle == c.id
    ensures SortByPosition(ShiftAll(rows, c)) == ShiftAll(SortByPosition(rows), c)
  {
    if rows != [] {
      assert rows[0] in rows;
      SortShifted(rows[1..], c);
      assert ShiftAll(rows, c)[1..] == ShiftAll(rows[1..], c);
      InsertShifted(rows[0], SortByPosition(rows[1..]), c);
    }
  }

  lemma ShiftedInOrder(links: seq<Link>, c: Cycle)
    ensures InOrder(ShiftAll(links, c), c.id) == ShiftAll(InOrder(links, c.id), c)
  {
    LinksOfShift(links, c);
    SortShifted(LinksOf(links, c.id), c);
  }

  // ---- one cycle at a time ------------------------------------------------------------

  /** UNIQUE (billing_cycle_id, position) */
  predicate UniquePositions(links: seq<Link>) {
    forall i, j :: 0 <= i < j < |links| && links[i].cycle == links[j].cycle ==> links[i].position != links[j].position
  }

  /** The tables differ only in positions and shares of one cycle. */
  predicate DiffersIn(a: seq<Link>, b: seq<Link>, cycle: int) {
    |a| == |b| && forall j :: 0 <= j < |a| ==> a[j].cycle == b[j].cycle && (a[j].cycle != cycle ==> a[j] == b[j])
  }

  lemma StillUnique(left: seq<Link>, table: seq<Link>, cycle: int)
    requires UniquePositions(left) && DiffersIn(left, table, cycle) && PositionsUnique(table, cycle)
    ensures UniquePositions(table)
  {
  }

  lemma {:induction false} OthersKeepTheirRows(a: seq<Link>, b: seq<Link>, other: int)
    requires |a| == |b| && forall j :: 0 <= j < |a| ==> a[j].cycle == b[j].cycle && (a[j].cycle == other ==> a[j] == b[j])
    ensures LinksOf(a, other) == LinksOf(b, other)
  {
    if a != [] {
      assert a[0].cycle == b[0].cycle;
      OthersKeepTheirRows(a[1..], b[1..], other);
    }
  }

  lemma {:induction false} SameRemaining(links: seq<Link>, cycle: int, occurrence: int)
    ensures LinksOf(DeleteLesson(links, occurrence), cycle) == LinksOf(WithoutLesson(links, cycle, occurrence), cycle)
  {
    if links != [] {
      SameRemaining(links[1..], cycle, occurrence);
      var a, b := DeleteLesson(links[1..], occurrence), WithoutLesson(links[1..], cycle, occurrence);
      assert ([links[0]] + a)[1..] == a && ([links[0]] + b)[1..] == b;
    }
  }

  /** The rows of a cycle whose gap is still open are the ones its removed lesson left. */
  lemma GapStillOpen(s: Store, rows: seq<Link>, n: nat, occurrence: int, i: nat)
    requires Valid(s) && NoOrphans(s) && Pending(s, rows, occurrence) && n < |rows|
    requires GapsOk(s.cycles, rows[..n]) && FindCycle(s.cycles, rows[n].cycle) == Some(i)
    ensures var left := Closed(DeleteLesson(s.links, occurrence), s.cycles, rows[..n]);
      && Gapped(left, s.cycles[i], rows[n].position, InOrder(left, s.cycles[i].id))
      && |InOrder(left, s.cycles[i].id)| == s.cycles[i].realCount - 1
  {
    var x, c, deleted := rows[n], s.cycles[i], DeleteLesson(s.links, occurrence);
    var left := Closed(deleted, s.cycles, rows[..n]);
    assert x in rows;
    RemovalLeavesGap(c, s.links, x);
    NotYetClosed(deleted, s.cycles, rows, n);
    SameRemaining(s.links, c.id, occurrence);
  }

  /** Closing the gaps of other cycles leaves the rows of this one alone. */
  lemma NotYetClosed(deleted: seq<Link>, cycles: seq<Cycle>, rows: seq<Link>, n: nat)
    requires CyclesDistinct(rows) && n < |rows| && GapsOk(cycles, rows[..n])
    ensures LinksOf(Closed(deleted, cycles, rows[..n]), rows[n].cycle) == LinksOf(deleted, rows[n].cycle)
  {
    assert forall z :: z in rows[..n] ==> z.cycle != rows[n].cycle;
    OthersKeepTheirRows(deleted, Closed(deleted, cycles, rows[..n]), rows[n].cycle);
  }

  // ---- the cycle rows of the run ------------------------------------------------------

  /** The cycle rows once the affected cycles among `rows` were renumbered. */
  ghost predicate CyclesAfter(before: seq<Cycle>, now: seq<Cycle>, rows: seq<Link>) {
    |now| == |before| && forall i :: 0 <= i < |before| ==> RowAfter(before[i], now[i], rows)
  }

  lemma ClientCyclesAfter(s: Store, rows: seq<Link>, occurrence: int)
    requires Valid(s) && Pending(s, rows, occurrence)
    ensures CyclesAfter(s.cycles, RemoveAll(s, rows, occurrence).cycles, rows)
  {
    forall i | 0 <= i < |s.cycles| ensures RowAfter(s.cycles[i], RemoveAll(s, rows, occurrence).cycles[i], rows) {
      RemovedCycles(s, rows, occurrence, i);
    }
  }

  lemma GapForPrefix(rows: seq<Link>, n: nat, id: int)
    requires CyclesDistinct(rows) && n < |rows|
    ensures GapFor(rows[..n + 1], id) == if id == rows[n].cycle then Some(rows[n]) else GapFor(rows[..n], id)
  {
    PrefixGap(rows[..n], rows[n], id);
    assert rows[..n] + [rows[n]] == rows[..n + 1];
    if id == rows[n].cycle {
      assert forall z :: z in rows[..n] ==> z.cycle != rows[n].cycle;
    }
  }

  lemma {:induction false} PrefixGap(rows: seq<Link>, x: Link, id: int)
    ensures GapFor(rows + [x], id) == if GapFor(rows, id).Some? then GapFor(rows, id) else GapFor([x], id)
  {
    if rows != [] {
      assert (rows + [x])[1..] == rows[1..] + [x];
      PrefixGap(rows[1..], x, id);
    } else {
      assert rows + [x] == [x];
    }
  }

  lemma CyclesAfterNext(before: seq<Cycle>, now: seq<Cycle>, rows: seq<Link>, n: nat, i: nat)
    requires UniqueIds(before) && CyclesDistinct(rows) && n < |rows| && CyclesAfter(before, now, rows[..n])
    requires i < |before| && before[i].id == rows[n].cycle && before[i].realCount >= 1
    ensures now[i] == before[i]
    ensures CyclesAfter(before, now[i := Recounted(before[i], before[i].realCount - 1)], rows[..n + 1])
  {
    assert forall z :: z in rows[..n] ==> z.cycle != rows[n].cycle;
    forall j | 0 <= j < |before| ensures GapFor(rows[..n + 1], before[j].id) == if j == i then Some(rows[n]) else GapFor(rows[..n], before[j].id) {
      GapForPrefix(rows, n, before[j].id);
    }
  }

  lemma ClosedNext(left: seq<Link>, cycles: seq<Cycle>, rows: seq<Link>, n: nat, i: nat)
    requires CyclesDistinct(rows) && n < |rows| && GapsOk(cycles, rows) && FindCycle(cycles, rows[n].cycle) == Some(i)
    ensures GapsOk(cycles, rows[..n]) && GapsOk(cycles, rows[..n + 1]) && rows[n].position >= 1
    ensures CloseGap(Closed(left, cycles, rows[..n]), cycles[i], rows[n].position) == Closed(left, cycles, rows[..n + 1])
  {
    assert rows[n] in rows;
    assert forall z :: z in rows[..n] ==> z in rows;
    assert forall z :: z in rows[..n + 1] ==> z in rows;
    var a, b := CloseGap(Closed(left, cycles, rows[..n]), cycles[i], rows[n].position), Closed(left, cycles, rows[..n + 1]);
    forall j | 0 <= j < |left| ensures a[j] == b[j] {
      GapForPrefix(rows, n, left[j].cycle);
      if left[j].cycle == rows[n].cycle {
        assert forall z :: z in rows[..n] ==> z.cycle != rows[n].cycle;
      }
    }
  }

  lemma PartlyIsUnique(left: seq<Link>, c: Cycle, gap: int, k: nat)
    requires UniquePositions(left) && Gapped(left, c, gap, InOrder(left, c.id))
    requires c.opening + |InOrder(left, c.id)| + 1 <= c.limit <= 100
    ensures UniquePositions(Partly(left, c, gap, k, SERVER_SHIFT))
  {
    NeverCollidesRenumbering(left, c, gap, k);
    StillUnique(left, Partly(left, c, gap, k, SERVER_SHIFT), c.id);
  }

  lemma RenumberOne(left: seq<Link>, c: Cycle, gap: int, k: nat)
    requires Gapped(left, c, gap, InOrder(left, c.id)) && k < |InOrder(left, c.id)|
    ensures |InOrder(ShiftAll(left, c), c.id)| == |InOrder(left, c.id)|
    ensures PutLink(Partly(left, c, gap, k, SERVER_SHIFT), FinalRow(c, InOrder(ShiftAll(left, c), c.id)[k].occurrence, k))
         == Partly(left, c, gap, k + 1, SERVER_SHIFT)
  {
    ShiftedInOrder(left, c);
    RenumberStep(left, c, gap, InOrder(left, c.id), k, SERVER_SHIFT);
  }

  /** What the loop over affected cycles finds when it reaches the n-th deleted link. */
  lemma NextCycle(s: Store, now: seq<Cycle>, rows: seq<Link>, n: nat, occurrence: int)
    requires Valid(s) && NoOrphans(s) && Pending(s, rows, occurrence) && n < |rows|
    requires GapsOk(s.cycles, rows) && CyclesAfter(s.cycles, now, rows[..n])
    ensures FindCycle(s.cycles, rows[n].cycle).Some?
    ensures var i := FindCycle(s.cycles, rows[n].cycle).value;
      && FindCycle(now, rows[n].cycle) == Some(i) && now[i] == s.cycles[i] && s.cycles[i].realCount >= 1
      && CyclesAfter(s.cycles, now[i := Recounted(s.cycles[i], s.cycles[i].realCount - 1)], rows[..n + 1])
  {
    assert rows[n] in rows;
    var i := FindCycle(s.cycles, rows[n].cycle).value;
    ReopenedRows(s.cycles[i], s.links, rows[n]);
    CyclesAfterNext(s.cycles, now, rows, n, i);
    SameIds(s.cycles, now, rows[..n], i);
  }

  lemma NextGap(s: Store, rows: seq<Link>, n: nat, occurrence: int, i: nat)
    requires Valid(s) && NoOrphans(s) && Pending(s, rows, occurrence) && n < |rows|
    requires GapsOk(s.cycles, rows) && FindCycle(s.cycles, rows[n].cycle) == Some(i)
    ensures GapsOk(s.cycles, rows[..n]) && GapsOk(s.cycles, rows[..n + 1]) && rows[n].position >= 1
    ensures var c, left := s.cycles[i], Closed(DeleteLesson(s.links, occurrence), s.cycles, rows[..n]);
      && Gapped(left, c, rows[n].position, InOrder(left, c.id))
      && |InOrder(left, c.id)| == c.realCount - 1 && c.opening + c.realCount <= c.limit <= 100
      && CloseGap(left, c, rows[n].position) == Closed(DeleteLesson(s.links, occurrence), s.cycles, rows[..n + 1])
  {
    ClosedNext(DeleteLesson(s.links, occurrence), s.cycles, rows, n, i);
    GapStillOpen(s, rows, n, occurrence, i);
    assert CycleOk(s.cycles[i], s.links);
  }

  /** The tables after the first n affected cycles were repaired. */
  ghost predicate Repaired(s: Store, occurrence: int, n: nat, cycles: seq<Cycle>, links: seq<Link>) {
    var rows := Affected(s.links, occurrence);
    && n <= |rows| && GapsOk(s.cycles, rows[..n])
    && links == Closed(DeleteLesson(s.links, occurrence), s.cycles, rows[..n])
    && CyclesAfter(s.cycles, cycles, rows[..n])
  }

  /** A cycle that lost a lesson and still has its gap. */
  ghost predicate NeedsRepair(cycles: seq<Cycle>, links: seq<Link>, x: Link, i: nat) {
    && FindCycle(cycles, x.cycle) == Some(i) && i < |cycles| && cycles[i].realCount >= 1
    && Gapped(links, cycles[i], x.position, InOrder(links, cycles[i].id))
    && |InOrder(links, cycles[i].id)| == cycles[i].realCount - 1 && cycles[i].opening + cycles[i].realCount <= cycles[i].limit <= 100
  }

  lemma RepairStarts(s: Store, occurrence: int)
    requires Valid(s)
    ensures Repaired(s, occurrence, 0, s.cycles, DeleteLesson(s.links, occurrence))
  {
    ghost var rows := Affected(s.links, occurrence);
    assert rows[..0] == [];
    assert Closed(DeleteLesson(s.links, occurrence), s.cycles, []) == DeleteLesson(s.links, occurrence);
  }

  lemma RepairNext(s: Store, occurrence: int, n: nat, cycles: seq<Cycle>, links: seq<Link>) returns (i: nat)
    requires Valid(s) && NoOrphans(s) && Repaired(s, occurrence, n, cycles, links) && n < |Affected(s.links, occurrence)|
    ensures var x := Affected(s.links, occurrence)[n];
      NeedsRepair(cycles, links, x, i)
      && Repaired(s, occurrence, n + 1, cycles[i := Recounted(cycles[i], cycles[i].realCount - 1)], CloseGap(links, cycles[i], x.position))
  {
    var rows := Affected(s.links, occurrence);
    AffectedIsPending(s, occurrence);
    ValidGaps(s, rows);
    NextCycle(s, cycles, rows, n, occurrence);
    i := FindCycle(s.cycles, rows[n].cycle).value;
    NextGap(s, rows, n, occurrence, i);
  }

  lemma RepairEnds(s: Store, occurrence: int, cycles: seq<Cycle>, links: seq<Link>)
    requires Valid(s) && NoOrphans(s) && Repaired(s, occurrence, |Affected(s.links, occurrence)|, cycles, links)
    ensures var rows := Affected(s.links, occurrence);
      Pending(s, rows, occurrence) && links == RemoveAll(s, rows, occurrence).links && cycles == RemoveAll(s, rows, occurrence).cycles
  {
    var rows := Affected(s.links, occurrence);
    assert rows[..|rows|] == rows;
    AffectedIsPending(s, occurrence);
    ClientClosesAllGaps(s, rows, occurrence);
    ClientCyclesAfter(s, rows, occurrence);
  }

  class BillingDatabase {
    var cycles: seq<Cycle>
    var links: seq<Link>

    /** UPDATE ... SET position = position + 10000, row by row in table order. */
    method ShiftPositions(c: Cycle, ghost gap: int)
      requires UniquePositions(links) && Gapped(links, c, gap, InOrder(links, c.id))
      requires c.opening + |InOrder(links, c.id)| + 1 <= c.limit <= 100
      modifies this`links
      ensures links == ShiftAll(old(links), c) && UniquePositions(links)
    {
      ghost var left := links;
      var j := 0;
      while j < |links|
        invariant j <= |links| == |left| && links == ShiftedUpTo(left, c, j)
        invariant UniquePositions(links)
      {
        if links[j].cycle == c.id {
          links := links[j := links[j].(position := links[j].position + SERVER_SHIFT)];
        }
        assert links == ShiftedUpTo(left, c, j + 1);
        NeverCollidesShifting(left, c, gap, j + 1);
        StillUnique(left, links, c.id);
        j := j + 1;
      }
    }

    /** Shift a cycle's rows, read them back in order and give them their final positions. */
    method RenumberCycle(c: Cycle, ghost gap: int) returns (index: nat)
      requires UniquePositions(links) && Gapped(links, c, gap, InOrder(links, c.id))
      requires c.opening + |InOrder(links, c.id)| + 1 <= c.limit <= 100
      modifies this`links
      ensures index == |InOrder(old(links), c.id)|
      ensures links == CloseGap(old(links), c, gap) && UniquePositions(links)
    {
      ghost var left := links;
      ghost var rows := InOrder(left, c.id);
      ShiftPositions(c, gap);
      ShiftedInOrder(left, c);
      ShiftIsPartly(left, c, gap);
      var remaining := InOrder(links, c.id);
      index := 0;
      while index < |remaining|
        invariant index <= |remaining| && links == Partly(left, c, gap, index, SERVER_SHIFT)
        invariant UniquePositions(links)
      {
        RenumberOne(left, c, gap, index);
        PartlyIsUnique(left, c, gap, index + 1);
        links := PutLink(links, FinalRow(c, remaining[index].occurrence, index));
        index := index + 1;
      }
      RenumberDone(left, c, gap, rows, SERVER_SHIFT);
    }
  
    /** One affected cycle of reopenCompletedOccurrence; afterwards its row is open again. */
    method RepairCycle(removed: Link, latest: int, ghost i: nat)
      requires UniquePositions(links) && NeedsRepair(cycles, links, removed, i)
      modifies this
      ensures links == CloseGap(old(links), old(cycles[i]), removed.position) && UniquePositions(links)
      ensures cycles == old(cycles[i := Recounted(cycles[i], cycles[i].realCount - 1)])
    {
      var at := FindCycle(cycles, removed.cycle);
      var cycle := cycles[at.value];
      var index := RenumberCycle(cycle, removed.position);
      var completed := cycle.opening + index >= cycle.limit;
      cycles := cycles[at.value := cycle.(
        locked := true, realCount := index, status := if completed then Due else Open,
        completedOn := if completed then Some(latest) else None, paidOn := None)];
    }

    /** reopenCompletedOccurrence: delete the lesson's links, then repair every affected cycle. */
    method ReopenOccurrence(occurrence: int, latest: int, ghost s: Store)
      requires s.cycles == cycles && s.links == links && Valid(s) && NoOrphans(s) && UniquePositions(links)
      modifies this
      ensures var rows := Affected(s.links, occurrence);
        Pending(s, rows, occurrence) && links == RemoveAll(s, rows, occurrence).links && cycles == RemoveAll(s, rows, occurrence).cycles
      ensures UniquePositions(links)
    {
      var affected := Affected(links, occurrence);
      RepairStarts(s, occurrence);
      DeletedStaysUnique(links, occurrence);
      links := DeleteLesson(links, occurrence);
      var n := 0;
      while n < |affected|
        invariant n <= |affected| && Repaired(s, occurrence, n, cycles, links) && UniquePositions(links)
      {
        ghost var i := RepairNext(s, occurrence, n, cycles, links);
        RepairCycle(affected[n], latest, i);
        n := n + 1;
      }
      RepairEnds(s, occurrence, cycles, links);
    }
  }

  lemma SameIds(before: seq<Cycle>, now: seq<Cycle>, rows: seq<Link>, i: nat)
    requires UniqueIds(before) && CyclesAfter(before, now, rows) && i < |before|
    ensures FindCycle(now, before[i].id) == Some(i)
  {
    forall j | 0 <= j < |now| ensures now[j].id == before[j].id { }
    StudentOfAt(now, i);
  }

  lemma {:induction false} DeletedStaysUnique(links: seq<Link>, occurrence: int)
    requires UniquePositions(links)
    ensures UniquePositions(DeleteLesson(links, occurrence))
  {
    if links != [] {
      assert forall i, j :: 1 <= i < j < |links| ==> links[1..][i - 1] == links[i] && links[1..][j - 1] == links[j];
      DeletedStaysUnique(links[1..], occurrence);
      var rest := DeleteLesson(links[1..], occurrence);
      forall j | 0 <= j < |rest| && rest[j].cycle == links[0].cycle ensures rest[j].position != links[0].position {
        assert rest[j] in links[1..];
        var m :| 0 <= m < |links[1..]| && links[1..][m] == rest[j];
        assert links[m + 1] == rest[j];
      }
    }
  }
}
