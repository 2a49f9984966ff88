/**
 The loop that renumbers a cycle's lessons after one of them was removed. The client rewrites
 the rows in place; the server first moves every row of the cycle out of the way by a constant,
 because a cycle may never hold two rows at one position. Both pass through `Partly`, with a
 different shift, and both end in the same table.
 */
module Renumbering {
  import opened Numbers
  import opened PackageCycles

  const SERVER_SHIFT := 10000

  /** Store a row under its key, the pair of cycle and occurrence. */
  function PutLink(links: seq<Link>, x: Link): (after: seq<Link>)
    ensures |after| == |links|
    ensures forall j :: 0 <= j < |links| ==> after[j] == (if links[j].cycle == x.cycle && links[j].occurrence == x.occurrence then x else links[j])
  {
    seq(|links|, j requires 0 <= j < |links| =>
      if links[j].cycle == x.cycle && links[j].occurrence == x.occurrence then x else links[j])
  }

  /** The index a row gets once the gap is closed. */
  function Rank(y: Link, c: Cycle, gap: int): int {
    if y.position < gap then y.position - c.opening - 1 else y.position - c.opening - 2
  }

  function PartlyRow(y: Link, c: Cycle, gap: int, k: int, shift: nat): Link
    requires c.limit >= 1 && gap >= 1
  {
    if y.cycle != c.id then y
    else if Rank(y, c, gap) < k then Moved(y, c, gap)
    else y.(position := y.position + shift)
  }

  /** The table after k rows were renumbered, the others still waiting at their shifted position. */
  function Partly(left: seq<Link>, c: Cycle, gap: int, k: int, shift: nat): (table: seq<Link>)
    requires c.limit >= 1 && gap >= 1
    ensures |table| == |left|
    ensures forall j :: 0 <= j < |left| ==> table[j] == PartlyRow(left[j], c, gap, k, shift)
  {
    seq(|left|, j requires 0 <= j < |left| => PartlyRow(left[j], c, gap, k, shift))
  }

  /** The rows of a cycle that lost one lesson: numbered without `gap`, priced by position. */
  ghost predicate Gapped(left: seq<Link>, c: Cycle, gap: int, remaining: seq<Link>) {
    && c.limit >= 1 && gap >= c.opening + 1
    && OccurrencesDistinct(remaining)
    && (forall y :: y in left && y.cycle == c.id ==> y in remaining)
    && (forall i :: 0 <= i < |remaining| ==> GappedRow(remaining[i], c, gap, i))
  }

  predicate GappedRow(y: Link, c: Cycle, gap: int, i: nat)
    requires c.limit >= 1
  {
    && y.cycle == c.id && y.position >= 1 && y.position != gap
    && y.position == (if c.opening + 1 + i < gap then c.opening + 1 + i else c.opening + 2 + i)
    && y.earned == UnitShare(c.price, c.limit, y.position)
  }

  lemma GappedRowMoves(y: Link, c: Cycle, gap: int, i: nat)
    requires c.limit >= 1 && gap >= c.opening + 1 && GappedRow(y, c, gap, i)
    ensures Rank(y, c, gap) == i
    ensures Moved(y, c, gap) == FinalRow(c, y.occurrence, i)
  {
  }

  /** The row the renumbering loop writes for the k-th remaining lesson. */
  function FinalRow(c: Cycle, occurrence: int, k: nat): Link
    requires c.limit >= 1
  {
    var position := c.opening + 1 + k;
    Link(c.id, occurrence, position, UnitShare(c.price, c.limit, position))
  }

  /** One turn of the renumbering loop. */
  lemma RenumberStep(left: seq<Link>, c: Cycle, gap: int, remaining: seq<Link>, k: nat, shift: nat)
    requires Gapped(left, c, gap, remaining) && k < |remaining|
    ensures PutLink(Partly(left, c, gap, k, shift), FinalRow(c, remaining[k].occurrence, k)) == Partly(left, c, gap, k + 1, shift)
  {
    GappedRowMoves(remaining[k], c, gap, k);
    var x := FinalRow(c, remaining[k].occurrence, k);
    var before := Partly(left, c, gap, k, shift);
    forall j | 0 <= j < |left| ensures PutLink(before, x)[j] == PartlyRow(left[j], c, gap, k + 1, shift) {
      var y := left[j];
      if y.cycle == c.id {
        assert y in remaining;
        var m :| 0 <= m < |remaining| && remaining[m] == y;
        GappedRowMoves(y, c, gap, m);
        assert before[j].occurrence == y.occurrence;
        if y.occurrence == x.occurrence { assert m == k; }
      }
    }
  }

  /** When every remaining row was renumbered, the gap is closed. */
  lemma RenumberDone(left: seq<Link>, c: Cycle, gap: int, remaining: seq<Link>, shift: nat)
    requires Gapped(left, c, gap, remaining)
    ensures Partly(left, c, gap, |remaining|, shift) == CloseGap(left, c, gap)
  {
    forall j | 0 <= j < |left| ensures PartlyRow(left[j], c, gap, |remaining|, shift) == Moved(left[j], c, gap) {
      var y := left[j];
      if y.cycle == c.id {
        assert y in remaining;
        var m :| 0 <= m < |remaining| && remaining[m] == y;
        GappedRowMoves(y, c, gap, m);
      }
    }
  }

  lemma NothingShifted(left: seq<Link>, c: Cycle, gap: int, remaining: seq<Link>)
    requires Gapped(left, c, gap, remaining)
    ensures Partly(left, c, gap, 0, 0) == left
  {
    forall j | 0 <= j < |left| ensures PartlyRow(left[j], c, gap, 0, 0) == left[j] {
      var y := left[j];
      if y.cycle == c.id {
        assert y in remaining;
        var m :| 0 <= m < |remaining| && remaining[m] == y;
        GappedRowMoves(y, c, gap, m);
      }
    }
  }

  lemma RemainingRows(c: Cycle, rows: seq<Link>, k: nat)
    requires c.limit >= 1 && k < |rows| && Numbered(rows, c.opening, c.price, c.limit) && OccurrencesDistinct(rows)
    requires forall y :: y in rows ==> y.cycle == c.id
    ensures var remaining := rows[..k] + rows[k + 1..];
      OccurrencesDistinct(remaining)
      && forall i :: 0 <= i < |remaining| ==> GappedRow(remaining[i], c, c.opening + 1 + k, i)
  {
    var remaining := rows[..k] + rows[k + 1..];
    forall i | 0 <= i < |remaining| ensures GappedRow(remaining[i], c, c.opening + 1 + k, i) {
      var j := if i < k then i else i + 1;
      assert remaining[i] == rows[j] && rows[j] in rows;
    }
    forall i, j | 0 <= i < j < |remaining| ensures remaining[i].occurrence != remaining[j].occurrence {
      assert remaining[i] == rows[if i < k then i else i + 1];
      assert remaining[j] == rows[if j < k then j else j + 1];
    }
  }

  /** What removing a lesson of a sound cycle leaves behind. */
  lemma RemovalLeavesGap(c: Cycle, links: seq<Link>, x: Link)
    requires CycleOk(c, links) && x in links && x.cycle == c.id
    ensures var left := WithoutLesson(links, c.id, x.occurrence);
      Gapped(left, c, x.position, InOrder(left, c.id)) && |InOrder(left, c.id)| == c.realCount - 1
  {
    var left, rows := WithoutLesson(links, c.id, x.occurrence), InOrder(links, c.id);
    var k := RowAt(links, x);
    RowsBelong(links, c.id);
    RowsBelong(left, c.id);
    RemovedInOrder(c, links, k);
    RemainingRows(c, rows, k);
  }

  // ---- no two rows of a cycle at one position -----------------------------------------

  predicate PositionsUnique(links: seq<Link>, cycle: int) {
    forall i, j :: 0 <= i < j < |links| && links[i].cycle == cycle && links[j].cycle == cycle ==> links[i].position != links[j].position
  }

  predicate Strict(rows: seq<Link>) {
    forall i, j :: 0 <= i < j < |rows| ==> rows[i].position < rows[j].position
  }

  lemma {:induction false} StrictInsert(x: Link, sorted: seq<Link>)
    requires Strict(InsertByPosition(x, sorted))
    ensures Strict(sorted) && forall y :: y in sorted ==> y.position != x.position
  {
    var ins := InsertByPosition(x, sorted);
    if sorted == [] {
    } else if x.position <= sorted[0].position {
      assert ins[1..] == sorted;
      forall y | y in sorted ensures y.position != x.position {
        var j :| 0 <= j < |sorted| && sorted[j] == y;
        assert ins[j + 1] == y && ins[0] == x;
      }
    } else {
      assert ins[1..] == InsertByPosition(x, sorted[1..]);
      StrictInsert(x, sorted[1..]);
      InsertMembers(x, sorted[1..]);
      forall j | 1 <= j < |sorted| ensures sorted[0].position < sorted[j].position {
        assert sorted[j] in sorted[1..];
        var m :| 0 <= m < |ins[1..]| && ins[1..][m] == sorted[j];
        assert ins[0].position < ins[m + 1].position;
      }
      forall i, j | 1 <= i < j < |sorted| ensures sorted[i].position < sorted[j].position {
        assert sorted[1..][i - 1] == sorted[i] && sorted[1..][j - 1] == sorted[j];
      }
    }
  }

  lemma {:induction false} InsertMembers(x: Link, sorted: seq<Link>)
    ensures forall y :: y in InsertByPosition(x, sorted) <==> y == x || y in sorted
  {
    if sorted != [] && x.position > sorted[0].position { InsertMembers(x, sorted[1..]); }
  }

  lemma {:induction false} StrictMeansUnique(links: seq<Link>, cycle: int)
    requires Strict(InOrder(links, cycle))
    ensures PositionsUnique(links, cycle)
  {
    if links != [] {
      if links[0].cycle == cycle {
        var rest := LinksOf(links[1..], cycle);
        assert LinksOf(links, cycle)[1..] == rest;
        StrictInsert(links[0], SortByPosition(rest));
        forall j | 1 <= j < |links| && links[j].cycle == cycle ensures links[j].position != links[0].position {
          assert links[j] in links[1..];
          assert links[j] in rest;
        }
      }
      StrictMeansUnique(links[1..], cycle);
      forall i, j | 1 <= i < j < |links| && links[i].cycle == cycle && links[j].cycle == cycle
        ensures links[i].position != links[j].position
      {
        assert links[1..][i - 1] == links[i] && links[1..][j - 1] == links[j];
      }
    }
  }

  lemma GappedIsStrict(left: seq<Link>, c: Cycle, gap: int)
    requires Gapped(left, c, gap, InOrder(left, c.id))
    ensures PositionsUnique(left, c.id)
  {
    var rows := InOrder(left, c.id);
    forall i, j | 0 <= i < j < |rows| ensures rows[i].position < rows[j].position {
      assert GappedRow(rows[i], c, gap, i) && GappedRow(rows[j], c, gap, j);
    }
    StrictMeansUnique(left, c.id);
  }

  function ShiftedRow(y: Link, c: Cycle, reached: bool): Link {
    if reached && y.cycle == c.id then y.(position := y.position + SERVER_SHIFT) else y
  }

  /** The table after the first j rows were looked at by the bulk update of positions. */
  function ShiftedUpTo(left: seq<Link>, c: Cycle, j: nat): (table: seq<Link>)
    ensures |table| == |left|
    ensures forall i :: 0 <= i < |left| ==> table[i] == ShiftedRow(left[i], c, i < j)
  {
    seq(|left|, i requires 0 <= i < |left| => ShiftedRow(left[i], c, i < j))
  }

  /** While the bulk update is under way, shifted and unshifted rows cannot meet. */
  lemma NeverCollidesShifting(left: seq<Link>, c: Cycle, gap: int, j: nat)
    requires Gapped(left, c, gap, InOrder(left, c.id))
    requires c.opening + |InOrder(left, c.id)| + 1 <= c.limit <= 100
    ensures PositionsUnique(ShiftedUpTo(left, c, j), c.id)
  {
    var table, rows := ShiftedUpTo(left, c, j), InOrder(left, c.id);
    GappedIsStrict(left, c, gap);
    forall i | 0 <= i < |left| && left[i].cycle == c.id ensures 1 <= left[i].position <= 100 {
      assert left[i] in rows;
      var m :| 0 <= m < |rows| && rows[m] == left[i];
      assert GappedRow(rows[m], c, gap, m);
    }
  }

  lemma PartlyPosition(left: seq<Link>, c: Cycle, gap: int, k: nat, y: Link) returns (m: nat)
    requires Gapped(left, c, gap, InOrder(left, c.id)) && y in left && y.cycle == c.id
    ensures m < |InOrder(left, c.id)| && InOrder(left, c.id)[m] == y && GappedRow(y, c, gap, m)
    ensures PartlyRow(y, c, gap, k, SERVER_SHIFT).position == if m < k then c.opening + 1 + m else y.position + SERVER_SHIFT
  {
    var rows := InOrder(left, c.id);
    assert y in rows;
    m :| 0 <= m < |rows| && rows[m] == y;
    GappedRowMoves(y, c, gap, m);
  }

  /** While rows are renumbered one by one, a renumbered row cannot meet a waiting one. */
  lemma NeverCollidesRenumbering(left: seq<Link>, c: Cycle, gap: int, k: nat)
    requires Gapped(left, c, gap, InOrder(left, c.id))
    requires c.opening + |InOrder(left, c.id)| + 1 <= c.limit <= 100
    ensures PositionsUnique(Partly(left, c, gap, k, SERVER_SHIFT), c.id)
  {
    var table := Partly(left, c, gap, k, SERVER_SHIFT);
    GappedIsStrict(left, c, gap);
    forall i, j | 0 <= i < j < |table| && table[i].cycle == c.id && table[j].cycle == c.id
      ensures table[i].position != table[j].position
    {
      assert left[i] in left && left[j] in left;
      var m := PartlyPosition(left, c, gap, k, left[i]);
      var n := PartlyPosition(left, c, gap, k, left[j]);
      assert left[i].position != left[j].position;
    }
  }

  lemma ShiftIsPartly(left: seq<Link>, c: Cycle, gap: int)
    requires Gapped(left, c, gap, InOrder(left, c.id))
    ensures ShiftedUpTo(left, c, |left|) == Partly(left, c, gap, 0, SERVER_SHIFT)
  {
    var table := ShiftedUpTo(left, c, |left|);
    forall i | 0 <= i < |left| ensures table[i] == PartlyRow(left[i], c, gap, 0, SERVER_SHIFT) {
      if left[i].cycle == c.id {
        assert left[i] in left;
        var m := PartlyPosition(left, c, gap, 0, left[i]);
        GappedRowMoves(left[i], c, gap, m);
      }
    }
  }
}
