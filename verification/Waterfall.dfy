/**
 The allocation arithmetic shared by the server collection service and the client
 rebalance: each receipt, oldest first, is poured over the outstanding amounts of the
 obligations, oldest first.
 */
module Waterfall {
  import opened Numbers

  /** What one receipt with `rem` unallocated pence gives to each obligation. */
  function Pour(rem: nat, outs: seq<nat>): (given: seq<nat>)
    ensures |given| == |outs|
  {
    if outs == [] then []
    else
      var a := Min(rem, outs[0]);
      [a] + Pour(rem - a, outs[1..])
  }

  /** Outstanding amounts left after that receipt. */
  function Drain(rem: nat, outs: seq<nat>): (left: seq<nat>)
    ensures |left| == |outs|
  {
    if outs == [] then []
    else
      var a := Min(rem, outs[0]);
      [outs[0] - a] + Drain(rem - a, outs[1..])
  }

  /** Entry [i][j]: pence from receipt i to obligation j when receipts run in order. */
  function Matrix(rems: seq<nat>, outs: seq<nat>): (m: seq<seq<nat>>)
    ensures |m| == |rems|
    ensures forall i :: 0 <= i < |m| ==> |m[i]| == |outs|
  {
    if rems == [] then [] else [Pour(rems[0], outs)] + Matrix(rems[1..], Drain(rems[0], outs))
  }

  /** Outstanding amounts after every receipt has run. */
  function DrainAll(rems: seq<nat>, outs: seq<nat>): (left: seq<nat>)
    ensures |left| == |outs|
  {
    if rems == [] then outs else DrainAll(rems[1..], Drain(rems[0], outs))
  }

  /** Length of the intersection of [lo1, hi1) and [lo2, hi2). */
  function Overlap(lo1: int, hi1: int, lo2: int, hi2: int): int {
    Max(0, Min(hi1, hi2) - Max(lo1, lo2))
  }

  lemma {:induction false} PourClosedForm(rem: nat, outs: seq<nat>, j: nat)
    requires j < |outs|
    ensures Pour(rem, outs)[j] == Overlap(0, rem, Prefix(outs, j), Prefix(outs, j + 1))
  {
    PrefixStep(outs, 0);
    if j > 0 {
      PrefixHead(outs, j);
      PrefixHead(outs, j + 1);
      PourClosedForm(rem - Min(rem, outs[0]), outs[1..], j - 1);
      PrefixMonotone(outs[1..], j - 1, j);
    }
  }

  lemma {:induction false} DrainPrefix(rem: nat, outs: seq<nat>, j: nat)
    requires j <= |outs|
    ensures Prefix(Drain(rem, outs), j) == Max(0, Prefix(outs, j) - rem)
  {
    if j > 0 {
      var a := Min(rem, outs[0]);
      PrefixHead(outs, j);
      PrefixHead(Drain(rem, outs), j);
      assert Drain(rem, outs)[1..] == Drain(rem - a, outs[1..]);
      DrainPrefix(rem - a, outs[1..], j - 1);
    }
  }

  /**
   The closed form: the pence from receipt i to obligation j are the overlap of the
   receipt's and the obligation's prefix-sum intervals.
   */
  lemma {:induction false} WaterfallClosedForm(rems: seq<nat>, outs: seq<nat>, i: nat, j: nat)
    requires i < |rems| && j < |outs|
    ensures Matrix(rems, outs)[i][j]
         == Overlap(Prefix(rems, i), Prefix(rems, i + 1), Prefix(outs, j), Prefix(outs, j + 1))
  {
    if i == 0 {
      PourClosedForm(rems[0], outs, j);
      PrefixStep(rems, 0);
    } else {
      var left := Drain(rems[0], outs);
      WaterfallClosedForm(rems[1..], left, i - 1, j);
      PrefixHead(rems, i);
      PrefixHead(rems, i + 1);
      DrainPrefix(rems[0], outs, j);
      DrainPrefix(rems[0], outs, j + 1);
    }
  }

  lemma {:induction false} DrainAllPrefix(rems: seq<nat>, outs: seq<nat>, j: nat)
    requires j <= |outs|
    ensures Prefix(DrainAll(rems, outs), j) == Max(0, Prefix(outs, j) - Sum(rems))
  {
    if rems != [] {
      DrainPrefix(rems[0], outs, j);
      DrainAllPrefix(rems[1..], Drain(rems[0], outs), j);
    }
  }

  /** Outstanding pence after a run, obligation by obligation. */
  lemma DrainAllClosedForm(rems: seq<nat>, outs: seq<nat>, j: nat)
    requires j < |outs|
    ensures DrainAll(rems, outs)[j]
         == Max(0, Prefix(outs, j + 1) - Sum(rems)) - Max(0, Prefix(outs, j) - Sum(rems))
  {
    DrainAllPrefix(rems, outs, j);
    DrainAllPrefix(rems, outs, j + 1);
  }

  /** Receipt i reaches obligation k only if it extends past the start of k. */
  lemma ReachesPastStart(rems: seq<nat>, outs: seq<nat>, i: nat, k: nat)
    requires i < |rems| && k < |outs|
    requires Matrix(rems, outs)[i][k] > 0
    ensures Prefix(outs, k) < Prefix(rems, i + 1)
  {
    WaterfallClosedForm(rems, outs, i, k);
  }

  /** An obligation whose interval lies inside the receipts' total is full after the run. */
  lemma CoveredMeansFull(rems: seq<nat>, outs: seq<nat>, j: nat)
    requires j < |outs| && Prefix(outs, j + 1) <= Sum(rems)
    ensures DrainAll(rems, outs)[j] == 0
  {
    PrefixStep(outs, j);
    DrainAllClosedForm(rems, outs, j);
  }

  /** A receipt that starts beyond the end of an obligation gives it nothing. */
  lemma BeyondGivesNothing(rems: seq<nat>, outs: seq<nat>, l: nat, j: nat)
    requires l < |rems| && j < |outs| && Prefix(outs, j + 1) <= Prefix(rems, l)
    ensures Matrix(rems, outs)[l][j] == 0
  {
    WaterfallClosedForm(rems, outs, l, j);
  }

  lemma PrefixWithinTotal(s: seq<nat>, k: nat)
    requires k <= |s|
    ensures Prefix(s, k) <= Sum(s)
  {
    PrefixMonotone(s, k, |s|);
    PrefixFull(s);
  }

  /** A receipt that reaches past the start of k has passed the ends of all earlier obligations. */
  lemma EarlierEndsBefore(rems: seq<nat>, outs: seq<nat>, i: nat, l: nat, j: nat, k: nat)
    requires i < l < |rems| && j < k < |outs| && Prefix(outs, k) < Prefix(rems, i + 1)
    ensures Prefix(outs, j + 1) <= Prefix(rems, l) && Prefix(outs, j + 1) <= Sum(rems)
  {
    PrefixMonotone(outs, j + 1, k);
    PrefixMonotone(rems, i + 1, l);
    PrefixWithinTotal(rems, l);
  }

  /**
   Oldest-first: once a receipt reaches obligation k, every earlier obligation is full
   after the run and no later receipt gives anything to an earlier obligation.
   */
  lemma OldestFirst(rems: seq<nat>, outs: seq<nat>, i: nat, l: nat, j: nat, k: nat)
    requires i < l < |rems| && j < k < |outs|
    requires Matrix(rems, outs)[i][k] > 0
    ensures DrainAll(rems, outs)[j] == 0
    ensures Matrix(rems, outs)[l][j] == 0
  {
    ReachesPastStart(rems, outs, i, k);
    EarlierEndsBefore(rems, outs, i, l, j, k);
    CoveredMeansFull(rems, outs, j);
    BeyondGivesNothing(rems, outs, l, j);
  }

  lemma {:induction false} PourSum(rem: nat, outs: seq<nat>)
    ensures Sum(Pour(rem, outs)) == Min(rem, Sum(outs))
  {
    if outs != [] {
      assert Pour(rem, outs)[1..] == Pour(rem - Min(rem, outs[0]), outs[1..]);
      PourSum(rem - Min(rem, outs[0]), outs[1..]);
    }
  }

  /** Sum of all entries. */
  function Total(m: seq<seq<nat>>): nat {
    if m == [] then 0 else Sum(m[0]) + Total(m[1..])
  }

  /** Conservation: a run moves exactly min(receipts, obligations) and leaves the rest outstanding. */
  lemma {:induction false} WaterfallConserves(rems: seq<nat>, outs: seq<nat>)
    ensures Total(Matrix(rems, outs)) == Min(Sum(rems), Sum(outs))
    ensures Sum(DrainAll(rems, outs)) == Max(0, Sum(outs) - Sum(rems))
  {
    PrefixFull(outs);
    PrefixFull(DrainAll(rems, outs));
    DrainAllPrefix(rems, outs, |outs|);
    if rems != [] {
      var left := Drain(rems[0], outs);
      assert Matrix(rems, outs)[1..] == Matrix(rems[1..], left);
      PourSum(rems[0], outs);
      DrainPrefix(rems[0], outs, |outs|);
      PrefixFull(left);
      WaterfallConserves(rems[1..], left);
    }
  }

  /** Outstanding total after one receipt. */
  lemma DrainTotal(rem: nat, outs: seq<nat>)
    ensures Sum(Drain(rem, outs)) == Max(0, Sum(outs) - rem)
  {
    DrainPrefix(rem, outs, |outs|);
    PrefixFull(outs);
    PrefixFull(Drain(rem, outs));
  }
}
