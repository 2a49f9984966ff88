/** The split of a pushed batch into mutations that are done and mutations still to apply. */
module RevisionPolicy {
  import opened Numbers
  import opened SyncServer

  function Kept(batch: seq<int>, completed: set<int>, isDone: bool): seq<int> {
    if batch == [] then []
    else
      var last := batch[|batch| - 1];
      Kept(batch[..|batch| - 1], completed, isDone) + if (last in completed) == isDone then [last] else []
  }

  lemma {:induction false} KeptMembers(batch: seq<int>, completed: set<int>, isDone: bool, m: int)
    ensures m in Kept(batch, completed, isDone) <==> m in batch && (m in completed) == isDone
  {
    if batch != [] {
      KeptMembers(batch[..|batch| - 1], completed, isDone, m);
      assert batch == batch[..|batch| - 1] + [batch[|batch| - 1]];
    }
  }

  /** The two parts together are the batch. */
  lemma {:induction false} PartsMakeBatch(batch: seq<int>, completed: set<int>)
    ensures multiset(Kept(batch, completed, true)) + multiset(Kept(batch, completed, false)) == multiset(batch)
  {
    if batch != [] {
      var before, last := batch[..|batch| - 1], batch[|batch| - 1];
      PartsMakeBatch(before, completed);
      assert batch == before + [last];
      assert Kept(batch, completed, last in completed) == Kept(before, completed, last in completed) + [last];
      assert Kept(batch, completed, last !in completed) == Kept(before, completed, last !in completed);
    }
  }

  lemma NothingUnapplied(batch: seq<int>, completed: set<int>)
    ensures Kept(batch, completed, false) == [] <==> AllIn(batch, completed)
  {
    var rest := Kept(batch, completed, false);
    if rest != [] { KeptMembers(batch, completed, false, rest[0]); }
    if !AllIn(batch, completed) {
      var k :| 0 <= k < |batch| && batch[k] !in completed;
      KeptMembers(batch, completed, false, batch[k]);
    }
  }

  /** partitionByCompletedIdempotency; a reservation is needed exactly when something is not done. */
  method Partition(batch: seq<int>, completed: set<int>) returns (done: seq<int>, unapplied: seq<int>)
    ensures done == Kept(batch, completed, true) && unapplied == Kept(batch, completed, false)
    ensures |unapplied| > 0 <==> !AllIn(batch, completed)
  {
    done, unapplied := [], [];
    var k := 0;
    while k < |batch|
      invariant k <= |batch|
      invariant done == Kept(batch[..k], completed, true) && unapplied == Kept(batch[..k], completed, false)
    {
      assert batch[..k + 1][..k] == batch[..k];
      if batch[k] in completed { done := done + [batch[k]]; } else { unapplied := unapplied + [batch[k]]; }
      k := k + 1;
    }
    assert batch[..k] == batch;
    NothingUnapplied(batch, completed);
  }
}
