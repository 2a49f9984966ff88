/** The family tables as the client updates them: rows computed in one loop, stored in another. */
module FamilyStore {
  import opened Numbers
  import opened Ledger
  import opened Rebalance
  import opened LocalRebalance
  import opened FamilyCycles
  import opened FamilyBilling

  /** Store a row under its id. */
  function Put(cycles: seq<FamilyCycle>, row: FamilyCycle): seq<FamilyCycle> {
    if cycles == [] then [row]
    else if cycles[0].id == row.id then [row] + cycles[1..]
    else [cycles[0]] + Put(cycles[1..], row)
  }

  lemma {:induction false} PutOver(cycles: seq<FamilyCycle>, row: FamilyCycle, i: nat)
    requires i < |cycles| && cycles[i].id == row.id && forall j :: 0 <= j < i ==> cycles[j].id != row.id
    ensures Put(cycles, row) == cycles[i := row]
  {
    if i > 0 { PutOver(cycles[1..], row, i - 1); }
  }

  lemma {:induction false} PutNew(cycles: seq<FamilyCycle>, row: FamilyCycle)
    requires forall j :: 0 <= j < |cycles| ==> cycles[j].id != row.id
    ensures Put(cycles, row) == cycles + [row]
  {
    if cycles != [] {
      PutNew(cycles[1..], row);
      assert cycles == [cycles[0]] + cycles[1..];
    }
  }

  /** What the first loop computes for a sequence; `id` is a fresh id in case it has no row. */
  function UpdateOf(f: Family, t: Tables, n: int, id: int): FamilyCycle {
    var at := Existing(t.cycles, f.account.id, n);
    Refresh(f, t.rows, if at.Some? then t.cycles[at.value] else NewCycle(f.account, n, id))
  }

  /** The k-th update, when those before it have taken their ids. */
  function NthUpdate(f: Family, t: Tables, k: nat): FamilyCycle
    requires k < |Sequences(f)|
  {
    UpdateOf(f, t, Sequences(f)[k], t.nextId + |Created(f, t, Sequences(f)[..k])|)
  }

  /** The updates of the first sequences, one for each. */
  ghost predicate Computed(f: Family, t: Tables, updates: seq<FamilyCycle>) {
    |updates| <= |Sequences(f)| && forall j :: 0 <= j < |updates| ==> updates[j] == NthUpdate(f, t, j)
  }

  lemma ComputedNext(f: Family, t: Tables, updates: seq<FamilyCycle>)
    requires Computed(f, t, updates) && |updates| < |Sequences(f)|
    ensures Computed(f, t, updates + [NthUpdate(f, t, |updates|)])
  {
  }

  /** One more sequence refreshes its own row, if there is one, and no other. */
  lemma KeptNext(f: Family, t: Tables, k: nat)
    requires k < |Sequences(f)|
    ensures var ns := Sequences(f); var at := Existing(t.cycles, f.account.id, ns[k]);
      Kept(f, t, ns[..k + 1]) ==
        if at.Some? then Kept(f, t, ns[..k])[at.value := Refresh(f, t.rows, t.cycles[at.value])] else Kept(f, t, ns[..k])
  {
    var ns := Sequences(f);
    TakeNext(ns, k);
  }

  lemma UniqueAfter(f: Family, t: Tables, ns: seq<int>, id: int, i: nat)
    requires TablesOk(t) && i <= |After(f, t, ns)|
    requires if i < |t.cycles| then t.cycles[i].id == id else id == t.nextId + i - |t.cycles|
    ensures forall j :: 0 <= j < i ==> After(f, t, ns)[j].id != id
  {
    forall j | 0 <= j < i ensures After(f, t, ns)[j].id != id {
      IdsAfter(f, t, ns, j);
    }
  }

  lemma UpdateWithin<T>(a: seq<T>, b: seq<T>, i: nat, x: T)
    requires i < |a|
    ensures (a + b)[i := x] == a[i := x] + b
  {
  }

  /** Storing one more update. */
  lemma StoreNext(f: Family, t: Tables, k: nat)
    requires TablesOk(t) && k < |Sequences(f)|
    ensures Put(After(f, t, Sequences(f)[..k]), NthUpdate(f, t, k)) == After(f, t, Sequences(f)[..k + 1])
  {
    var ns, n := Sequences(f), Sequences(f)[k];
    var at, kept, made, row := Existing(t.cycles, f.account.id, n), Kept(f, t, ns[..k]), Created(f, t, ns[..k]), NthUpdate(f, t, k);
    assert ns[..k + 1][..k] == ns[..k];
    KeptNext(f, t, k);
    if at.Some? {
      UniqueAfter(f, t, ns[..k], row.id, at.value);
      IdsAfter(f, t, ns[..k], at.value);
      PutOver(kept + made, row, at.value);
      UpdateWithin(kept, made, at.value, row);
    } else {
      UniqueAfter(f, t, ns[..k], row.id, |kept + made|);
      PutNew(kept + made, row);
      Regroup(kept, made, [row]);
    }
  }

  lemma NothingStored(f: Family, t: Tables)
    ensures After(f, t, Sequences(f)[..0]) == t.cycles && Created(f, t, Sequences(f)[..0]) == []
  {
  }

  class FamilyTables {
    const books: LocalStore
    var cycles: seq<FamilyCycle>
    var nextId: int

    constructor (books: LocalStore)
      ensures this.books == books && cycles == [] && nextId == 0
    {
      this.books := books;
      cycles, nextId := [], 0;
    }

    ghost function Snapshot(): Tables
      reads this, books
    {
      Tables(cycles, books.allocations, nextId)
    }

    /** The row of one sequence brought up to date, under a new id if there is none. */
    method UpdateFor(f: Family, ghost t: Tables, k: nat) returns (row: FamilyCycle)
      requires k < |Sequences(f)| && cycles == t.cycles && books.allocations == t.rows
      requires nextId == t.nextId + |Created(f, t, Sequences(f)[..k])|
      modifies this`nextId
      ensures row == NthUpdate(f, t, k) && nextId == t.nextId + |Created(f, t, Sequences(f)[..k + 1])|
    {
      assert Sequences(f)[..k + 1][..k] == Sequences(f)[..k];
      var n := Sequences(f)[k];
      var at := Existing(cycles, f.account.id, n);
      var base;
      if at.Some? {
        base := cycles[at.value];
      } else {
        base := NewCycle(f.account, n, nextId);
        nextId := nextId + 1;
      }
      row := Refresh(f, books.allocations, base);
    }

    /** The rows of all sequences, computed before anything is stored. */
    method ComputeUpdates(f: Family, ghost t: Tables) returns (updates: seq<FamilyCycle>)
      requires Snapshot() == t
      modifies this`nextId
      ensures Computed(f, t, updates) && |updates| == |Sequences(f)|
      ensures nextId == t.nextId + |Created(f, t, Sequences(f))|
    {
      updates := [];
      NothingStored(f, t);
      while |updates| < |Sequences(f)|
        invariant Computed(f, t, updates)
        invariant nextId == t.nextId + |Created(f, t, Sequences(f)[..|updates|])|
      {
        ComputedNext(f, t, updates);
        var row := UpdateFor(f, t, |updates|);
        updates := updates + [row];
      }
      assert Sequences(f)[..|updates|] == Sequences(f);
    }

    method StoreUpdates(f: Family, ghost t: Tables, updates: seq<FamilyCycle>)
      requires TablesOk(t) && cycles == t.cycles && Computed(f, t, updates) && |updates| == |Sequences(f)|
      modifies this`cycles
      ensures cycles == After(f, t, Sequences(f))
    {
      NothingStored(f, t);
      var k := 0;
      while k < |updates|
        invariant k <= |updates| && cycles == After(f, t, Sequences(f)[..k])
      {
        StoreNext(f, t, k);
        cycles := Put(cycles, updates[k]);
        k := k + 1;
      }
      assert Sequences(f)[..k] == Sequences(f);
    }

    /** reconcileFamilyAccountLocally: the rows read first decide, then the new ones are stored. */
    method Reconcile(f: Family)
      requires f.receipts == books.receipts && TablesOk(Snapshot())
      modifies this
      ensures Snapshot() == Reconciled(f, old(Snapshot()))
    {
      ghost var t := Snapshot();
      var updates := ComputeUpdates(f, t);
      StoreUpdates(f, t, updates);
    }

    /** rebalanceFamilyAccountLocally */
    method Rebalance(f: Family) returns (error: Option<Error>)
      requires f.receipts == books.receipts && FamilyOk(f, Snapshot()) && InTutoring(Mine(f, books.allocations))
      modifies this, books`allocations
      ensures Rebalancing(f, old(Snapshot())) == if error.None? then Rebalanced(Snapshot()) else Threw(Snapshot())
      ensures error.Some? ==> error == Some(ReceiptOverallocated)
    {
      ghost var t := Snapshot();
      IdsStayUnique(f, t, Sequences(f));
      Reconcile(f);
      ObligationsDistinct(f, Snapshot());
      error := books.Rebalance(f.ids, Obligations(f, cycles));
      if error.Some? { return; }
      Reconcile(f);
    }
  }
}
