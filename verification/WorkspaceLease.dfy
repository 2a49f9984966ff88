/**
 The row that serializes writes to one workspace: a revision and the token of the writer that
 currently holds the lease. `data` is the history of everything written so far and
 `committed[n]` the history as it stood when revision n was published.
 */
module WorkspaceLease {
  import opened Numbers

  type Token = nat

  datatype What =
    | Touched(mutation: int)      // a row written while a mutation's handler runs
    | Applied(mutation: int)      // the statement that marks the mutation's key as done
    | Restored(importId: int)     // the atomic batch that replaces the workspace by a backup
    | Written                     // any other write under a lease

  datatype Entry = Entry(token: Token, revision: nat, what: What)

  datatype Db = Db(revision: nat, holder: Option<Token>, data: seq<Entry>, committed: seq<seq<Entry>>)

  const FRESH := Db(0, None, [], [[]])

  /** Nothing was written since the current revision was published. */
  ghost predicate Clean(db: Db) {
    db.revision < |db.committed| && db.data == db.committed[db.revision]
  }

  /** A row belongs to the writer that held the lease at its revision. */
  ghost predicate SingleWriter(data: seq<Entry>) {
    forall i, j :: 0 <= i < |data| && 0 <= j < |data| && data[i].revision == data[j].revision ==> data[i].token == data[j].token
  }

  ghost predicate LeaseOk(db: Db) {
    && |db.committed| == db.revision + 1
    && (forall k :: 0 <= k <= db.revision ==> db.committed[k] <= db.committed[db.revision])
    && db.committed[db.revision] <= db.data
    && (forall i :: 0 <= i < |db.committed[db.revision]| ==> db.data[i].revision < db.revision)
    && (db.holder == None ==> db.data == db.committed[db.revision])
    && (forall i :: |db.committed[db.revision]| <= i < |db.data| ==> db.data[i].revision == db.revision && db.holder == Some(db.data[i].token))
    && SingleWriter(db.data)
  }

  // ---- the statements on the row ------------------------------------------------------

  predicate Grantable(db: Db, expected: nat) {
    db.revision == expected && db.holder == None
  }

  /** UPDATE ... SET writer_token WHERE revision = expected AND writer_token IS NULL */
  function Grant(db: Db, t: Token, expected: nat): Db {
    if Grantable(db, expected) then db.(holder := Some(t)) else db
  }

  function Write(db: Db, t: Token, what: What): Db {
    db.(data := db.data + [Entry(t, db.revision, what)])
  }

  /** Publish the data under the next revision and release the lease. */
  function Publish(db: Db): Db {
    db.(revision := db.revision + 1, holder := None, committed := db.committed + [db.data])
  }

  function Finalize(db: Db, t: Token): Db {
    if db.holder == Some(t) then Publish(db) else db
  }

  /** Release without a new revision. */
  function Abort(db: Db, t: Token): Db {
    if db.holder == Some(t) then db.(holder := None) else db
  }

  /** A lease held for too long is published and released on behalf of its dead writer. */
  function Recover(db: Db): Db {
    if db.holder.Some? then Publish(db) else db
  }

  // ---- what every step keeps ----------------------------------------------------------

  /** Revisions only grow, and neither data nor a published revision is ever taken back. */
  ghost predicate Evolves(a: Db, b: Db) {
    a.revision <= b.revision && a.data <= b.data && a.committed <= b.committed
  }

  /** A step of writer t: while another writer holds the lease it changes nothing at all. */
  ghost predicate ActsAs(a: Db, b: Db, t: Token) {
    && Evolves(a, b)
    && (a.holder.Some? && a.holder != Some(t) ==> b == a)
    && (b.holder == a.holder || b.holder == None || b.holder == Some(t))
    && forall i :: |a.data| <= i < |b.data| ==> b.data[i].token == t
  }

  lemma GrantKeepsLease(db: Db, t: Token, expected: nat)
    requires LeaseOk(db)
    ensures LeaseOk(Grant(db, t, expected)) && ActsAs(db, Grant(db, t, expected), t)
    ensures Grant(db, t, expected) != db ==> Clean(Grant(db, t, expected))
  {
  }

  lemma WriteKeepsLease(db: Db, t: Token, what: What)
    requires LeaseOk(db) && db.holder == Some(t)
    ensures LeaseOk(Write(db, t, what)) && ActsAs(db, Write(db, t, what), t)
  {
  }

  lemma PublishKeepsLease(db: Db)
    requires LeaseOk(db)
    ensures LeaseOk(Publish(db)) && Evolves(db, Publish(db)) && Clean(Publish(db))
  {
    var next := Publish(db);
    forall k | 0 <= k <= next.revision ensures next.committed[k] <= next.committed[next.revision] {
      if k <= db.revision { assert next.committed[k] == db.committed[k]; }
    }
    forall i | 0 <= i < |db.data| ensures db.data[i].revision < next.revision {
      if i >= |db.committed[db.revision]| { assert db.data[i].revision == db.revision; }
    }
  }

  lemma FinalizeKeepsLease(db: Db, t: Token)
    requires LeaseOk(db)
    ensures LeaseOk(Finalize(db, t)) && ActsAs(db, Finalize(db, t), t)
  {
    PublishKeepsLease(db);
  }

  /** Releasing without a new revision is sound exactly when the lease changed nothing. */
  lemma AbortKeepsLeaseIffClean(db: Db, t: Token)
    requires LeaseOk(db) && db.holder == Some(t)
    ensures LeaseOk(Abort(db, t)) <==> Clean(db)
    ensures ActsAs(db, Abort(db, t), t)
  {
    if !Clean(db) {
      assert |db.committed[db.revision]| < |db.data|;
      assert Abort(db, t).data[|db.data| - 1] == db.data[|db.data| - 1];
    }
  }

  lemma RecoverKeepsLease(db: Db)
    requires LeaseOk(db)
    ensures LeaseOk(Recover(db)) && Evolves(db, Recover(db)) && Recover(db).holder == None
  {
    PublishKeepsLease(db);
  }

  /** What was clean later at the same revision was clean before, and is the same data. */
  lemma CleanStaysSame(a: Db, b: Db)
    requires LeaseOk(a) && LeaseOk(b) && Evolves(a, b) && a.revision == b.revision && Clean(b)
    ensures Clean(a) && a.data == b.data
  {
    assert a.committed[a.revision] == b.committed[b.revision];
  }

  /** Two rows of the history written at one revision were written by one grant of the lease. */
  lemma OneWriterPerRevision(db: Db, i: nat, j: nat)
    requires LeaseOk(db) && i < |db.data| && j < |db.data| && db.data[i].token != db.data[j].token
    ensures db.data[i].revision != db.data[j].revision
  {
  }
}
