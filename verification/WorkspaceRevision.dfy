/**
 The statements of workspace-revision.ts as one request issues them, with other requests taking
 the database further between any two statements.
 */
module WorkspaceRevision {
  import opened Numbers
  import opened WorkspaceLease

  datatype Reservation = Granted | Declined(revision: nat, busy: bool)

  datatype StableRead = Stable(revision: nat, images: seq<seq<Entry>>) | SnapshotUnstable

  /** A statement of some other request. */
  datatype Move = GrantTo(token: Token, expected: nat) | WriteBy(token: Token, what: What) | FinalizeBy(token: Token)
    | AbortBy(token: Token) | RecoverExpired

  /** Writers write only while they hold the lease and abort only before they wrote. */
  function Apply(db: Db, move: Move): Db {
    match move
    case GrantTo(t, expected) => Grant(db, t, expected)
    case WriteBy(t, what) => if db.holder == Some(t) then Write(db, t, what) else db
    case FinalizeBy(t) => Finalize(db, t)
    case AbortBy(t) => if db.revision < |db.committed| && db.data == db.committed[db.revision] then Abort(db, t) else db
    case RecoverExpired => Recover(db)
  }

  function ApplyAll(db: Db, moves: seq<Move>): Db {
    if moves == [] then db else Apply(ApplyAll(db, moves[..|moves| - 1]), moves[|moves| - 1])
  }

  lemma {:induction false} MovesKeepLease(db: Db, moves: seq<Move>)
    requires LeaseOk(db)
    ensures LeaseOk(ApplyAll(db, moves)) && Evolves(db, ApplyAll(db, moves))
  {
    if moves != [] {
      MovesKeepLease(db, moves[..|moves| - 1]);
    }
  }

  lemma EvolvesChains(a: Db, b: Db, c: Db)
    requires Evolves(a, b) && Evolves(b, c)
    ensures Evolves(a, c)
  {
  }

  ghost predicate AllSee(images: seq<seq<Entry>>, image: seq<Entry>) {
    forall k :: 0 <= k < |images| ==> images[k] == image
  }

  /** What the queries saw is what the revision published, unless a write has begun meanwhile. */
  ghost predicate SeenAt(images: seq<seq<Entry>>, before: nat, db: Db) {
    before <= db.revision && before < |db.committed| && (before == db.revision && Clean(db) ==> AllSee(images, db.data))
  }

  lemma SeenLater(images: seq<seq<Entry>>, before: nat, a: Db, b: Db)
    requires LeaseOk(a) && LeaseOk(b) && Evolves(a, b) && SeenAt(images, before, a)
    ensures SeenAt(images, before, b)
  {
    if before == b.revision && Clean(b) { CleanStaysSame(a, b); }
  }

  class LeaseDatabase {
    var db: Db
    var schedule: seq<seq<Move>>

    ghost predicate Valid()
      reads this
    {
      LeaseOk(db)
    }

    /** Other requests run until this request's next statement. */
    method Interleave()
      requires Valid()
      modifies this
      ensures Valid() && Evolves(old(db), db)
    {
      if schedule != [] {
        MovesKeepLease(db, schedule[0]);
        db, schedule := ApplyAll(db, schedule[0]), schedule[1..];
      }
    }

    /** readWorkspaceRevisionState: recover an expired lease, then read the row. */
    method ReadState(expired: bool) returns (revision: nat, busy: bool)
      requires Valid()
      modifies this
      ensures Valid() && Evolves(old(db), db)
      ensures revision == db.revision && busy == db.holder.Some?
      ensures !busy ==> Clean(db)
    {
      Interleave();
      if expired && db.holder.Some? {
        RecoverKeepsLease(db);
        ghost var before := db;
        db := Recover(db);
        EvolvesChains(old(db), before, db);
      }
      ghost var middle := db;
      Interleave();
      EvolvesChains(old(db), middle, db);
      return db.revision, db.holder.Some?;
    }

    /** reserveWorkspaceWrite: grant the lease only to a writer that knows the current revision. */
    method Reserve(token: Token, expected: nat, expired: bool) returns (r: Reservation)
      requires Valid()
      modifies this
      ensures Valid() && Evolves(old(db), db)
      ensures r.Granted? ==> db.holder == Some(token) && db.revision == expected && Clean(db)
      ensures r.Declined? ==> r.revision == db.revision && r.busy == db.holder.Some?
    {
      var revision, busy := ReadState(expired);
      if busy || revision != expected { return Declined(revision, busy); }
      ghost var read := db;
      Interleave();
      ghost var found := db;
      EvolvesChains(old(db), read, found);
      GrantKeepsLease(db, token, expected);
      if Grantable(db, expected) {
        db := Grant(db, token, expected);
        EvolvesChains(old(db), found, db);
        return Granted;
      }
      revision, busy := ReadState(expired);
      EvolvesChains(old(db), found, db);
      return Declined(revision, busy);
    }

    /** withStableWorkspaceRead: read the revision, run the queries, read the revision again. */
    method WithStableRead(queries: nat, attempts: nat) returns (r: StableRead)
      requires Valid()
      modifies this
      ensures Valid() && Evolves(old(db), db)
      ensures r.Stable? ==>
        && old(db.revision) <= r.revision < |db.committed| && |r.images| == queries
        && AllSee(r.images, db.committed[r.revision])
    {
      var attempt := 0;
      while attempt < attempts
        invariant Valid() && Evolves(old(db), db)
      {
        attempt := attempt + 1;
        ghost var start := db;
        var before, busy := ReadState(false);
        EvolvesChains(old(db), start, db);
        if busy { continue; }
        var images := RunQueries(queries, before);
        ghost var queried := db;
        var after, busyAfter := ReadState(false);
        EvolvesChains(old(db), queried, db);
        SeenLater(images, before, queried, db);
        if !busyAfter && after == before { return Stable(after, images); }
      }
      return SnapshotUnstable;
    }

    /** The snapshot handlers' queries, each seeing the database of its own moment. */
    method RunQueries(queries: nat, before: nat) returns (images: seq<seq<Entry>>)
      requires Valid() && before == db.revision && Clean(db)
      modifies this
      ensures Valid() && Evolves(old(db), db) && |images| == queries && SeenAt(images, before, db)
    {
      images := [];
      while |images| < queries
        invariant |images| <= queries && Valid() && Evolves(old(db), db) && SeenAt(images, before, db)
      {
        ghost var last := db;
        Interleave();
        EvolvesChains(old(db), last, db);
        SeenLater(images, before, last, db);
        images := images + [db.data];
      }
    }

    /** finalizeWorkspaceWrite: publish under a new revision, unless the lease was taken away. */
    method FinalizeWrite(token: Token) returns (revision: Option<nat>)
      requires Valid()
      modifies this
      ensures Valid() && Evolves(old(db), db)
      ensures revision.Some? ==> revision.value > old(db.revision) && revision.value == db.revision && db.holder == None
    {
      Interleave();
      ghost var found := db;
      FinalizeKeepsLease(db, token);
      if db.holder != Some(token) { return None; }
      db := Finalize(db, token);
      ghost var published := db;
      EvolvesChains(old(db), found, published);
      var current, busy := ReadState(false);
      EvolvesChains(old(db), published, db);
      return if busy then None else Some(current);
    }
  }
}
