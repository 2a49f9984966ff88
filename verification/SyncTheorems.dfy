/** What holds of every run of the sync protocol. */
module SyncTheorems {
  import opened Numbers
  import opened WorkspaceLease
  import opened SyncServer
  import opened SyncOutbox
  import opened SyncProtocol

  // ---- serialization of writes --------------------------------------------------------

  /** Data changes only under a live lease, and a lease that changed data ends in a new revision. */
  ghost predicate Serialized(a: Db, b: Db) {
    && Evolves(a, b) && b.revision <= a.revision + 1 && |a.committed| == a.revision + 1 && |b.committed| == b.revision + 1
    && (b.data != a.data ==> a.holder.Some? && b.holder == a.holder)
    && (a.holder.Some? && b.holder == a.holder ==> b.revision == a.revision)
    && (!Clean(a) && b.holder != a.holder ==> b.revision == a.revision + 1 && b.committed[b.revision] == a.data)
  }

  lemma PushIsSerialized(p: Push, db: Db, choice: Choice)
    requires LeaseOk(db) && PushOk(p, db) && OnceOk(db.data) && WroteAtBase(p, db.data)
    ensures Serialized(db, PushStep(p, db, choice).1)
  {
    PushStepKeeps(p, db, choice);
  }

  lemma WriterIsSerialized(w: Writer, db: Db, move: WriterChoice)
    requires LeaseOk(db) && WriterOk(w, db) && OnceOk(db.data)
    ensures Serialized(db, WriterStep(w, db, move).1)
  {
    WriterStepKeeps(w, db, move);
  }

  lemma QuietStep(s: State, step: Step)
    requires !step.PushRuns? && !step.WriterRuns? && !step.RecoverStale?
    ensures Perform(s, step).db == s.db
  {
  }

  /**
   In every run each step is serialized: revisions never go back, they are constant while a lease
   is held, and no release forgets a change.
   */
  lemma EveryStepIsSerialized(steps: seq<Step>, step: Step)
    ensures Serialized(Run(steps).db, Perform(Run(steps), step).db)
  {
    var s := Run(steps);
    RunKeepsInv(steps);
    match step {
      case PushRuns(t, choice) => if t in s.pushes { PushIsSerialized(s.pushes[t], s.db, choice); }
      case WriterRuns(t, move) => if t in s.writers { WriterIsSerialized(s.writers[t], s.db, move); }
      case RecoverStale =>
      case _ => QuietStep(s, step);
    }
  }

  /** Of all requests from one base revision at most one ever changes data. */
  lemma OneWriterPerBase(steps: seq<Step>, t: Token, u: Token, i: nat, j: nat)
    requires t in Run(steps).pushes && u in Run(steps).pushes && t != u
    requires i < |Run(steps).db.data| && Run(steps).db.data[i].token == t
    requires j < |Run(steps).db.data| && Run(steps).db.data[j].token == u
    ensures Run(steps).pushes[t].base != Run(steps).pushes[u].base
  {
    RunKeepsInv(steps);
    var s := Run(steps);
    assert WroteAtBase(s.pushes[t], s.db.data) && WroteAtBase(s.pushes[u], s.db.data);
    OneWriterPerRevision(s.db, i, j);
  }

  // ---- exactly once -------------------------------------------------------------------

  /** A mutation becomes done at most once, and its handler never writes again afterwards. */
  lemma AppliedExactlyOnce(steps: seq<Step>, i: nat, j: nat, m: int)
    requires i < j < |Run(steps).db.data| && Run(steps).db.data[i].what == Applied(m)
    ensures Run(steps).db.data[j].what != Applied(m) && Run(steps).db.data[j].what != Touched(m)
  {
    RunKeepsInv(steps);
  }

  /** What leaves a client's outbox is done on the server. */
  lemma RemovedMeansDone(steps: seq<Step>, step: Step, c: int, m: int)
    requires Has(ClientOf(Run(steps), c).outbox, m) && !Has(ClientOf(Perform(Run(steps), step), c).outbox, m)
    ensures IsDone(Perform(Run(steps), step).db.data, m)
  {
    var s := Run(steps);
    RunKeepsInv(steps);
    StepKeepsInv(s, step);
    OnlySettlingRemoves(s, step, c, m);
    var client := ClientOf(s, c);
    ClientOfOk(s, c);
    SettleMembers(client.outbox, client.pc.results[client.pc.next], m);
    assert Perform(s, step).db == s.db;
  }

  /** The client is about to work off an entry of a push response. */
  predicate Settling(s: State, step: Step, c: int) {
    var client := ClientOf(s, c);
    step == ProcessResult(c) && client.pc.Processing? && client.pc.next < |client.pc.results|
  }

  lemma OnlySettlingRemoves(s: State, step: Step, c: int, m: int)
    requires Has(ClientOf(s, c).outbox, m)
    ensures Settling(s, step, c) || Has(ClientOf(Perform(s, step), c).outbox, m)
    ensures var client := ClientOf(s, c);
      Settling(s, step, c) ==> ClientOf(Perform(s, step), c).outbox == Settle(client.outbox, client.pc.results[client.pc.next])
  {
    var rows := ClientOf(s, c).outbox;
    var k :| 0 <= k < |rows| && rows[k].id == m;
    match step {
      case Enqueue(d, id) => assert (rows + [Record(id, Waiting, 0)])[k].id == m;
      case RetryDeadLetter(d, id) => assert Revive(rows, id)[k].id == m;
      case _ =>
    }
  }

  /** Once every mutation of a batch is done, a push of it is refused or answered with duplicates, at any base. */
  lemma SettledBatchIsDuplicate(steps: seq<Step>, t: Token)
    requires t in Run(steps).pushes && Run(steps).pushes[t].settled
    requires Run(steps).pushes[t].pc.Replied? && Run(steps).pushes[t].pc.reply.Answer?
    ensures Run(steps).pushes[t].pc.reply.results == Duplicates(Run(steps).pushes[t].batch)
  {
    RunKeepsInv(steps);
    assert PushOk(Run(steps).pushes[t], Run(steps).db);
  }

  /**
   The reply of a push was lost although everything in it was applied: whatever base the client
   retries from, the server recognizes the whole batch.
   */
  lemma RetryAfterLostReply(steps: seq<Step>, t: Token, base: nat)
    requires t in Run(steps).pushes && Run(steps).pushes[t].pc.Replied? && Run(steps).pushes[t].pc.reply.Answer?
    requires forall r :: r in Run(steps).pushes[t].pc.reply.results ==> !r.status.Failed?
    ensures NewPush(Run(steps).next, base, Run(steps).pushes[t].batch, Run(steps).db).settled
  {
    RunKeepsInv(steps);
    var p, db := Run(steps).pushes[t], Run(steps).db;
    assert PushOk(p, db);
    forall k | 0 <= k < |p.batch| ensures IsDone(db.data, p.batch[k]) {
      assert p.pc.reply.results[k] in p.pc.reply.results;
    }
  }

  // ---- snapshots ----------------------------------------------------------------------

  /** Every query of a served snapshot saw exactly the data published as its revision. */
  lemma ServedSnapshotIsStable(steps: seq<Step>, t: Token, revision: nat, k: nat)
    requires t in Run(steps).snaps && Run(steps).snaps[t].pc == Served(revision) && k < |Run(steps).snaps[t].images|
    ensures revision < |Run(steps).db.committed|
    ensures Run(steps).snaps[t].images[k] == Run(steps).db.committed[revision]
  {
    RunKeepsInv(steps);
    assert SnapOk(Run(steps).snaps[t], Run(steps).db);
  }

  /**
   Push-first safety: whenever a client wrote a snapshot over its tables, nothing was pending in
   its outbox, and each mutation it ever queued is a dead letter or was applied on the server at or
   before the snapshot's revision.
   */
  lemma PullsOverwriteOnlySyncedEdits(steps: seq<Step>, pull: Pull, m: int)
    requires pull in Run(steps).pulls && m in pull.made
    ensures pull.revision < |Run(steps).db.committed| && PendingIds(pull.outbox) == []
    ensures IsDeadLetter(pull.outbox, m) || IsDone(Run(steps).db.committed[pull.revision], m)
    ensures AllImages(pull.images, Run(steps).db.committed[pull.revision])
  {
    RunKeepsInv(steps);
    assert PullOk(pull, Run(steps).db);
  }
}
