/** What becomes of an import that nobody interferes with: it is applied, or it fails and leaves no trace in the data. */
module ImportProgress {
  import opened Numbers
  import opened WorkspaceLease
  import opened ImportJournal

  /** n statements of a request; its restore batch, when it comes to it, goes well or fails. */
  ghost function ImportRun(r: Import, db: Db, job: Option<Job>, n: nat, restores: bool): (Import, Db, Option<Job>)
    decreases n
  {
    if n == 0 then (r, db, job)
    else
      var (q, d, j) := ImportStep(r, db, job, if restores then Go else BatchFails);
      ImportRun(q, d, j, n - 1, restores)
  }

  lemma RunsOn(r: Import, db: Db, job: Option<Job>, n: nat, restores: bool, q: Import, d: Db, j: Option<Job>)
    requires n > 0 && ImportStep(r, db, job, if restores then Go else BatchFails) == (q, d, j)
    ensures ImportRun(r, db, job, n, restores) == ImportRun(q, d, j, n - 1, restores)
  {
  }

  /** A request whose row does not exist yet. */
  predicate IsNew(r: Import) {
    r.pc == Insert && !r.created && !r.dataApplied
  }

  function RowOf(r: Import, status: JobStatus, applied: Option<nat>): Option<Job> {
    Some(Job(r.fingerprint, r.expected, status, applied))
  }

  /** Two statements make the row and find it to be the request's own. */
  lemma RowIsMade(r: Import, db: Db, n: nat, restores: bool)
    requires IsNew(r) && n >= 2
    ensures ImportRun(r, db, None, n, restores)
         == ImportRun(r.(created := true, pc := ReserveRead), db, RowOf(r, InProgress, None), n - 2, restores)
  {
    var q, job := r.(created := true, pc := Journal), RowOf(r, InProgress, None);
    RunsOn(r, db, None, n, restores, q, db, job);
    RunsOn(q, db, job, n - 1, restores, q.(pc := ReserveRead), db, job);
  }

  /** At the expected revision of an idle workspace four statements take the lease. */
  lemma LeaseIsTaken(r: Import, db: Db, n: nat, restores: bool)
    requires IsNew(r) && db.holder == None && db.revision == r.expected && n >= 4
    ensures ImportRun(r, db, None, n, restores)
         == ImportRun(r.(created := true, pc := Restoring), db.(holder := Some(r.token)), RowOf(r, InProgress, None), n - 4, restores)
  {
    var c, job := r.(created := true), RowOf(r, InProgress, None);
    RowIsMade(r, db, n, restores);
    RunsOn(c.(pc := ReserveRead), db, job, n - 2, restores, c.(pc := ReserveCas), db, job);
    RunsOn(c.(pc := ReserveCas), db, job, n - 3, restores, c.(pc := Restoring), db.(holder := Some(r.token)), job);
  }

  /** The backup is in the next revision, the row completed with it, the lease free, and the answer says so. */
  ghost predicate Succeeded(r: Import, db: Db, q: Import, d: Db, j: Option<Job>) {
    && q.pc == Answered(Imported(r.expected + 1)) && q.dataApplied
    && d.data == db.data + [Entry(r.token, r.expected, Restored(r.importId))]
    && d.revision == r.expected + 1 && d.holder == None && d.committed == db.committed + [d.data]
    && j == RowOf(r, Completed, Some(r.expected + 1))
  }

  /** Four statements write, publish, read the revision and complete the row. */
  lemma RestoreIsPublished(r: Import, db: Db)
    requires db.revision == r.expected && db.holder == None
    ensures var held, job := db.(holder := Some(r.token)), RowOf(r, InProgress, None);
      var (q, d, j) := ImportRun(r.(created := true, pc := Restoring), held, job, 4, true);
      Succeeded(r, db, q, d, j)
  {
    var a, job := r.(created := true, dataApplied := true), RowOf(r, InProgress, None);
    var held := db.(holder := Some(r.token));
    var written := Write(held, r.token, Restored(r.importId));
    RunsOn(r.(created := true, pc := Restoring), held, job, 4, true, a.(pc := Finalizing), written, job);
    RunsOn(a.(pc := Finalizing), written, job, 3, true, a.(pc := ReadRevision), Publish(written), job);
    RunsOn(a.(pc := ReadRevision), Publish(written), job, 2, true, a.(pc := Completing(r.expected + 1)), Publish(written), job);
    RunsOn(a.(pc := Completing(r.expected + 1)), Publish(written), job, 1, true,
           a.(pc := Answered(Imported(r.expected + 1))), Publish(written), RowOf(r, Completed, Some(r.expected + 1)));
  }

  /**
   At the expected revision of an idle workspace the backup is written, published as the next revision and recorded as
   completed with it; the answer names that revision.
   */
  lemma ImportAloneSucceeds(r: Import, db: Db)
    requires IsNew(r) && db.holder == None && db.revision == r.expected
    ensures var (q, d, j) := ImportRun(r, db, None, 8, true); Succeeded(r, db, q, d, j)
  {
    LeaseIsTaken(r, db, 8, true);
    RestoreIsPublished(r, db);
  }

  /** A restore batch that fails leaves the data, the revision and the lease as they were, and a failed row. */
  lemma FailedRestoreLeavesNoTrace(r: Import, db: Db)
    requires IsNew(r) && db.holder == None && db.revision == r.expected
    ensures var (q, d, j) := ImportRun(r, db, None, 7, false);
      q.pc == Answered(Error) && !q.dataApplied && d == db && j == RowOf(r, JobFailed, None)
  {
    var c, job, held := r.(created := true), RowOf(r, InProgress, None), db.(holder := Some(r.token));
    LeaseIsTaken(r, db, 7, false);
    RunsOn(c.(pc := Restoring), held, job, 3, false, c.(pc := Aborting), held, job);
    RunsOn(c.(pc := Aborting), held, job, 2, false, c.(pc := Failing), db, job);
    RunsOn(c.(pc := Failing), db, job, 1, false, c.(pc := Answered(Error)), db, RowOf(r, JobFailed, None));
  }

  /** While somebody writes, or when the workspace has moved on, the import fails without touching anything but its row. */
  lemma RefusedImportLeavesNoTrace(r: Import, db: Db, restores: bool)
    requires IsNew(r) && (db.holder.Some? || db.revision != r.expected)
    ensures var (q, d, j) := ImportRun(r, db, None, 4, restores);
      q.pc == Answered(Error) && !q.dataApplied && d == db && j == RowOf(r, JobFailed, None)
  {
    var c, job := r.(created := true), RowOf(r, InProgress, None);
    RowIsMade(r, db, 4, restores);
    RunsOn(c.(pc := ReserveRead), db, job, 2, restores, c.(pc := Failing), db, job);
    RunsOn(c.(pc := Failing), db, job, 1, restores, c.(pc := Answered(Error)), db, RowOf(r, JobFailed, None));
  }

  /** So does an import that loses the lease between its read and its UPDATE. */
  lemma LostLeaseLeavesNoTrace(r: Import, db: Db, job: Job, restores: bool)
    requires r.pc == ReserveCas && !(db.revision == r.expected && db.holder == None) && job.status == InProgress
    ensures ImportRun(r, db, Some(job), 2, restores) == (r.(pc := Answered(Error)), db, Some(job.(status := JobFailed)))
  {
    RunsOn(r, db, Some(job), 2, restores, r.(pc := Failing), db, Some(job));
  }

  /** An import whose lease was recovered while it published answers an error and leaves its row in progress, although its backup is applied. */
  lemma RecoveredImportStaysOpen(r: Import, db: Db, job: Job, n: nat)
    requires r.pc == Finalizing && db.holder != Some(r.token) && n > 0
    ensures ImportRun(r, db, Some(job), n, true) == (r.(pc := Answered(Error)), db, Some(job))
  {
    RunsOn(r, db, Some(job), n, true, r.(pc := Answered(Error)), db, Some(job));
    AnsweredStays(r.(pc := Answered(Error)), db, Some(job), n - 1);
  }

  lemma {:induction false} AnsweredStays(r: Import, db: Db, job: Option<Job>, n: nat)
    requires r.pc.Answered?
    ensures ImportRun(r, db, job, n, true) == (r, db, job)
  {
    if n > 0 { AnsweredStays(r, db, job, n - 1); }
  }

  /** A request whose process died changes nothing any more; its row stays as it is until it expires. */
  lemma {:induction false} CrashedImportIsSilent(r: Import, db: Db, job: Option<Job>, n: nat, restores: bool)
    requires !r.pc.Answered?
    ensures var (q, d, j) := ImportStep(r, db, job, Crash);
      q == r.(pc := Dead) && d == db && j == job && ImportRun(q, d, j, n, restores) == (q, db, job)
  {
    if n > 0 { CrashedImportIsSilent(r, db, job, n - 1, restores); }
  }

  // ---- steps of a run -----------------------------------------------------------------

  lemma {:induction false} ImportRunsAlone(steps: seq<Step>, t: Token, n: nat) returns (longer: seq<Step>)
    requires t in Run(steps).imports
    ensures var s := Run(steps);
      var r := s.imports[t];
      var (q, db, job) := ImportRun(r, s.db, JobOf(s, r.importId), n, true);
      && Run(longer).db == db && Run(longer).imports == s.imports[t := q]
      && (job.Some? ==> Run(longer).jobs == s.jobs[r.importId := job.value])
    decreases n
  {
    var s := Run(steps);
    var r := s.imports[t];
    if n == 0 {
      longer := steps;
      assert s.imports[t := r] == s.imports;
      if r.importId in s.jobs { assert s.jobs[r.importId := s.jobs[r.importId]] == s.jobs; }
    } else {
      OneMore(steps, ImportRuns(t, Go));
      var (q, d, j) := ImportStep(r, s.db, JobOf(s, r.importId), Go);
      var u := Run(steps + [ImportRuns(t, Go)]);
      assert u.imports == s.imports[t := q] && u.jobs == WithJob(s.jobs, r.importId, j);
      assert q.importId == r.importId;
      RowFollows(s, u, r.importId, j, ImportRun(q, d, j, n - 1, true).2);
      longer := ImportRunsAlone(steps + [ImportRuns(t, Go)], t, n - 1);
    }
  }

  lemma RowFollows(s: State, u: State, id: int, job: Option<Job>, last: Option<Job>)
    requires u.jobs == WithJob(s.jobs, id, job) && (id in s.jobs ==> job.Some?)
    ensures JobOf(u, id) == job && (last.Some? ==> u.jobs[id := last.value] == s.jobs[id := last.value])
  {
  }

  /** A new request has a token of its own and carries what it was asked for; it has touched nothing yet. */
  lemma ImportIsRequested(steps: seq<Step>, id: int, fingerprint: int, expected: nat) returns (longer: seq<Step>, r: Import)
    ensures var s, u := Run(steps), Run(longer);
      && r == Import(s.next, id, fingerprint, expected, false, false, Insert) && IsNew(r)
      && u == s.(next := s.next + 1, imports := s.imports[s.next := r])
  {
    var s := Run(steps);
    r := Import(s.next, id, fingerprint, expected, false, false, Insert);
    longer := steps + [NewImport(id, fingerprint, expected)];
    OneMore(steps, NewImport(id, fingerprint, expected));
  }

  /** The import left alone completed: nothing else about rows and data changed. */
  ghost predicate Completes(s: State, u: State, id: int, fingerprint: int) {
    && u.db.data == s.db.data + [Entry(s.next, s.db.revision, Restored(id))] && u.db.revision == s.db.revision + 1 && u.db.holder == None
    && u.jobs == s.jobs[id := Job(fingerprint, s.db.revision, Completed, Some(s.db.revision + 1))]
    && s.next in u.imports && u.imports[s.next].pc == Answered(Imported(s.db.revision + 1))
  }

  lemma SucceededCompletes(s: State, u: State, r: Import, q: Import, d: Db, j: Option<Job>)
    requires r.token == s.next && r.expected == s.db.revision && Succeeded(r, s.db, q, d, j)
    requires u.db == d && u.imports == s.imports[s.next := r][s.next := q] && u.jobs == s.jobs[r.importId := j.value]
    ensures Completes(s, u, r.importId, r.fingerprint)
  {
  }

  /** In any run: an import of a backup that nobody asked for before, at the published revision of an idle workspace, completes. */
  lemma RequestedImportSucceeds(steps: seq<Step>, id: int, fingerprint: int) returns (longer: seq<Step>)
    requires id !in Run(steps).jobs && Run(steps).db.holder == None
    ensures Completes(Run(steps), Run(longer), id, fingerprint)
  {
    var s := Run(steps);
    var r;
    longer, r := ImportIsRequested(steps, id, fingerprint, s.db.revision);
    ImportAloneSucceeds(r, s.db);
    assert JobOf(Run(longer), id) == None;
    longer := ImportRunsAlone(longer, s.next, 8);
    var (q, d, j) := ImportRun(r, s.db, None, 8, true);
    SucceededCompletes(s, Run(longer), r, q, d, j);
  }
}
