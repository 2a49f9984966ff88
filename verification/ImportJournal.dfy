/**
 Restoring a backup on the server: a journal row per import id on top of the workspace lease.
 Requests run one statement at a time beside other writers, lease recovery, expiry of journal rows
 and crashes.
 */
module ImportJournal {
  import opened Numbers
  import opened WorkspaceLease
  import S = SyncServer

  datatype JobStatus = InProgress | Completed | JobFailed

  /** A row of core_backup_imports. */
  datatype Job = Job(fingerprint: int, expected: nat, status: JobStatus, appliedRevision: Option<nat>)

  datatype Answer = Imported(revision: nat) | Replayed(revision: nat) | IdReused | AlreadyFailed | StillApplying | Error

  datatype ImportPc =
    | Insert
    | Journal
    | ReserveRead
    | ReserveCas
    | Restoring
    | Aborting
    | Failing
    | Finalizing
    | ReadRevision
    | Completing(revision: nat)
    | Answered(answer: Answer)
    | Dead

  /** `created` and `dataApplied` are the handler's own flags. */
  datatype Import = Import(
    token: Token, importId: int, fingerprint: int, expected: nat, created: bool, dataApplied: bool, pc: ImportPc)

  datatype State = State(
    db: Db, jobs: map<int, Job>, next: Token, imports: map<Token, Import>, writers: map<Token, S.Writer>)

  datatype Choice = Go | BatchFails | Crash

  datatype Step =
    | NewImport(importId: int, fingerprint: int, expected: nat)
    | ImportRuns(request: Token, choice: Choice)
    | ExpireJob(job: int)
    | NewWriter
    | WriterRuns(writer: Token, move: S.WriterChoice)
    | RecoverStale

  const START := State(FRESH, map[], 0, map[], map[])

  /** UPDATE ... SET status = 'failed' WHERE status <> 'completed' */
  function Fail(job: Job): Job {
    if job.status == Completed then job else job.(status := JobFailed)
  }

  /** An import left applying for too long is marked as failed. */
  function Expire(job: Job): Job {
    if job.status == InProgress then job.(status := JobFailed) else job
  }

  /** What a request that did not create the journal row is told. */
  function Existing(job: Job, expected: nat): Answer {
    match job.status
    case Completed => Replayed(job.appliedRevision.GetOrElse(expected))
    case JobFailed => AlreadyFailed
    case InProgress => StillApplying
  }

  /** One statement of an import request, on the row of its own import id. */
  function ImportStep(r: Import, db: Db, job: Option<Job>, choice: Choice): (Import, Db, Option<Job>) {
    if r.pc.Answered? || r.pc.Dead? then (r, db, job)
    else if choice == Crash then (r.(pc := Dead), db, job)
    else match r.pc
      case Insert =>
        (r.(created := job.None?, pc := Journal), db,
         if job.None? then Some(Job(r.fingerprint, r.expected, InProgress, None)) else job)
      case Journal =>
        if job.None? then (r.(pc := Answered(Error)), db, job)
        else if job.value.fingerprint != r.fingerprint || job.value.expected != r.expected then (r.(pc := Answered(IdReused)), db, job)
        else if !r.created then (r.(pc := Answered(Existing(job.value, r.expected))), db, job)
        else (r.(pc := ReserveRead), db, job)
      case ReserveRead => (r.(pc := if db.holder.Some? || db.revision != r.expected then Failing else ReserveCas), db, job)
      case ReserveCas =>
        if Grantable(db, r.expected) then (r.(pc := Restoring), Grant(db, r.token, r.expected), job)
        else (r.(pc := Failing), db, job)
      case Restoring =>
        if choice == BatchFails then (r.(pc := Aborting), db, job)
        else (r.(dataApplied := true, pc := Finalizing), Write(db, r.token, Restored(r.importId)), job)
      case Aborting => (r.(pc := Failing), Abort(db, r.token), job)
      case Failing => (r.(pc := Answered(Error)), db, if job.Some? then Some(Fail(job.value)) else job)
      case Finalizing =>
        if db.holder != Some(r.token) then (r.(pc := Answered(Error)), db, job)
        else (r.(pc := ReadRevision), Finalize(db, r.token), job)
      case ReadRevision => (r.(pc := if db.holder.Some? then Answered(Error) else Completing(db.revision)), db, job)
      case Completing(revision) =>
        (r.(pc := Answered(Imported(revision))), db,
         if job.Some? then Some(job.value.(status := Completed, appliedRevision := Some(revision))) else job)
      case Answered(_) => (r, db, job)
      case Dead => (r, db, job)
  }

  function JobOf(s: State, id: int): Option<Job> {
    if id in s.jobs then Some(s.jobs[id]) else None
  }

  function WithJob(jobs: map<int, Job>, id: int, job: Option<Job>): map<int, Job> {
    if job.Some? then jobs[id := job.value] else jobs
  }

  function Stopped(r: Import, holder: Option<Token>): Import {
    if holder == Some(r.token) then r.(pc := Dead) else r
  }

  function StoppedWriter(w: S.Writer, holder: Option<Token>): S.Writer {
    if holder == Some(w.token) then w.(pc := S.Gone) else w
  }

  function Perform(s: State, step: Step): State {
    match step
    case NewImport(id, fingerprint, expected) =>
      s.(next := s.next + 1, imports := s.imports[s.next := Import(s.next, id, fingerprint, expected, false, false, Insert)])
    case ImportRuns(t, choice) =>
      if t !in s.imports then s
      else
        var r := s.imports[t];
        var (q, db, job) := ImportStep(r, s.db, JobOf(s, r.importId), choice);
        s.(db := db, jobs := WithJob(s.jobs, r.importId, job), imports := s.imports[t := q])
    case ExpireJob(id) => if id in s.jobs then s.(jobs := s.jobs[id := Expire(s.jobs[id])]) else s
    case NewWriter => s.(next := s.next + 1, writers := s.writers[s.next := S.Writer(s.next, S.Trying)])
    case WriterRuns(t, move) =>
      if t !in s.writers || (move.Put? && move.what.Restored?) then s
      else
        var (w, db) := S.WriterStep(s.writers[t], s.db, move);
        s.(db := db, writers := s.writers[t := w])
    case RecoverStale =>
      s.(db := Recover(s.db),
         imports := map t | t in s.imports :: Stopped(s.imports[t], s.db.holder),
         writers := map t | t in s.writers :: StoppedWriter(s.writers[t], s.db.holder))
  }

  function Run(steps: seq<Step>): State {
    if steps == [] then START else Perform(Run(steps[..|steps| - 1]), steps[|steps| - 1])
  }

  // ---- the invariant ------------------------------------------------------------------

  ghost predicate IsRestored(data: seq<Entry>, id: int) {
    exists i :: 0 <= i < |data| && data[i].what == Restored(id)
  }

  predicate Holds(pc: ImportPc) {
    pc.Restoring? || pc.Aborting? || pc.Finalizing?
  }

  /** The creator of a journal row can still change it. */
  predicate Open(pc: ImportPc) {
    !pc.Answered? && !pc.Dead?
  }

  ghost predicate ImportOk(r: Import, db: Db, job: Option<Job>) {
    && (r.created ==> job.Some? && job.value.expected == r.expected && job.value.fingerprint == r.fingerprint)
    && (r.created && Open(r.pc) ==> job.value.status != Completed)
    && (r.pc.Insert? ==> !r.created)
    && (!r.created ==> r.pc.Insert? || r.pc.Journal? || r.pc.Answered? || r.pc.Dead?)
    && (r.dataApplied ==> r.created && IsRestored(db.data, r.importId))
    && (r.dataApplied && Open(r.pc) ==> r.pc.Finalizing? || r.pc.ReadRevision? || r.pc.Completing?)
    && (r.pc.Finalizing? || r.pc.ReadRevision? || r.pc.Completing? ==> r.dataApplied)
    && (Holds(r.pc) ==> db.holder == Some(r.token) && db.revision == r.expected)
    && ((r.pc.Restoring? || r.pc.Aborting?) ==> Clean(db))
    && (r.pc.ReadRevision? ==> db.revision > r.expected)
    && (r.pc.Completing? ==> Confirmed(r.importId, r.expected, r.pc.revision, db))
  }

  /** The import's data is part of the named revision, which is later than the expected one. */
  ghost predicate Confirmed(id: int, expected: nat, revision: nat, db: Db) {
    expected < revision < |db.committed| && IsRestored(db.committed[revision], id)
  }

  ghost predicate JobOk(job: Job, id: int, db: Db) {
    job.status == Completed ==> job.appliedRevision.Some? && Confirmed(id, job.expected, job.appliedRevision.value, db)
  }

  ghost predicate DbInv(s: State) {
    && LeaseOk(s.db)
    && (s.db.holder.Some? ==> s.db.holder.value < s.next)
    && (forall i :: 0 <= i < |s.db.data| ==> s.db.data[i].token < s.next)
  }

  ghost predicate ImportInv(s: State) {
    forall t <- s.imports ::
      t < s.next && t !in s.writers && s.imports[t].token == t && ImportOk(s.imports[t], s.db, JobOf(s, s.imports[t].importId))
  }

  ghost predicate WriterInv(s: State) {
    forall t <- s.writers :: t < s.next && s.writers[t].token == t && S.WriterOk(s.writers[t], s.db)
  }

  ghost predicate JobInv(s: State) {
    forall id <- s.jobs :: JobOk(s.jobs[id], id, s.db)
  }

  /** At most one request ever created the row of an import id. */
  ghost predicate OneCreator(s: State) {
    forall t <- s.imports, u <- s.imports ::
      s.imports[t].created && s.imports[u].created && s.imports[t].importId == s.imports[u].importId ==> t == u
  }

  /** A restore in the history was written by the creator of its row, who knows about it. */
  ghost predicate RestoresAccounted(s: State) {
    forall i :: 0 <= i < |s.db.data| && s.db.data[i].what.Restored? ==> AccountedRestore(s, s.db.data[i])
  }

  ghost predicate AccountedRestore(s: State, e: Entry) {
    e.what.Restored? && e.token in s.imports && s.imports[e.token].dataApplied && s.imports[e.token].importId == e.what.importId
  }

  ghost predicate RestoredOnce(data: seq<Entry>) {
    forall i, j :: 0 <= i < j < |data| && data[i].what.Restored? ==> data[i].what != data[j].what
  }

  ghost predicate Inv(s: State) {
    DbInv(s) && ImportInv(s) && WriterInv(s) && JobInv(s) && OneCreator(s) && RestoresAccounted(s) && RestoredOnce(s.db.data)
  }

  lemma JobStable(job: Job, id: int, a: Db, b: Db)
    requires JobOk(job, id, a) && a.committed <= b.committed
    ensures JobOk(job, id, b)
  {
  }

  lemma ImportStable(r: Import, a: Db, b: Db, job: Option<Job>)
    requires ImportOk(r, a, job) && Evolves(a, b) && (Holds(r.pc) ==> a == b)
    ensures ImportOk(r, b, job)
  {
  }

  lemma ImportStepDb(r: Import, db: Db, job: Option<Job>, choice: Choice)
    requires LeaseOk(db) && ImportOk(r, db, job)
    ensures var next := ImportStep(r, db, job, choice).1; LeaseOk(next) && ActsAs(db, next, r.token)
    ensures r.pc.ReserveCas? || r.pc.Restoring? || r.pc.Aborting? || r.pc.Finalizing? || ImportStep(r, db, job, choice).1 == db
  {
    match r.pc {
      case ReserveCas => GrantKeepsLease(db, r.token, r.expected);
      case Restoring => WriteKeepsLease(db, r.token, Restored(r.importId));
      case Aborting => AbortKeepsLeaseIffClean(db, r.token);
      case Finalizing => FinalizeKeepsLease(db, r.token);
      case _ =>
    }
  }

  predicate SameRequest(r: Import, q: Import) {
    q.token == r.token && q.importId == r.importId && q.expected == r.expected && q.fingerprint == r.fingerprint
  }

  lemma JournalStepKeeps(r: Import, db: Db, job: Option<Job>, choice: Choice)
    requires LeaseOk(db) && ImportOk(r, db, job) && (job.Some? ==> JobOk(job.value, r.importId, db))
    requires !r.pc.ReserveCas? && !r.pc.Restoring? && !r.pc.Aborting? && !r.pc.Finalizing?
    ensures var (q, next, after) := ImportStep(r, db, job, choice);
      && SameRequest(r, q) && ImportOk(q, db, after) && (after.Some? ==> JobOk(after.value, r.importId, db))
  {
  }

  lemma RestoreStepKeeps(r: Import, db: Db, job: Option<Job>, choice: Choice)
    requires LeaseOk(db) && ImportOk(r, db, job) && r.pc.Restoring?
    ensures var (q, next, after) := ImportStep(r, db, job, choice);
      after == job && SameRequest(r, q) && ImportOk(q, next, job)
  {
    var next := Write(db, r.token, Restored(r.importId));
    assert next.data[|db.data|].what == Restored(r.importId);
    assert IsRestored(next.data, r.importId);
  }

  /** The import's own statement keeps its request and its journal row in order. */
  lemma ImportStepKeeps(r: Import, db: Db, job: Option<Job>, choice: Choice)
    requires LeaseOk(db) && ImportOk(r, db, job) && (job.Some? ==> JobOk(job.value, r.importId, db))
    ensures var (q, next, after) := ImportStep(r, db, job, choice);
      && SameRequest(r, q) && ImportOk(q, next, after) && (after.Some? ==> JobOk(after.value, r.importId, next))
  {
    ImportStepDb(r, db, job, choice);
    if r.pc.Restoring? {
      RestoreStepKeeps(r, db, job, choice);
    } else if r.pc.ReserveCas? || r.pc.Aborting? || r.pc.Finalizing? {
    } else {
      JournalStepKeeps(r, db, job, choice);
    }
    if job.Some? { JobStable(job.value, r.importId, db, ImportStep(r, db, job, choice).1); }
  }

  // ---- what a request does to the rest ------------------------------------------------

  /** The row of an import id only ever changes in these ways under somebody else's feet. */
  ghost predicate JobMoves(a: Option<Job>, b: Option<Job>) {
    && (a.Some? ==> b.Some? && b.value.expected == a.value.expected && b.value.fingerprint == a.value.fingerprint)
    && (a.Some? && a.value.status == Completed ==> b == a)
  }

  lemma StepMovesJob(r: Import, db: Db, job: Option<Job>, choice: Choice)
    requires ImportOk(r, db, job)
    ensures JobMoves(job, ImportStep(r, db, job, choice).2)
    ensures !r.created && job.Some? ==> ImportStep(r, db, job, choice).2 == job
    ensures ImportStep(r, db, job, choice).2 != job ==> ImportStep(r, db, job, choice).0.created
  {
  }

  lemma OtherImportsStable(s: State, t: Token, choice: Choice)
    requires Inv(s) && t in s.imports
    ensures var r := s.imports[t];
      var (q, db, job) := ImportStep(r, s.db, JobOf(s, r.importId), choice);
      forall u :: u in s.imports && u != t ==>
        ImportOk(s.imports[u], db, JobOf(Perform(s, ImportRuns(t, choice)), s.imports[u].importId))
  {
    var r := s.imports[t];
    var (q, db, job) := ImportStep(r, s.db, JobOf(s, r.importId), choice);
    ImportStepDb(r, s.db, JobOf(s, r.importId), choice);
    StepMovesJob(r, s.db, JobOf(s, r.importId), choice);
    forall u | u in s.imports && u != t
      ensures ImportOk(s.imports[u], db, JobOf(Perform(s, ImportRuns(t, choice)), s.imports[u].importId))
    {
      var o, before, after := s.imports[u], JobOf(s, s.imports[u].importId), JobOf(Perform(s, ImportRuns(t, choice)), s.imports[u].importId);
      ImportStable(o, s.db, db, before);
      if o.created {
        assert after == before;
      } else {
      }
    }
  }

  lemma WritersStable(s: State, db: Db, t: Token)
    requires WriterInv(s) && ActsAs(s.db, db, t)
    ensures forall u :: u in s.writers && u != t ==> S.WriterOk(s.writers[u], db)
  {
    forall u | u in s.writers && u != t ensures S.WriterOk(s.writers[u], db) { S.WriterStable(s.writers[u], s.db, db); }
  }

  lemma JobsStable(s: State, db: Db)
    requires JobInv(s) && s.db.committed <= db.committed
    ensures forall id :: id in s.jobs ==> JobOk(s.jobs[id], id, db)
  {
    forall id | id in s.jobs ensures JobOk(s.jobs[id], id, db) { JobStable(s.jobs[id], id, s.db, db); }
  }

  /** The step's request stays the only creator, and only it can have become one. */
  lemma CreatorKept(s: State, t: Token, choice: Choice)
    requires Inv(s) && t in s.imports
    ensures OneCreator(Perform(s, ImportRuns(t, choice)))
  {
    var r, s' := s.imports[t], Perform(s, ImportRuns(t, choice));
    var job := JobOf(s, r.importId);
    var q := ImportStep(r, s.db, job, choice).0;
    ImportStepKeeps(r, s.db, job, choice);
    if q.created && !r.created {
      assert r.pc.Insert? && job.None?;
      forall u | u in s.imports && s.imports[u].created ensures s.imports[u].importId != r.importId {
        assert ImportOk(s.imports[u], s.db, JobOf(s, s.imports[u].importId));
      }
    }
  }

  lemma RestoreStepWrites(r: Import, db: Db, job: Option<Job>, choice: Choice)
    requires ImportOk(r, db, job)
    ensures var (q, next, after) := ImportStep(r, db, job, choice);
      && (r.dataApplied ==> q.dataApplied)
      && (next.data == db.data
          || (q.dataApplied && !r.dataApplied && r.created && next.data == db.data + [Entry(r.token, db.revision, Restored(r.importId))]))
  {
  }

  /** No restore of this id is in the history while its creator has not applied it. */
  lemma NotRestoredYet(s: State, t: Token, i: nat)
    requires OneCreator(s) && ImportInv(s) && RestoresAccounted(s) && t in s.imports && s.imports[t].created && !s.imports[t].dataApplied
    requires i < |s.db.data|
    ensures s.db.data[i].what != Restored(s.imports[t].importId)
  {
    var e := s.db.data[i];
    if e.what.Restored? {
      assert AccountedRestore(s, e);
      assert ImportOk(s.imports[e.token], s.db, JobOf(s, s.imports[e.token].importId));
    }
  }

  lemma RestoresKept(s: State, t: Token, choice: Choice)
    requires Inv(s) && t in s.imports
    ensures RestoresAccounted(Perform(s, ImportRuns(t, choice))) && RestoredOnce(Perform(s, ImportRuns(t, choice)).db.data)
  {
    var r, s' := s.imports[t], Perform(s, ImportRuns(t, choice));
    var job := JobOf(s, r.importId);
    var q := ImportStep(r, s.db, job, choice).0;
    ImportStepKeeps(r, s.db, job, choice);
    RestoreStepWrites(r, s.db, job, choice);
    forall i | 0 <= i < |s'.db.data| && s'.db.data[i].what.Restored? ensures AccountedRestore(s', s'.db.data[i]) {
      if i < |s.db.data| { assert AccountedRestore(s, s.db.data[i]); }
    }
    if s'.db.data != s.db.data {
      forall i | 0 <= i < |s.db.data| ensures s.db.data[i].what != Restored(r.importId) { NotRestoredYet(s, t, i); }
    }
  }

  lemma ImportRunsKeepsRequests(s: State, t: Token, choice: Choice)
    requires Inv(s) && t in s.imports
    ensures ImportInv(Perform(s, ImportRuns(t, choice))) && JobInv(Perform(s, ImportRuns(t, choice)))
  {
    var r, s' := s.imports[t], Perform(s, ImportRuns(t, choice));
    var job := JobOf(s, r.importId);
    var (q, db, after) := ImportStep(r, s.db, job, choice);
    ImportStepDb(r, s.db, job, choice);
    ImportStepKeeps(r, s.db, job, choice);
    OtherImportsStable(s, t, choice);
    JobsStable(s, db);
    StepMovesJob(r, s.db, job, choice);
    assert JobOf(s', r.importId) == after;
  }

  lemma ImportRunsKeeps(s: State, t: Token, choice: Choice)
    requires Inv(s) && t in s.imports
    ensures Inv(Perform(s, ImportRuns(t, choice)))
  {
    var r := s.imports[t];
    var job := JobOf(s, r.importId);
    ImportStepDb(r, s.db, job, choice);
    ImportRunsKeepsRequests(s, t, choice);
    WritersStable(s, ImportStep(r, s.db, job, choice).1, t);
    CreatorKept(s, t, choice);
    RestoresKept(s, t, choice);
  }

  // ---- the other steps ----------------------------------------------------------------

  lemma ExpireKeeps(s: State, id: int)
    requires Inv(s) && id in s.jobs
    ensures Inv(Perform(s, ExpireJob(id)))
  {
    var s' := Perform(s, ExpireJob(id));
    assert JobOk(s.jobs[id], id, s.db);
    forall t | t in s.imports ensures ImportOk(s.imports[t], s.db, JobOf(s', s.imports[t].importId)) {
      assert ImportOk(s.imports[t], s.db, JobOf(s, s.imports[t].importId));
    }
    RestoresUntouched(s, s');
  }

  /** Restores stay accounted for when no request forgets what it applied. */
  lemma RestoresUntouched(s: State, s': State)
    requires RestoresAccounted(s) && RestoredOnce(s.db.data)
    requires forall t :: t in s.imports ==> (t in s'.imports && s'.imports[t].importId == s.imports[t].importId && (s.imports[t].dataApplied ==> s'.imports[t].dataApplied))
    requires s'.db.data == s.db.data
      || (|s'.db.data| == |s.db.data| + 1 && s'.db.data[..|s.db.data|] == s.db.data && !s'.db.data[|s.db.data|].what.Restored?)
    ensures RestoresAccounted(s') && RestoredOnce(s'.db.data)
  {
    forall i | 0 <= i < |s'.db.data| && s'.db.data[i].what.Restored? ensures AccountedRestore(s', s'.db.data[i]) {
      assert s'.db.data[i] == s.db.data[i];
      assert AccountedRestore(s, s.db.data[i]);
    }
  }

  lemma AllImportsStable(s: State, db: Db, t: Token)
    requires ImportInv(s) && ActsAs(s.db, db, t) && t !in s.imports
    ensures forall u :: u in s.imports ==> ImportOk(s.imports[u], db, JobOf(s, s.imports[u].importId))
  {
    forall u | u in s.imports ensures ImportOk(s.imports[u], db, JobOf(s, s.imports[u].importId)) {
      ImportStable(s.imports[u], s.db, db, JobOf(s, s.imports[u].importId));
    }
  }

  lemma WriterStepData(w: S.Writer, db: Db, move: S.WriterChoice)
    requires !(move.Put? && move.what.Restored?)
    ensures var next := S.WriterStep(w, db, move).1;
      next.data == db.data || (move.Put? && next.data == db.data + [Entry(w.token, db.revision, move.what)])
  {
  }

  lemma WriterStepLease(w: S.Writer, db: Db, move: S.WriterChoice)
    requires LeaseOk(db) && S.WriterOk(w, db)
    ensures var (v, next) := S.WriterStep(w, db, move);
      LeaseOk(next) && ActsAs(db, next, w.token) && v.token == w.token && S.WriterOk(v, next)
  {
    match (w.pc, move) {
      case (Trying, Acquire(expected)) => GrantKeepsLease(db, w.token, expected);
      case (Holding(_), Put(what)) => WriteKeepsLease(db, w.token, what);
      case (Holding(_), Commit) => FinalizeKeepsLease(db, w.token);
      case (Holding(_), GiveBack) => AbortKeepsLeaseIffClean(db, w.token);
      case _ =>
    }
  }

  lemma WriterRunsKeeps(s: State, t: Token, move: S.WriterChoice)
    requires Inv(s) && t in s.writers && !(move.Put? && move.what.Restored?)
    ensures Inv(Perform(s, WriterRuns(t, move)))
  {
    var s' := Perform(s, WriterRuns(t, move));
    WriterStepLease(s.writers[t], s.db, move);
    WriterStepData(s.writers[t], s.db, move);
    AllImportsStable(s, s'.db, t);
    WritersStable(s, s'.db, t);
    JobsStable(s, s'.db);
    RestoresUntouched(s, s');
  }

  lemma StoppedImportOk(r: Import, db: Db, job: Option<Job>)
    requires LeaseOk(db) && ImportOk(r, db, job)
    ensures ImportOk(Stopped(r, db.holder), Recover(db), job)
  {
    RecoverKeepsLease(db);
    assert Recover(db).data == db.data;
  }

  lemma RecoverKeepsImports(s: State)
    requires Inv(s)
    ensures ImportInv(Perform(s, RecoverStale)) && JobInv(Perform(s, RecoverStale))
  {
    var s' := Perform(s, RecoverStale);
    RecoverKeepsLease(s.db);
    forall t | t in s.imports ensures ImportOk(s'.imports[t], s'.db, JobOf(s', s'.imports[t].importId)) {
      StoppedImportOk(s.imports[t], s.db, JobOf(s, s.imports[t].importId));
    }
    JobsStable(s, s'.db);
  }

  lemma RecoverKeepsOthers(s: State)
    requires DbInv(s) && WriterInv(s) && OneCreator(s)
    ensures DbInv(Perform(s, RecoverStale)) && WriterInv(Perform(s, RecoverStale)) && OneCreator(Perform(s, RecoverStale))
  {
    RecoverKeepsLease(s.db);
  }

  lemma RecoverKeeps(s: State)
    requires Inv(s)
    ensures Inv(Perform(s, RecoverStale))
  {
    RecoverKeepsOthers(s);
    RecoverKeepsImports(s);
    RestoresUntouched(s, Perform(s, RecoverStale));
  }

  lemma NewImportKeeps(s: State, id: int, fingerprint: int, expected: nat)
    requires Inv(s)
    ensures Inv(Perform(s, NewImport(id, fingerprint, expected)))
  {
    RestoresUntouched(s, Perform(s, NewImport(id, fingerprint, expected)));
  }

  lemma NewWriterKeeps(s: State)
    requires Inv(s)
    ensures Inv(Perform(s, NewWriter))
  {
    RestoresUntouched(s, Perform(s, NewWriter));
  }

  lemma StepKeepsInv(s: State, step: Step)
    requires Inv(s)
    ensures Inv(Perform(s, step))
  {
    match step {
      case NewImport(id, fingerprint, expected) => NewImportKeeps(s, id, fingerprint, expected);
      case ImportRuns(t, choice) => if t in s.imports { ImportRunsKeeps(s, t, choice); }
      case ExpireJob(id) => if id in s.jobs { ExpireKeeps(s, id); }
      case NewWriter => NewWriterKeeps(s);
      case WriterRuns(t, move) => if t in s.writers && !(move.Put? && move.what.Restored?) { WriterRunsKeeps(s, t, move); }
      case RecoverStale => RecoverKeeps(s);
    }
  }

  lemma {:induction false} RunKeepsInv(steps: seq<Step>)
    ensures Inv(Run(steps))
  {
    if steps != [] {
      RunKeepsInv(steps[..|steps| - 1]);
      StepKeepsInv(Run(steps[..|steps| - 1]), steps[|steps| - 1]);
    }
  }

  // ---- what holds of every run --------------------------------------------------------

  /** The backup of an import id is applied at most once. */
  lemma AppliedAtMostOnce(steps: seq<Step>, i: nat, j: nat, id: int)
    requires i < j < |Run(steps).db.data| && Run(steps).db.data[i].what == Restored(id)
    ensures Run(steps).db.data[j].what != Restored(id)
  {
    RunKeepsInv(steps);
  }

  /** A completed import was applied, and is part of a revision later than the one it expected. */
  lemma CompletedMeansApplied(steps: seq<Step>, id: int)
    requires id in Run(steps).jobs && Run(steps).jobs[id].status == Completed
    ensures var s := Run(steps);
      && s.jobs[id].appliedRevision.Some?
      && Confirmed(id, s.jobs[id].expected, s.jobs[id].appliedRevision.value, s.db)
  {
    RunKeepsInv(steps);
    assert JobOk(Run(steps).jobs[id], id, Run(steps).db);
  }

  /** No later failure, expiry or retry changes the row of a completed import. */
  lemma CompletedIsAbsorbing(steps: seq<Step>, step: Step, id: int)
    requires id in Run(steps).jobs && Run(steps).jobs[id].status == Completed
    ensures id in Perform(Run(steps), step).jobs && Perform(Run(steps), step).jobs[id] == Run(steps).jobs[id]
  {
    var s := Run(steps);
    RunKeepsInv(steps);
    if step.ImportRuns? && step.request in s.imports {
      var r := s.imports[step.request];
      StepMovesJob(r, s.db, JobOf(s, r.importId), step.choice);
    }
  }

  /** When a request itself marks its row as failed, the backup has not been applied. */
  lemma RefusedMeansNotApplied(steps: seq<Step>, t: Token, choice: Choice)
    requires t in Run(steps).imports
    requires var s := Run(steps);
      var id := s.imports[t].importId;
      id in s.jobs && s.jobs[id].status != JobFailed && Perform(s, ImportRuns(t, choice)).jobs[id].status == JobFailed
    ensures !IsRestored(Perform(Run(steps), ImportRuns(t, choice)).db.data, Run(steps).imports[t].importId)
  {
    var s := Run(steps);
    RunKeepsInv(steps);
    var r := s.imports[t];
    assert ImportOk(r, s.db, JobOf(s, r.importId));
    forall i | 0 <= i < |s.db.data| ensures s.db.data[i].what != Restored(r.importId) { NotRestoredYet(s, t, i); }
  }

  /** What an answer claims about the row of the import and the data, at the moment it is given. */
  ghost predicate IsTrue(answer: Answer, r: Import, job: Option<Job>, db: Db) {
    match answer
    case Imported(n) => r.created && job.Some? && job.value.status == Completed && Confirmed(r.importId, r.expected, n, db)
    case Replayed(n) =>
      !r.created && job.Some? && job.value.status == Completed && job.value.appliedRevision == Some(n)
      && Confirmed(r.importId, r.expected, n, db)
    case IdReused => job.Some? && (job.value.fingerprint != r.fingerprint || job.value.expected != r.expected)
    case AlreadyFailed => !r.created && job.Some? && job.value.status == JobFailed
    case StillApplying => !r.created && job.Some? && job.value.status == InProgress
    case Error => r.created || job.None?
  }

  /** In every run each answer is true of the row and of the data when it is given. */
  lemma AnswersAreTrue(steps: seq<Step>, t: Token, choice: Choice)
    requires t in Run(steps).imports && !Run(steps).imports[t].pc.Answered?
    requires Perform(Run(steps), ImportRuns(t, choice)).imports[t].pc.Answered?
    ensures var u := Perform(Run(steps), ImportRuns(t, choice));
      IsTrue(u.imports[t].pc.answer, u.imports[t], JobOf(u, u.imports[t].importId), u.db)
  {
    var s := Run(steps);
    RunKeepsInv(steps);
    var r := s.imports[t];
    assert ImportOk(r, s.db, JobOf(s, r.importId));
    if r.importId in s.jobs { assert JobOk(s.jobs[r.importId], r.importId, s.db); }
  }

  /** A request that finds the row of its import made by another request is answered at once and changes nothing. */
  lemma SecondRequestIsTold(r: Import, db: Db, job: Job)
    requires r.pc == Journal && !r.created
    ensures var (q, next, after) := ImportStep(r, db, Some(job), Go);
      && next == db && after == Some(job) && q.pc.Answered?
      && (q.pc.answer == IdReused <==> job.fingerprint != r.fingerprint || job.expected != r.expected)
      && (q.pc.answer == AlreadyFailed <==> job.fingerprint == r.fingerprint && job.expected == r.expected && job.status == JobFailed)
      && (q.pc.answer == StillApplying <==> job.fingerprint == r.fingerprint && job.expected == r.expected && job.status == InProgress)
      && (q.pc.answer.Replayed? <==> job.fingerprint == r.fingerprint && job.expected == r.expected && job.status == Completed)
  {
  }

  lemma OneMore(steps: seq<Step>, step: Step)
    ensures Run(steps + [step]) == Perform(Run(steps), step)
  {
    assert (steps + [step])[..|steps|] == steps;
  }

  /** A row that merely expired may belong to a backup that was applied: the writer died too late to say so. */
  lemma ExpiredMayBeApplied(id: int) returns (steps: seq<Step>)
    ensures id in Run(steps).jobs && Run(steps).jobs[id].status == JobFailed && IsRestored(Run(steps).db.data, id)
  {
    var step, r, job := ImportRuns(0, Go), Import(0, id, 1, 0, false, false, Insert), Job(1, 0, InProgress, None);
    var s0 := State(FRESH, map[], 1, map[0 := r], map[]);
    var s1 := s0.(jobs := map[id := job], imports := map[0 := r.(created := true, pc := Journal)]);
    var s4 := s1.(db := FRESH.(holder := Some(0)), imports := map[0 := r.(created := true, pc := Restoring)]);
    steps := [] + [NewImport(id, 1, 0)];
    OneMore([], NewImport(id, 1, 0));
    assert Run(steps) == s0;
    OneMore(steps, step);
    steps := steps + [step];
    assert Run(steps) == s1;
    OneMore(steps, step);
    steps := steps + [step];
    assert Run(steps) == s1.(imports := map[0 := r.(created := true, pc := ReserveRead)]);
    OneMore(steps, step);
    steps := steps + [step];
    assert Run(steps) == s1.(imports := map[0 := r.(created := true, pc := ReserveCas)]);
    OneMore(steps, step);
    steps := steps + [step];
    assert Run(steps) == s4;
    OneMore(steps, step);
    steps := steps + [step];
    OneMore(steps, ExpireJob(id));
    steps := steps + [ExpireJob(id)];
    assert Run(steps).db.data == [Entry(0, 0, Restored(id))];
    assert Run(steps).db.data[0].what == Restored(id);
  }
}
