/**
 The server's side of a sync: push requests, snapshot reads and other writers, each as a machine
 that takes one database statement at a time, so that any two may interleave between statements.
 */
module SyncServer {
  import opened Numbers
  import opened WorkspaceLease

  const MAX_BATCH := 100
  const SNAPSHOT_ATTEMPTS := 3

  // ---- idempotency keys, read off the history -----------------------------------------

  ghost predicate IsDone(data: seq<Entry>, m: int) {
    exists i :: 0 <= i < |data| && data[i].what == Applied(m)
  }

  predicate About(what: What, m: int) {
    what == Touched(m) || what == Applied(m)
  }

  /** Once a mutation is done nothing is ever written for it again. */
  ghost predicate OnceOk(data: seq<Entry>) {
    forall i, j :: 0 <= i < j < |data| && data[i].what.Applied? ==> !About(data[j].what, data[i].what.mutation)
  }

  lemma DoneStays(a: seq<Entry>, b: seq<Entry>, m: int)
    requires a <= b && IsDone(a, m)
    ensures IsDone(b, m)
  {
    var i :| 0 <= i < |a| && a[i].what == Applied(m);
    assert b[i] == a[i];
  }

  lemma DoneAfterWrite(data: seq<Entry>, e: Entry, m: int)
    ensures IsDone(data + [e], m) <==> IsDone(data, m) || e.what == Applied(m)
  {
    if IsDone(data, m) { DoneStays(data, data + [e], m); }
    if e.what == Applied(m) { assert (data + [e])[|data|] == e; }
    if IsDone(data + [e], m) {
      var i :| 0 <= i < |data + [e]| && (data + [e])[i].what == Applied(m);
      if i < |data| { assert data[i].what == Applied(m); }
    }
  }

  lemma OnceKept(data: seq<Entry>, e: Entry)
    requires OnceOk(data) && (forall m: int :: About(e.what, m) ==> !IsDone(data, m))
    ensures OnceOk(data + [e])
  {
    forall i, j | 0 <= i < j < |data + [e]| && (data + [e])[i].what.Applied?
      ensures !About((data + [e])[j].what, (data + [e])[i].what.mutation)
    {
      if j == |data| {
        var m := data[i].what.mutation;
        assert data[i].what == Applied(m);
        assert IsDone(data, m);
      }
    }
  }

  // ---- push requests ------------------------------------------------------------------

  datatype Status = Acked | Duplicate | Failed(retryable: bool)

  datatype Result = Result(mutation: int, status: Status)

  datatype Reply = Refused | Answer(results: seq<Result>, revision: nat)

  datatype PushPc =
    | CheckKeys(next: nat)
    | AllDone
    | ReserveRead
    | ReserveCas
    | ReserveReread
    | Applying
    | Handling
    | Finalizing(threw: bool)
    | FinalRead
    | Replied(reply: Reply)
    | Dead

  /** `settled` records whether every mutation of the batch was done when the request came in. */
  datatype Push = Push(
    token: Token, base: nat, batch: seq<int>, settled: bool, done: set<int>, results: seq<Result>, pc: PushPc)

  /** What may happen at a statement: it goes well, a handler writes, finishes or fails, or the worker dies. */
  datatype Choice = Go | Touch | Finish | Fail(retryable: bool) | Throw | Crash

  predicate AllIn(batch: seq<int>, done: set<int>) {
    forall k :: 0 <= k < |batch| ==> batch[k] in done
  }

  function Duplicates(batch: seq<int>): (rs: seq<Result>)
    ensures |rs| == |batch| && forall k :: 0 <= k < |batch| ==> rs[k] == Result(batch[k], Duplicate)
  {
    seq(|batch|, k requires 0 <= k < |batch| => Result(batch[k], Duplicate))
  }

  /** The answer when the lease was not granted: done mutations are duplicates, the others failed. */
  function NotGranted(batch: seq<int>, done: set<int>, busy: bool): (rs: seq<Result>)
    ensures |rs| == |batch|
    ensures forall k :: 0 <= k < |batch| ==> rs[k] == Result(batch[k], if batch[k] in done then Duplicate else Failed(busy))
  {
    seq(|batch|, k requires 0 <= k < |batch| => Result(batch[k], if batch[k] in done then Duplicate else Failed(busy)))
  }

  ghost function NewPush(t: Token, base: nat, batch: seq<int>, db: Db): Push {
    Push(t, base, batch, forall k :: 0 <= k < |batch| ==> IsDone(db.data, batch[k]), {}, [],
         if |batch| > MAX_BATCH then Replied(Refused) else CheckKeys(0))
  }

  predicate Holds(pc: PushPc) {
    pc == Applying || pc == Handling || pc.Finalizing?
  }

  /** One statement of a push request. */
  ghost function PushStep(p: Push, db: Db, choice: Choice): (Push, Db) {
    if p.pc.Dead? || p.pc.Replied? then (p, db)
    else if choice == Crash then (p.(pc := Dead), db)
    else match p.pc
      case CheckKeys(next) =>
        if next < |p.batch| then
          (p.(done := if IsDone(db.data, p.batch[next]) then p.done + {p.batch[next]} else p.done, pc := CheckKeys(next + 1)), db)
        else (p.(pc := if AllIn(p.batch, p.done) then AllDone else ReserveRead), db)
      case AllDone =>
        (p.(pc := Replied(if db.holder.Some? then Refused else Answer(Duplicates(p.batch), db.revision))), db)
      case ReserveRead =>
        if db.holder.Some? || db.revision != p.base then
          (p.(pc := Replied(Answer(NotGranted(p.batch, p.done, db.holder.Some?), db.revision))), db)
        else (p.(pc := ReserveCas), db)
      case ReserveCas =>
        if Grantable(db, p.base) then (p.(pc := Applying), Grant(db, p.token, p.base))
        else (p.(pc := ReserveReread), db)
      case ReserveReread =>
        (p.(pc := Replied(Answer(NotGranted(p.batch, p.done, db.holder.Some?), db.revision))), db)
      case Applying =>
        if choice == Throw then (p.(pc := Finalizing(true)), db)
        else if |p.results| >= |p.batch| then (p.(pc := Finalizing(false)), db)
        else
          var m := p.batch[|p.results|];
          if m in p.done || IsDone(db.data, m) then (p.(results := p.results + [Result(m, Duplicate)]), db)
          else if choice.Fail? then (p.(results := p.results + [Result(m, Failed(choice.retryable))]), db)
          else (p.(pc := Handling), db)
      case Handling =>
        if |p.results| >= |p.batch| then (p.(pc := Applying), db)
        else
          var m := p.batch[|p.results|];
          (match choice
           case Touch => (p, Write(db, p.token, Touched(m)))
           case Finish => (p.(results := p.results + [Result(m, Acked)], pc := Applying), Write(db, p.token, Applied(m)))
           case Fail(retryable) => (p.(results := p.results + [Result(m, Failed(retryable))], pc := Applying), db)
           case _ => (p, db))
      case Finalizing(threw) =>
        if db.holder != Some(p.token) then (p.(pc := Replied(Refused)), db)
        else (p.(pc := if threw then Replied(Refused) else FinalRead), Finalize(db, p.token))
      case FinalRead =>
        (p.(pc := Replied(if db.holder.Some? then Refused else Answer(p.results, db.revision))), db)
      case Replied(_) => (p, db)
      case Dead => (p, db)
  }

  /** Every acknowledged result names a mutation whose key is done. */
  ghost predicate AcksAreDone(results: seq<Result>, data: seq<Entry>) {
    forall k :: 0 <= k < |results| && !results[k].status.Failed? ==> IsDone(data, results[k].mutation)
  }

  /** One result for every mutation of the batch, in its order. */
  ghost predicate Covers(results: seq<Result>, batch: seq<int>) {
    |results| == |batch| && forall k :: 0 <= k < |batch| ==> results[k].mutation == batch[k]
  }

  /** A batch that was done from the start is on its way to being answered with duplicates only. */
  ghost predicate SettledPc(p: Push) {
    match p.pc
    case CheckKeys(next) => next <= |p.batch| && forall k :: 0 <= k < next ==> p.batch[k] in p.done
    case AllDone => true
    case Replied(reply) => reply.Refused? || reply.results == Duplicates(p.batch)
    case Dead => true
    case _ => false
  }

  ghost predicate PushOk(p: Push, db: Db) {
    && (forall m :: m in p.done ==> IsDone(db.data, m))
    && |p.results| <= |p.batch| && AcksAreDone(p.results, db.data)
    && (forall k :: 0 <= k < |p.results| ==> p.results[k].mutation == p.batch[k])
    && (p.pc.Replied? && p.pc.reply.Answer? ==> AcksAreDone(p.pc.reply.results, db.data) && Covers(p.pc.reply.results, p.batch))
    && (p.pc == Finalizing(false) || p.pc == FinalRead ==> |p.results| == |p.batch|)
    && (p.pc.AllDone? ==> AllIn(p.batch, p.done))
    && (Holds(p.pc) ==> db.holder == Some(p.token) && db.revision == p.base)
    && (p.pc.Handling? ==> |p.results| < |p.batch| && !IsDone(db.data, p.batch[|p.results|]))
    && (p.settled ==> SettledPc(p) && forall k :: 0 <= k < |p.batch| ==> IsDone(db.data, p.batch[k]))
  }

  /** Every row this request wrote, it wrote at its base revision. */
  ghost predicate WroteAtBase(p: Push, data: seq<Entry>) {
    forall i :: 0 <= i < |data| && data[i].token == p.token ==> data[i].revision == p.base
  }

  lemma AcksStay(results: seq<Result>, a: seq<Entry>, b: seq<Entry>)
    requires AcksAreDone(results, a) && a <= b
    ensures AcksAreDone(results, b)
  {
    forall k | 0 <= k < |results| && !results[k].status.Failed? ensures IsDone(b, results[k].mutation) {
      DoneStays(a, b, results[k].mutation);
    }
  }

  lemma HandlerWrites(p: Push, db: Db, what: What)
    requires LeaseOk(db) && OnceOk(db.data) && db.holder == Some(p.token)
    requires forall m: int :: About(what, m) ==> !IsDone(db.data, m)
    ensures var next := Write(db, p.token, what); LeaseOk(next) && OnceOk(next.data) && ActsAs(db, next, p.token)
  {
    WriteKeepsLease(db, p.token, what);
    OnceKept(db.data, Entry(p.token, db.revision, what));
  }

  /** Only three kinds of statement of a push touch the database. */
  lemma PushStepDb(p: Push, db: Db, choice: Choice)
    ensures var next := PushStep(p, db, choice).1;
      || next == db
      || (p.pc == ReserveCas && next == Grant(db, p.token, p.base))
      || (p.pc.Finalizing? && next == Finalize(db, p.token))
      || (p.pc == Handling && |p.results| < |p.batch|
          && (next == Write(db, p.token, Touched(p.batch[|p.results|])) || next == Write(db, p.token, Applied(p.batch[|p.results|]))))
  {
  }

  /** One statement of a push keeps the lease, the exactly-once history and the request's own invariant. */
  lemma PushStepKeeps(p: Push, db: Db, choice: Choice)
    requires LeaseOk(db) && OnceOk(db.data) && PushOk(p, db)
    ensures var next := PushStep(p, db, choice).1; LeaseOk(next) && OnceOk(next.data) && ActsAs(db, next, p.token)
  {
    PushStepDb(p, db, choice);
    GrantKeepsLease(db, p.token, p.base);
    FinalizeKeepsLease(db, p.token);
    if p.pc == Handling {
      HandlerWrites(p, db, Touched(p.batch[|p.results|]));
      HandlerWrites(p, db, Applied(p.batch[|p.results|]));
    }
  }

  lemma PushStepKeepsPush(p: Push, db: Db, choice: Choice)
    requires LeaseOk(db) && PushOk(p, db) && WroteAtBase(p, db.data)
    ensures var (q, next) := PushStep(p, db, choice);
      && q.token == p.token && q.base == p.base && PushOk(q, next) && WroteAtBase(q, next.data)
  {
    match p.pc {
      case CheckKeys(_) => CheckingKeepsPush(p, db, choice);
      case Applying => ApplyingKeepsPush(p, db, choice);
      case Handling => HandlingKeepsPush(p, db, choice);
      case _ => OtherwiseKeepsPush(p, db, choice);
    }
  }

  lemma CheckingKeepsPush(p: Push, db: Db, choice: Choice)
    requires PushOk(p, db) && p.pc.CheckKeys?
    ensures var (q, next) := PushStep(p, db, choice); next == db && q.token == p.token && q.base == p.base && PushOk(q, db)
  {
  }

  lemma ApplyingKeepsPush(p: Push, db: Db, choice: Choice)
    requires PushOk(p, db) && p.pc.Applying?
    ensures var (q, next) := PushStep(p, db, choice); next == db && q.token == p.token && q.base == p.base && PushOk(q, db)
  {
  }

  lemma OtherwiseKeepsPush(p: Push, db: Db, choice: Choice)
    requires PushOk(p, db) && !p.pc.CheckKeys? && !p.pc.Applying? && !p.pc.Handling?
    ensures var (q, next) := PushStep(p, db, choice);
      && next.data == db.data && q.token == p.token && q.base == p.base && PushOk(q, next)
  {
    var (q, next) := PushStep(p, db, choice);
    assert next.data == db.data && q.done == p.done && q.results == p.results && q.batch == p.batch && q.settled == p.settled;
  }

  lemma HandlingKeepsPush(p: Push, db: Db, choice: Choice)
    requires LeaseOk(db) && PushOk(p, db) && WroteAtBase(p, db.data) && p.pc.Handling?
    ensures var (q, next) := PushStep(p, db, choice);
      && q.token == p.token && q.base == p.base && PushOk(q, next) && WroteAtBase(q, next.data)
  {
    var (q, next) := PushStep(p, db, choice);
    var m := p.batch[|p.results|];
    DoneAfterWrite(db.data, Entry(p.token, db.revision, Touched(m)), m);
    DoneAfterWrite(db.data, Entry(p.token, db.revision, Applied(m)), m);
    assert db.data <= next.data;
    forall k | IsDone(db.data, k) ensures IsDone(next.data, k) { DoneStays(db.data, next.data, k); }
    AcksStay(p.results, db.data, next.data);
  }

  // ---- snapshot reads -----------------------------------------------------------------

  datatype SnapPc = FirstRead | Query | Served(revision: nat) | Unstable

  /** withStableWorkspaceRead; `need` are mutations known to be done when the read was requested. */
  datatype Snap = Snap(attempt: nat, before: nat, images: seq<seq<Entry>>, need: set<int>, pc: SnapPc)

  function NewSnap(need: set<int>): Snap {
    Snap(0, 0, [], need, FirstRead)
  }

  function NextAttempt(s: Snap): Snap {
    s.(attempt := s.attempt + 1, images := [], pc := if s.attempt + 1 < SNAPSHOT_ATTEMPTS then FirstRead else Unstable)
  }

  /** One statement of a snapshot read; `more` asks for another query before the second read. */
  function SnapStep(s: Snap, db: Db, more: bool): Snap {
    match s.pc
    case FirstRead => if db.holder.Some? then NextAttempt(s) else s.(before := db.revision, images := [], pc := Query)
    case Query =>
      if more then s.(images := s.images + [db.data])
      else if db.holder == None && db.revision == s.before then s.(pc := Served(s.before))
      else NextAttempt(s)
    case Served(_) => s
    case Unstable => s
  }

  ghost predicate EachDone(ms: set<int>, data: seq<Entry>) {
    forall m :: m in ms ==> IsDone(data, m)
  }

  ghost predicate AllImages(images: seq<seq<Entry>>, image: seq<Entry>) {
    forall k :: 0 <= k < |images| ==> images[k] == image
  }

  ghost predicate SnapOk(s: Snap, db: Db) {
    && EachDone(s.need, db.data)
    && (s.pc.Query? ==>
      && s.before <= db.revision && s.before < |db.committed| && EachDone(s.need, db.committed[s.before])
      && (s.before == db.revision && Clean(db) ==> AllImages(s.images, db.data)))
    && (s.pc.Served? ==>
      && s.pc.revision < |db.committed| && EachDone(s.need, db.committed[s.pc.revision])
      && AllImages(s.images, db.committed[s.pc.revision]))
  }

  // ---- other writers ------------------------------------------------------------------

  datatype WriterPc = Trying | Holding(wrote: bool) | Gone

  /** withWorkspaceWrite and the import route: one grant, writes, then finalize or abort. */
  datatype Writer = Writer(token: Token, pc: WriterPc)

  datatype WriterChoice = Acquire(expected: nat) | Put(what: What) | Commit | GiveBack | Die

  /** A writer aborts only when its one atomic batch failed, that is, when it wrote nothing. */
  function WriterStep(w: Writer, db: Db, choice: WriterChoice): (Writer, Db) {
    match (w.pc, choice)
    case (Trying, Acquire(expected)) =>
      if Grantable(db, expected) then (w.(pc := Holding(false)), Grant(db, w.token, expected)) else (w, db)
    case (Holding(_), Put(what)) =>
      if what.Written? || what.Restored? then (w.(pc := Holding(true)), Write(db, w.token, what)) else (w, db)
    case (Holding(_), Commit) => (w.(pc := Gone), Finalize(db, w.token))
    case (Holding(wrote), GiveBack) => if wrote then (w, db) else (w.(pc := Gone), Abort(db, w.token))
    case (_, Die) => (w.(pc := Gone), db)
    case _ => (w, db)
  }

  ghost predicate WriterOk(w: Writer, db: Db) {
    w.pc.Holding? ==> db.holder == Some(w.token) && (!w.pc.wrote ==> Clean(db))
  }

  lemma WriterStable(w: Writer, a: Db, b: Db)
    requires WriterOk(w, a) && (w.pc.Holding? ==> a == b)
    ensures WriterOk(w, b)
  {
  }

  lemma WriterStepKeeps(w: Writer, db: Db, choice: WriterChoice)
    requires LeaseOk(db) && OnceOk(db.data) && WriterOk(w, db)
    ensures var (v, next) := WriterStep(w, db, choice);
      && LeaseOk(next) && OnceOk(next.data) && ActsAs(db, next, w.token) && v.token == w.token && WriterOk(v, next)
  {
    match (w.pc, choice) {
      case (Trying, Acquire(expected)) => GrantKeepsLease(db, w.token, expected);
      case (Holding(_), Put(what)) =>
        WriteKeepsLease(db, w.token, what);
        if what.Written? || what.Restored? { OnceKept(db.data, Entry(w.token, db.revision, what)); }
      case (Holding(_), Commit) => FinalizeKeepsLease(db, w.token);
      case (Holding(_), GiveBack) => AbortKeepsLeaseIffClean(db, w.token);
      case _ =>
    }
  }
}
