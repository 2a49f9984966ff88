/**
 Any number of clients, push requests, snapshot reads and other writers against one workspace.
 A run is a sequence of steps; replies may be lost, workers and clients may stop at any statement.
 */
module SyncProtocol {
  import opened Numbers
  import opened WorkspaceLease
  import opened SyncServer
  import opened SyncOutbox

  datatype ClientPc =
    | Idle
    | AwaitPush(request: Token)
    | Processing(results: seq<Result>, next: nat, revision: nat)
    | AwaitSnapshot(read: Token)

  /** `made` is every mutation the device ever queued, `removed` what sync runs took out of the outbox. */
  datatype Client = Client(outbox: seq<Record>, known: nat, pc: ClientPc, made: set<int>, removed: set<int>)

  /** A snapshot that a client wrote over its local tables. */
  datatype Pull = Pull(made: set<int>, outbox: seq<Record>, revision: nat, images: seq<seq<Entry>>)

  datatype State = State(
    db: Db, next: Token, pushes: map<Token, Push>, snaps: map<Token, Snap>, writers: map<Token, Writer>,
    clients: map<int, Client>, pulls: seq<Pull>)

  datatype Step =
    | PushRuns(request: Token, choice: Choice)
    | SnapRuns(read: Token, more: bool)
    | NewWriter
    | WriterRuns(writer: Token, move: WriterChoice)
    | RecoverStale
    | Enqueue(client: int, mutation: int)
    | RetryDeadLetter(client: int, mutation: int)
    | BeginSync(client: int)
    | GiveUp(client: int)
    | ReceivePush(client: int)
    | ProcessResult(client: int)
    | ReceiveSnapshot(client: int)

  const START := State(FRESH, 0, map[], map[], map[], map[], [])

  const NEW_CLIENT := Client([], 0, Idle, {}, {})

  function ClientOf(s: State, c: int): Client {
    if c in s.clients then s.clients[c] else NEW_CLIENT
  }

  /** The lease was taken from its holder, who issues no further statement. */
  function Stopped(p: Push, holder: Option<Token>): Push {
    if holder == Some(p.token) then p.(pc := Dead) else p
  }

  function StoppedWriter(w: Writer, holder: Option<Token>): Writer {
    if holder == Some(w.token) then w.(pc := Gone) else w
  }

  function RequestSnapshot(s: State, c: int, client: Client): State {
    s.(next := s.next + 1, snaps := s.snaps[s.next := NewSnap(client.removed)],
       clients := s.clients[c := client.(pc := AwaitSnapshot(s.next))])
  }

  ghost function Begin(s: State, c: int): State {
    var client := ClientOf(s, c);
    if client.pc != Idle then s
    else
      var batch := PendingIds(client.outbox);
      if batch == [] then RequestSnapshot(s, c, client)
      else s.(next := s.next + 1, pushes := s.pushes[s.next := NewPush(s.next, client.known, batch, s.db)],
              clients := s.clients[c := client.(pc := AwaitPush(s.next))])
  }

  function ReceiveReply(s: State, c: int): State {
    var client := ClientOf(s, c);
    if client.pc.AwaitPush? && client.pc.request in s.pushes && s.pushes[client.pc.request].pc.Replied? then
      var reply := s.pushes[client.pc.request].pc.reply;
      s.(clients := s.clients[c := client.(pc := if reply.Refused? then Idle else Processing(reply.results, 0, reply.revision))])
    else s
  }

  /** One entry of the response, or, after the last one, the decision whether to pull. */
  function Process(s: State, c: int): State {
    var client := ClientOf(s, c);
    if !client.pc.Processing? then s
    else if client.pc.next < |client.pc.results| then
      var result := client.pc.results[client.pc.next];
      s.(clients := s.clients[c := client.(
        outbox := Settle(client.outbox, result),
        removed := if result.status.Failed? then client.removed else client.removed + {result.mutation},
        pc := client.pc.(next := client.pc.next + 1))])
    else
      var known := client.(known := client.pc.revision);
      if PendingIds(client.outbox) == [] then RequestSnapshot(s, c, known)
      else s.(clients := s.clients[c := known.(pc := Idle)])
  }

  function Receive(s: State, c: int): State {
    var client := ClientOf(s, c);
    if client.pc.AwaitSnapshot? && client.pc.read in s.snaps then
      var snap := s.snaps[client.pc.read];
      (match snap.pc
       case Served(revision) =>
         s.(clients := s.clients[c := client.(known := revision, pc := Idle)],
            pulls := s.pulls + [Pull(client.made, client.outbox, revision, snap.images)])
       case Unstable => s.(clients := s.clients[c := client.(pc := Idle)])
       case _ => s)
    else s
  }

  ghost function Perform(s: State, step: Step): State {
    match step
    case PushRuns(t, choice) =>
      if t in s.pushes then var (p, db) := PushStep(s.pushes[t], s.db, choice); s.(db := db, pushes := s.pushes[t := p]) else s
    case SnapRuns(t, more) =>
      if t in s.snaps then s.(snaps := s.snaps[t := SnapStep(s.snaps[t], s.db, more)]) else s
    case NewWriter => s.(next := s.next + 1, writers := s.writers[s.next := Writer(s.next, Trying)])
    case WriterRuns(t, move) =>
      if t in s.writers then var (w, db) := WriterStep(s.writers[t], s.db, move); s.(db := db, writers := s.writers[t := w]) else s
    case RecoverStale =>
      s.(db := Recover(s.db),
         pushes := map t | t in s.pushes :: Stopped(s.pushes[t], s.db.holder),
         writers := map t | t in s.writers :: StoppedWriter(s.writers[t], s.db.holder))
    case Enqueue(c, m) =>
      var client := ClientOf(s, c);
      if client.pc != Idle || Has(client.outbox, m) then s
      else s.(clients := s.clients[c := client.(outbox := client.outbox + [Record(m, Waiting, 0)], made := client.made + {m})])
    case RetryDeadLetter(c, m) =>
      var client := ClientOf(s, c);
      if client.pc != Idle then s else s.(clients := s.clients[c := client.(outbox := Revive(client.outbox, m))])
    case BeginSync(c) => Begin(s, c)
    case GiveUp(c) => s.(clients := s.clients[c := ClientOf(s, c).(pc := Idle)])
    case ReceivePush(c) => ReceiveReply(s, c)
    case ProcessResult(c) => Process(s, c)
    case ReceiveSnapshot(c) => Receive(s, c)
  }

  ghost function Run(steps: seq<Step>): State {
    if steps == [] then START else Perform(Run(steps[..|steps| - 1]), steps[|steps| - 1])
  }

  // ---- the invariant ------------------------------------------------------------------

  ghost predicate DbInv(s: State) {
    && LeaseOk(s.db) && OnceOk(s.db.data)
    && (s.db.holder.Some? ==> s.db.holder.value < s.next)
    && (forall i :: 0 <= i < |s.db.data| ==> s.db.data[i].token < s.next)
  }

  ghost predicate PushInv(s: State) {
    forall t <- s.pushes :: t < s.next && t !in s.writers && s.pushes[t].token == t && PushOk(s.pushes[t], s.db) && WroteAtBase(s.pushes[t], s.db.data)
  }

  ghost predicate SnapInv(s: State) {
    forall t <- s.snaps :: t < s.next && SnapOk(s.snaps[t], s.db)
  }

  ghost predicate WriterInv(s: State) {
    forall t <- s.writers :: t < s.next && s.writers[t].token == t && WriterOk(s.writers[t], s.db)
  }

  /** The device has lost track of none of its mutations. */
  ghost predicate Accounted(client: Client) {
    forall m :: m in client.made ==> Has(client.outbox, m) || m in client.removed
  }

  ghost predicate ClientOk(client: Client, snaps: map<Token, Snap>, db: Db) {
    && EachDone(client.removed, db.data)
    && Accounted(client)
    && (client.pc.Processing? ==> AcksAreDone(client.pc.results, db.data))
    && (client.pc.AwaitSnapshot? ==>
      client.pc.read in snaps && snaps[client.pc.read].need == client.removed && PendingIds(client.outbox) == [])
  }

  ghost predicate ClientInv(s: State) {
    forall c <- s.clients :: ClientOk(s.clients[c], s.snaps, s.db)
  }

  /** A pull overwrote nothing that had not reached the server by the snapshot's revision. */
  ghost predicate PullOk(p: Pull, db: Db) {
    && p.revision < |db.committed|
    && PendingIds(p.outbox) == []
    && (forall m :: m in p.made ==> IsDeadLetter(p.outbox, m) || IsDone(db.committed[p.revision], m))
    && AllImages(p.images, db.committed[p.revision])
  }

  ghost predicate PullInv(s: State) {
    forall k :: 0 <= k < |s.pulls| ==> PullOk(s.pulls[k], s.db)
  }

  ghost predicate Inv(s: State) {
    DbInv(s) && PushInv(s) && SnapInv(s) && WriterInv(s) && ClientInv(s) && PullInv(s)
  }

  // ---- a step of one request leaves the others alone ----------------------------------

  lemma OtherPushesStable(s: State, db: Db, t: Token)
    requires PushInv(s) && ActsAs(s.db, db, t)
    ensures forall u :: u in s.pushes && u != t ==> PushOk(s.pushes[u], db) && WroteAtBase(s.pushes[u], db.data)
  {
    forall u | u in s.pushes && u != t ensures PushOk(s.pushes[u], db) && WroteAtBase(s.pushes[u], db.data) {
    }
  }

  lemma OtherWritersStable(s: State, db: Db, t: Token)
    requires WriterInv(s) && ActsAs(s.db, db, t)
    ensures forall u :: u in s.writers && u != t ==> WriterOk(s.writers[u], db)
  {
    forall u | u in s.writers && u != t ensures WriterOk(s.writers[u], db) {
      WriterStable(s.writers[u], s.db, db);
    }
  }

  lemma SnapsStable(s: State, db: Db)
    requires SnapInv(s) && LeaseOk(s.db) && LeaseOk(db) && Evolves(s.db, db)
    ensures forall t :: t in s.snaps ==> SnapOk(s.snaps[t], db)
  {
    forall t | t in s.snaps ensures SnapOk(s.snaps[t], db) { }
  }

  lemma ClientsStable(s: State, db: Db)
    requires ClientInv(s) && s.db.data <= db.data
    ensures forall c :: c in s.clients ==> ClientOk(s.clients[c], s.snaps, db)
  {
    forall c | c in s.clients ensures ClientOk(s.clients[c], s.snaps, db) { }
  }

  lemma PullsStable(s: State, db: Db)
    requires PullInv(s) && s.db.committed <= db.committed
    ensures forall k :: 0 <= k < |s.pulls| ==> PullOk(s.pulls[k], db)
  {
    forall k | 0 <= k < |s.pulls| ensures PullOk(s.pulls[k], db) {
      assert db.committed[s.pulls[k].revision] == s.db.committed[s.pulls[k].revision];
    }
  }

  /** A statement that touches none of them keeps reads, clients and pulls. */
  lemma RestStable(s: State, u: State)
    requires Inv(s) && LeaseOk(u.db) && Evolves(s.db, u.db) && s.db.data <= u.db.data && s.db.committed <= u.db.committed
    requires u.snaps == s.snaps && u.clients == s.clients && u.pulls == s.pulls && u.next == s.next
    ensures SnapInv(u) && ClientInv(u) && PullInv(u)
  {
    SnapsStable(s, u.db);
    ClientsStable(s, u.db);
    PullsStable(s, u.db);
  }

  lemma PushKeepsPushes(s: State, t: Token, choice: Choice)
    requires Inv(s) && t in s.pushes
    ensures PushInv(Perform(s, PushRuns(t, choice)))
  {
    var (p, db) := PushStep(s.pushes[t], s.db, choice);
    PushStepKeeps(s.pushes[t], s.db, choice);
    PushStepKeepsPush(s.pushes[t], s.db, choice);
    OtherPushesStable(s, db, t);
  }

  lemma PushRunsKeeps(s: State, t: Token, choice: Choice)
    requires Inv(s) && t in s.pushes
    ensures Inv(Perform(s, PushRuns(t, choice)))
  {
    var (p, db) := PushStep(s.pushes[t], s.db, choice);
    PushStepKeeps(s.pushes[t], s.db, choice);
    PushKeepsPushes(s, t, choice);
    OtherWritersStable(s, db, t);
    RestStable(s, Perform(s, PushRuns(t, choice)));
  }

  lemma WriterRunsKeeps(s: State, t: Token, move: WriterChoice)
    requires Inv(s) && t in s.writers
    ensures Inv(Perform(s, WriterRuns(t, move)))
  {
    var (w, db) := WriterStep(s.writers[t], s.db, move);
    WriterStepKeeps(s.writers[t], s.db, move);
    OtherPushesStable(s, db, t);
    OtherWritersStable(s, db, t);
    RestStable(s, Perform(s, WriterRuns(t, move)));
  }

  lemma SnapRunsKeeps(s: State, t: Token, more: bool)
    requires Inv(s) && t in s.snaps
    ensures Inv(Perform(s, SnapRuns(t, more)))
  {
  }

  lemma StoppedPushOk(p: Push, db: Db)
    requires PushOk(p, db) && WroteAtBase(p, db.data) && LeaseOk(db)
    ensures PushOk(Stopped(p, db.holder), Recover(db)) && WroteAtBase(Stopped(p, db.holder), Recover(db).data)
  {
    RecoverKeepsLease(db);
    var q := Stopped(p, db.holder);
    assert Recover(db).data == db.data;
  }

  lemma RecoveredPushes(s: State)
    requires Inv(s)
    ensures PushInv(Perform(s, RecoverStale))
  {
    forall t | t in s.pushes
      ensures PushOk(Stopped(s.pushes[t], s.db.holder), Recover(s.db)) && WroteAtBase(Stopped(s.pushes[t], s.db.holder), Recover(s.db).data)
    {
      StoppedPushOk(s.pushes[t], s.db);
    }
  }

  lemma RecoveredWriters(s: State)
    requires Inv(s)
    ensures WriterInv(Perform(s, RecoverStale))
  {
    RecoverKeepsLease(s.db);
  }

  lemma RecoverStaleKeeps(s: State)
    requires Inv(s)
    ensures Inv(Perform(s, RecoverStale))
  {
    RecoverKeepsLease(s.db);
    RecoveredPushes(s);
    RecoveredWriters(s);
    RestStable(s, Perform(s, RecoverStale));
  }

  lemma NewWriterKeeps(s: State)
    requires Inv(s)
    ensures Inv(Perform(s, NewWriter))
  {
  }

  // ---- client steps -------------------------------------------------------------------

  lemma SetClientKeeps(s: State, c: int, client: Client)
    requires Inv(s) && ClientOk(client, s.snaps, s.db)
    ensures Inv(s.(clients := s.clients[c := client]))
  {
  }

  lemma ClientOfOk(s: State, c: int)
    requires Inv(s)
    ensures ClientOk(ClientOf(s, c), s.snaps, s.db)
  {
  }

  lemma RequestSnapshotKeeps(s: State, c: int, client: Client)
    requires Inv(s) && EachDone(client.removed, s.db.data) && PendingIds(client.outbox) == []
    requires Accounted(client)
    ensures Inv(RequestSnapshot(s, c, client))
  {
    var t := RequestSnapshot(s, c, client);
    assert s.next !in s.snaps;
    forall d | d in t.clients ensures ClientOk(t.clients[d], t.snaps, t.db) {
      if d != c { assert ClientOk(s.clients[d], s.snaps, s.db); }
    }
  }

  lemma BeginKeeps(s: State, c: int)
    requires Inv(s)
    ensures Inv(Begin(s, c))
  {
    var client := ClientOf(s, c);
    if client.pc == Idle {
      var batch := PendingIds(client.outbox);
      ClientOfOk(s, c);
      if batch == [] {
        RequestSnapshotKeeps(s, c, client);
      } else {
        var t := s.(next := s.next + 1, pushes := s.pushes[s.next := NewPush(s.next, client.known, batch, s.db)]);
        assert Inv(t);
        SetClientKeeps(t, c, client.(pc := AwaitPush(s.next)));
      }
    }
  }

  lemma ReceiveReplyKeeps(s: State, c: int)
    requires Inv(s)
    ensures Inv(ReceiveReply(s, c))
  {
    var client := ClientOf(s, c);
    ClientOfOk(s, c);
    if client.pc.AwaitPush? && client.pc.request in s.pushes && s.pushes[client.pc.request].pc.Replied? {
      var p := s.pushes[client.pc.request];
      assert PushOk(p, s.db);
      SetClientKeeps(s, c, client.(pc := if p.pc.reply.Refused? then Idle else Processing(p.pc.reply.results, 0, p.pc.reply.revision)));
    }
  }

  lemma ProcessKeeps(s: State, c: int)
    requires Inv(s)
    ensures Inv(Process(s, c))
  {
    var client := ClientOf(s, c);
    ClientOfOk(s, c);
    if client.pc.Processing? {
      if client.pc.next < |client.pc.results| {
        var result := client.pc.results[client.pc.next];
        forall m | m in client.made && Has(client.outbox, m)
          ensures Has(Settle(client.outbox, result), m) || (!result.status.Failed? && m == result.mutation)
        {
          SettleMembers(client.outbox, result, m);
        }
        SetClientKeeps(s, c, client.(
          outbox := Settle(client.outbox, result),
          removed := if result.status.Failed? then client.removed else client.removed + {result.mutation},
          pc := client.pc.(next := client.pc.next + 1)));
      } else if PendingIds(client.outbox) == [] {
        RequestSnapshotKeeps(s, c, client.(known := client.pc.revision));
      } else {
        SetClientKeeps(s, c, client.(known := client.pc.revision, pc := Idle));
      }
    }
  }

  lemma NewPullOk(s: State, client: Client, revision: nat)
    requires Inv(s) && ClientOk(client, s.snaps, s.db) && client.pc.AwaitSnapshot? && s.snaps[client.pc.read].pc == Served(revision)
    ensures PullOk(Pull(client.made, client.outbox, revision, s.snaps[client.pc.read].images), s.db)
  {
    assert SnapOk(s.snaps[client.pc.read], s.db);
    forall m | m in client.made ensures IsDeadLetter(client.outbox, m) || IsDone(s.db.committed[revision], m) {
      if m !in client.removed { OnlyDeadLettersLeft(client.outbox, m); }
    }
  }

  lemma ReceiveKeeps(s: State, c: int)
    requires Inv(s)
    ensures Inv(Receive(s, c))
  {
    var client := ClientOf(s, c);
    ClientOfOk(s, c);
    if client.pc.AwaitSnapshot? {
      match s.snaps[client.pc.read].pc {
        case Served(revision) =>
          NewPullOk(s, client, revision);
          SetClientKeeps(s, c, client.(known := revision, pc := Idle));
        case Unstable => SetClientKeeps(s, c, client.(pc := Idle));
        case _ =>
      }
    }
  }

  lemma EnqueueKeeps(s: State, c: int, m: int)
    requires Inv(s)
    ensures Inv(Perform(s, Enqueue(c, m)))
  {
    var client := ClientOf(s, c);
    ClientOfOk(s, c);
    if client.pc == Idle && !Has(client.outbox, m) {
      var after := client.(outbox := client.outbox + [Record(m, Waiting, 0)], made := client.made + {m});
      forall id | id in after.made ensures Has(after.outbox, id) || id in after.removed {
        if Has(client.outbox, id) {
          var k :| 0 <= k < |client.outbox| && client.outbox[k].id == id;
          assert after.outbox[k].id == id;
        }
        assert after.outbox[|client.outbox|].id == m;
      }
      SetClientKeeps(s, c, after);
    }
  }

  lemma ReviveKeeps(s: State, c: int, m: int)
    requires Inv(s)
    ensures Inv(Perform(s, RetryDeadLetter(c, m)))
  {
    var client := ClientOf(s, c);
    ClientOfOk(s, c);
    if client.pc == Idle {
      var after := client.(outbox := Revive(client.outbox, m));
      forall id | id in after.made ensures Has(after.outbox, id) || id in after.removed {
        if Has(client.outbox, id) {
          var k :| 0 <= k < |client.outbox| && client.outbox[k].id == id;
          assert after.outbox[k].id == id;
        }
      }
      SetClientKeeps(s, c, after);
    }
  }

  lemma StepKeepsInv(s: State, step: Step)
    requires Inv(s)
    ensures Inv(Perform(s, step))
  {
    match step {
      case PushRuns(t, choice) => if t in s.pushes { PushRunsKeeps(s, t, choice); }
      case SnapRuns(t, more) => if t in s.snaps { SnapRunsKeeps(s, t, more); }
      case NewWriter => NewWriterKeeps(s);
      case WriterRuns(t, move) => if t in s.writers { WriterRunsKeeps(s, t, move); }
      case RecoverStale => RecoverStaleKeeps(s);
      case Enqueue(c, m) => EnqueueKeeps(s, c, m);
      case RetryDeadLetter(c, m) => ReviveKeeps(s, c, m);
      case BeginSync(c) => BeginKeeps(s, c);
      case GiveUp(c) =>
        ClientOfOk(s, c);
        SetClientKeeps(s, c, ClientOf(s, c).(pc := Idle));
      case ReceivePush(c) => ReceiveReplyKeeps(s, c);
      case ProcessResult(c) => ProcessKeeps(s, c);
      case ReceiveSnapshot(c) => ReceiveKeeps(s, c);
    }
  }

  /** The invariant holds after every run. */
  lemma {:induction false} RunKeepsInv(steps: seq<Step>)
    ensures Inv(Run(steps)) && LeaseOk(Run(steps).db) && OnceOk(Run(steps).db.data)
  {
    if steps != [] {
      RunKeepsInv(steps[..|steps| - 1]);
      StepKeepsInv(Run(steps[..|steps| - 1]), steps[|steps| - 1]);
    }
  }
}
