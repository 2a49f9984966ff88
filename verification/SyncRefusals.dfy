/** Which mutations a device gives up, and why the server told it to. */
module SyncRefusals {
  import opened Numbers
  import opened WorkspaceLease
  import opened SyncServer
  import opened SyncOutbox
  import opened SyncProtocol

  /** The reply of this push tells the client to give the mutation up. */
  predicate RefusesForGood(p: Push, m: int) {
    p.pc.Replied? && p.pc.reply.Answer? && Result(m, Failed(false)) in p.pc.reply.results
  }

  /** Step n of the run is the statement with which some push refuses the mutation for good. */
  ghost predicate RefusedAt(steps: seq<Step>, n: nat, m: int) {
    && n < |steps| && steps[n].PushRuns? && steps[n].request in Run(steps[..n]).pushes
    && !Run(steps[..n]).pushes[steps[n].request].pc.Replied?
    && RefusesForGood(PushStep(Run(steps[..n]).pushes[steps[n].request], Run(steps[..n]).db, steps[n].choice).0, m)
  }

  ghost predicate WasRefused(steps: seq<Step>, m: int) {
    exists n: nat :: RefusedAt(steps, n, m)
  }

  lemma RefusalStays(steps: seq<Step>, step: Step, m: int)
    requires WasRefused(steps, m)
    ensures WasRefused(steps + [step], m)
  {
    var n: nat :| RefusedAt(steps, n, m);
    assert (steps + [step])[..n] == steps[..n] && (steps + [step])[n] == steps[n];
    assert RefusedAt(steps + [step], n, m);
  }

  // ---- what the server says -----------------------------------------------------------

  /** The statement reads the row to say why the lease was not granted. */
  predicate Explains(p: Push, db: Db) {
    p.pc == ReserveReread || (p.pc == ReserveRead && (db.holder.Some? || db.revision != p.base))
  }

  /**
   Without the lease a push answers duplicate for what it found done, and for the rest: try again if and only if
   another writer holds the lease at that moment.
   */
  lemma NotGrantedIsRetriedIffBusy(p: Push, db: Db, choice: Choice, k: nat)
    requires PushOk(p, db) && Explains(p, db) && choice != Crash && k < |p.batch|
    ensures var after := PushStep(p, db, choice).0;
      && after.pc.Replied? && after.pc.reply.Answer? && Covers(after.pc.reply.results, p.batch)
      && var status := after.pc.reply.results[k].status;
      && (p.batch[k] in p.done ==> status == Duplicate && IsDone(db.data, p.batch[k]))
      && (p.batch[k] !in p.done ==> status == Failed(exists t: Token :: db.holder == Some(t)))
  {
    if db.holder.Some? { assert db.holder == Some(db.holder.value); }
  }

  /** A verdict that a push collects under the lease is the handler's. */
  lemma VerdictIsTheHandlers(p: Push, db: Db, choice: Choice, m: int, retryable: bool)
    requires Result(m, Failed(retryable)) !in p.results && Result(m, Failed(retryable)) in PushStep(p, db, choice).0.results
    ensures choice == Fail(retryable) && Holds(p.pc) && |p.results| < |p.batch| && p.batch[|p.results|] == m
  {
  }

  /** The push refuses at a moment at which nobody holds the lease, or a handler refused under its own lease. */
  ghost predicate HasCause(p: Push, db: Db, m: int) {
    || (p.pc == FinalRead && Result(m, Failed(false)) in p.results)
    || (Explains(p, db) && db.holder == None && m !in p.done)
  }

  lemma RefusalHasCause(p: Push, db: Db, choice: Choice, m: int)
    requires PushOk(p, db) && !p.pc.Replied? && RefusesForGood(PushStep(p, db, choice).0, m)
    ensures HasCause(p, db, m) && db.holder == None
  {
    var results := PushStep(p, db, choice).0.pc.reply.results;
    var k :| 0 <= k < |results| && results[k] == Result(m, Failed(false));
    if Explains(p, db) { NotGrantedIsRetriedIffBusy(p, db, choice, k); }
  }

  // ---- what the device gives up -------------------------------------------------------

  /** Whatever the client gave up, or is about to, was refused for good. */
  ghost predicate Backed(steps: seq<Step>, client: Client) {
    && (forall m :: IsDeadLetter(client.outbox, m) ==> WasRefused(steps, m))
    && (client.pc.Processing? ==> forall m :: Result(m, Failed(false)) in client.pc.results ==> WasRefused(steps, m))
  }

  /** Every reply that refuses a mutation was given in a step of the run. */
  ghost predicate RepliesBacked(steps: seq<Step>, s: State) {
    forall t, m :: t in s.pushes && RefusesForGood(s.pushes[t], m) ==> WasRefused(steps, m)
  }

  lemma RepliesStayBacked(steps: seq<Step>, step: Step)
    requires RepliesBacked(steps, Run(steps))
    ensures RepliesBacked(steps + [step], Perform(Run(steps), step))
  {
    var s, u, all := Run(steps), Perform(Run(steps), step), steps + [step];
    assert all[..|steps|] == steps && all[|steps|] == step;
    forall t, m | t in u.pushes && RefusesForGood(u.pushes[t], m) ensures WasRefused(all, m) {
      if t in s.pushes && RefusesForGood(s.pushes[t], m) {
        RefusalStays(steps, step, m);
      } else {
        assert step.PushRuns? && step.request == t && t in s.pushes;
        assert RefusedAt(all, |steps|, m);
      }
    }
  }

  lemma SettlingIsBacked(steps: seq<Step>, client: Client)
    requires Backed(steps, client) && client.pc.Processing? && client.pc.next < |client.pc.results|
    ensures forall m :: IsDeadLetter(Settle(client.outbox, client.pc.results[client.pc.next]), m) ==> WasRefused(steps, m)
  {
    var result := client.pc.results[client.pc.next];
    forall m | IsDeadLetter(Settle(client.outbox, result), m) ensures WasRefused(steps, m) {
      assert [result][..0] == [] && SettleAll(client.outbox, [result]) == Settle(client.outbox, result);
      ResponseSettles(client.outbox, [result], m);
      if EndsFailed([result], m, false) { assert result == Result(m, Failed(false)); }
    }
  }

  lemma QueueingGivesUpNothing(rows: seq<Record>, id: int, m: int)
    ensures IsDeadLetter(rows + [Record(id, Waiting, 0)], m) ==> IsDeadLetter(rows, m)
    ensures IsDeadLetter(Revive(rows, id), m) ==> IsDeadLetter(rows, m)
  {
    var longer, revived := rows + [Record(id, Waiting, 0)], Revive(rows, id);
    if IsDeadLetter(longer, m) {
      var k :| 0 <= k < |longer| && longer[k].id == m && longer[k].status == DeadLetter;
      assert longer[k] == rows[k];
    }
    if IsDeadLetter(revived, m) {
      var k :| 0 <= k < |revived| && revived[k].id == m && revived[k].status == DeadLetter;
      assert revived[k] == ReviveRow(rows[k], id);
    }
  }

  /** Steps that neither deliver a reply nor work one off. */
  lemma OtherStepsGiveUpNothing(s: State, step: Step, c: int)
    requires step != ReceivePush(c) && step != ProcessResult(c)
    ensures var client, after := ClientOf(s, c), ClientOf(Perform(s, step), c);
      && (forall m :: IsDeadLetter(after.outbox, m) ==> IsDeadLetter(client.outbox, m))
      && (after.pc.Processing? ==> after.pc == client.pc)
  {
    var client, after := ClientOf(s, c), ClientOf(Perform(s, step), c);
    forall m | IsDeadLetter(after.outbox, m) ensures IsDeadLetter(client.outbox, m) {
      match step {
        case Enqueue(d, id) => QueueingGivesUpNothing(client.outbox, id, m);
        case RetryDeadLetter(d, id) => QueueingGivesUpNothing(client.outbox, id, m);
        case _ =>
      }
    }
  }

  lemma ReplyIsBacked(steps: seq<Step>, c: int)
    requires RepliesBacked(steps, Run(steps)) && Backed(steps, ClientOf(Run(steps), c))
    ensures Backed(steps, ClientOf(ReceiveReply(Run(steps), c), c))
  {
    var s := Run(steps);
    var client := ClientOf(s, c);
    if client.pc.AwaitPush? && client.pc.request in s.pushes && s.pushes[client.pc.request].pc.Replied? {
      var p := s.pushes[client.pc.request];
      if p.pc.reply.Answer? {
        forall m | Result(m, Failed(false)) in p.pc.reply.results ensures WasRefused(steps, m) { assert RefusesForGood(p, m); }
      }
    }
  }

  lemma ProcessIsBacked(steps: seq<Step>, c: int)
    requires Backed(steps, ClientOf(Run(steps), c))
    ensures Backed(steps, ClientOf(Process(Run(steps), c), c))
  {
    var client := ClientOf(Run(steps), c);
    if client.pc.Processing? && client.pc.next < |client.pc.results| { SettlingIsBacked(steps, client); }
  }

  lemma ClientStaysBacked(steps: seq<Step>, step: Step, c: int)
    requires RepliesBacked(steps, Run(steps)) && Backed(steps, ClientOf(Run(steps), c))
    ensures Backed(steps, ClientOf(Perform(Run(steps), step), c))
  {
    if step == ProcessResult(c) {
      ProcessIsBacked(steps, c);
    } else if step == ReceivePush(c) {
      ReplyIsBacked(steps, c);
    } else {
      OtherStepsGiveUpNothing(Run(steps), step, c);
    }
  }

  lemma {:induction false} EverythingIsBacked(steps: seq<Step>, c: int)
    ensures RepliesBacked(steps, Run(steps)) && Backed(steps, ClientOf(Run(steps), c))
  {
    if steps != [] {
      var before, step := steps[..|steps| - 1], steps[|steps| - 1];
      assert steps == before + [step];
      EverythingIsBacked(before, c);
      RepliesStayBacked(before, step);
      ClientStaysBacked(before, step, c);
      forall m | WasRefused(before, m) ensures WasRefused(steps, m) { RefusalStays(before, step, m); }
    }
  }

  /**
   In every run, each dead letter of each device was refused for good by a statement of some push, at a moment at
   which nobody held the lease, by a handler's verdict or for want of the lease. A busy server never costs an edit.
   */
  lemma DeadLettersWereRefused(steps: seq<Step>, c: int, m: int)
    requires IsDeadLetter(ClientOf(Run(steps), c).outbox, m)
    ensures exists n: nat ::
      RefusedAt(steps, n, m) && HasCause(Run(steps[..n]).pushes[steps[n].request], Run(steps[..n]).db, m) && Run(steps[..n]).db.holder == None
  {
    EverythingIsBacked(steps, c);
    var n: nat :| RefusedAt(steps, n, m);
    RunKeepsInv(steps[..n]);
    var s := Run(steps[..n]);
    assert PushOk(s.pushes[steps[n].request], s.db);
    RefusalHasCause(s.pushes[steps[n].request], s.db, steps[n].choice, m);
  }

  /** An idle device may retry what it gave up: exactly that mutation is pending again, and its next sync pushes it. */
  lemma RetriedIsPending(s: State, c: int, m: int, other: int)
    requires ClientOf(s, c).pc == Idle && IsDeadLetter(ClientOf(s, c).outbox, m)
    ensures var before, after := ClientOf(s, c), ClientOf(Perform(s, RetryDeadLetter(c, m)), c);
      && after == before.(outbox := after.outbox)
      && (IsPending(after.outbox, other) <==> IsPending(before.outbox, other) || other == m)
      && (IsDeadLetter(after.outbox, other) <==> IsDeadLetter(before.outbox, other) && other != m)
      && m in PendingIds(after.outbox)
  {
    var before := ClientOf(s, c).outbox;
    RevivedIff(before, m, other);
    RevivedIff(before, m, m);
    PendingMembers(Revive(before, m), m);
  }

  // ---- refused although nothing had changed -------------------------------------------

  /**
   A push without the lease refuses an unsettled mutation at its own base revision, for good, if and only if it lost
   the lease to a writer that has given it back without a revision before the row is read again.
   */
  lemma RefusedAtOwnBaseIff(p: Push, db: Db, choice: Choice, k: nat)
    requires PushOk(p, db) && Explains(p, db) && choice != Crash && k < |p.batch| && p.batch[k] !in p.done
    ensures var reply := PushStep(p, db, choice).0.pc.reply;
      reply.results[k].status == Failed(false) && reply.revision == p.base
      <==> p.pc == ReserveReread && db.holder == None && db.revision == p.base
  {
    NotGrantedIsRetriedIffBusy(p, db, choice, k);
  }

  lemma OneMore(steps: seq<Step>, step: Step) returns (longer: seq<Step>)
    ensures longer == steps + [step] && Run(longer) == Perform(Run(steps), step)
  {
    longer := steps + [step];
    assert longer[..|steps|] == steps;
  }

  function Waits(m: int): Client {
    Client([Record(m, Waiting, 0)], 0, Idle, {m}, {})
  }

  /** Device 1 pushes its one edit; `db`, the other writer and the push as given. */
  function Racing(m: int, db: Db, pc: PushPc, writer: WriterPc): State {
    State(db, 2, map[0 := Push(0, 0, [m], false, {}, [], pc)], map[], map[1 := Writer(1, writer)],
          map[1 := Waits(m).(pc := AwaitPush(0))], [])
  }

  lemma PushMoves(m: int, db: Db, pc: PushPc, writer: WriterPc, next: PushPc)
    requires PushStep(Push(0, 0, [m], false, {}, [], pc), db, Go) == (Push(0, 0, [m], false, {}, [], next), db)
    ensures Perform(Racing(m, db, pc, writer), PushRuns(0, Go)) == Racing(m, db, next, writer)
  {
  }

  lemma WriterMoves(m: int, db: Db, pc: PushPc, writer: WriterPc, move: WriterChoice, next: WriterPc, after: Db)
    requires WriterStep(Writer(1, writer), db, move) == (Writer(1, next), after)
    ensures Perform(Racing(m, db, pc, writer), WriterRuns(1, move)) == Racing(m, after, pc, next)
  {
  }

  lemma QueuedAndPushed(m: int) returns (steps: seq<Step>)
    ensures Run(steps) == Racing(m, FRESH, CheckKeys(0), Trying)
  {
    var p := Push(0, 0, [m], false, {}, [], CheckKeys(0));
    steps := OneMore([], Enqueue(1, m));
    assert Run([]) == START && START.clients[1 := Waits(m)] == map[1 := Waits(m)];
    assert NEW_CLIENT.outbox + [Record(m, Waiting, 0)] == Waits(m).outbox && NEW_CLIENT.made + {m} == Waits(m).made;
    assert Run(steps) == START.(clients := map[1 := Waits(m)]);
    steps := OneMore(steps, BeginSync(1));
    assert PendingIds([Record(m, Waiting, 0)]) == [m];
    assert NewPush(0, 0, [m], FRESH) == p by { assert !IsDone(FRESH.data, [m][0]); }
    assert Run(steps) == START.(next := 1, pushes := map[0 := p], clients := map[1 := Waits(m).(pc := AwaitPush(0))]);
    steps := OneMore(steps, NewWriter);
  }

  lemma PushFindsLeaseFree(m: int) returns (steps: seq<Step>)
    ensures Run(steps) == Racing(m, FRESH, ReserveCas, Trying)
  {
    assert !IsDone(FRESH.data, [m][0]);
    steps := QueuedAndPushed(m);
    PushMoves(m, FRESH, CheckKeys(0), Trying, CheckKeys(1));
    steps := OneMore(steps, PushRuns(0, Go));
    PushMoves(m, FRESH, CheckKeys(1), Trying, ReserveRead);
    steps := OneMore(steps, PushRuns(0, Go));
    PushMoves(m, FRESH, ReserveRead, Trying, ReserveCas);
    steps := OneMore(steps, PushRuns(0, Go));
  }

  lemma PushLosesRace(m: int) returns (steps: seq<Step>)
    ensures Run(steps) == Racing(m, FRESH, Replied(Answer([Result(m, Failed(false))], 0)), Gone)
  {
    var held := FRESH.(holder := Some(1));
    steps := PushFindsLeaseFree(m);
    WriterMoves(m, FRESH, ReserveCas, Trying, Acquire(0), Holding(false), held);
    steps := OneMore(steps, WriterRuns(1, Acquire(0)));
    PushMoves(m, held, ReserveCas, Holding(false), ReserveReread);
    steps := OneMore(steps, PushRuns(0, Go));
    WriterMoves(m, held, ReserveReread, Holding(false), GiveBack, Gone, FRESH);
    steps := OneMore(steps, WriterRuns(1, GiveBack));
    assert NotGranted([m], {}, false) == [Result(m, Failed(false))];
    PushMoves(m, FRESH, ReserveReread, Gone, Replied(Answer([Result(m, Failed(false))], 0)));
    steps := OneMore(steps, PushRuns(0, Go));
  }

  /** The other writer holds the lease just while the push asks for it; the edit is given up although nothing changed. */
  lemma LostRaceGivesUpTheEdit(m: int) returns (steps: seq<Step>)
    ensures Run(steps).db == FRESH && IsDeadLetter(ClientOf(Run(steps), 1).outbox, m)
  {
    var refused := [Result(m, Failed(false))];
    steps := PushLosesRace(m);
    steps := OneMore(steps, ReceivePush(1));
    assert ClientOf(Run(steps), 1) == Waits(m).(pc := Processing(refused, 0, 0)) && Run(steps).db == FRESH;
    steps := OneMore(steps, ProcessResult(1));
    assert ClientOf(Run(steps), 1).outbox == [Record(m, DeadLetter, 1)];
    assert ClientOf(Run(steps), 1).outbox[0].id == m;
  }
}
