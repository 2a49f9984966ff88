/** Nothing in the protocol stands in the way of a sync that is left alone: it applies, answers, settles and pulls. */
module SyncProgress {
  import opened Numbers
  import opened WorkspaceLease
  import opened SyncServer
  import opened SyncOutbox
  import opened SyncProtocol

  // ---- a push that is left alone ------------------------------------------------------

  ghost function PushRun(p: Push, db: Db, choices: seq<Choice>): (Push, Db)
    decreases |choices|
  {
    if choices == [] then (p, db)
    else
      var n := |choices| - 1;
      var (q, d) := PushRun(p, db, choices[..n]);
      PushStep(q, d, choices[n])
  }

  lemma OneChoice(p: Push, db: Db, choices: seq<Choice>, choice: Choice) returns (longer: seq<Choice>)
    ensures longer == choices + [choice]
    ensures var (q, d) := PushRun(p, db, choices); PushRun(p, db, longer) == PushStep(q, d, choice)
  {
    longer := choices + [choice];
    assert longer[..|choices|] == choices;
  }

  /** The keys of the first k mutations were looked up. */
  ghost predicate Checked(p: Push, q: Push, db: Db, k: nat) {
    && k <= |p.batch| && q == p.(done := q.done, pc := CheckKeys(k))
    && forall m :: m in q.done <==> m in p.batch[..k] && IsDone(db.data, m)
  }

  lemma {:induction false} KeysAreChecked(p: Push, db: Db, k: nat) returns (choices: seq<Choice>)
    requires p.pc == CheckKeys(0) && p.done == {} && k <= |p.batch|
    ensures var (q, d) := PushRun(p, db, choices); d == db && Checked(p, q, db, k)
  {
    if k == 0 {
      choices := [];
    } else {
      choices := KeysAreChecked(p, db, k - 1);
      choices := OneChoice(p, db, choices, Go);
      assert p.batch[..k] == p.batch[..k - 1] + [p.batch[k - 1]];
    }
  }

  /**
   Mutations that were done before the push are duplicates, the `refused` ones fail as said, and of the others the first
   entry is applied and any repetition a duplicate.
   */
  ghost predicate Told(results: seq<Result>, batch: seq<int>, data: seq<Entry>, refused: map<int, bool>) {
    && |results| <= |batch|
    && forall k :: 0 <= k < |results| ==>
        results[k] == Result(batch[k],
          if IsDone(data, batch[k]) then Duplicate
          else if batch[k] in refused then Failed(refused[batch[k]])
          else if batch[k] in batch[..k] then Duplicate else Acked)
  }

  /** Under the lease, the first k mutations of the batch were handled; q is the push, d the row and the data. */
  ghost predicate Handled(p: Push, db: Db, q: Push, d: Db, k: nat, refused: map<int, bool>) {
    && q.token == p.token && q.base == p.base && q.batch == p.batch && q.pc == Applying
    && (forall m :: m in q.done ==> IsDone(db.data, m))
    && |q.results| == k <= |p.batch| && Told(q.results, p.batch, db.data, refused)
    && d.revision == db.revision && d.holder == Some(p.token) && d.committed == db.committed && db.data <= d.data
    && forall m :: IsDone(d.data, m) <==> IsDone(db.data, m) || (m in p.batch[..k] && m !in refused)
  }

  /** With the keys looked up and something left to do, three statements take the lease. */
  lemma ThreeTakeLease(p: Push, q: Push, db: Db, refused: map<int, bool>)
    requires Checked(p, q, db, |p.batch|) && p.results == [] && db.holder == None && db.revision == p.base
    requires exists k :: 0 <= k < |p.batch| && !IsDone(db.data, p.batch[k])
    ensures PushStep(q, db, Go) == (q.(pc := ReserveRead), db)
    ensures PushStep(q.(pc := ReserveRead), db, Go) == (q.(pc := ReserveCas), db)
    ensures PushStep(q.(pc := ReserveCas), db, Go) == (q.(pc := Applying), db.(holder := Some(p.token)))
    ensures Handled(p, db, q.(pc := Applying), db.(holder := Some(p.token)), 0, refused)
  {
    var k :| 0 <= k < |p.batch| && !IsDone(db.data, p.batch[k]);
    assert p.batch[k] !in q.done;
  }

  lemma LeaseIsTaken(p: Push, db: Db, refused: map<int, bool>) returns (choices: seq<Choice>)
    requires p.pc == CheckKeys(0) && p.done == {} && p.results == [] && db.holder == None && db.revision == p.base
    requires exists k :: 0 <= k < |p.batch| && !IsDone(db.data, p.batch[k])
    ensures var (q, d) := PushRun(p, db, choices); Handled(p, db, q, d, 0, refused)
  {
    choices := KeysAreChecked(p, db, |p.batch|);
    var (q, d) := PushRun(p, db, choices);
    ThreeTakeLease(p, q, db, refused);
    choices := ThreeChoices(p, db, choices, q.(pc := ReserveRead), db, q.(pc := ReserveCas), db);
  }

  /** Three statements that go well, with what the first two lead to. */
  lemma ThreeChoices(p: Push, db: Db, choices: seq<Choice>, q1: Push, d1: Db, q2: Push, d2: Db) returns (longer: seq<Choice>)
    requires var (q, d) := PushRun(p, db, choices); PushStep(q, d, Go) == (q1, d1)
    requires PushStep(q1, d1, Go) == (q2, d2)
    ensures PushRun(p, db, longer) == PushStep(q2, d2, Go)
  {
    longer := OneChoice(p, db, choices, Go);
    longer := OneChoice(p, db, longer, Go);
    longer := OneChoice(p, db, longer, Go);
  }

  /** One more entry of the answer. */
  lemma ToldNext(results: seq<Result>, batch: seq<int>, data: seq<Entry>, refused: map<int, bool>, status: Status)
    requires Told(results, batch, data, refused) && |results| < |batch|
    requires var m := batch[|results|];
      status == if IsDone(data, m) then Duplicate else if m in refused then Failed(refused[m])
                else if m in batch[..|results|] then Duplicate else Acked
    ensures Told(results + [Result(batch[|results|], status)], batch, data, refused)
  {
  }

  lemma NextIsDuplicate(p: Push, db: Db, q: Push, d: Db, k: nat, refused: map<int, bool>)
    requires Handled(p, db, q, d, k, refused) && k < |p.batch| && IsDone(d.data, p.batch[k])
    ensures var (q', d') := PushStep(q, d, Go); Handled(p, db, q', d', k + 1, refused)
  {
    var m := p.batch[k];
    assert PushStep(q, d, Go) == (q.(results := q.results + [Result(m, Duplicate)]), d);
    ToldNext(q.results, p.batch, db.data, refused, Duplicate);
    assert p.batch[..k + 1] == p.batch[..k] + [m];
  }

  /** A mutation that is refused before or by its handler is reported as such, and the push goes on with the next. */
  lemma FailureIsReported(p: Push, db: Db, retryable: bool)
    requires (p.pc == Applying || p.pc == Handling) && |p.results| < |p.batch|
    requires var m := p.batch[|p.results|]; p.pc == Applying ==> m !in p.done && !IsDone(db.data, m)
    ensures var m := p.batch[|p.results|];
      PushStep(p, db, Fail(retryable)) == (p.(results := p.results + [Result(m, Failed(retryable))], pc := Applying), db)
  {
  }

  lemma NextIsRefused(p: Push, db: Db, q: Push, d: Db, k: nat, refused: map<int, bool>)
    requires Handled(p, db, q, d, k, refused) && k < |p.batch| && !IsDone(d.data, p.batch[k]) && p.batch[k] in refused
    ensures var (h, e) := PushStep(q, d, Go);
      var (q', d') := PushStep(h, e, Fail(refused[p.batch[k]]));
      Handled(p, db, q', d', k + 1, refused)
  {
    assert p.batch[..k + 1] == p.batch[..k] + [p.batch[k]];
    assert PushStep(q, d, Go) == (q.(pc := Handling), d);
    FailureIsReported(q.(pc := Handling), d, refused[p.batch[k]]);
  }

  lemma NextIsApplied(p: Push, db: Db, q: Push, d: Db, k: nat, refused: map<int, bool>)
    requires Handled(p, db, q, d, k, refused) && k < |p.batch| && !IsDone(d.data, p.batch[k]) && p.batch[k] !in refused
    ensures var (h, e) := PushStep(q, d, Go);
      var (q', d') := PushStep(h, e, Finish);
      Handled(p, db, q', d', k + 1, refused)
  {
    var m := p.batch[k];
    assert p.batch[..k + 1] == p.batch[..k] + [m];
    var (h, e) := PushStep(q, d, Go);
    assert e == d && h == q.(pc := Handling);
    var (q', d') := PushStep(h, e, Finish);
    assert d' == Write(d, p.token, Applied(m)) && q' == q.(results := q.results + [Result(m, Acked)]);
    forall x ensures IsDone(d'.data, x) <==> IsDone(d.data, x) || x == m {
      DoneAfterWrite(d.data, Entry(p.token, d.revision, Applied(m)), x);
    }
  }

  lemma {:induction false} BatchIsHandled(p: Push, db: Db, k: nat, refused: map<int, bool>) returns (choices: seq<Choice>)
    requires p.pc == CheckKeys(0) && p.done == {} && p.results == [] && db.holder == None && db.revision == p.base && k <= |p.batch|
    requires exists k :: 0 <= k < |p.batch| && !IsDone(db.data, p.batch[k])
    ensures var (q, d) := PushRun(p, db, choices); Handled(p, db, q, d, k, refused)
  {
    if k == 0 {
      choices := LeaseIsTaken(p, db, refused);
    } else {
      choices := BatchIsHandled(p, db, k - 1, refused);
      var (q, d) := PushRun(p, db, choices);
      if IsDone(d.data, p.batch[k - 1]) {
        NextIsDuplicate(p, db, q, d, k - 1, refused);
        choices := OneChoice(p, db, choices, Go);
      } else {
        choices := OneChoice(p, db, choices, Go);
        if p.batch[k - 1] in refused {
          NextIsRefused(p, db, q, d, k - 1, refused);
          choices := OneChoice(p, db, choices, Fail(refused[p.batch[k - 1]]));
        } else {
          NextIsApplied(p, db, q, d, k - 1, refused);
          choices := OneChoice(p, db, choices, Finish);
        }
      }
    }
  }

  /** With the whole batch handled, three statements publish the data and answer. */
  lemma ThreeAnswer(p: Push, db: Db, q: Push, d: Db, refused: map<int, bool>)
    requires Handled(p, db, q, d, |p.batch|, refused)
    ensures PushStep(q, d, Go) == (q.(pc := Finalizing(false)), d)
    ensures PushStep(q.(pc := Finalizing(false)), d, Go) == (q.(pc := FinalRead), Publish(d))
    ensures PushStep(q.(pc := FinalRead), Publish(d), Go) == (q.(pc := Replied(Answer(q.results, db.revision + 1))), Publish(d))
  {
  }

  /** The push was answered: all of it but the refused is done, published as the next revision, and the lease is free. */
  ghost predicate Succeeded(p: Push, db: Db, q: Push, d: Db, refused: map<int, bool>) {
    && q.pc.Replied? && q.pc.reply.Answer? && q.pc.reply.revision == db.revision + 1
    && |q.pc.reply.results| == |p.batch| && Told(q.pc.reply.results, p.batch, db.data, refused)
    && d.holder == None && d.revision == db.revision + 1 && d.committed == db.committed + [d.data] && db.data <= d.data
    && forall m :: IsDone(d.data, m) <==> IsDone(db.data, m) || (m in p.batch && m !in refused)
  }

  /**
   A push at the published revision of an idle workspace, whose handlers finish or refuse: a refused mutation stops no
   other one. Everything else in the batch is done afterwards, applied or recognized as a duplicate, the data is
   published as the next revision, the lease is free, and the answer says of each entry what became of it.
   */
  lemma PushAloneSucceeds(p: Push, db: Db, refused: map<int, bool>) returns (choices: seq<Choice>)
    requires p.pc == CheckKeys(0) && p.done == {} && p.results == [] && db.holder == None && db.revision == p.base
    requires exists k :: 0 <= k < |p.batch| && !IsDone(db.data, p.batch[k])
    ensures var (q, d) := PushRun(p, db, choices); Succeeded(p, db, q, d, refused)
  {
    choices := BatchIsHandled(p, db, |p.batch|, refused);
    var (q, d) := PushRun(p, db, choices);
    assert p.batch[..|p.batch|] == p.batch;
    ThreeAnswer(p, db, q, d, refused);
    choices := ThreeChoices(p, db, choices, q.(pc := Finalizing(false)), d, q.(pc := FinalRead), Publish(d));
  }

  /** A batch that was done before is answered with duplicates at the published revision and changes nothing. */
  lemma RepeatedPushIsRecognized(p: Push, db: Db) returns (choices: seq<Choice>)
    requires p.pc == CheckKeys(0) && p.done == {} && db.holder == None
    requires forall k :: 0 <= k < |p.batch| ==> IsDone(db.data, p.batch[k])
    ensures var (q, d) := PushRun(p, db, choices); d == db && q.pc == Replied(Answer(Duplicates(p.batch), db.revision))
  {
    choices := KeysAreChecked(p, db, |p.batch|);
    assert p.batch[..|p.batch|] == p.batch;
    choices := OneChoice(p, db, choices, Go);
    choices := OneChoice(p, db, choices, Go);
  }

  // ---- steps of a run -----------------------------------------------------------------

  lemma OneMore(steps: seq<Step>, step: Step) returns (longer: seq<Step>)
    ensures longer == steps + [step] && Run(longer) == Perform(Run(steps), step)
  {
    longer := steps + [step];
    assert longer[..|steps|] == steps;
  }

  /** The statements of one push, as steps of a run. */
  lemma {:induction false} PushRunsAlone(steps: seq<Step>, t: Token, choices: seq<Choice>) returns (longer: seq<Step>)
    requires t in Run(steps).pushes
    ensures var s := Run(steps);
      var (p, db) := PushRun(s.pushes[t], s.db, choices);
      Run(longer) == s.(db := db, pushes := s.pushes[t := p])
  {
    var s := Run(steps);
    if choices == [] {
      longer := steps;
      assert s.pushes[t := s.pushes[t]] == s.pushes;
    } else {
      var n := |choices| - 1;
      longer := PushRunsAlone(steps, t, choices[..n]);
      var (p, db) := PushRun(s.pushes[t], s.db, choices[..n]);
      longer := OneMore(longer, PushRuns(t, choices[n]));
      assert s.pushes[t := p][t := PushStep(p, db, choices[n]).0] == s.pushes[t := PushStep(p, db, choices[n]).0];
    }
  }

  // ---- the client works off a response ------------------------------------------------

  function Confirmed(results: seq<Result>): set<int> {
    set k | 0 <= k < |results| && !results[k].status.Failed? :: results[k].mutation
  }

  /** After k entries of the response. */
  function WorkedOff(client: Client, k: nat): Client
    requires client.pc.Processing? && k <= |client.pc.results|
  {
    client.(outbox := SettleAll(client.outbox, client.pc.results[..k]), removed := client.removed + Confirmed(client.pc.results[..k]),
            pc := client.pc.(next := k))
  }

  lemma ConfirmedNext(results: seq<Result>, k: nat)
    requires k < |results|
    ensures Confirmed(results[..k + 1]) == Confirmed(results[..k]) + if results[k].status.Failed? then {} else {results[k].mutation}
  {
    assert results[..k + 1] == results[..k] + [results[k]];
    var longer := results[..k + 1];
    forall m | m in Confirmed(results[..k]) ensures m in Confirmed(longer) {
      var j :| 0 <= j < k && !results[..k][j].status.Failed? && results[..k][j].mutation == m;
      assert longer[j] == results[..k][j];
    }
    if !results[k].status.Failed? { assert longer[k].mutation == results[k].mutation; }
  }

  lemma OneIsWorkedOff(s: State, c: int, client: Client, k: nat)
    requires client.pc.Processing? && k < |client.pc.results|
    ensures Process(s.(clients := s.clients[c := WorkedOff(client, k)]), c) == s.(clients := s.clients[c := WorkedOff(client, k + 1)])
  {
    var next, results := WorkedOff(client, k), client.pc.results;
    ConfirmedNext(results, k);
    assert results[..k + 1][..k] == results[..k];
    assert Settle(next.outbox, results[k]) == SettleAll(client.outbox, results[..k + 1]);
    assert WorkedOff(client, k + 1).removed == if results[k].status.Failed? then next.removed else next.removed + {results[k].mutation};
    assert s.clients[c := next][c := WorkedOff(client, k + 1)] == s.clients[c := WorkedOff(client, k + 1)];
  }

  /** The client works through a response entry by entry; nothing can stop it half way but itself. */
  lemma {:induction false} EntriesAreWorkedOff(steps: seq<Step>, c: int, k: nat) returns (longer: seq<Step>)
    requires c in Run(steps).clients && Run(steps).clients[c].pc.Processing? && Run(steps).clients[c].pc.next == 0
    requires k <= |Run(steps).clients[c].pc.results|
    ensures var s := Run(steps); Run(longer) == s.(clients := s.clients[c := WorkedOff(s.clients[c], k)])
  {
    var s := Run(steps);
    var client := s.clients[c];
    if k == 0 {
      longer := steps;
      assert client.pc.results[..0] == [] && client.removed + Confirmed([]) == client.removed;
      assert WorkedOff(client, 0) == client && s.clients[c := client] == s.clients;
    } else {
      longer := EntriesAreWorkedOff(steps, c, k - 1);
      OneIsWorkedOff(s, c, client, k - 1);
      longer := OneMore(longer, ProcessResult(c));
    }
  }

  // ---- a whole sync -------------------------------------------------------------------

  /** The client gets an answer that confirms its whole batch. */
  ghost predicate Pushed(s: State, u: State, c: int, results: seq<Result>)
    requires c in s.clients
  {
    var client := s.clients[c];
    var batch := PendingIds(client.outbox);
    && u.snaps == s.snaps && u.pulls == s.pulls
    && u.clients == s.clients[c := client.(pc := Processing(results, 0, s.db.revision + 1))]
    && |results| == |batch| && Told(results, batch, s.db.data, map[])
    && u.db.holder == None && u.db.revision == s.db.revision + 1 && s.db.data <= u.db.data
    && forall m :: m in batch ==> IsDone(u.db.data, m)
  }

  /** An idle client that knows the revision of an idle workspace, with something new to push. */
  ghost predicate ReadyToSync(s: State, c: int) {
    && c in s.clients && s.clients[c].pc == Idle && s.db.holder == None && s.clients[c].known == s.db.revision
    && |PendingIds(s.clients[c].outbox)| <= MAX_BATCH
    && exists m :: m in PendingIds(s.clients[c].outbox) && !IsDone(s.db.data, m)
  }

  lemma PushBegins(steps: seq<Step>, c: int) returns (longer: seq<Step>, p: Push)
    requires ReadyToSync(Run(steps), c)
    ensures var s := Run(steps);
      var client := s.clients[c];
      && p.pc == CheckKeys(0) && p.done == {} && p.results == [] && p.batch == PendingIds(client.outbox) && p.base == s.db.revision
      && Run(longer) == s.(next := s.next + 1, pushes := s.pushes[s.next := p], clients := s.clients[c := client.(pc := AwaitPush(s.next))])
  {
    var s := Run(steps);
    var m :| m in PendingIds(s.clients[c].outbox) && !IsDone(s.db.data, m);
    p := NewPush(s.next, s.clients[c].known, PendingIds(s.clients[c].outbox), s.db);
    longer := OneMore(steps, BeginSync(c));
  }

  lemma AnswerIsReceived(s: State, c: int, client: Client, t: Token)
    requires s.clients == s.clients[c := client] && client.pc == AwaitPush(t) && t in s.pushes
    requires s.pushes[t].pc.Replied? && s.pushes[t].pc.reply.Answer?
    ensures var reply := s.pushes[t].pc.reply;
      ReceiveReply(s, c) == s.(clients := s.clients[c := client.(pc := Processing(reply.results, 0, reply.revision))])
  {
    assert c in s.clients[c := client] && s.clients[c] == client;
  }

  lemma ServerAnswers(steps: seq<Step>, t: Token) returns (longer: seq<Step>, q: Push, d: Db)
    requires var s := Run(steps);
      && t in s.pushes && s.db.holder == None && s.db.revision == s.pushes[t].base
      && s.pushes[t].pc == CheckKeys(0) && s.pushes[t].done == {} && s.pushes[t].results == []
    requires var s := Run(steps); exists m :: m in s.pushes[t].batch && !IsDone(s.db.data, m)
    ensures var s := Run(steps);
      Succeeded(s.pushes[t], s.db, q, d, map[]) && Run(longer) == s.(db := d, pushes := s.pushes[t := q])
  {
    var s := Run(steps);
    var p := s.pushes[t];
    var m :| m in p.batch && !IsDone(s.db.data, m);
    var k :| 0 <= k < |p.batch| && p.batch[k] == m;
    var choices := PushAloneSucceeds(p, s.db, map[]);
    longer := PushRunsAlone(steps, t, choices);
    var r := PushRun(p, s.db, choices);
    q, d := r.0, r.1;
  }

  lemma AnsweredIsPushed(s: State, u: State, c: int, p: Push, q: Push, d: Db)
    requires c in s.clients && Succeeded(p, s.db, q, d, map[]) && p.batch == PendingIds(s.clients[c].outbox)
    requires var waiting := s.clients[c].(pc := AwaitPush(s.next));
      && u.snaps == s.snaps && u.pulls == s.pulls && u.db == d
      && u.clients == s.clients[c := waiting][c := waiting.(pc := Processing(q.pc.reply.results, 0, q.pc.reply.revision))]
    ensures Pushed(s, u, c, q.pc.reply.results)
  {
  }

  /** The answered push reaches its client. */
  lemma AnswerReachesClient(steps: seq<Step>, s: State, c: int, p: Push, q: Push, d: Db) returns (longer: seq<Step>)
    requires c in s.clients && Succeeded(p, s.db, q, d, map[]) && p.batch == PendingIds(s.clients[c].outbox)
    requires var u := Run(steps);
      && u.snaps == s.snaps && u.pulls == s.pulls && u.db == d && s.next in u.pushes && u.pushes[s.next] == q
      && u.clients == s.clients[c := s.clients[c].(pc := AwaitPush(s.next))]
    ensures Pushed(s, Run(longer), c, q.pc.reply.results)
  {
    var u, waiting := Run(steps), s.clients[c].(pc := AwaitPush(s.next));
    assert u.clients[c := waiting] == u.clients;
    AnswerIsReceived(u, c, waiting, s.next);
    longer := OneMore(steps, ReceivePush(c));
    AnsweredIsPushed(s, Run(longer), c, p, q, d);
  }

  lemma PushIsAnswered(steps: seq<Step>, c: int) returns (longer: seq<Step>, results: seq<Result>)
    requires ReadyToSync(Run(steps), c)
    ensures Pushed(Run(steps), Run(longer), c, results)
  {
    var s := Run(steps);
    var p, q, d;
    longer, p := PushBegins(steps, c);
    longer, q, d := ServerAnswers(longer, s.next);
    results := q.pc.reply.results;
    longer := AnswerReachesClient(longer, s, c, p, q, d);
  }

  /** What a response that fails nothing and names everything pending leaves of the outbox. */
  lemma NothingStaysPending(rows: seq<Record>, results: seq<Result>, data: seq<Entry>)
    requires Told(results, PendingIds(rows), data, map[]) && |results| == |PendingIds(rows)|
    ensures PendingIds(SettleAll(rows, results)) == []
    ensures forall m :: IsDeadLetter(SettleAll(rows, results), m) <==> IsDeadLetter(rows, m) && m !in PendingIds(rows)
    ensures forall m :: m in PendingIds(rows) ==> m in Confirmed(results)
  {
    var after, batch := SettleAll(rows, results), PendingIds(rows);
    forall m
      ensures !IsPending(after, m) && (IsDeadLetter(after, m) <==> IsDeadLetter(rows, m) && m !in batch)
      ensures m in batch ==> m in Confirmed(results)
    {
      ResponseSettles(rows, results, m);
      PendingMembers(rows, m);
      HasStatus(rows, m);
      if m in batch {
        var k :| 0 <= k < |batch| && batch[k] == m;
        assert results[k].mutation == m && !results[k].status.Failed?;
        assert Confirms(results, m);
      } else {
        forall k | 0 <= k < |results| ensures results[k].mutation != m { }
      }
    }
    if PendingIds(after) != [] { PendingMembers(after, PendingIds(after)[0]); }
  }

  /** The snapshot is read in one go and written over the local tables. */
  lemma SnapshotIsPulled(steps: seq<Step>, c: int) returns (longer: seq<Step>)
    requires var s := Run(steps);
      && c in s.clients && s.clients[c].pc.AwaitSnapshot? && s.clients[c].pc.read in s.snaps && s.db.holder == None
      && s.snaps[s.clients[c].pc.read] == NewSnap(s.clients[c].removed)
    ensures var s, u := Run(steps), Run(longer);
      var client := s.clients[c];
      && u.db == s.db && u.clients == s.clients[c := client.(known := s.db.revision, pc := Idle)]
      && u.pulls == s.pulls + [Pull(client.made, client.outbox, s.db.revision, [s.db.data])]
  {
    var s := Run(steps);
    var r, snap := s.clients[c].pc.read, NewSnap(s.clients[c].removed);
    longer := OneMore(steps, SnapRuns(r, false));
    assert Run(longer) == s.(snaps := s.snaps[r := snap.(before := s.db.revision, pc := Query)]);
    longer := OneMore(longer, SnapRuns(r, true));
    assert Run(longer).snaps[r] == snap.(before := s.db.revision, images := [s.db.data], pc := Query);
    longer := OneMore(longer, SnapRuns(r, false));
    assert Run(longer).snaps[r] == snap.(before := s.db.revision, images := [s.db.data], pc := Served(s.db.revision));
    longer := OneMore(longer, ReceiveSnapshot(c));
  }

  /** With the response worked off and nothing pending, the client asks for the snapshot. */
  lemma SettledClientPulls(steps: seq<Step>, c: int) returns (longer: seq<Step>)
    requires var s := Run(steps);
      && c in s.clients && s.clients[c].pc.Processing? && s.clients[c].pc.next == |s.clients[c].pc.results|
      && PendingIds(s.clients[c].outbox) == [] && s.db.holder == None && s.clients[c].pc.revision == s.db.revision
    ensures var s, u := Run(steps), Run(longer);
      var client := s.clients[c];
      && u.db == s.db && u.clients == s.clients[c := client.(known := s.db.revision, pc := Idle)]
      && u.pulls == s.pulls + [Pull(client.made, client.outbox, s.db.revision, [s.db.data])]
  {
    var s := Run(steps);
    var waiting := s.clients[c].(known := s.db.revision, pc := AwaitSnapshot(s.next));
    longer := OneMore(steps, ProcessResult(c));
    assert Run(longer) == s.(next := s.next + 1, snaps := s.snaps[s.next := NewSnap(waiting.removed)], clients := s.clients[c := waiting]);
    longer := SnapshotIsPulled(longer, c);
    assert s.clients[c := waiting][c := waiting.(pc := Idle)] == s.clients[c := waiting.(pc := Idle)];
  }

  /** Everything that was pending is done on the server, has left the outbox and is in the snapshot now on the device. */
  ghost predicate Synced(s: State, u: State, c: int)
    requires c in s.clients
  {
    var before := s.clients[c];
    && c in u.clients && u.clients[c].pc == Idle && u.clients[c].known == u.db.revision == s.db.revision + 1 && u.db.holder == None
    && PendingIds(u.clients[c].outbox) == []
    && (forall m :: m in PendingIds(before.outbox) ==> IsDone(u.db.data, m) && m in u.clients[c].removed)
    && (forall m :: IsDeadLetter(u.clients[c].outbox, m) <==> IsDeadLetter(before.outbox, m) && m !in PendingIds(before.outbox))
    && u.pulls == s.pulls + [Pull(before.made, u.clients[c].outbox, u.db.revision, [u.db.data])]
    && forall d :: d in s.clients && d != c ==> d in u.clients && u.clients[d] == s.clients[d]
  }

  /**
   Progress: from every reachable state in which a client knows the published revision, nobody writes and its handlers
   finish, a sync that is left alone pushes everything pending and ends with a pull of the next revision.
   */
  lemma SyncAloneSucceeds(steps: seq<Step>, c: int) returns (longer: seq<Step>)
    requires ReadyToSync(Run(steps), c)
    ensures Synced(Run(steps), Run(longer), c)
  {
    var s := Run(steps);
    var results;
    longer, results := PushIsAnswered(steps, c);
    longer := EntriesAreWorkedOff(longer, c, |results|);
    assert results[..|results|] == results;
    NothingStaysPending(s.clients[c].outbox, results, s.db.data);
    longer := SettledClientPulls(longer, c);
  }

  // ---- a read that is disturbed -------------------------------------------------------

  /** A read that finds somebody writing is repeated; the third time it gives up. */
  lemma ThirdDisturbanceEndsRead(need: set<int>, a: Db, b: Db, c: Db, more: bool)
    requires a.holder.Some? && b.holder.Some? && c.holder.Some?
    ensures var first := SnapStep(NewSnap(need), a, more);
      var second := SnapStep(first, b, more);
      first.pc == FirstRead && second.pc == FirstRead && SnapStep(second, c, more).pc == Unstable
  {
  }

  /** A client whose read was given up is idle again; it knows and has pulled what it had before. */
  lemma UnstableReadEndsSync(s: State, c: int)
    requires c in s.clients && s.clients[c].pc.AwaitSnapshot? && s.clients[c].pc.read in s.snaps && s.snaps[s.clients[c].pc.read].pc == Unstable
    ensures Receive(s, c) == s.(clients := s.clients[c := s.clients[c].(pc := Idle)])
  {
  }

  /** With the response worked off and something pending, the client stops without a pull and knows the revision it was told. */
  lemma PendingClientWaits(s: State, c: int)
    requires c in s.clients && s.clients[c].pc.Processing? && s.clients[c].pc.next == |s.clients[c].pc.results|
    requires PendingIds(s.clients[c].outbox) != []
    ensures Process(s, c) == s.(clients := s.clients[c := s.clients[c].(known := s.clients[c].pc.revision, pc := Idle)])
  {
  }

  // ---- how a lease ends ---------------------------------------------------------------

  /** A push that throws under its lease still publishes what its handlers wrote, frees the lease and answers an error. */
  lemma ThrowReleasesLease(p: Push, db: Db)
    requires p.pc == Applying && db.holder == Some(p.token)
    ensures PushRun(p, db, [Throw, Go]) == (p.(pc := Replied(Refused)), Publish(db))
  {
    assert [Throw, Go][..1] == [Throw] && [Throw][..0] == [];
    assert PushRun(p, db, [Throw]) == (p.(pc := Finalizing(true)), db);
  }

  /** A push whose lease was recovered meanwhile answers an error and publishes nothing. */
  lemma LostLeaseIsRefused(p: Push, db: Db)
    requires p.pc.Finalizing? && db.holder != Some(p.token)
    ensures PushStep(p, db, Go) == (p.(pc := Replied(Refused)), db)
  {
  }

  /** Another writer that takes the lease, writes and commits publishes the next revision; one that gives back leaves no trace. */
  lemma WriterAlone(w: Writer, db: Db, what: What)
    requires w.pc == Trying && db.holder == None && (what.Written? || what.Restored?)
    ensures var (h, held) := WriterStep(w, db, Acquire(db.revision));
      && held == db.(holder := Some(w.token)) && WriterStep(h, held, GiveBack) == (w.(pc := Gone), db)
      && var (v, written) := WriterStep(h, held, Put(what));
      && written == held.(data := db.data + [Entry(w.token, db.revision, what)])
      && WriterStep(v, written, Commit) == (w.(pc := Gone), Publish(written)) && WriterStep(v, written, GiveBack) == (v, written)
      && WriterStep(v, written, Die) == (w.(pc := Gone), written)
  {
  }

  /** Recovery publishes what the dead writer left, frees the lease and stops that writer; nobody else notices. */
  lemma RecoveryFreesLease(s: State, t: Token)
    ensures var u := Perform(s, RecoverStale);
      && u.db.holder == None && u.db.data == s.db.data && u.clients == s.clients && u.snaps == s.snaps && u.pulls == s.pulls
      && (s.db.holder.Some? ==> u.db.revision == s.db.revision + 1 && u.db.committed == s.db.committed + [s.db.data])
      && (s.db.holder.None? ==> u.db == s.db)
      && u.pushes.Keys == s.pushes.Keys && u.writers.Keys == s.writers.Keys
      && (t in s.pushes ==> u.pushes[t] == if s.db.holder == Some(s.pushes[t].token) then s.pushes[t].(pc := Dead) else s.pushes[t])
      && (t in s.writers ==> u.writers[t] == if s.db.holder == Some(s.writers[t].token) then s.writers[t].(pc := Gone) else s.writers[t])
  {
  }

  // ---- a request that dies ------------------------------------------------------------

  /** A request whose process died issues no further statement. */
  lemma {:induction false} CrashedPushIsSilent(p: Push, db: Db, choices: seq<Choice>)
    requires !p.pc.Replied? && choices != [] && choices[0] == Crash
    ensures PushRun(p, db, choices) == (p.(pc := Dead), db)
    decreases |choices|
  {
    var n := |choices| - 1;
    if n > 0 { CrashedPushIsSilent(p, db, choices[..n]); }
  }

  /** A push that was answered stays answered, whatever becomes of its process. */
  lemma AnsweredPushIsSilent(p: Push, db: Db, choice: Choice)
    requires p.pc.Replied?
    ensures PushStep(p, db, choice) == (p, db)
  {
  }
}
