/**
 The workflows of the client as they are written: calls in order, try and catch, a mutex released in
 the end. `outcomes` lists how the successive dependency calls turn out and `cloud` which requests the
 cloud applies before each of them; a run of the state machine of `LocalFirst` with these steps ends
 in the same world.
 */
module ClientWorkflows {
  import opened Numbers
  import opened LocalFirst
  import opened LocalFirstRuns

  /** How a dependency call turns out; a call beyond the list works. */
  function Turn(outcomes: seq<Fault>, k: nat): Fault {
    if k < |outcomes| then outcomes[k] else Works
  }

  function Applied(cloud: seq<seq<int>>, k: nat): seq<int> {
    if k < |cloud| then cloud[k] else []
  }

  // ---- the machine, driven by the same outcomes ---------------------------------------

  function CloudSteps(ids: seq<int>): (steps: seq<Step>)
    ensures |steps| == |ids|
  {
    seq(|ids|, i requires 0 <= i < |ids| => CloudApplies(ids[i]))
  }

  /** The k-th dependency call, after what the cloud does before it. */
  function Called(s: State, outcomes: seq<Fault>, cloud: seq<seq<int>>, k: nat): State {
    Perform(Run(s, CloudSteps(Applied(cloud, k))), OperationRuns(Turn(outcomes, k), 0))
  }

  /** The steps of n calls, from the k-th on. */
  function Trace(outcomes: seq<Fault>, cloud: seq<seq<int>>, k: nat, n: nat): seq<Step>
    decreases n
  {
    if n == 0 then []
    else CloudSteps(Applied(cloud, k)) + [OperationRuns(Turn(outcomes, k), 0)] + Trace(outcomes, cloud, k + 1, n - 1)
  }

  /** These calls are a run of the whole system. */
  function Drive(s: State, outcomes: seq<Fault>, cloud: seq<seq<int>>, k: nat, n: nat): State {
    Run(s, Trace(outcomes, cloud, k, n))
  }

  lemma {:induction false} RunAppend(s: State, a: seq<Step>, b: seq<Step>)
    ensures Run(s, a + b) == Run(Run(s, a), b)
  {
    if b == [] {
      assert a + b == a;
    } else {
      assert (a + b)[..|a + b| - 1] == a + b[..|b| - 1];
      RunAppend(s, a, b[..|b| - 1]);
    }
  }

  lemma DriveTurn(s: State, outcomes: seq<Fault>, cloud: seq<seq<int>>, k: nat, n: nat)
    requires n > 0
    ensures Drive(s, outcomes, cloud, k, n) == Drive(Called(s, outcomes, cloud, k), outcomes, cloud, k + 1, n - 1)
  {
    var call := CloudSteps(Applied(cloud, k)) + [OperationRuns(Turn(outcomes, k), 0)];
    OneMore(s, CloudSteps(Applied(cloud, k)), OperationRuns(Turn(outcomes, k), 0));
    RunAppend(s, call, Trace(outcomes, cloud, k + 1, n - 1));
  }

  lemma {:induction false} TraceAppend(outcomes: seq<Fault>, cloud: seq<seq<int>>, k: nat, m: nat, n: nat)
    ensures Trace(outcomes, cloud, k, m + n) == Trace(outcomes, cloud, k, m) + Trace(outcomes, cloud, k + m, n)
    decreases m
  {
    if m > 0 {
      TraceAppend(outcomes, cloud, k + 1, m - 1, n);
      var call := CloudSteps(Applied(cloud, k)) + [OperationRuns(Turn(outcomes, k), 0)];
      Regroup(call, Trace(outcomes, cloud, k + 1, m - 1), Trace(outcomes, cloud, k + m, n));
    }
  }

  lemma DriveAppend(s: State, outcomes: seq<Fault>, cloud: seq<seq<int>>, k: nat, m: nat, n: nat)
    ensures Drive(s, outcomes, cloud, k, m + n) == Drive(Drive(s, outcomes, cloud, k, m), outcomes, cloud, k + m, n)
  {
    TraceAppend(outcomes, cloud, k, m, n);
    RunAppend(s, Trace(outcomes, cloud, k, m), Trace(outcomes, cloud, k + m, n));
  }

  /** While the cloud applies requests, nothing changes but what it holds. */
  lemma {:induction false} CloudOnlyAdds(s: State, ids: seq<int>)
    ensures var t := Run(s, CloudSteps(ids));
      && t.op == s.op && t.linking == s.linking && t.told == s.told && t.next == s.next && t.clobbered == s.clobbered
      && t.w == s.w.(published := t.w.published, done := t.w.done) && s.w.published <= t.w.published
      && (forall id :: id in t.w.done <==> id in s.w.done || (id in ids && id in s.w.sent))
      && (forall id :: id in ids && id in s.w.sent ==> s.w.sent[id] in t.w.published)
  {
    if ids != [] {
      var last := |ids| - 1;
      assert CloudSteps(ids)[..last] == CloudSteps(ids[..last]) && CloudSteps(ids)[last] == CloudApplies(ids[last]);
      CloudOnlyAdds(s, ids[..last]);
      assert ids == ids[..last] + [ids[last]];
    }
  }

  lemma {:induction false} CloudKeeps(s: State, ids: seq<int>)
    requires Inv(s) && Orderly(s)
    ensures Inv(Run(s, CloudSteps(ids))) && Orderly(Run(s, CloudSteps(ids)))
  {
    if ids != [] {
      var last := |ids| - 1;
      assert CloudSteps(ids)[..last] == CloudSteps(ids[..last]) && CloudSteps(ids)[last] == CloudApplies(ids[last]);
      CloudKeeps(s, ids[..last]);
      StepKeepsInv(Run(s, CloudSteps(ids[..last])), CloudApplies(ids[last]));
      StepIsOrderly(Run(s, CloudSteps(ids[..last])), CloudApplies(ids[last]));
    }
  }

  /** The next restore of local data does no harm. */
  predicate RestoreAhead(s: State, outcomes: seq<Fault>, k: nat) {
    s.op.Importing? ==>
      && (s.op.step == Mark ==> HarmlessRestore(s, Turn(outcomes, k + 1)))
      && (s.op.step == Restore && s.op.linked ==> HarmlessRestore(s, Turn(outcomes, k)))
  }

  ghost predicate UnderImport(s: State, outcomes: seq<Fault>, k: nat) {
    Inv(s) && Orderly(s) && (s.op == Free || s.op.Importing?) && RestoreAhead(s, outcomes, k)
  }

  lemma ImportCallKeeps(s: State, outcomes: seq<Fault>, cloud: seq<seq<int>>, k: nat)
    requires UnderImport(s, outcomes, k)
    ensures UnderImport(Called(s, outcomes, cloud, k), outcomes, k + 1)
  {
    CloudKeeps(s, Applied(cloud, k));
    CloudOnlyAdds(s, Applied(cloud, k));
    var m, step := Run(s, CloudSteps(Applied(cloud, k))), OperationRuns(Turn(outcomes, k), 0);
    GuardedIsAllowed(m, step);
    StepKeepsInv(m, step);
    StepIsOrderly(m, step);
  }

  lemma ImportGoesOn(s: State, outcomes: seq<Fault>, cloud: seq<seq<int>>, k: nat, n: nat) returns (t: State)
    requires UnderImport(s, outcomes, k) && n > 0
    ensures UnderImport(t, outcomes, k + 1) && Drive(s, outcomes, cloud, k, n) == Drive(t, outcomes, cloud, k + 1, n - 1)
  {
    t := Called(s, outcomes, cloud, k);
    ImportCallKeeps(s, outcomes, cloud, k);
    DriveTurn(s, outcomes, cloud, k, n);
  }

  /**
   Unless its local restore does harm, an import stays safe at every one of its calls, whatever fails
   and whenever the cloud applies its request.
   */
  lemma {:induction false} ImportStaysSafe(s: State, outcomes: seq<Fault>, cloud: seq<seq<int>>, k: nat, n: nat)
    requires UnderImport(s, outcomes, k)
    ensures Inv(Drive(s, outcomes, cloud, k, n)) && Safe(Drive(s, outcomes, cloud, k, n).w)
    decreases n
  {
    if n > 0 {
      var t := ImportGoesOn(s, outcomes, cloud, k, n);
      ImportStaysSafe(t, outcomes, cloud, k + 1, n - 1);
    }
  }

  // ---- the client's code --------------------------------------------------------------

  datatype ImportOutcome = LocalOnly | Synced | CloudPending | ImportFailed

  datatype Ticket = Ticket(name: string, token: nat)

  /** The mutex per workspace. */
  class WorkspaceOperations {
    var active: map<int, Ticket>
    var nextToken: nat

    /** Tokens in use have been handed out. */
    ghost predicate Valid()
      reads this
    {
      forall id <- active :: active[id].token < nextToken
    }

    constructor ()
      ensures Valid() && active == map[]
    {
      active, nextToken := map[], 0;
    }

    /** beginWorkspaceOperation: refuse while another operation is active. */
    method Begin(workspace: int, name: string) returns (token: Option<nat>)
      requires Valid()
      modifies this
      ensures Valid()
      ensures token.None? <==> workspace in old(active)
      ensures token.None? ==> active == old(active)
      ensures token.Some? ==> active == old(active)[workspace := Ticket(name, token.value)]
      ensures token.Some? ==> forall id <- old(active) :: old(active[id].token) != token.value
    {
      if workspace in active { return None; }
      token := Some(nextToken);
      active := active[workspace := Ticket(name, nextToken)];
      nextToken := nextToken + 1;
    }

    /** The release function: it ends its own operation and no later one. */
    method Release(workspace: int, token: nat)
      requires Valid()
      modifies this
      ensures Valid()
      ensures workspace in old(active) && old(active[workspace].token) == token ==> active == old(active) - {workspace}
      ensures !(workspace in old(active) && old(active[workspace].token) == token) ==> active == old(active)
    {
      if workspace in active && active[workspace].token == token {
        active := active - {workspace};
      }
    }
  }

  /** What has to happen for an import to be confirmed: the cloud applies it before the answer is read. */
  predicate Confirmed(id: int, linked: bool, outcomes: seq<Fault>, cloud: seq<seq<int>>) {
    && linked && Turn(outcomes, 0) == Works && Turn(outcomes, 1) == Works && Turn(outcomes, 2) != Throws
    && Turn(outcomes, 3) == Works && id in Applied(cloud, 3) && Turn(outcomes, 4) == Works
  }

  /** t is where the calls from the i-th up to the j-th drive s. */
  ghost predicate Driven(s: State, t: State, outcomes: seq<Fault>, cloud: seq<seq<int>>, i: nat, j: nat) {
    i <= j && t == Drive(s, outcomes, cloud, i, j - i)
  }

  lemma DrivenOnce(s: State, outcomes: seq<Fault>, cloud: seq<seq<int>>, i: nat)
    ensures Driven(s, Called(s, outcomes, cloud, i), outcomes, cloud, i, i + 1)
  {
    DriveTurn(s, outcomes, cloud, i, 1);
  }

  lemma DrivenOn(s: State, t: State, u: State, outcomes: seq<Fault>, cloud: seq<seq<int>>, i: nat, j: nat, k: nat)
    requires Driven(s, t, outcomes, cloud, i, j) && Driven(t, u, outcomes, cloud, j, k)
    ensures Driven(s, u, outcomes, cloud, i, k)
  {
    DriveAppend(s, outcomes, cloud, i, j - i, k - j);
  }

  class Device {
    var w: World
    var calls: nat

    /** The cloud applies requests that were sent. */
    method CloudActs(ids: seq<int>, ghost t: State)
      requires t.w == w
      modifies this`w
      ensures w == Run(t, CloudSteps(ids)).w
    {
      var i := 0;
      while i < |ids|
        invariant i <= |ids| && w == Run(t, CloudSteps(ids[..i])).w
      {
        assert CloudSteps(ids[..i + 1])[..i] == CloudSteps(ids[..i]) && CloudSteps(ids[..i + 1])[i] == CloudApplies(ids[i]);
        if ids[i] in w.sent {
          w := w.(published := w.published + {w.sent[ids[i]]}, done := w.done + {ids[i]});
        }
        i := i + 1;
      }
      assert ids[..i] == ids;
    }

    /** Before every call the cloud may act; the call itself turns out as listed. */
    method BeginCall(outcomes: seq<Fault>, cloud: seq<seq<int>>, ghost t: State) returns (fault: Fault)
      requires t.w == w
      modifies this
      ensures w == Run(t, CloudSteps(Applied(cloud, old(calls)))).w && calls == old(calls) + 1 && fault == Turn(outcomes, old(calls))
      ensures w.link == old(w.link) && w.local == old(w.local) && w.sent == old(w.sent) && old(w.published) <= w.published
      ensures forall id :: id in w.done <==> id in old(w.done) || (id in Applied(cloud, old(calls)) && id in w.sent)
      ensures forall id :: id in Applied(cloud, old(calls)) && id in w.sent ==> w.sent[id] in w.published
    {
      CloudOnlyAdds(t, Applied(cloud, calls));
      CloudActs(Applied(cloud, calls), t);
      fault := Turn(outcomes, calls);
      calls := calls + 1;
    }

    method MarkProvisioning(id: int, outcomes: seq<Fault>, cloud: seq<seq<int>>, ghost t: State) returns (ok: bool, ghost u: State)
      requires t.w == w && t.op.Importing? && t.op.step == Mark && t.op.id == id
      modifies this
      ensures calls == old(calls) + 1 && Driven(t, u, outcomes, cloud, old(calls), calls) && u.w == w
      ensures ok == (Turn(outcomes, old(calls)) == Works) && u.op == if ok then t.op.(step := Restore) else Free
      ensures w.sent == old(w.sent) && (id in w.done ==> id in old(w.done) || id in w.sent) && (old(w.link) != NotLinked ==> w.link != NotLinked)
    {
      CloudOnlyAdds(t, Applied(cloud, calls));
      DrivenOnce(t, outcomes, cloud, calls);
      u := Called(t, outcomes, cloud, calls);
      var fault := BeginCall(outcomes, cloud, t);
      if Happens(fault) && w.link != NotLinked { w := w.(link := Provisioning(true), pending := Some(id)); }
      ok := fault == Works;
    }

    method MarkReady(outcomes: seq<Fault>, cloud: seq<seq<int>>, ghost t: State) returns (ok: bool, ghost u: State)
      requires t.w == w && t.op.Importing? && (t.op.step == Rollback || t.op.step == MakeReady)
      modifies this
      ensures calls == old(calls) + 1 && Driven(t, u, outcomes, cloud, old(calls), calls) && u.w == w && u.op == Free
      ensures ok == (Turn(outcomes, old(calls)) == Works) && (ok && old(w.link) != NotLinked ==> w.link == Ready)
      ensures w.local == old(w.local) && old(w.published) <= w.published
    {
      CloudOnlyAdds(t, Applied(cloud, calls));
      DrivenOnce(t, outcomes, cloud, calls);
      u := Called(t, outcomes, cloud, calls);
      var fault := BeginCall(outcomes, cloud, t);
      if Happens(fault) && w.link != NotLinked { w := w.(link := Ready, pending := None); }
      ok := fault == Works;
    }

    method RestoreLocal(lineage: int, outcomes: seq<Fault>, cloud: seq<seq<int>>, ghost t: State) returns (ok: bool, ghost u: State)
      requires t.w == w && t.op.Importing? && t.op.step == Restore && t.op.lineage == lineage
      modifies this
      ensures calls == old(calls) + 1 && Driven(t, u, outcomes, cloud, old(calls), calls) && u.w == w
      ensures ok == (Turn(outcomes, old(calls)) == Works) && (ok ==> w.local == lineage)
      ensures u.op == if !t.op.linked then Free else t.op.(step := if ok then Publish else Rollback)
      ensures w.link == old(w.link) && w.sent == old(w.sent) && forall id :: id in w.done ==> id in old(w.done) || id in w.sent
    {
      CloudOnlyAdds(t, Applied(cloud, calls));
      DrivenOnce(t, outcomes, cloud, calls);
      u := Called(t, outcomes, cloud, calls);
      var fault := BeginCall(outcomes, cloud, t);
      if Happens(fault) { w := w.(local := lineage); }
      ok := fault == Works;
    }

    /** The publish request; it may have reached the cloud although its reply did not come back. */
    method SendRequest(id: int, lineage: int, outcomes: seq<Fault>, cloud: seq<seq<int>>, ghost t: State) returns (sent: bool, ghost u: State)
      requires t.w == w && t.op == Importing(Publish, id, lineage, true) && id !in w.sent && id !in w.done
      modifies this
      ensures calls == old(calls) + 1 && Driven(t, u, outcomes, cloud, old(calls), calls) && u.w == w
      ensures sent == (Turn(outcomes, old(calls)) != Throws) && u.op == if sent then t.op.(step := Confirm) else Free
      ensures w.link == old(w.link) && w.local == old(w.local) && id !in w.done && (sent ==> id in w.sent && w.sent[id] == lineage)
    {
      CloudOnlyAdds(t, Applied(cloud, calls));
      DrivenOnce(t, outcomes, cloud, calls);
      u := Called(t, outcomes, cloud, calls);
      var fault := BeginCall(outcomes, cloud, t);
      sent := Happens(fault);
      if sent { w := w.(sent := w.sent[id := lineage]); }
    }

    /** The reply, or the journal after a lost reply. */
    method ReadAnswer(id: int, outcomes: seq<Fault>, cloud: seq<seq<int>>, ghost t: State) returns (confirmed: bool, ghost u: State)
      requires t.w == w && t.op.Importing? && t.op.step == Confirm && t.op.id == id && id in w.sent && id !in w.done
      modifies this
      ensures calls == old(calls) + 1 && Driven(t, u, outcomes, cloud, old(calls), calls) && u.w == w
      ensures confirmed <==> Turn(outcomes, old(calls)) == Works && id in Applied(cloud, old(calls))
      ensures u.op == if confirmed then t.op.(step := MakeReady) else Free
      ensures w.link == old(w.link) && w.local == old(w.local) && (confirmed ==> old(w.sent[id]) in w.published)
    {
      CloudOnlyAdds(t, Applied(cloud, calls));
      DrivenOnce(t, outcomes, cloud, calls);
      u := Called(t, outcomes, cloud, calls);
      var fault := BeginCall(outcomes, cloud, t);
      confirmed := fault == Works && id in w.done;
    }

    /** The reply or the journal, and the ready link once the import is confirmed. */
    method FinishCloud(id: int, lineage: int, outcomes: seq<Fault>, cloud: seq<seq<int>>, ghost t: State) returns (synced: bool, ghost u: State)
      requires t.w == w && t.op == Importing(Confirm, id, lineage, true) && id in w.sent && w.sent[id] == lineage && id !in w.done
      requires w.link != NotLinked
      modifies this
      ensures Driven(t, u, outcomes, cloud, old(calls), calls) && u.w == w && u.op == Free
      ensures w.local == old(w.local) && (synced ==> w.link == Ready && lineage in w.published)
      ensures synced <==>
        Turn(outcomes, old(calls)) == Works && id in Applied(cloud, old(calls)) && Turn(outcomes, old(calls) + 1) == Works
    {
      ghost var k, v := calls, t;
      synced, u := ReadAnswer(id, outcomes, cloud, t);
      if !synced { return; }
      v := u;
      synced, u := MarkReady(outcomes, cloud, v);
      DrivenOn(t, v, u, outcomes, cloud, k, k + 1, calls);
    }

    /** The cloud half of the import: publish, and declare the link ready once that is confirmed. */
    method PublishCloud(id: int, lineage: int, outcomes: seq<Fault>, cloud: seq<seq<int>>, ghost t: State) returns (synced: bool, ghost u: State)
      requires t.w == w && t.op == Importing(Publish, id, lineage, true) && id !in w.sent && id !in w.done && w.link != NotLinked
      modifies this
      ensures Driven(t, u, outcomes, cloud, old(calls), calls) && u.w == w && u.op == Free
      ensures w.local == old(w.local) && (synced ==> w.link == Ready && lineage in w.published)
      ensures synced <==>
        && Turn(outcomes, old(calls)) != Throws && Turn(outcomes, old(calls) + 1) == Works
        && id in Applied(cloud, old(calls) + 1) && Turn(outcomes, old(calls) + 2) == Works
    {
      ghost var k, v := calls, t;
      synced, u := SendRequest(id, lineage, outcomes, cloud, t);
      if !synced { return; }
      v := u;
      synced, u := FinishCloud(id, lineage, outcomes, cloud, v);
      DrivenOn(t, v, u, outcomes, cloud, k, k + 1, calls);
    }

    /** The restore; in a linked workspace its failure rolls the mark back. */
    method RestoreOrRollBack(id: int, lineage: int, cloudLinked: bool, outcomes: seq<Fault>, cloud: seq<seq<int>>, ghost t: State)
      returns (restored: bool, ghost u: State)
      requires t.w == w && t.op == Importing(Restore, id, lineage, cloudLinked)
      modifies this
      ensures Driven(t, u, outcomes, cloud, old(calls), calls) && u.w == w
      ensures restored == (Turn(outcomes, old(calls)) == Works) && (restored ==> w.local == lineage && calls == old(calls) + 1)
      ensures restored ==> w.link == old(w.link) && w.sent == old(w.sent) && forall x :: x in w.done ==> x in old(w.done) || x in w.sent
      ensures u.op == if restored && cloudLinked then Importing(Publish, id, lineage, true) else Free
    {
      ghost var k, v := calls, t;
      restored, u := RestoreLocal(lineage, outcomes, cloud, t);
      if !restored && cloudLinked {
        var ok;
        v := u;
        ok, u := MarkReady(outcomes, cloud, v);
        DrivenOn(t, v, u, outcomes, cloud, k, k + 1, calls);
      }
    }

    /** The local half: mark a linked workspace, restore, and roll the mark back if that fails. */
    method ImportLocally(id: int, lineage: int, cloudLinked: bool, outcomes: seq<Fault>, cloud: seq<seq<int>>, ghost s: State)
      returns (restored: bool, ghost u: State)
      requires calls == 0 && s.w == w && s.op == Importing(if cloudLinked then Mark else Restore, id, lineage, cloudLinked)
      requires id !in w.sent && id !in w.done && (cloudLinked ==> w.link != NotLinked)
      modifies this
      ensures Driven(s, u, outcomes, cloud, 0, calls) && u.w == w
      ensures restored <==> (cloudLinked ==> Turn(outcomes, 0) == Works) && Turn(outcomes, if cloudLinked then 1 else 0) == Works
      ensures restored ==> w.local == lineage
      ensures restored && cloudLinked ==> calls == 2 && w.link != NotLinked && id !in w.sent && id !in w.done
      ensures u.op == if restored && cloudLinked then Importing(Publish, id, lineage, true) else Free
    {
      if !cloudLinked {
        restored, u := RestoreOrRollBack(id, lineage, cloudLinked, outcomes, cloud, s);
        return;
      }
      ghost var v;
      restored, v := MarkProvisioning(id, outcomes, cloud, s);
      if !restored { return restored, v; }
      restored, u := RestoreOrRollBack(id, lineage, cloudLinked, outcomes, cloud, v);
      DrivenOn(s, v, u, outcomes, cloud, 0, 1, calls);
    }

    /**
     executeLocalFirstImport, beside the machine that was started with the same view. It answers
     that the import is synced exactly when the cloud confirmed it, and then the cloud has the copy.
     */
    method ExecuteLocalFirstImport(id: int, lineage: int, cloudLinked: bool, outcomes: seq<Fault>, cloud: seq<seq<int>>, ghost s: State)
      returns (r: ImportOutcome)
      requires calls == 0 && s.w == w && Inv(s) && s.op == Importing(if cloudLinked then Mark else Restore, id, lineage, cloudLinked)
      modifies this
      ensures var t := Run(s, Trace(outcomes, cloud, 0, calls)); w == t.w && t.op == Free
      ensures r == Synced <==> Confirmed(id, cloudLinked, outcomes, cloud)
      ensures r == Synced ==> w.link == Ready && w.local in w.published
      ensures r != ImportFailed ==> w.local == lineage
      ensures r == LocalOnly ==> !cloudLinked
    {
      ghost var t, u;
      var restored, synced;
      restored, t := ImportLocally(id, lineage, cloudLinked, outcomes, cloud, s);
      if !restored { return ImportFailed; }
      if !cloudLinked { return LocalOnly; }
      synced, u := PublishCloud(id, lineage, outcomes, cloud, t);
      DrivenOn(s, t, u, outcomes, cloud, 0, 2, calls);
      r := if synced then Synced else CloudPending;
    }
  }

  lemma QuietCall(s: State, cloud: seq<seq<int>>, k: nat)
    requires Applied(cloud, k) == []
    ensures Called(s, [], cloud, k) == Perform(s, OperationRuns(Works, 0))
  {
  }

  /** The local half of an import in which nothing fails, and the request. */
  lemma RequestIsSent(s: State, cloud: seq<seq<int>>)
    requires s.op.Importing? && s.op.step == Mark && s.op.linked && s.w.link != NotLinked
    requires Applied(cloud, 0) == Applied(cloud, 1) == Applied(cloud, 2) == []
    ensures var t := Drive(s, [], cloud, 0, 3);
      t.op == s.op.(step := Confirm) && t.w.link != NotLinked && t.w.local == s.op.lineage && t.w.sent == s.w.sent[s.op.id := s.op.lineage]
  {
    var s1 := Called(s, [], cloud, 0);
    DriveTurn(s, [], cloud, 0, 3);
    DriveTwo(s1, [], cloud, 1);
    QuietCall(s, cloud, 0);
    assert s1.op == s.op.(step := Restore) && s1.w.sent == s.w.sent && s1.w.link != NotLinked;
    var s2 := Called(s1, [], cloud, 1);
    QuietCall(s1, cloud, 1);
    assert s2.op == s.op.(step := Publish) && s2.w == s1.w.(local := s.op.lineage);
    QuietCall(s2, cloud, 2);
  }

  /** Its journal is read after the cloud applied it, and the link is declared ready. */
  lemma AnswerIsRead(t: State, cloud: seq<seq<int>>)
    requires t.op.Importing? && t.op.step == Confirm && t.w.link != NotLinked && t.w.local == t.op.lineage
    requires t.op.id in t.w.sent && t.w.sent[t.op.id] == t.op.lineage && Applied(cloud, 3) == [t.op.id] && Applied(cloud, 4) == []
    ensures var v := Called(Called(t, [], cloud, 3), [], cloud, 4);
      v.op == Free && v.w.link == Ready && v.w.local == t.op.lineage && v.w.local in v.w.published
  {
    CloudOnlyAdds(t, [t.op.id]);
    var u := Called(t, [], cloud, 3);
    assert u.op == t.op.(step := MakeReady) && t.op.lineage in u.w.published && u.w.local == t.op.lineage && u.w.link != NotLinked;
    QuietCall(u, cloud, 4);
  }

  lemma SyncedInFive(s: State, cloud: seq<seq<int>>)
    requires s.op.Importing? && s.op.step == Mark && s.op.linked && s.w.link != NotLinked
    requires Applied(cloud, 0) == Applied(cloud, 1) == Applied(cloud, 2) == Applied(cloud, 4) == [] && Applied(cloud, 3) == [s.op.id]
    ensures var t := Drive(s, [], cloud, 0, 5);
      t.op == Free && t.w.link == Ready && t.w.local == s.op.lineage && t.w.local in t.w.published
  {
    var t := Drive(s, [], cloud, 0, 3);
    RequestIsSent(s, cloud);
    AnswerIsRead(t, cloud);
    DriveAppend(s, [], cloud, 0, 3, 2);
    DriveTwo(t, [], cloud, 3);
  }

  /** Nothing has to fail, and the cloud may be in time: then the link is ready over the imported copy. */
  lemma SyncedIsReachable(s: State)
    requires s.op.Importing? && s.op.step == Mark && s.op.linked && s.w.link != NotLinked
    ensures var t := Drive(s, [], [[], [], [], [s.op.id]], 0, 5);
      t.op == Free && t.w.link == Ready && t.w.local == s.op.lineage && t.w.local in t.w.published
  {
    SyncedInFive(s, [[], [], [], [s.op.id]]);
  }

  lemma DriveTwo(s: State, outcomes: seq<Fault>, cloud: seq<seq<int>>, k: nat)
    ensures Drive(s, outcomes, cloud, k, 2) == Called(Called(s, outcomes, cloud, k), outcomes, cloud, k + 1)
  {
    DriveTurn(s, outcomes, cloud, k, 2);
    DriveTurn(Called(s, outcomes, cloud, k), outcomes, cloud, k + 1, 1);
  }
}
