/**
 Where the client workflows can lose a local copy: the exact conditions, and runs that do.
 */
module LocalFirstFailures {
  import opened Numbers
  import opened LocalFirst
  import opened LocalFirstRuns

  // ---- a resume that polls an older request -------------------------------------------

  /** A resume finds the request it knows of completed. */
  function Resumed(s: State, view: View): State {
    Perform(Perform(Perform(s, StartResume(view)), OperationRuns(Works, 0)), OperationRuns(Works, 0))
  }

  ghost predicate ResumeSafeWhateverTheCloudHolds(s: State, view: View, id: int) {
    forall published, done :: Inv(Beside(s, published, done)) && id in done ==> Safe(Resumed(Beside(s, published, done), view).w)
  }

  lemma ResumedMakesReady(s: State, view: View, id: int)
    requires Inv(s) && s.op == Free && view in s.seen && view == View(Provisioning(true), Some(id)) && id in s.w.done
    ensures Resumed(s, view).w == Readied(s.w, Works) && s.w.link != NotLinked && s.w.sent[id] in s.w.published
  {
    var polling := Perform(s, StartResume(view));
    assert polling.op == Polling(Some(id), s.w.local) && polling.w == s.w;
    var ready := Perform(polling, OperationRuns(Works, 0));
    assert ready.op == Resuming(MakeReady, id, s.w.local) && ready.w == s.w;
  }

  /**
   When the cloud answers that the polled request is completed, declaring the link ready is safe if
   and only if that request carried the copy on the device, or the cloud has confirmed that copy.
   */
  lemma ResumeIsSafeIff(s: State, view: View, id: int)
    requires Inv(s) && s.op == Free && view in s.seen && view == View(Provisioning(true), Some(id)) && id in s.w.sent
    ensures ResumeSafeWhateverTheCloudHolds(s, view, id) <==> s.w.sent[id] == s.w.local || s.w.local in s.told
  {
    if s.w.sent[id] == s.w.local || s.w.local in s.told {
      forall published, done | Inv(Beside(s, published, done)) && id in done ensures Safe(Resumed(Beside(s, published, done), view).w) {
        ResumedMakesReady(Beside(s, published, done), view, id);
      }
    } else {
      var published, done := CloudWithoutLocal(s);
      var cloud := Beside(s, published + {s.w.sent[id]}, done + {id});
      assert Inv(cloud) && cloud.w.local !in cloud.w.published;
      ResumedMakesReady(cloud, view, id);
    }
  }

  /** A guarded run, one step longer. */
  lemma Further(s: State, steps: seq<Step>, t: State, step: Step) returns (more: seq<Step>, u: State)
    requires GuardedRun(s, steps) && t == Run(s, steps) && Guarded(t, step)
    ensures GuardedRun(s, more) && u == Run(s, more) && u == Perform(t, step)
  {
    OneMore(s, steps, step);
    more, u := steps + [step], Perform(t, step);
    assert more[..|steps|] == steps;
  }

  /** The cloud completes the request that a resume polls, and the link becomes ready over the copy on the device. */
  lemma PolledMakesReady(s: State) returns (steps: seq<Step>)
    requires s.op.Polling? && s.op.polled.Some? && s.op.polled.value in s.w.sent && s.w.link != NotLinked
    ensures var id := s.op.polled.value; GuardedRun(s, steps) && Run(s, steps).w == Readied(
      s.w.(published := s.w.published + {s.w.sent[id]}, done := s.w.done + {id}), Works)
  {
    var id, t := s.op.polled.value, s;
    steps, t := Further(s, [], s, CloudApplies(id));
    assert t.op == s.op && t.w == s.w.(published := s.w.published + {s.w.sent[id]}, done := s.w.done + {id});
    steps, t := Further(s, steps, t, OperationRuns(Works, 0));
    assert t.op == Resuming(MakeReady, id, s.op.backup) && t.w.link == s.w.link;
    steps, t := Further(s, steps, t, OperationRuns(Works, 0));
  }

  /** Whatever the cloud holds, no guarded run that goes on with this resume ever endangers the local copy. */
  ghost predicate ResumeStaysSafe(s: State, view: View) {
    forall published, done :: Inv(Beside(s, published, done)) ==> StaysSafe(Perform(Beside(s, published, done), StartResume(view)))
  }

  /**
   In a state that guarded runs reach, a resume is safe for good if and only if the request of its
   view was never sent, or carried the copy on the device, or the cloud has confirmed that copy.
   */
  lemma ResumeStaysSafeIff(s: State, view: View)
    requires Inv(s) && Orderly(s) && s.op == Free && view in s.seen && view.link == Provisioning(true)
    ensures ResumeStaysSafe(s, view) <==> (view.pending.Some? ==> Carries(s.w, view.pending.value) || s.w.local in s.told)
  {
    if view.pending.Some? ==> Carries(s.w, view.pending.value) || s.w.local in s.told {
      forall published, done | Inv(Beside(s, published, done)) ensures StaysSafe(Perform(Beside(s, published, done), StartResume(view))) {
        StepKeepsInv(Beside(s, published, done), StartResume(view));
        OrderlyStaysSafe(Perform(Beside(s, published, done), StartResume(view)));
      }
    } else {
      var published, done := CloudWithoutLocal(s);
      var t := Perform(Beside(s, published, done), StartResume(view));
      assert t.op == Polling(view.pending, s.w.local) && t.w == s.w.(published := published, done := done);
      var steps := PolledMakesReady(t);
      assert !Safe(Run(t, steps).w);
    }
  }

  /** A resume whose view is still current is safe for good wherever a guarded run has got to. */
  lemma CurrentViewIsEnough(steps: seq<Step>)
    requires GuardedRun(FRESH, steps) && Run(FRESH, steps).op == Free && Run(FRESH, steps).w.link == Provisioning(true)
    ensures ResumeStaysSafe(Run(FRESH, steps), ViewOf(Run(FRESH, steps).w))
  {
    NoPullOverUnpublishedData(steps);
    assert ViewOf(Run(FRESH, steps).w) in Run(FRESH, steps).seen;
    ResumeStaysSafeIff(Run(FRESH, steps), ViewOf(Run(FRESH, steps).w));
  }

  // ---- an import whose view is older than the link ------------------------------------

  /** No link is ready, none is being set up, and none waits for a request that may still be completed. */
  predicate NoLinkAhead(s: State) {
    s.w.link != Ready && s.linking == NoLinking && (s.w.pending.Some? ==> s.w.pending.value !in s.w.sent)
  }

  /** The link waits for a request with an older copy: it may be completed, and the next resume makes the link ready. */
  lemma PendingMakesReady(s: State) returns (steps: seq<Step>)
    requires s.op == Free && s.w.link == Provisioning(true) && s.w.pending.Some? && s.w.pending.value in s.w.sent && ViewOf(s.w) in s.seen
    ensures var id := s.w.pending.value; GuardedRun(s, steps) && Run(s, steps).w == Readied(
      s.w.(published := s.w.published + {s.w.sent[id]}, done := s.w.done + {id}), Works)
  {
    var t := s;
    steps, t := Further(s, [], s, StartResume(ViewOf(s.w)));
    assert t.op == Polling(s.w.pending, s.w.local) && t.w == s.w;
    var more := PolledMakesReady(t);
    JoinedRun(s, steps, more);
    steps := steps + more;
  }

  lemma {:induction false} JoinedRun(s: State, a: seq<Step>, b: seq<Step>)
    requires GuardedRun(s, a) && GuardedRun(Run(s, a), b)
    ensures GuardedRun(s, a + b) && Run(s, a + b) == Run(Run(s, a), b)
  {
    if b == [] {
      assert a + b == a;
    } else {
      var n := |b| - 1;
      assert (a + b)[..|a| + n] == a + b[..n] && (a + b)[|a| + n] == b[n];
      JoinedRun(s, a, b[..n]);
    }
  }

  lemma {:induction false} LinkOnIsRun(s: State, n: nat) returns (steps: seq<Step>)
    ensures GuardedRun(s, steps) && Run(s, steps) == LinkOn(s, n)
  {
    steps := [];
    if n > 0 {
      var before := LinkOnIsRun(s, n - 1);
      var t;
      steps, t := Further(s, before, LinkOn(s, n - 1), LinkingRuns(Works));
    }
  }

  /** A restore that does not know of a link ahead leaves a run in which that link becomes ready over the new copy. */
  lemma LinkAheadLoses(s: State, t: State) returns (steps: seq<Step>)
    requires Inv(s) && !NoLinkAhead(s) && t.op == Free && t.linking == s.linking && ViewOf(t.w) in t.seen
    requires t.w == s.w.(local := t.w.local) && Unused(s.w, s.linking, t.w.local) && (s.w.link != Ready ==> Inv(t))
    ensures GuardedRun(t, steps) && !Safe(Run(t, steps).w)
  {
    if s.w.link == Ready {
      steps := [];
    } else if s.linking != NoLinking {
      steps := LinkOnIsRun(t, StepsLeft(t.linking));
      LinkOnEnds(t);
    } else {
      steps := PendingMakesReady(t);
    }
  }

  /**
   An import that was asked for before there was a link, at its restore: whatever happened meanwhile
   in a guarded run, it is safe for good if and only if nothing is replaced or there is no link ahead.
   */
  lemma UnlinkedImportIsSafeIff(s: State, fault: Fault)
    requires Inv(s) && Orderly(s.(op := Free)) && s.op.Importing? && !s.op.linked
    ensures StaysSafe(Perform(s, OperationRuns(fault, 0))) <==> !Happens(fault) || NoLinkAhead(s)
  {
    var t := Perform(s, OperationRuns(fault, 0));
    assert t.op == Free && t.linking == s.linking && t.w == if Happens(fault) then s.w.(local := s.op.lineage) else s.w;
    if !Happens(fault) || s.w.link != Ready { StepKeepsInv(s, OperationRuns(fault, 0)); }
    if !Happens(fault) || NoLinkAhead(s) {
      OrderlyStaysSafe(t);
    } else {
      var steps := LinkAheadLoses(s, t);
    }
  }

  // ---- an import whose local restore fails --------------------------------------------

  function FailedImport(s: State, view: View, fault: Fault): State {
    Run(s, [StartImport(view), OperationRuns(Works, 0), OperationRuns(fault, 0), OperationRuns(Works, 0)])
  }

  lemma FailedImportEnds(s: State, view: View, fault: Fault)
    requires Inv(s) && s.op == Free && view in s.seen && view.link != NotLinked && fault != Works
    ensures var t := FailedImport(s, view, fault);
      && t.op == Free && t.told == s.told && t.linking == s.linking && t.next == s.next + 2 && t.clobbered == s.clobbered
      && t.w == s.w.(link := Ready, pending := None, local := if Happens(fault) then s.next + 1 else s.w.local)
  {
    RunFour(s, StartImport(view), OperationRuns(Works, 0), OperationRuns(fault, 0), OperationRuns(Works, 0));
    var s1 := Perform(s, StartImport(view));
    assert s1.op == Importing(Mark, s.next, s.next + 1, true) && s1.w == s.w;
    var s2 := Perform(s1, OperationRuns(Works, 0));
    assert s2.op == Importing(Restore, s.next, s.next + 1, true) && s2.w == s.w.(link := Provisioning(true), pending := Some(s.next));
    var s3 := Perform(s2, OperationRuns(fault, 0));
    assert s3.op == Importing(Rollback, s.next, s.next + 1, true);
    assert s3.w == s2.w.(local := if Happens(fault) then s.next + 1 else s.w.local);
  }

  ghost predicate FailedImportStaysSafe(s: State, view: View, fault: Fault) {
    forall published, done :: Inv(Beside(s, published, done)) ==> StaysSafe(FailedImport(Beside(s, published, done), view, fault))
  }

  /**
   The rollback after a failed local restore declares the link ready again. Whatever the cloud holds,
   that is safe for good exactly when the restore replaced nothing and the cloud has confirmed the
   copy the import started from.
   */
  lemma FailedImportIsSafeIff(s: State, view: View, fault: Fault)
    requires Inv(s) && s.op == Free && view in s.seen && view.link != NotLinked && fault != Works
    ensures FailedImportStaysSafe(s, view, fault) <==> fault == Throws && s.w.local in s.told
  {
    if fault == Throws && s.w.local in s.told {
      forall published, done | Inv(Beside(s, published, done)) ensures StaysSafe(FailedImport(Beside(s, published, done), view, fault)) {
        FailedImportEnds(Beside(s, published, done), view, fault);
        OrderlyStaysSafe(FailedImport(Beside(s, published, done), view, fault));
      }
    } else {
      var published, done := s.w.published, s.w.done;
      if fault == Throws { published, done := CloudWithoutLocal(s); }
      assert Beside(s, s.w.published, s.w.done) == s;
      var t := FailedImport(Beside(s, published, done), view, fault);
      FailedImportEnds(Beside(s, published, done), view, fault);
      assert GuardedRun(t, []) && !Safe(Run(t, []).w);
    }
  }

  // ---- an import beside the first link ------------------------------------------------

  /** The setting up of the link takes n more steps, without a fault. */
  function LinkOn(s: State, n: nat): State {
    if n == 0 then s else Perform(LinkOn(s, n - 1), LinkingRuns(Works))
  }

  function StepsLeft(linking: Linking): nat {
    match linking
    case NoLinking => 0
    case Register(_) => 5
    case Persist(_) => 4
    case Upload(_) => 3
    case Clear(_) => 2
    case FinishLink(_) => 1
  }

  /** The world in which the link is set up. */
  function LinkedWorld(w: World, linking: Linking): World
    requires linking != NoLinking
  {
    w.(link := Ready, pending := None,
       published := if linking.Clear? || linking.FinishLink? then w.published else w.published + {linking.captured})
  }

  lemma LinkOnFirst(s: State, n: nat)
    requires n > 0
    ensures LinkOn(s, n) == LinkOn(Perform(s, LinkingRuns(Works)), n - 1)
  {
    if n > 1 { LinkOnFirst(s, n - 1); }
  }

  lemma {:induction false} LinkOnEnds(s: State)
    requires Inv(s) && s.linking != NoLinking
    ensures LinkOn(s, StepsLeft(s.linking)).w == LinkedWorld(s.w, s.linking)
    decreases StepsLeft(s.linking)
  {
    var t := Perform(s, LinkingRuns(Works));
    LinkOnFirst(s, StepsLeft(s.linking));
    if !s.linking.FinishLink? {
      LinkingKeepsInv(s, Works);
      SeenKeepsInv(LinkingStep(s, Works));
      LinkOnEnds(t);
    }
  }

  ghost predicate LinkEndsSafely(s: State) {
    forall published, done :: Inv(Beside(s, published, done)) ==> Safe(LinkOn(Beside(s, published, done), StepsLeft(s.linking)).w)
  }

  /**
   From any point of the first link on, finishing it makes the link ready, which is safe if and only
   if the device still holds the copy that was captured or one that the cloud has confirmed.
   */
  lemma LinkEndsSafelyIff(s: State)
    requires Inv(s) && s.linking != NoLinking
    ensures LinkOn(s, StepsLeft(s.linking)).w.link == Ready
    ensures LinkEndsSafely(s) <==> s.w.local == s.linking.captured || s.w.local in s.told
  {
    LinkOnEnds(s);
    if s.w.local == s.linking.captured || s.w.local in s.told {
      forall published, done | Inv(Beside(s, published, done))
        ensures Safe(LinkOn(Beside(s, published, done), StepsLeft(s.linking)).w)
      {
        LinkOnEnds(Beside(s, published, done));
      }
    } else {
      var published, done := CloudWithoutLocal(s);
      LinkOnEnds(Beside(s, published, done));
    }
  }

  /** The local part of an import: mark the link if the view has one, then restore. */
  function ImportedLocally(s: State, view: View, fault: Fault): State {
    var t := Perform(s, StartImport(view));
    Perform(if view.link == NotLinked then t else Perform(t, OperationRuns(Works, 0)), OperationRuns(fault, 0))
  }

  /**
   An import in any phase of the first link: if it replaced the local copy, finishing the link is
   unsafe, whatever the phase and the view; if it did not, finishing is as safe as it was.
   */
  lemma ImportWhileLinkingIsSafeIff(s: State, view: View, fault: Fault)
    requires Inv(s) && s.op == Free && s.linking != NoLinking && view in s.seen
    requires view.link == NotLinked ==> s.w.link != Ready
    ensures Inv(ImportedLocally(s, view, fault)) && ImportedLocally(s, view, fault).linking == s.linking
    ensures LinkEndsSafely(ImportedLocally(s, view, fault)) <==> !Happens(fault) && LinkEndsSafely(s)
  {
    var t := ImportedLocally(s, view, fault);
    StepKeepsInv(s, StartImport(view));
    var started := Perform(s, StartImport(view));
    if view.link == NotLinked {
      StepKeepsInv(started, OperationRuns(fault, 0));
    } else {
      StepKeepsInv(started, OperationRuns(Works, 0));
      StepKeepsInv(Perform(started, OperationRuns(Works, 0)), OperationRuns(fault, 0));
    }
    assert t.told == s.told && t.linking == s.linking && t.w.local == if Happens(fault) then s.next + 1 else s.w.local;
    LinkEndsSafelyIff(s);
    LinkEndsSafelyIff(t);
  }

  // ---- runs that lose the local copy --------------------------------------------------

  lemma More(steps: seq<Step>, s: State, step: Step) returns (more: seq<Step>, t: State)
    requires s == Run(FRESH, steps)
    ensures t == Run(FRESH, more) && t == Perform(s, step)
  {
    OneMore(FRESH, steps, step);
    more, t := steps + [step], Perform(s, step);
  }

  /** The first link of a fresh workspace, up to the upload of its copy. */
  lemma LinkUpToUpload() returns (steps: seq<Step>, s: State)
    ensures s == Run(FRESH, steps) && s.op == Free && s.linking == Upload(0) && s.next == 1
    ensures s.w == World(Provisioning(false), None, 0, {}, map[], {})
    ensures View(NotLinked, None) in s.seen && View(Provisioning(false), None) in s.seen
  {
    steps, s := More([], FRESH, StartLinking);
    steps, s := More(steps, s, LinkingRuns(Works));
    steps, s := More(steps, s, LinkingRuns(Works));
  }

  lemma LinkFromUpload(steps: seq<Step>, s: State) returns (more: seq<Step>, t: State)
    requires s == Run(FRESH, steps) && s.linking.Upload? && s.w.link != NotLinked
    ensures t == Run(FRESH, more) && t.op == s.op && t.linking == NoLinking && t.next == s.next && s.seen <= t.seen
    ensures t.w == LinkedWorld(s.w, s.linking) && ViewOf(t.w) in t.seen
  {
    var w := s.w.(published := s.w.published + {s.linking.captured});
    more, t := More(steps, s, LinkingRuns(Works));
    assert t.w == w && t.linking == Clear(s.linking.captured) && t.op == s.op;
    more, t := More(more, t, LinkingRuns(Works));
    assert t.w == w && t.linking == FinishLink(s.linking.captured) && t.op == s.op;
    more, t := More(more, t, LinkingRuns(Works));
  }

  /** A workspace is linked without a fault. */
  lemma LinkingRun() returns (steps: seq<Step>, s: State)
    ensures s == Run(FRESH, steps) && s.op == Free && s.linking == NoLinking && s.next == 1
    ensures s.w == World(Ready, None, 0, {0}, map[], {})
    ensures View(NotLinked, None) in s.seen && View(Ready, None) in s.seen
  {
    steps, s := LinkUpToUpload();
    steps, s := LinkFromUpload(steps, s);
  }

  /** The next sync pulls what the cloud has over the copy that only the device had. */
  lemma SyncLoses(steps: seq<Step>, s: State, cloud: int) returns (more: seq<Step>)
    requires s == Run(FRESH, steps) && s.op == Free && s.w.link == Ready && !Safe(s.w) && cloud in s.w.published
    ensures Run(FRESH, more).clobbered
  {
    var t;
    more, t := More(steps, s, StartSync);
    more, t := More(more, t, OperationRuns(Works, 0));
    more, t := More(more, t, OperationRuns(Works, 0));
    more, t := More(more, t, OperationRuns(Works, cloud));
  }

  /** An import of a linked workspace marks the link and gets to its local restore. */
  lemma ImportUpToRestore(steps: seq<Step>, s: State, view: View) returns (more: seq<Step>, t: State)
    requires s == Run(FRESH, steps) && s.op == Free && s.w.link != NotLinked && view in s.seen && view.link != NotLinked
    ensures t == Run(FRESH, more) && t.op == Importing(Restore, s.next, s.next + 1, true) && t.linking == s.linking
    ensures t.next == s.next + 2 && s.seen <= t.seen && ViewOf(t.w) in t.seen
    ensures t.w == s.w.(link := Provisioning(true), pending := Some(s.next))
  {
    more, t := More(steps, s, StartImport(view));
    more, t := More(more, t, OperationRuns(Works, 0));
  }

  /** An import whose local restore fails after it replaced the rows. */
  lemma FailedRestoreLosesData() returns (steps: seq<Step>)
    ensures Run(FRESH, steps).clobbered
  {
    var s;
    steps, s := LinkingRun();
    steps, s := ImportUpToRestore(steps, s, View(Ready, None));
    steps, s := More(steps, s, OperationRuns(Lost, 0));
    steps, s := More(steps, s, OperationRuns(Works, 0));
    steps := SyncLoses(steps, s, 0);
  }

  /** An import that was asked for before the workspace was linked, and runs afterwards. */
  lemma StaleImportLosesData() returns (steps: seq<Step>)
    ensures Run(FRESH, steps).clobbered
  {
    var s;
    steps, s := LinkingRun();
    steps, s := More(steps, s, StartImport(View(NotLinked, None)));
    steps, s := More(steps, s, OperationRuns(Works, 0));
    steps := SyncLoses(steps, s, 0);
  }

  /** An import whose publish is not confirmed: the request failed at once, or was sent and its outcome stayed unknown. */
  lemma UnconfirmedImport(steps: seq<Step>, s: State, view: View, sent: bool) returns (more: seq<Step>, t: State)
    requires s == Run(FRESH, steps) && s.op == Free && s.w.link != NotLinked && view in s.seen && view.link != NotLinked
    ensures t == Run(FRESH, more) && t.op == Free && t.linking == s.linking && t.next == s.next + 2 && s.seen <= t.seen
    ensures t.w == World(Provisioning(true), Some(s.next), s.next + 1, s.w.published,
      if sent then s.w.sent[s.next := s.next + 1] else s.w.sent, s.w.done)
    ensures ViewOf(t.w) in t.seen
  {
    more, t := ImportUpToRestore(steps, s, view);
    more, t := More(more, t, OperationRuns(Works, 0));
    more, t := More(more, t, OperationRuns(if sent then Lost else Throws, 0));
    if sent { more, t := More(more, t, OperationRuns(Throws, 0)); }
  }

  /** A resume that polls an older request, which the cloud has completed by then. */
  lemma ResumeOlder(steps: seq<Step>, s: State, view: View, id: int) returns (more: seq<Step>, t: State)
    requires s == Run(FRESH, steps) && s.op == Free && s.w.link != NotLinked && id in s.w.sent
    requires view in s.seen && view == View(Provisioning(true), Some(id))
    ensures t == Run(FRESH, more) && t.op == Free && t.w.link == Ready && t.w.local == s.w.local
    ensures t.w.published == s.w.published + {s.w.sent[id]}
  {
    var w := s.w.(published := s.w.published + {s.w.sent[id]}, done := s.w.done + {id});
    more, t := More(steps, s, CloudApplies(id));
    assert t.w == w && t.op == Free;
    more, t := More(more, t, StartResume(view));
    assert t.w == w && t.op == Polling(Some(id), w.local);
    more, t := More(more, t, OperationRuns(Works, 0));
    assert t.w == w && t.op == Resuming(MakeReady, id, w.local);
    more, t := More(more, t, OperationRuns(Works, 0));
  }

  /**
   A resume that was asked for while the first import was pending, and runs after a second one: the
   cloud has completed the first, so the link becomes ready over the second.
   */
  lemma StaleResumeLosesData() returns (steps: seq<Step>)
    ensures Run(FRESH, steps).clobbered
  {
    var s;
    steps, s := LinkingRun();
    steps, s := UnconfirmedImport(steps, s, View(Ready, None), true);
    var asked := ViewOf(s.w);
    steps, s := UnconfirmedImport(steps, s, asked, false);
    steps, s := ResumeOlder(steps, s, asked, 1);
    steps := SyncLoses(steps, s, 0);
  }

  /**
   An import that does not know of the link, while an earlier one is pending: its link is not ready,
   but the next resume, with the current view, finds the earlier request completed.
   */
  lemma StaleImportWhilePendingLosesData() returns (steps: seq<Step>)
    ensures Run(FRESH, steps).clobbered
  {
    var s;
    steps, s := LinkingRun();
    steps, s := UnconfirmedImport(steps, s, View(Ready, None), true);
    var current := ViewOf(s.w);
    steps, s := More(steps, s, StartImport(View(NotLinked, None)));
    steps, s := More(steps, s, OperationRuns(Works, 0));
    assert s.w.link == Provisioning(true) && s.w.local == 4 && current == ViewOf(s.w);
    steps, s := ResumeOlder(steps, s, current, 1);
    steps := SyncLoses(steps, s, 0);
  }

  /** An import while the first link uploads its older copy. */
  lemma ImportDuringUploadLosesData() returns (steps: seq<Step>)
    ensures Run(FRESH, steps).clobbered
  {
    var s;
    steps, s := LinkUpToUpload();
    steps, s := UnconfirmedImport(steps, s, View(Provisioning(false), None), false);
    steps, s := LinkFromUpload(steps, s);
    steps := SyncLoses(steps, s, 0);
  }
}
