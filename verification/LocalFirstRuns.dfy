/**
 Whole runs of the client workflows: what callers have to see to so that no step ever endangers the
 local copy.
 */
module LocalFirstRuns {
  import opened Numbers
  import opened LocalFirst

  // ---- what callers have to see to ----------------------------------------------------

  /**
   An import or a resume uses a view that agrees with the link when it gets the mutex; imports and
   the first link do not overlap; a local restore fails only with nothing replaced over a copy that
   the cloud has confirmed.
   */
  predicate Guarded(s: State, step: Step) {
    match step
    case StartImport(view) => (view.link == NotLinked <==> s.w.link == NotLinked) && s.linking == NoLinking
    case StartResume(view) => view.pending == s.w.pending || s.w.link == Ready
    case StartLinking => !s.op.Importing?
    case OperationRuns(fault, _) => s.op.Importing? && s.op.step == Restore && s.op.linked ==> HarmlessRestore(s, fault)
    case _ => true
  }

  predicate HarmlessRestore(s: State, fault: Fault) {
    fault == Works || (fault == Throws && s.w.local in s.told)
  }

  predicate GuardedRun(s: State, steps: seq<Step>) {
    steps != [] ==> GuardedRun(s, steps[..|steps| - 1]) && Guarded(Run(s, steps[..|steps| - 1]), steps[|steps| - 1])
  }

  /** The request that the link waits for, if it was sent, carried the copy on the device. */
  ghost predicate Carries(w: World, id: int) {
    id in w.sent ==> w.sent[id] == w.local
  }

  ghost predicate OperationOrderly(s: State) {
    match s.op
    case Importing(pc, id, lineage, linked) =>
      && s.linking == NoLinking && (linked <==> s.w.link != NotLinked)
      && (linked && pc != Mark ==> s.w.link == Provisioning(true) && s.w.pending == Some(id))
      && (pc == Publish ==> s.w.local == lineage) && (pc == Confirm ==> Carries(s.w, id))
      && (pc == Rollback || pc == MakeReady ==> s.w.local in s.told)
    case Polling(polled, backup) =>
      backup == s.w.local && (polled.Some? ==> Carries(s.w, polled.value) || s.w.local in s.told)
    case Resuming(pc, id, backup) =>
      && backup == s.w.local && (pc == Confirm ==> Carries(s.w, id)) && (pc == MakeReady ==> s.w.local in s.told)
    case Promoting(_, backup) => backup == s.w.local
    case _ => true
  }

  /** What guarded runs keep beside the invariant. */
  ghost predicate Orderly(s: State) {
    && (s.w.pending.Some? ==> Carries(s.w, s.w.pending.value))
    && OperationOrderly(s)
    && (s.linking != NoLinking ==> s.linking.captured == s.w.local || s.w.local in s.told)
  }

  lemma GuardedIsAllowed(s: State, step: Step)
    requires Inv(s) && Orderly(s) && Guarded(s, step)
    ensures Allowed(s, step)
  {
  }

  lemma ImportIsOrderly(s: State, fault: Fault)
    requires Inv(s) && Orderly(s) && s.op.Importing? && Guarded(s, OperationRuns(fault, 0))
    ensures Orderly(ImportStep(s, fault))
  {
  }

  lemma ResumeIsOrderly(s: State, fault: Fault)
    requires Inv(s) && Orderly(s) && s.op.Resuming?
    ensures Orderly(ResumeStep(s, fault))
  {
  }

  lemma OperationIsOrderly(s: State, fault: Fault, pulled: int)
    requires Inv(s) && Orderly(s) && Guarded(s, OperationRuns(fault, pulled))
    ensures Orderly(OperationStep(s, fault, pulled))
  {
    match s.op {
      case Importing(_, _, _, _) => ImportIsOrderly(s, fault);
      case Resuming(_, _, _) => ResumeIsOrderly(s, fault);
      case _ =>
    }
  }

  lemma LinkingIsOrderly(s: State, fault: Fault)
    requires Inv(s) && Orderly(s)
    ensures Orderly(LinkingStep(s, fault))
  {
  }

  lemma StartIsOrderly(s: State, step: Step)
    requires Inv(s) && Orderly(s) && Guarded(s, step) && !step.OperationRuns? && !step.LinkingRuns?
    ensures Orderly(Take(s, step))
  {
  }

  lemma StepIsOrderly(s: State, step: Step)
    requires Inv(s) && Orderly(s) && Guarded(s, step)
    ensures Orderly(Perform(s, step))
  {
    match step {
      case OperationRuns(fault, pulled) => OperationIsOrderly(s, fault, pulled);
      case LinkingRuns(fault) => LinkingIsOrderly(s, fault);
      case _ => StartIsOrderly(s, step);
    }
    var t := Take(s, step);
    assert t.(seen := t.seen + {ViewOf(t.w)}).op == t.op;
  }

  lemma {:induction false} GuardedRunKeeps(s: State, steps: seq<Step>)
    requires Inv(s) && Orderly(s) && GuardedRun(s, steps)
    ensures Inv(Run(s, steps)) && Orderly(Run(s, steps))
  {
    if steps != [] {
      var t, step := Run(s, steps[..|steps| - 1]), steps[|steps| - 1];
      GuardedRunKeeps(s, steps[..|steps| - 1]);
      GuardedIsAllowed(t, step);
      StepKeepsInv(t, step);
      StepIsOrderly(t, step);
    }
  }

  /** However a guarded run goes on from here, the link is ready only over a published copy and no pull overwrites another. */
  ghost predicate StaysSafe(s: State) {
    forall steps :: GuardedRun(s, steps) ==> Safe(Run(s, steps).w) && !Run(s, steps).clobbered
  }

  lemma OrderlyStaysSafe(s: State)
    requires Inv(s) && Orderly(s)
    ensures StaysSafe(s)
  {
    forall steps | GuardedRun(s, steps) ensures Safe(Run(s, steps).w) && !Run(s, steps).clobbered {
      GuardedRunKeeps(s, steps);
    }
  }

  /**
   In every guarded run, whatever fails, however old the views are and whenever the tab closes, no
   pull overwrites a local copy that the cloud does not have, and a link is ready only over a copy
   that the cloud has.
   */
  lemma NoPullOverUnpublishedData(steps: seq<Step>)
    requires GuardedRun(FRESH, steps)
    ensures Inv(Run(FRESH, steps)) && Orderly(Run(FRESH, steps))
    ensures !Run(FRESH, steps).clobbered
    ensures Run(FRESH, steps).w.local !in Run(FRESH, steps).w.published ==> Run(FRESH, steps).w.link != Ready
  {
    GuardedRunKeeps(FRESH, steps);
  }
}
