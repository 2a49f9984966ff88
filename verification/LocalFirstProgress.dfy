/** Each workflow of the client reaches its end when nothing fails, and a call that fails has no effect but to end it. */
module LocalFirstProgress {
  import opened Numbers
  import opened LocalFirst

  const WORKS := OperationRuns(Works, 0)

  lemma Then(s: State, steps: seq<Step>, step: Step) returns (longer: seq<Step>)
    ensures longer == steps + [step] && Run(s, longer) == Perform(Run(s, steps), step)
  {
    longer := steps + [step];
    OneMore(s, steps, step);
  }

  /** The device is linked, ready, and the cloud has its copy and said so. */
  predicate Linked(t: State, local: int) {
    t.op == Free && t.w.link == Ready && t.w.pending == None && t.w.local == local && local in t.w.published && local in t.told
  }

  // ---- nothing fails ------------------------------------------------------------------

  /** A promotion uploads the local copy before it makes the link ready, with its last call. */
  lemma PromotionSucceeds(s: State, view: View) returns (steps: seq<Step>)
    requires s.op == Free && view in s.seen && view.link.Provisioning? && s.w.link != NotLinked
    ensures Linked(Run(s, steps), s.w.local)
    ensures |steps| == 4 && Run(s, steps[..3]).w.link == s.w.link && s.w.local in Run(s, steps[..3]).told
  {
    steps := Then(s, [], StartPromotion(view));
    assert Run(s, steps).op == Promoting(RestoreCloud, s.w.local) && Run(s, steps).w == s.w;
    steps := Then(s, steps, WORKS);
    steps := Then(s, steps, WORKS);
    var three := steps;
    assert Run(s, three).op == Promoting(PromoteReady, s.w.local);
    steps := Then(s, steps, WORKS);
    assert steps[..3] == three;
  }

  /** A resume that finds its request completed ends with a ready link at once. */
  lemma FinishedResumeSucceeds(s: State, view: View, id: int) returns (steps: seq<Step>)
    requires s.op == Free && view in s.seen && view == View(Provisioning(true), Some(id)) && s.w.link != NotLinked
    requires id in s.w.done && id in s.w.sent && s.w.sent[id] == s.w.local && s.w.local in s.w.published
    ensures Linked(Run(s, steps), s.w.local) && Run(s, steps).w.sent == s.w.sent
  {
    steps := Then(s, [], StartResume(view));
    assert Run(s, steps).op == Polling(Some(id), s.w.local) && Run(s, steps).w == s.w;
    steps := Then(s, steps, WORKS);
    steps := Then(s, steps, WORKS);
  }

  /** The poll tells a resume to publish anew: no request is known, or the cloud has not completed it. */
  lemma ResumeMarksAnew(s: State, view: View) returns (steps: seq<Step>)
    requires s.op == Free && view in s.seen && view.link == Provisioning(true) && s.w.link != NotLinked
    requires view.pending.Some? ==> !(view.pending.value in s.w.done && view.pending.value in s.w.sent)
    ensures var t := Run(s, steps);
      && t.op == Resuming(Publish, s.next, s.w.local) && t.next == s.next + 1
      && t.w == s.w.(link := Provisioning(true), pending := Some(s.next))
  {
    steps := Then(s, [], StartResume(view));
    assert Run(s, steps).op == Polling(view.pending, s.w.local) && Run(s, steps).w == s.w && Run(s, steps).next == s.next;
    steps := Then(s, steps, WORKS);
    assert Run(s, steps).op == Resuming(Mark, s.next, s.w.local) && Run(s, steps).w == s.w;
    steps := Then(s, steps, WORKS);
  }

  /** The request is sent, applied and read back; then the link is made ready. */
  lemma RequestIsConfirmed(t: State, id: int)
    requires t.op == Resuming(Publish, id, t.w.local) && t.w.link != NotLinked
    ensures Linked(Perform(Perform(Perform(Perform(t, WORKS), CloudApplies(id)), WORKS), WORKS), t.w.local)
  {
    var u := Perform(t, WORKS);
    assert u.op == Resuming(Confirm, id, t.w.local) && u.w == t.w.(sent := t.w.sent[id := t.w.local]);
    var v := Perform(u, CloudApplies(id));
    assert v.op == u.op && id in v.w.done && id in v.w.sent && v.w.sent[id] == t.w.local && t.w.local in v.w.published && v.w.local == t.w.local;
    var x := Perform(v, WORKS);
    assert x.op == Resuming(MakeReady, id, t.w.local) && t.w.local in x.told && x.w == v.w;
  }

  /** Any other resume publishes the copy under a new request and ends with a ready link once the cloud has applied it. */
  lemma ResumeSucceeds(s: State, view: View) returns (steps: seq<Step>)
    requires s.op == Free && view in s.seen && view.link == Provisioning(true) && s.w.link != NotLinked
    requires view.pending.Some? ==> !(view.pending.value in s.w.done && view.pending.value in s.w.sent)
    ensures Linked(Run(s, steps), s.w.local)
  {
    steps := ResumeMarksAnew(s, view);
    RequestIsConfirmed(Run(s, steps), s.next);
    steps := Then(s, steps, WORKS);
    steps := Then(s, steps, CloudApplies(s.next));
    steps := Then(s, steps, WORKS);
    steps := Then(s, steps, WORKS);
  }

  /** The first link of a local workspace registers it, uploads its copy and makes the link ready. */
  lemma LinkingSucceeds(s: State) returns (steps: seq<Step>)
    requires s.op == Free && s.linking == NoLinking && s.w.link == NotLinked
    ensures Linked(Run(s, steps), s.w.local) && Run(s, steps).linking == NoLinking
  {
    steps := Then(s, [], StartLinking);
    assert Run(s, steps).linking == Register(s.w.local) && Run(s, steps).w == s.w;
    steps := Then(s, steps, LinkingRuns(Works));
    steps := Then(s, steps, LinkingRuns(Works));
    assert Run(s, steps).linking == Upload(s.w.local) && Run(s, steps).w == s.w.(link := Provisioning(false), pending := None);
    steps := Then(s, steps, LinkingRuns(Works));
    assert Run(s, steps).linking == Clear(s.w.local) && s.w.local in Run(s, steps).told;
    steps := Then(s, steps, LinkingRuns(Works));
    steps := Then(s, steps, LinkingRuns(Works));
  }

  /** A sync over a ready link takes over what it pulled; over any other link it stops at its gate and changes nothing. */
  lemma SyncPullsIffReady(s: State, pulled: int)
    requires s.op == Free && s.w.link != NotLinked && pulled in s.w.published
    ensures var t := Run(s, [StartSync, WORKS, WORKS, OperationRuns(Works, pulled)]);
      t.op == Free && t.w == (if s.w.link == Ready then s.w.(local := pulled) else s.w)
  {
    RunFour(s, StartSync, WORKS, WORKS, OperationRuns(Works, pulled));
  }

  /** An import into a workspace without a link replaces the local copy and nothing else. */
  lemma LocalImportSucceeds(s: State, pending: Option<int>)
    requires s.op == Free && View(NotLinked, pending) in s.seen
    ensures var t := Run(s, [StartImport(View(NotLinked, pending)), WORKS]); t.op == Free && t.w == s.w.(local := s.next + 1)
  {
    RunTwo(s, StartImport(View(NotLinked, pending)), WORKS);
    var a := Perform(s, StartImport(View(NotLinked, pending)));
    assert a.op == Importing(Restore, s.next, s.next + 1, false) && a.w == s.w;
    assert Take(a, WORKS) == ImportStep(a, Works);
  }

  /** An import into a linked workspace marks the link before it replaces the copy, and publishes that copy. */
  lemma LinkedImportPublishes(s: State, view: View)
    requires s.op == Free && view in s.seen && view.link != NotLinked && s.w.link != NotLinked
    ensures var t := Run(s, [StartImport(view), WORKS, WORKS, WORKS]);
      && t.w == s.w.(link := Provisioning(true), pending := Some(s.next), local := s.next + 1, sent := s.w.sent[s.next := s.next + 1])
      && t.op == Importing(Confirm, s.next, s.next + 1, true)
  {
    RunFour(s, StartImport(view), WORKS, WORKS, WORKS);
    var id, marked := s.next, s.w.(link := Provisioning(true), pending := Some(s.next));
    var a := Perform(s, StartImport(view));
    assert a.op == Importing(Mark, id, id + 1, true) && a.w == s.w;
    var b := Perform(a, WORKS);
    assert b.op == Importing(Restore, id, id + 1, true) && b.w == marked;
    var c := Perform(b, WORKS);
    assert c.op == Importing(LocalFirst.Publish, id, id + 1, true) && c.w == marked.(local := id + 1);
  }

  // ---- something fails ----------------------------------------------------------------

  /** A call that fails before its effect changes no data, and ends the workflow; a failed restore is rolled back first. */
  lemma FailureEndsWorkflow(s: State, pulled: int)
    requires s.op != Free
    ensures var t := OperationStep(s, Throws, pulled);
      && t.w == s.w && t.told == s.told && t.clobbered == s.clobbered
      && (s.op.Importing? && s.op.step == Restore && s.op.linked ==> t.op == s.op.(step := Rollback))
      && (s.op.Polling? && s.op.polled == None ==> t.op == Resuming(Mark, s.next, s.op.backup))
      && (!(s.op.Importing? && s.op.step == Restore && s.op.linked) && !(s.op.Polling? && s.op.polled == None) ==> t.op == Free)
  {
  }

  /** Closing the tab ends every workflow where it is. */
  lemma ClosingEndsWorkflows(s: State)
    ensures var t := Perform(s, CloseTab); t.w == s.w && t.op == Free && t.linking == NoLinking && t.told == s.told
  {
  }

  /** The same for the first link. */
  lemma FailureEndsLinking(s: State)
    ensures var t := LinkingStep(s, Throws); t.w == s.w && t.told == s.told && t.linking == NoLinking && t.op == s.op
  {
  }
}
