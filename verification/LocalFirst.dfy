/**
 The client workflows that replace a whole workspace: importing a backup, resuming an unconfirmed
 import, promoting a local workspace to the cloud. Each call of a dependency is one step that may
 fail before or after its effect, and the tab may close between any two steps.

 A lineage names one wholesale copy of the workspace's data. Pulling is harmless exactly when the
 lineage that the client holds has reached the cloud. A workflow decides by the link as its caller
 read it, which may be any time before the workflow gets the mutex.
 */
module LocalFirst {
  import opened Numbers

  /** A provisioning link remembers whether an import or the first link put it there. */
  datatype Link = NotLinked | Ready | Provisioning(importing: bool)

  /** `sent` maps import ids to the lineage in their request, `done` are the imports the cloud journaled as completed. */
  datatype World = World(
    link: Link, pending: Option<int>, local: int, published: set<int>, sent: map<int, int>, done: set<int>)

  /** The link record as a screen read it. */
  datatype View = View(link: Link, pending: Option<int>)

  datatype SyncPc = Gate | Push | Pull

  datatype ImportPc = Mark | Restore | Rollback | Publish | Confirm | MakeReady

  datatype PromotePc = RestoreCloud | ClearOutbox | PromoteReady

  /** The holder of the workspace's mutex. `linked` and `polled` come from the view, `backup` is the local copy at the start. */
  datatype Operation =
    | Free
    | Syncing(sync: SyncPc)
    | Importing(step: ImportPc, id: int, lineage: int, linked: bool)
    | Polling(polled: Option<int>, backup: int)
    | Resuming(resume: ImportPc, newId: int, backup: int)
    | Promoting(promote: PromotePc, backup: int)

  /** The first promotion of a local workspace, which does not take the mutex; `captured` is the copy it uploads. */
  datatype Linking =
    | NoLinking
    | Register(captured: int)
    | Persist(captured: int)
    | Upload(captured: int)
    | Clear(captured: int)
    | FinishLink(captured: int)

  datatype Fault = Works | Throws | Lost

  /** `told` are the lineages that the cloud has confirmed to this device, `seen` the views anybody may hold. */
  datatype State = State(
    w: World, op: Operation, linking: Linking, next: int, told: set<int>, seen: set<View>, clobbered: bool)

  datatype Step =
    | StartSync
    | StartImport(view: View)
    | StartResume(view: View)
    | StartPromotion(view: View)
    | StartLinking
    | OperationRuns(fault: Fault, pulled: int)
    | LinkingRuns(fault: Fault)
    | CloudApplies(id: int)
    | CloseTab

  /** A dependency call with this effect: whether the effect happened. */
  predicate Happens(fault: Fault) {
    fault != Throws
  }

  /** The link record is only ever changed when there is one. */
  function Readied(w: World, fault: Fault): World {
    if Happens(fault) && w.link != NotLinked then w.(link := Ready, pending := None) else w
  }

  function Marked(w: World, id: int, fault: Fault): World {
    if Happens(fault) && w.link != NotLinked then w.(link := Provisioning(true), pending := Some(id)) else w
  }

  function ViewOf(w: World): View { View(w.link, w.pending) }

  // ---- one step of the operation that holds the mutex ---------------------------------

  function SyncStep(s: State, pc: SyncPc, fault: Fault, pulled: int): State {
    match pc
    case Gate => s.(op := if fault == Works && !s.w.link.Provisioning? then Syncing(Push) else Free)
    case Push => s.(op := if fault == Works then Syncing(Pull) else Free)
    case Pull =>
      if !Happens(fault) || pulled !in s.w.published then s.(op := Free)
      else s.(op := Free, clobbered := s.clobbered || s.w.local !in s.w.published, w := s.w.(local := pulled), told := s.told + {pulled})
  }

  function ImportStep(s: State, fault: Fault): State
    requires s.op.Importing?
  {
    var id, lineage := s.op.id, s.op.lineage;
    match s.op.step
    case Mark => s.(w := Marked(s.w, id, fault), op := if fault == Works then s.op.(step := Restore) else Free)
    case Restore =>
      s.(w := if Happens(fault) then s.w.(local := lineage) else s.w,
         op := if !s.op.linked then Free else s.op.(step := if fault == Works then Publish else Rollback))
    case Rollback => s.(w := Readied(s.w, fault), op := Free)
    case Publish =>
      if fault == Throws then s.(op := Free)
      else s.(w := s.w.(sent := s.w.sent[id := lineage]), op := s.op.(step := Confirm))
    case Confirm =>
      if fault == Works && id in s.w.done && id in s.w.sent then s.(told := s.told + {s.w.sent[id]}, op := s.op.(step := MakeReady))
      else s.(op := Free)
    case MakeReady => s.(w := Readied(s.w, fault), op := Free)
  }

  /** A resumed import either finds the request it knows of completed or publishes the local copy under a new id. */
  function PollStep(s: State, fault: Fault): State
    requires s.op.Polling?
  {
    var anew := s.(op := Resuming(Mark, s.next, s.op.backup), next := s.next + 1);
    match s.op.polled
    case None => anew
    case Some(id) =>
      if fault != Works then s.(op := Free)
      else if id in s.w.done && id in s.w.sent then s.(told := s.told + {s.w.sent[id]}, op := Resuming(MakeReady, id, s.op.backup))
      else anew
  }

  function ResumeStep(s: State, fault: Fault): State
    requires s.op.Resuming?
  {
    var id := s.op.newId;
    match s.op.resume
    case Mark => s.(w := Marked(s.w, id, fault), op := if fault == Works then s.op.(resume := Publish) else Free)
    case Publish =>
      if fault == Throws then s.(op := Free)
      else s.(w := s.w.(sent := s.w.sent[id := s.op.backup]), op := s.op.(resume := Confirm))
    case Confirm =>
      if fault == Works && id in s.w.done && id in s.w.sent then s.(told := s.told + {s.w.sent[id]}, op := s.op.(resume := MakeReady))
      else s.(op := Free)
    case MakeReady => s.(w := Readied(s.w, fault), op := Free)
    case _ => s.(op := Free)
  }

  function PromoteStep(s: State, fault: Fault): State
    requires s.op.Promoting?
  {
    match s.op.promote
    case RestoreCloud =>
      s.(w := if Happens(fault) then s.w.(published := s.w.published + {s.op.backup}) else s.w,
         told := if fault == Works then s.told + {s.op.backup} else s.told,
         op := if fault == Works then s.op.(promote := ClearOutbox) else Free)
    case ClearOutbox => s.(op := if fault == Works then s.op.(promote := PromoteReady) else Free)
    case PromoteReady => s.(w := Readied(s.w, fault), op := Free)
  }

  function OperationStep(s: State, fault: Fault, pulled: int): State {
    match s.op
    case Free => s
    case Syncing(pc) => SyncStep(s, pc, fault, pulled)
    case Importing(_, _, _, _) => ImportStep(s, fault)
    case Polling(_, _) => PollStep(s, fault)
    case Resuming(_, _, _) => ResumeStep(s, fault)
    case Promoting(_, _) => PromoteStep(s, fault)
  }

  // ---- linking and the whole ----------------------------------------------------------

  function LinkingStep(s: State, fault: Fault): State {
    match s.linking
    case NoLinking => s
    case Register(captured) => s.(linking := if fault == Works then Persist(captured) else NoLinking)
    case Persist(captured) =>
      s.(w := if Happens(fault) then s.w.(link := Provisioning(false), pending := None) else s.w,
         linking := if fault == Works then Upload(captured) else NoLinking)
    case Upload(captured) =>
      s.(w := if Happens(fault) then s.w.(published := s.w.published + {captured}) else s.w,
         told := if fault == Works then s.told + {captured} else s.told,
         linking := if fault == Works then Clear(captured) else NoLinking)
    case Clear(captured) => s.(linking := if fault == Works then FinishLink(captured) else NoLinking)
    case FinishLink(_) => s.(w := Readied(s.w, fault), linking := NoLinking)
  }

  /**
   An operation starts only while nobody holds the mutex, with any view that somebody once had. The
   server refuses to register a workspace twice, so a link is set up only while there is none.
   */
  function Take(s: State, step: Step): State {
    match step
    case StartSync => if s.op == Free && s.w.link != NotLinked then s.(op := Syncing(Gate)) else s
    case StartImport(view) =>
      if s.op != Free || view !in s.seen then s
      else
        var linked := view.link != NotLinked;
        s.(op := Importing(if linked then Mark else Restore, s.next, s.next + 1, linked), next := s.next + 2)
    case StartResume(view) =>
      if s.op == Free && view in s.seen && view.link == Provisioning(true) then s.(op := Polling(view.pending, s.w.local)) else s
    case StartPromotion(view) =>
      if s.op == Free && view in s.seen && view.link.Provisioning? then s.(op := Promoting(RestoreCloud, s.w.local)) else s
    case StartLinking => if s.linking == NoLinking && s.w.link == NotLinked then s.(linking := Register(s.w.local)) else s
    case OperationRuns(fault, pulled) => OperationStep(s, fault, pulled)
    case LinkingRuns(fault) => LinkingStep(s, fault)
    case CloudApplies(id) =>
      if id in s.w.sent then s.(w := s.w.(published := s.w.published + {s.w.sent[id]}, done := s.w.done + {id})) else s
    case CloseTab => s.(op := Free, linking := NoLinking)
  }

  /** A step, after which the link may be read again. */
  function Perform(s: State, step: Step): State {
    var t := Take(s, step);
    t.(seen := t.seen + {ViewOf(t.w)})
  }

  function Run(s: State, steps: seq<Step>): State {
    if steps == [] then s else Perform(Run(s, steps[..|steps| - 1]), steps[|steps| - 1])
  }

  /** A workspace that lives only on this device. */
  const FRESH := State(World(NotLinked, None, 0, {}, map[], {}), Free, NoLinking, 1, {}, {View(NotLinked, None)}, false)

  // ---- what every state keeps ---------------------------------------------------------

  /** A link that allows pulls belongs to a copy that has reached the cloud. */
  predicate Safe(w: World) {
    w.link == Ready ==> w.local in w.published
  }

  ghost predicate WorldOk(w: World, next: int, told: set<int>) {
    && (w.link == Ready ==> w.local in told)
    && told <= w.published
    && (w.pending.Some? ==> w.link == Provisioning(true))
    && (forall id :: id in w.done ==> id in w.sent && w.sent[id] in w.published)
    && (forall id :: id in w.sent ==> id < next && w.sent[id] < next)
    && (forall lineage :: lineage in w.published ==> lineage < next)
    && w.local < next
  }

  /** Nobody has the data of this lineage yet. */
  ghost predicate Unused(w: World, linking: Linking, lineage: int) {
    && lineage !in w.published && lineage != w.local
    && (forall id :: id in w.sent ==> w.sent[id] != lineage)
    && (linking != NoLinking ==> linking.captured != lineage)
  }

  ghost predicate OperationOk(s: State) {
    match s.op
    case Free => true
    case Syncing(pc) => s.w.link != NotLinked && (pc != Gate ==> s.w.link == Ready)
    case Importing(pc, id, lineage, linked) =>
      && id < lineage < s.next && (linked ==> s.w.link != NotLinked) && (!linked ==> pc == Restore)
      && (pc == Mark || pc == Restore ==> Unused(s.w, s.linking, lineage))
      && (pc == Confirm || pc == MakeReady || id !in s.w.sent)
    case Polling(_, backup) => s.w.link != NotLinked && backup < s.next
    case Resuming(pc, id, backup) =>
      && s.w.link != NotLinked && id < s.next && backup < s.next
      && (pc == Confirm || pc == MakeReady || id !in s.w.sent)
    case Promoting(pc, backup) => s.w.link != NotLinked && backup < s.next && (pc != RestoreCloud ==> backup in s.told)
  }

  ghost predicate LinkingOk(s: State) {
    match s.linking
    case NoLinking => true
    case Register(captured) => s.w.link == NotLinked && captured < s.next
    case Persist(captured) => s.w.link == NotLinked && captured < s.next
    case Upload(captured) => s.w.link != NotLinked && captured < s.next
    case Clear(captured) => s.w.link != NotLinked && captured in s.told
    case FinishLink(captured) => s.w.link != NotLinked && captured in s.told
  }

  ghost predicate Inv(s: State) {
    && WorldOk(s.w, s.next, s.told) && OperationOk(s) && LinkingOk(s) && !s.clobbered
    && forall v :: v in s.seen && v.link != NotLinked ==> s.w.link != NotLinked
  }

  // ---- which steps are safe -----------------------------------------------------------

  /** The step makes the link ready, or replaces the local copy. */
  predicate MakesReady(s: State, step: Step) {
    s.w.link != NotLinked &&
    match step
    case OperationRuns(fault, _) =>
      Happens(fault) &&
      (match s.op
       case Importing(pc, _, _, _) => pc == Rollback || pc == MakeReady
       case Resuming(pc, _, _) => pc == MakeReady
       case Promoting(pc, _) => pc == PromoteReady
       case _ => false)
    case LinkingRuns(fault) => Happens(fault) && s.linking.FinishLink?
    case _ => false
  }

  predicate Imports(s: State, step: Step) {
    step.OperationRuns? && Happens(step.fault) && s.op.Importing? && s.op.step == Restore
  }

  /** What the device can check: it was told that the cloud has its copy; the link is not ready. */
  predicate Allowed(s: State, step: Step) {
    && (MakesReady(s, step) ==> s.w.local in s.told)
    && (Imports(s, step) ==> s.w.link != Ready)
  }

  lemma OperationKeepsInv(s: State, fault: Fault, pulled: int)
    requires Inv(s) && Allowed(s, OperationRuns(fault, pulled))
    ensures Inv(OperationStep(s, fault, pulled))
  {
    match s.op {
      case Importing(_, _, _, _) => ImportKeepsInv(s, fault);
      case Resuming(_, _, _) => ResumeKeepsInv(s, fault);
      case Promoting(_, _) => PromoteKeepsInv(s, fault);
      case _ =>
    }
  }

  lemma PromoteKeepsInv(s: State, fault: Fault)
    requires Inv(s) && s.op.Promoting? && Allowed(s, OperationRuns(fault, 0))
    ensures Inv(PromoteStep(s, fault))
  {
  }

  lemma ResumeKeepsInv(s: State, fault: Fault)
    requires Inv(s) && s.op.Resuming? && Allowed(s, OperationRuns(fault, 0))
    ensures Inv(ResumeStep(s, fault))
  {
  }

  lemma RestoreKeepsInv(s: State, fault: Fault)
    requires Inv(s) && s.op.Importing? && s.op.step == Restore && (Happens(fault) ==> s.w.link != Ready)
    ensures Inv(ImportStep(s, fault))
  {
  }

  lemma PublishKeepsInv(s: State, fault: Fault)
    requires Inv(s) && s.op.Importing? && (s.op.step == Publish || s.op.step == Confirm)
    ensures Inv(ImportStep(s, fault))
  {
  }

  lemma ImportKeepsInv(s: State, fault: Fault)
    requires Inv(s) && s.op.Importing? && Allowed(s, OperationRuns(fault, 0))
    ensures Inv(ImportStep(s, fault))
  {
    match s.op.step {
      case Restore => RestoreKeepsInv(s, fault);
      case Publish => PublishKeepsInv(s, fault);
      case Confirm => PublishKeepsInv(s, fault);
      case _ =>
    }
  }

  lemma LinkingKeepsInv(s: State, fault: Fault)
    requires Inv(s) && Allowed(s, LinkingRuns(fault))
    ensures Inv(LinkingStep(s, fault))
  {
    if s.linking.Upload? { UploadKeepsInv(s, fault); }
  }

  lemma UploadKeepsInv(s: State, fault: Fault)
    requires Inv(s) && s.linking.Upload?
    ensures Inv(LinkingStep(s, fault))
  {
  }

  lemma StartKeepsInv(s: State, step: Step)
    requires Inv(s) && !step.OperationRuns? && !step.LinkingRuns?
    ensures Inv(Take(s, step))
  {
  }

  lemma SeenKeepsInv(s: State)
    requires Inv(s)
    ensures Inv(s.(seen := s.seen + {ViewOf(s.w)})) && Safe(s.w)
  {
  }

  lemma StepKeepsInv(s: State, step: Step)
    requires Inv(s) && Allowed(s, step)
    ensures Inv(Perform(s, step)) && Safe(Perform(s, step).w)
  {
    match step {
      case OperationRuns(fault, pulled) => OperationKeepsInv(s, fault, pulled);
      case LinkingRuns(fault) => LinkingKeepsInv(s, fault);
      case _ => StartKeepsInv(s, step);
    }
    SeenKeepsInv(Take(s, step));
  }

  /** The same device beside another cloud. */
  function Beside(s: State, published: set<int>, done: set<int>): State {
    s.(w := s.w.(published := published, done := done))
  }

  /** Whatever the cloud holds beyond what it told the device, the step leaves the link safe. */
  ghost predicate SafeWhateverTheCloudHolds(s: State, step: Step) {
    forall published, done :: Inv(Beside(s, published, done)) ==> Safe(Perform(Beside(s, published, done), step).w)
  }

  /** A cloud that never got the copy on the device, if it never said that it did. */
  lemma CloudWithoutLocal(s: State) returns (published: set<int>, done: set<int>)
    requires Inv(s) && s.w.local !in s.told
    ensures Inv(Beside(s, published, done)) && s.w.local !in published
  {
    published := s.w.published - {s.w.local};
    done := set id | id in s.w.done && s.w.sent[id] != s.w.local;
  }

  /**
   A step is safe for everything the cloud may hold if and only if it is allowed: it makes the link
   ready only for a copy that the cloud has confirmed, and replaces the copy only under a link that
   is not ready.
   */
  lemma StepIsSafeIff(s: State, step: Step)
    requires Inv(s)
    ensures SafeWhateverTheCloudHolds(s, step) <==> Allowed(s, step)
  {
    if Allowed(s, step) {
      forall published, done | Inv(Beside(s, published, done)) ensures Safe(Perform(Beside(s, published, done), step).w) {
        StepKeepsInv(Beside(s, published, done), step);
      }
    } else if Imports(s, step) && s.w.link == Ready {
      assert Beside(s, s.w.published, s.w.done) == s;
    } else {
      var published, done := CloudWithoutLocal(s);
      assert MakesReady(Beside(s, published, done), step);
    }
  }

  /** Once a link is ready over an unpublished copy, the next sync overwrites that copy. */
  lemma UnsafeLinkIsOverwritten(s: State, cloud: int)
    requires s.op == Free && s.w.link == Ready && !Safe(s.w) && cloud in s.w.published
    ensures Run(s, [StartSync, OperationRuns(Works, 0), OperationRuns(Works, 0), OperationRuns(Works, cloud)]).clobbered
  {
    RunFour(s, StartSync, OperationRuns(Works, 0), OperationRuns(Works, 0), OperationRuns(Works, cloud));
  }

  lemma OneMore(s: State, steps: seq<Step>, step: Step)
    ensures Run(s, steps + [step]) == Perform(Run(s, steps), step)
  {
    assert (steps + [step])[..|steps|] == steps;
  }

  lemma RunTwo(s: State, a: Step, b: Step)
    ensures Run(s, [a, b]) == Perform(Perform(s, a), b)
  {
    OneMore(s, [], a);
    OneMore(s, [a], b);
    assert [] + [a] == [a] && [a] + [b] == [a, b];
  }

  lemma RunFour(s: State, a: Step, b: Step, c: Step, d: Step)
    ensures Run(s, [a, b, c, d]) == Perform(Perform(Perform(Perform(s, a), b), c), d)
  {
    RunTwo(s, a, b);
    assert [a, b] + [c] == [a, b, c] && [a, b, c] + [d] == [a, b, c, d];
    OneMore(s, [a, b], c);
    OneMore(s, [a, b, c], d);
  }
}
