/**
 The client's commands over its billing tables: complete a lesson, reopen it, configure billing.
 The class performs them step by step on its tables; the functions of `Attendance` and
 `Reopening` say what each run amounts to.
 */
module TutoringCommands {
  import opened Numbers
  import opened PackageCycles
  import opened Renumbering
  import opened Attendance
  import opened Reopening

  datatype BillingInput =
    | PerSession
    | Package(size: int, price: nat, opening: nat, anchor: Option<int>, effectiveFrom: int)

  predicate InputOk(input: BillingInput) {
    input.Package? ==> 1 <= input.size <= 100 && input.opening <= 100
  }

  // ---- configuring billing ------------------------------------------------------------

  /** The uncancelled cycle with the highest sequence number; the earlier row wins a tie. */
  function CurrentCycle(cycles: seq<Cycle>, student: int): (found: Option<nat>)
    ensures found.Some? ==> found.value < |cycles| && cycles[found.value].student == student && cycles[found.value].status != Cancelled
    ensures found.Some? ==> (forall i :: 0 <= i < |cycles| && cycles[i].student == student && cycles[i].status != Cancelled ==> cycles[i].sequenceNo <= cycles[found.value].sequenceNo)
    ensures found.None? ==> forall i :: 0 <= i < |cycles| && cycles[i].student == student ==> cycles[i].status == Cancelled
  {
    if cycles == [] then None
    else
      var n := |cycles| - 1;
      var before := CurrentCycle(cycles[..n], student);
      if cycles[n].student == student && cycles[n].status != Cancelled
         && (before.None? || cycles[before.value].sequenceNo < cycles[n].sequenceNo)
      then Some(n) else before
  }

  predicate CanChangeOpening(c: Cycle, requested: nat) {
    c.opening == requested || (!c.locked && c.realCount == 0)
  }

  function FirstCycle(s: Store, student: int, input: BillingInput): Cycle
    requires input.Package?
  {
    var due := input.opening == input.size;
    Cycle(s.nextId, student, 1, input.size, input.price, input.opening, false, 0, if due then Due else Open,
          input.anchor.GetOrElse(input.effectiveFrom), if due then Some(input.effectiveFrom) else None, None)
  }

  function Corrected(c: Cycle, input: BillingInput): Cycle
    requires input.Package?
  {
    var full := input.opening + c.realCount == c.limit;
    c.(opening := input.opening, status := if full then Due else Open,
       completedOn := if full then Some(c.completedOn.GetOrElse(input.effectiveFrom)) else None, paidOn := None)
  }

  function Refusal(s: Store, student: int, input: BillingInput): Option<Error> {
    if student in s.plans && HasCycle(s.cycles, student) && s.plans[student].packaged != input.Package? then Some(BillingModeLockedByHistory)
    else if input.PerSession? then None
    else
      var at := CurrentCycle(s.cycles, student);
      if at.None? then (if input.opening > input.size then Some(OpeningProgressExceedsPackage) else None)
      else if input.opening > s.cycles[at.value].limit then Some(OpeningProgressExceedsPackage)
      else if !CanChangeOpening(s.cycles[at.value], input.opening) then Some(OpeningProgressLockedByRealLessons)
      else None
  }

  function Configured(s: Store, student: int, input: BillingInput): Outcome {
    var refused := Refusal(s, student, input);
    if refused.Some? then Rejected(refused.value)
    else if input.PerSession? then Done(s.(plans := s.plans[student := Plan(false, None, None)]))
    else
      var t := s.(plans := s.plans[student := Plan(true, Some(input.size), Some(input.price))]);
      var at := CurrentCycle(s.cycles, student);
      if !HasCycle(s.cycles, student) then Done(t.(cycles := s.cycles + [FirstCycle(s, student, input)], nextId := s.nextId + 1))
      else if at.Some? && s.cycles[at.value].opening != input.opening then
        Done(t.(cycles := s.cycles[at.value := Corrected(s.cycles[at.value], input)]))
      else Done(t)
  }

  lemma CorrectedIsSound(c: Cycle, links: seq<Link>, input: BillingInput)
    requires CycleOk(c, links) && input.Package? && input.opening <= c.limit
    requires CanChangeOpening(c, input.opening) && c.opening != input.opening
    ensures CycleOk(Corrected(c, input), links)
  {
    EmptyCycleIsSound(Corrected(c, input), links);
  }

  lemma ReplacedCycleIsSound(s: Store, k: nat, c: Cycle)
    requires Valid(s) && Replaces(s.cycles, k, c) && CycleOk(c, s.links)
    requires k == |s.cycles| ==> forall x :: x in s.links ==> x.cycle != c.id
    ensures Sound(PutCycle(s.cycles, k, c), s.links)
  {
    var t := PutCycle(s.cycles, k, c);
    StudentsKept(s.cycles, k, c, c.id);
    forall x | x in s.links ensures StudentOf(t, x.cycle) == StudentOf(s.cycles, x.cycle) {
      StudentsKept(s.cycles, k, c, x.cycle);
      if k < |s.cycles| { StudentOfAt(s.cycles, k); }
    }
  }

  /** Configuring keeps the store sound, and never touches a link or a cycle that holds a lesson. */
  lemma ConfiguringIsSound(s: Store, student: int, input: BillingInput)
    requires Valid(s) && InputOk(input)
    ensures var out := Configured(s, student, input);
      out.Done? ==>
        && Valid(out.store) && out.store.links == s.links && |s.cycles| <= |out.store.cycles|
        && forall i :: 0 <= i < |s.cycles| && s.cycles[i].realCount > 0 ==> out.store.cycles[i] == s.cycles[i]
  {
    var out := Configured(s, student, input);
    if out.Done? && input.Package? {
      var at := CurrentCycle(s.cycles, student);
      if !HasCycle(s.cycles, student) {
        var c := FirstCycle(s, student, input);
        EmptyCycleIsSound(c, s.links);
        ReplacedCycleIsSound(s, |s.cycles|, c);
      } else if at.Some? && s.cycles[at.value].opening != input.opening {
        var c := Corrected(s.cycles[at.value], input);
        CorrectedIsSound(s.cycles[at.value], s.links, input);
        ReplacedCycleIsSound(s, at.value, c);
      }
    }
  }

  // ---- reopening undoes completing ----------------------------------------------------

  lemma {:induction false} WithoutAppended(lessons: seq<int>, lesson: int)
    ensures Without(lessons + [lesson], lesson) == Without(lessons, lesson)
  {
    if lessons != [] {
      assert (lessons + [lesson])[1..] == lessons[1..] + [lesson];
      WithoutAppended(lessons[1..], lesson);
    }
  }

  lemma {:induction false} CompleteAllAddsOnlyThisLesson(s: Store, billed: seq<int>, occurrence: int, date: int, i: nat)
    requires Valid(s) && i < |s.cycles|
    ensures Without(LessonsOf(CompleteAll(s, billed, occurrence, date).store, s.cycles[i].id), occurrence)
         == Without(LessonsOf(s, s.cycles[i].id), occurrence)
  {
    if billed != [] {
      var last := |billed| - 1;
      var m := CompleteAll(s, billed[..last], occurrence, date).store;
      CompleteAllAddsOnlyThisLesson(s, billed[..last], occurrence, date, i);
      CompleteAllOnlyAdds(s, billed[..last], occurrence, date);
      assert SameTerms(s.cycles[i], m.cycles[i]);
      CompletingAppends(m, billed[last], occurrence, date, i);
      WithoutAppended(LessonsOf(m, s.cycles[i].id), occurrence);
    }
  }

  lemma AffectedIsPending(s: Store, occurrence: int)
    requires Valid(s)
    ensures Pending(s, Affected(s.links, occurrence), occurrence)
  {
    AffectedAreDistinct(s.links, occurrence);
  }

  /**
   Completing a lesson that was never recorded and reopening it gives every cycle its old rows
   back: the same lessons at the same positions with the same shares.
   */
  lemma ReopenUndoesComplete(s: Store, billed: seq<int>, occurrence: int, date: int, i: nat)
    requires Valid(s) && i < |s.cycles| && forall x :: x in s.links ==> x.occurrence != occurrence
    ensures var t := CompleteAll(s, billed, occurrence, date).store;
      && Pending(t, Affected(t.links, occurrence), occurrence)
      && i < |t.cycles|
      && var u := RemoveAll(t, Affected(t.links, occurrence), occurrence);
      && InOrder(u.links, s.cycles[i].id) == InOrder(s.links, s.cycles[i].id)
      && u.cycles[i].realCount == s.cycles[i].realCount
  {
    var c, t := s.cycles[i], CompleteAll(s, billed, occurrence, date).store;
    CompleteAllOnlyAdds(s, billed, occurrence, date);
    AffectedIsPending(t, occurrence);
    assert SameTerms(c, t.cycles[i]);
    ReopenIsReplay(t, occurrence, i);
    CompleteAllAddsOnlyThisLesson(s, billed, occurrence, date, i);
    WithoutAbsentLesson(s, c.id, occurrence);
    RowsAreReplayed(c, s.links);
    SameReplay(t.cycles[i], c, LessonsOf(s, c.id));
  }

  // ---- payments -----------------------------------------------------------------------

  /** A cycle after a rebalance; `covered` maps the cycles whose price is allocated to their last payment. */
  function Balanced(c: Cycle, covered: map<int, Option<int>>): Cycle {
    if c.status == Cancelled then c
    else if c.opening + c.realCount < c.limit then c.(status := Open, paidOn := None)
    else if c.id in covered then c.(status := Paid, paidOn := if covered[c.id].Some? then covered[c.id] else c.paidOn)
    else c.(status := Due, paidOn := None)
  }

  /** rebalanceStudentLocally marks the cycles of a packaged student. */
  function BalancedStore(s: Store, student: int, covered: map<int, Option<int>>): (t: Store)
    ensures |t.cycles| == |s.cycles| && t.links == s.links && t.plans == s.plans && t.nextId == s.nextId
    ensures forall i :: 0 <= i < |s.cycles| ==>
      t.cycles[i] == (if Packaged(s, student) && s.cycles[i].student == student then Balanced(s.cycles[i], covered) else s.cycles[i])
  {
    s.(cycles := seq(|s.cycles|, i requires 0 <= i < |s.cycles| =>
      if Packaged(s, student) && s.cycles[i].student == student then Balanced(s.cycles[i], covered) else s.cycles[i]))
  }

  /** Payments keep the store sound, and a cycle is paid exactly when it is complete and covered. */
  lemma BalancingIsSound(s: Store, student: int, covered: map<int, Option<int>>)
    requires Valid(s)
    ensures Valid(BalancedStore(s, student, covered))
    ensures forall i :: 0 <= i < |s.cycles| && Packaged(s, student) && s.cycles[i].student == student && s.cycles[i].status != Cancelled ==>
      (BalancedStore(s, student, covered).cycles[i].status == Paid <==>
        s.cycles[i].opening + s.cycles[i].realCount >= s.cycles[i].limit && s.cycles[i].id in covered)
  {
    var t := BalancedStore(s, student, covered);
    forall i | 0 <= i < |s.cycles| ensures SameTerms(s.cycles[i], t.cycles[i]) && CycleOk(t.cycles[i], t.links) {
      assert CycleOk(s.cycles[i], s.links);
    }
    forall i, j | 0 <= i < j < |t.cycles| ensures t.cycles[i].id != t.cycles[j].id {
      assert s.cycles[i].id != s.cycles[j].id;
    }
    forall x | x in s.links ensures StudentOf(t.cycles, x.cycle) == StudentOf(s.cycles, x.cycle) {
      SameStudentsBack(s.cycles, t.cycles, x.cycle);
    }
  }

  // ---- runs of commands ---------------------------------------------------------------

  datatype Command =
    | Complete(billed: seq<int>, occurrence: int, date: int)
    | Reopen(sessionStudents: seq<int>, lesson: int)
    | Configure(student: int, input: BillingInput)
    | Balance(payer: int, covered: map<int, Option<int>>)

  predicate CommandOk(cmd: Command) {
    cmd.Configure? ==> InputOk(cmd.input)
  }

  function Perform(s: Store, cmd: Command): Outcome
    requires Valid(s)
  {
    match cmd
    case Complete(billed, occurrence, date) => CompleteAll(s, billed, occurrence, date)
    case Reopen(sessionStudents, lesson) => Reopened(s, sessionStudents, lesson)
    case Configure(student, input) => Configured(s, student, input)
    case Balance(payer, covered) => Done(BalancedStore(s, payer, covered))
  }

  /** The store after a command; a rejected command changes nothing. */
  function Next(s: Store, cmd: Command): (t: Store)
    requires Valid(s) && CommandOk(cmd)
    ensures Valid(t)
  {
    var out := Perform(s, cmd);
    PerformIsSound(s, cmd);
    if out.Done? then out.store else s
  }

  lemma PerformIsSound(s: Store, cmd: Command)
    requires Valid(s) && CommandOk(cmd)
    ensures Perform(s, cmd).Done? ==> Valid(Perform(s, cmd).store)
  {
    if cmd.Configure? { ConfiguringIsSound(s, cmd.student, cmd.input); }
    if cmd.Balance? { BalancingIsSound(s, cmd.payer, cmd.covered); }
  }

  /** A whole history of commands. */
  function Run(s: Store, cmds: seq<Command>): (t: Store)
    requires Valid(s) && forall k :: 0 <= k < |cmds| ==> CommandOk(cmds[k])
    ensures Valid(t)
    decreases |cmds|
  {
    if cmds == [] then s else Run(Next(s, cmds[0]), cmds[1..])
  }

  const EMPTY := Store(map[], [], [], 0)

  /** The cycle never overflows, counts its links, and earns the prefix shares of its lessons. */
  ghost predicate EarnsItsShares(c: Cycle, links: seq<Link>) {
    && c.limit >= 1 && c.opening + c.realCount <= c.limit
    && |LinksOf(links, c.id)| == c.realCount
    && Earned(LinksOf(links, c.id)) == EarnedUpTo(c.price, c.limit, c.opening + c.realCount) - EarnedUpTo(c.price, c.limit, c.opening)
  }

  lemma SoundCycleEarnsItsShares(c: Cycle, links: seq<Link>)
    requires CycleOk(c, links)
    ensures EarnsItsShares(c, links)
  {
    CycleEarnings(c, links);
  }

  /** Whatever was completed, reopened, configured and paid, a cycle's lessons earn the same prefix shares. */
  lemma EarningsAfterAnyRun(cmds: seq<Command>, c: Cycle)
    requires forall k :: 0 <= k < |cmds| ==> CommandOk(cmds[k])
    requires c in Run(EMPTY, cmds).cycles
    ensures EarnsItsShares(c, Run(EMPTY, cmds).links)
  {
    SoundCycleEarnsItsShares(c, Run(EMPTY, cmds).links);
  }

  /** No history makes completing a lesson fail for want of room in its cycle. */
  lemma CycleAlreadyCompleteIsUnreachable(cmds: seq<Command>, billed: seq<int>, occurrence: int, date: int)
    requires forall k :: 0 <= k < |cmds| ==> CommandOk(cmds[k])
    ensures Perform(Run(EMPTY, cmds), Complete(billed, occurrence, date)).Done?
  {
  }
}
