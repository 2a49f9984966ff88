/**
 BillingService.configure: up to three statements without a transaction around them, so the process
 may die between any two, and the same mutation is then sent again. `lessons` says whether the
 student has completed, cancelled or missed lessons, which the client does not look at.
 */
module ServerConfigure {
  import opened Numbers
  import opened PackageCycles
  import opened Attendance
  import opened Reopening
  import opened TutoringCommands

  predicate ModeChanges(s: Store, student: int, input: BillingInput) {
    student in s.plans && s.plans[student].packaged != input.Package?
  }

  function ServerRefusal(s: Store, lessons: bool, student: int, input: BillingInput): Option<Error> {
    if ModeChanges(s, student, input) && (lessons || HasCycle(s.cycles, student)) then Some(BillingModeLockedByHistory)
    else if input.PerSession? then None
    else
      var at := CurrentCycle(s.cycles, student);
      if at.None? && input.opening > input.size then Some(OpeningProgressExceedsPackage)
      else if at.None? then None
      else if input.opening > s.cycles[at.value].limit then Some(OpeningProgressExceedsPackage)
      else if !CanChangeOpening(s.cycles[at.value], input.opening) then Some(OpeningProgressLockedByRealLessons)
      else None
  }

  // ---- the statements -----------------------------------------------------------------

  predicate NeedsProgress(s: Store, student: int, input: BillingInput) {
    var at := CurrentCycle(s.cycles, student);
    input.Package? && at.Some? && s.cycles[at.value].opening != input.opening
  }

  function WithProgress(s: Store, student: int, input: BillingInput): Store {
    if NeedsProgress(s, student, input) then
      var k := CurrentCycle(s.cycles, student).value;
      s.(cycles := s.cycles[k := Corrected(s.cycles[k], input)])
    else s
  }

  function PlanOf(input: BillingInput): Plan {
    if input.Package? then Plan(true, Some(input.size), Some(input.price)) else Plan(false, None, None)
  }

  function WithPlan(s: Store, student: int, input: BillingInput): Store {
    s.(plans := s.plans[student := PlanOf(input)])
  }

  /** A row of the student's first sequence; (student, sequence) is unique. */
  predicate HasFirst(s: Store, student: int) {
    exists i :: 0 <= i < |s.cycles| && s.cycles[i].student == student && s.cycles[i].sequenceNo == 1
  }

  predicate NeedsCycle(s: Store, student: int, input: BillingInput) {
    input.Package? && CurrentCycle(s.cycles, student).None?
  }

  /** INSERT OR IGNORE of the first cycle. */
  function WithCycle(s: Store, student: int, input: BillingInput): Store {
    if NeedsCycle(s, student, input) && !HasFirst(s, student)
    then s.(cycles := s.cycles + [FirstCycle(s, student, input)], nextId := s.nextId + 1) else s
  }

  /** The store after every statement; the last one may throw because its row was ignored. */
  function Final(s: Store, student: int, input: BillingInput): Store {
    WithCycle(WithPlan(WithProgress(s, student, input), student, input), student, input)
  }

  predicate InsertFails(s: Store, student: int, input: BillingInput) {
    NeedsCycle(s, student, input) && HasFirst(s, student)
  }

  // ---- retry --------------------------------------------------------------------------

  lemma {:induction false} CurrentAfterUpdate(cycles: seq<Cycle>, student: int, k: nat, c: Cycle)
    requires k < |cycles| && c.student == cycles[k].student && c.sequenceNo == cycles[k].sequenceNo
    requires c.status != Cancelled && cycles[k].status != Cancelled
    ensures CurrentCycle(cycles[k := c], student) == CurrentCycle(cycles, student)
  {
    var n := |cycles| - 1;
    if k < n {
      assert cycles[k := c][..n] == cycles[..n][k := c];
      CurrentAfterUpdate(cycles[..n], student, k, c);
    } else {
      assert cycles[k := c][..n] == cycles[..n];
    }
  }

  /** Correcting the progress is done after it was done once, and leaves the current cycle current. */
  lemma ProgressOnce(s: Store, student: int, input: BillingInput)
    ensures var t := WithProgress(s, student, input);
      && !NeedsProgress(t, student, input)
      && CurrentCycle(t.cycles, student) == CurrentCycle(s.cycles, student)
      && HasCycle(t.cycles, student) == HasCycle(s.cycles, student) && HasFirst(t, student) == HasFirst(s, student)
  {
    if NeedsProgress(s, student, input) {
      var k := CurrentCycle(s.cycles, student).value;
      var c := Corrected(s.cycles[k], input);
      CurrentAfterUpdate(s.cycles, student, k, c);
      var t := WithProgress(s, student, input);
      forall i | 0 <= i < |s.cycles| ensures t.cycles[i].student == s.cycles[i].student && t.cycles[i].sequenceNo == s.cycles[i].sequenceNo {
      }
      assert HasCycle(s.cycles, student) && HasCycle(t.cycles, student);
    }
  }

  /** The created cycle is the student's current one. */
  lemma CreatedIsCurrent(s: Store, student: int, input: BillingInput)
    requires NeedsCycle(s, student, input) && !HasFirst(s, student)
    ensures var t := WithCycle(s, student, input); CurrentCycle(t.cycles, student) == Some(|s.cycles|)
  {
    var t := WithCycle(s, student, input);
    assert t.cycles[..|s.cycles|] == s.cycles;
  }

  /** The store when the process dies before, between or after the statements. */
  function Stopped(s: Store, student: int, input: BillingInput, k: nat): Store {
    if k == 0 then s
    else if k == 1 then WithProgress(s, student, input)
    else if k == 2 then WithPlan(WithProgress(s, student, input), student, input)
    else Final(s, student, input)
  }

  /** Sent again, the command is accepted and ends the way it would have ended. */
  predicate EndsLike(s: Store, t: Store, lessons: bool, student: int, input: BillingInput) {
    && ServerRefusal(t, lessons, student, input).None?
    && Final(t, student, input) == Final(s, student, input)
    && InsertFails(t, student, input) == InsertFails(s, student, input)
  }

  lemma ResumesAfterProgress(s: Store, lessons: bool, student: int, input: BillingInput)
    requires ServerRefusal(s, lessons, student, input).None?
    ensures EndsLike(s, WithProgress(s, student, input), lessons, student, input)
  {
    ProgressOnce(s, student, input);
  }

  lemma ResumesAfterPlan(s: Store, lessons: bool, student: int, input: BillingInput)
    requires ServerRefusal(s, lessons, student, input).None? && !NeedsProgress(s, student, input)
    ensures EndsLike(s, WithPlan(s, student, input), lessons, student, input)
  {
    assert WithPlan(WithPlan(s, student, input), student, input) == WithPlan(s, student, input);
  }

  lemma ResumesAfterCycle(s: Store, lessons: bool, student: int, input: BillingInput)
    requires ServerRefusal(s, lessons, student, input).None? && !NeedsProgress(s, student, input) && WithPlan(s, student, input) == s
    ensures EndsLike(s, WithCycle(s, student, input), lessons, student, input)
  {
    if NeedsCycle(s, student, input) && !HasFirst(s, student) { CreatedIsCurrent(s, student, input); }
  }

  /**
   Wherever an accepted command died, sending it again is accepted, ends in the store of an
   uninterrupted run and fails in its last statement if and only if that run did.
   */
  lemma ConfigureResumes(s: Store, lessons: bool, student: int, input: BillingInput, k: nat)
    requires ServerRefusal(s, lessons, student, input).None?
    ensures EndsLike(s, Stopped(s, student, input, k), lessons, student, input)
  {
    var p := WithProgress(s, student, input);
    ResumesAfterProgress(s, lessons, student, input);
    ProgressOnce(s, student, input);
    if k >= 2 { ResumesAfterPlan(p, lessons, student, input); }
    if k >= 3 {
      var q := WithPlan(p, student, input);
      assert WithPlan(q, student, input) == q;
      ResumesAfterCycle(q, lessons, student, input);
    }
  }

  // ---- the client's version -----------------------------------------------------------

  /** The server does what the client did: the same refusal, or the same store. */
  predicate SameOutcome(s: Store, lessons: bool, student: int, input: BillingInput) {
    match Configured(s, student, input)
    case Rejected(error) => ServerRefusal(s, lessons, student, input) == Some(error)
    case Done(store) =>
      ServerRefusal(s, lessons, student, input).None? && !InsertFails(s, student, input) && Final(s, student, input) == store
  }

  lemma SameRefusalIff(s: Store, lessons: bool, student: int, input: BillingInput)
    ensures Refusal(s, student, input) == ServerRefusal(s, lessons, student, input) <==>
      !(ModeChanges(s, student, input) && lessons && !HasCycle(s.cycles, student))
  {
  }

  lemma SameStoreIff(s: Store, student: int, input: BillingInput)
    requires Refusal(s, student, input).None?
    ensures (!InsertFails(s, student, input) && Configured(s, student, input) == Done(Final(s, student, input))) <==>
      !(NeedsCycle(s, student, input) && HasCycle(s.cycles, student))
  {
    ProgressOnce(s, student, input);
    if NeedsCycle(s, student, input) {
      var q := WithPlan(s, student, input);
      assert Final(s, student, input) == WithCycle(q, student, input);
      assert HasFirst(q, student) == HasFirst(s, student);
      assert !HasFirst(s, student) ==> |WithCycle(q, student, input).cycles| == |s.cycles| + 1;
    } else if input.Package? {
      assert HasCycle(s.cycles, student);
    }
  }

  /**
   The server repeats what the client did unless the mode changes after lessons that never made a
   cycle, which only the server counts as history, or every cycle of the student is cancelled.
   */
  lemma MatchesClientIff(s: Store, lessons: bool, student: int, input: BillingInput)
    ensures SameOutcome(s, lessons, student, input) <==>
      && !(ModeChanges(s, student, input) && lessons && !HasCycle(s.cycles, student))
      && !(Refusal(s, student, input).None? && NeedsCycle(s, student, input) && HasCycle(s.cycles, student))
  {
    SameRefusalIff(s, lessons, student, input);
    if Refusal(s, student, input).None? { SameStoreIff(s, student, input); }
  }

  class BillingServer {
    var plans: map<int, Plan>
    var cycles: seq<Cycle>
    var nextId: int
    const links: seq<Link>
    /** Statements that still succeed before the worker dies. */
    var lifetime: nat

    constructor (links: seq<Link>)
      ensures plans == map[] && cycles == [] && nextId == 0 && lifetime == 0 && this.links == links
    {
      this.links := links;
      plans, cycles, nextId, lifetime := map[], [], 0, 0;
    }

    ghost function Snapshot(): Store
      reads this
    {
      Store(plans, cycles, links, nextId)
    }

    method Configure(lessons: bool, student: int, input: BillingInput) returns (stopped: bool, error: Option<Error>, insertFailed: bool)
      modifies this
      ensures error == ServerRefusal(old(Snapshot()), lessons, student, input)
      ensures error.Some? ==> Snapshot() == old(Snapshot()) && !stopped && !insertFailed
      ensures error.None? && !stopped ==>
        Snapshot() == Final(old(Snapshot()), student, input) && insertFailed == InsertFails(old(Snapshot()), student, input)
      ensures stopped ==> exists k :: 0 <= k <= 2 && Snapshot() == Stopped(old(Snapshot()), student, input, k)
    {
      ghost var s := Snapshot();
      error := ServerRefusal(Store(plans, cycles, links, nextId), lessons, student, input);
      stopped, insertFailed := false, false;
      if error.Some? { return; }
      ProgressOnce(s, student, input);
      var at := CurrentCycle(cycles, student);
      if input.Package? && at.Some? && cycles[at.value].opening != input.opening {
        if lifetime == 0 { assert Snapshot() == Stopped(s, student, input, 0); return true, error, false; }
        lifetime := lifetime - 1;
        cycles := cycles[at.value := Corrected(cycles[at.value], input)];
      }
      assert Snapshot() == Stopped(s, student, input, 1);
      if lifetime == 0 { return true, error, false; }
      lifetime := lifetime - 1;
      plans := plans[student := PlanOf(input)];
      assert Snapshot() == Stopped(s, student, input, 2);
      if input.Package? && at.None? {
        if lifetime == 0 { return true, error, false; }
        lifetime := lifetime - 1;
        var store := Store(plans, cycles, links, nextId);
        if HasFirst(store, student) { return false, error, true; }
        cycles := cycles + [FirstCycle(store, student, input)];
        nextId := nextId + 1;
      }
    }
  }
}
