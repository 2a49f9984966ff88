/** OccurrencesService.complete on top of the billing writes, stopped at any repository call and run again. */
module LessonService {
  import opened Numbers
  import opened PackageCycles
  import opened Attendance
  import opened LessonCompletion

  /** The parts of a session that decide who is billed; `wholeSession` is one price for everybody. */
  datatype Session = Session(students: seq<int>, payer: Option<int>, wholeSession: bool)

  datatype Result = Completing | Recorded | StateInvalid | ParticipantInvalid | ParticipantRequired | BillingFailed

  /** The occurrence beside the billing tables; `attendance` is stored with its completion. */
  datatype Server = Server(billing: Store, status: OccurrenceStatus, attendance: seq<int>)

  function Distinct(ids: seq<int>): (d: seq<int>)
    ensures forall id :: id in d <==> id in ids
    ensures forall i, j :: 0 <= i < j < |d| ==> d[i] != d[j]
  {
    if ids == [] then []
    else
      var last := |ids| - 1;
      var d := Distinct(ids[..last]);
      if ids[last] in d then d else d + [ids[last]]
  }

  function Within(ids: seq<int>, allowed: seq<int>): (kept: seq<int>)
    ensures forall id :: id in kept <==> id in ids && id in allowed
    ensures (forall i, j :: 0 <= i < j < |ids| ==> ids[i] != ids[j]) ==> forall i, j :: 0 <= i < j < |kept| ==> kept[i] != kept[j]
  {
    if ids == [] then []
    else
      var last := |ids| - 1;
      var kept := Within(ids[..last], allowed);
      if ids[last] in allowed then kept + [ids[last]] else kept
  }

  /** One student pays for everybody who attends. */
  predicate PayerIsBilled(session: Session) {
    session.wholeSession && session.payer.Some? && session.payer.value in session.students
  }

  /** billingStudentIdsForOccurrence: the payer of a whole session, or the participants of the session. */
  function Billed(session: Session, participants: seq<int>): (ids: seq<int>)
    ensures forall i, j :: 0 <= i < j < |ids| ==> ids[i] != ids[j]
    ensures forall id :: id in ids <==>
      (id in session.students && if PayerIsBilled(session) then session.payer == Some(id) else id in participants)
  {
    if PayerIsBilled(session) then [session.payer.value]
    else Within(Distinct(participants), session.students)
  }

  function Participants(session: Session, requested: Option<seq<int>>): seq<int> {
    if requested.Some? then Distinct(requested.value) else session.students
  }

  // ---- the uninterrupted command ------------------------------------------------------

  /** Bill one student after the other; the first who cannot be billed ends the command. */
  function BillAll(s: Store, students: seq<int>, occurrence: int, date: int): (r: (Store, Result))
    requires Sane(s)
    ensures Sane(r.0) && r.0.plans == s.plans && (r.1 == Recorded || r.1 == BillingFailed)
    decreases |students|
  {
    if students == [] then (s, Recorded)
    else
      var t := Settle(s, students[0], occurrence, date);
      if Blocked(t, students[0], occurrence) then (t, BillingFailed) else BillAll(t, students[1..], occurrence, date)
  }

  /** Whether the request can complete the lesson, given its state. */
  function Check(v: Server, session: Session, requested: Option<seq<int>>): Result {
    if v.status == Completed then Completing
    else if v.status != Scheduled && v.status != Missed then StateInvalid
    else
      var participants := Participants(session, requested);
      if exists k :: 0 <= k < |participants| && participants[k] !in session.students then ParticipantInvalid
      else if |session.students| > 0 && |participants| == 0 then ParticipantRequired
      else Completing
  }

  /**
   A completed lesson can always be completed again; a cancelled one never. In between, an explicit list of participants
   must name students of the session only, and at least one if the session has students; no list means all of them.
   */
  lemma RequestIsAcceptedIff(v: Server, session: Session, requested: Option<seq<int>>)
    ensures var check := Check(v, session, requested);
      match v.status
      case Completed => check == Completing
      case OccurrenceCancelled => check == StateInvalid
      case _ =>
        && (requested.None? ==> check == Completing)
        && (requested.Some? ==>
          && (check == ParticipantInvalid <==> exists id :: id in requested.value && id !in session.students)
          && (check == ParticipantRequired <==> requested.value == [] && session.students != [])
          && (check == Completing <==>
                (forall id :: id in requested.value ==> id in session.students) && (requested.value != [] || session.students == [])))
  {
    if requested.Some? {
      var ids := Distinct(requested.value);
      if exists id :: id in requested.value && id !in session.students {
        var id :| id in requested.value && id !in session.students;
        var k :| 0 <= k < |ids| && ids[k] == id;
      }
      if requested.value != [] { assert requested.value[0] in ids; }
      if ids != [] { assert ids[0] in requested.value; }
    }
  }

  function WithAttendance(v: Server, session: Session, requested: Option<seq<int>>): Server {
    if v.status == Completed then v else v.(status := Completed, attendance := Participants(session, requested))
  }

  /** The whole command when nothing stops it. */
  function CompleteLesson(v: Server, session: Session, requested: Option<seq<int>>, occurrence: int, date: int): (r: (Server, Result))
    requires Sane(v.billing)
    ensures Sane(r.0.billing)
  {
    var check := Check(v, session, requested);
    if check != Completing then (v, check)
    else
      var w := WithAttendance(v, session, requested);
      var (billing, result) := BillAll(w.billing, Billed(session, w.attendance), occurrence, date);
      (w.(billing := billing), result)
  }

  /**
   A refused command changes nothing. An accepted one leaves the lesson completed; the attendance of a lesson that was
   completed before stays, else it is what the request listed, or all students of the session if it listed none.
   */
  lemma CompletingStoresAttendance(v: Server, session: Session, requested: Option<seq<int>>, occurrence: int, date: int)
    requires Sane(v.billing)
    ensures var (w, result) := CompleteLesson(v, session, requested, occurrence, date);
      && (result in {StateInvalid, ParticipantInvalid, ParticipantRequired} <==> Check(v, session, requested) != Completing)
      && (Check(v, session, requested) != Completing ==> w == v && result == Check(v, session, requested))
      && (Check(v, session, requested) == Completing ==>
        && w.status == Completed && w.billing.plans == v.billing.plans
        && (v.status == Completed ==> w.attendance == v.attendance)
        && (v.status != Completed && requested.Some? ==> forall id :: id in w.attendance <==> id in requested.value)
        && (v.status != Completed && requested.None? ==> w.attendance == session.students))
  {
  }

  /** Once attendance is stored, the command is the billing of the attendance. */
  lemma CompletedContinues(v: Server, session: Session, requested: Option<seq<int>>, occurrence: int, date: int)
    requires Sane(v.billing) && v.status == Completed
    ensures var billed := BillAll(v.billing, Billed(session, v.attendance), occurrence, date);
      CompleteLesson(v, session, requested, occurrence, date) == (v.(billing := billed.0), billed.1)
  {
  }

  /** Storing the attendance first changes nothing about the outcome. */
  lemma AttendanceFirst(v: Server, session: Session, requested: Option<seq<int>>, occurrence: int, date: int)
    requires Sane(v.billing) && Check(v, session, requested) == Completing
    ensures CompleteLesson(WithAttendance(v, session, requested), session, requested, occurrence, date)
         == CompleteLesson(v, session, requested, occurrence, date)
  {
  }

  // ---- a run that may stop ------------------------------------------------------------

  lemma {:induction false} SettledPrefix(s: Store, students: seq<int>, k: nat, occurrence: int, date: int)
    requires Sane(s) && k <= |students| && forall j :: 0 <= j < k ==> Settled(s, students[j], occurrence, date)
    ensures BillAll(s, students, occurrence, date) == BillAll(s, students[k..], occurrence, date)
    decreases k
  {
    if k == 0 {
      assert students[0..] == students;
    } else {
      assert Settled(s, students[0], occurrence, date) && Settle(s, students[0], occurrence, date) == s;
      forall j | 0 <= j < k - 1 ensures Settled(s, students[1..][j], occurrence, date) {
        assert students[1..][j] == students[j + 1];
      }
      SettledPrefix(s, students[1..], k - 1, occurrence, date);
      assert students[1..][k - 1..] == students[k..];
    }
  }

  class LessonServer {
    var billing: Store
    var status: OccurrenceStatus
    var attendance: seq<int>
    var lifetime: nat

    ghost function Snapshot(): Server
      reads this
    {
      Server(billing, status, attendance)
    }

    /** One repository write, if the process lives long enough for it. */
    method Write(next: Store, student: int, occurrence: int, date: int, ghost settled: seq<int>) returns (stopped: bool)
      requires Sane(billing) && student !in settled && NextWrite(billing, student, occurrence, date) == Some(next)
      requires forall k :: 0 <= k < |settled| ==> Settled(billing, settled[k], occurrence, date)
      modifies this`billing, this`lifetime
      ensures Sane(billing) && (stopped ==> billing == old(billing)) && (!stopped ==> billing == next)
      ensures Settle(billing, student, occurrence, date) == Settle(old(billing), student, occurrence, date)
      ensures forall k :: 0 <= k < |settled| ==> Settled(billing, settled[k], occurrence, date)
    {
      if lifetime == 0 { return true; }
      lifetime := lifetime - 1;
      WriteProgresses(billing, student, occurrence, date);
      forall k | 0 <= k < |settled| ensures Settled(next, settled[k], occurrence, date) {
        SettledStays(billing, student, settled[k], occurrence, date);
      }
      billing := next;
      return false;
    }

    /** The lesson is linked already: close its cycle if an earlier run stopped before doing so. */
    method CloseLinked(k: nat, student: int, occurrence: int, date: int, ghost settled: seq<int>) returns (stopped: bool)
      requires Sane(billing) && PlanUsable(billing, student) && student !in settled && LinkedCycle(billing, student, occurrence) == Some(k)
      requires forall k :: 0 <= k < |settled| ==> Settled(billing, settled[k], occurrence, date)
      modifies this`billing, this`lifetime
      ensures Sane(billing) && Settle(billing, student, occurrence, date) == Settle(old(billing), student, occurrence, date)
      ensures !stopped ==> NextWrite(billing, student, occurrence, date) == None && !Blocked(billing, student, occurrence)
      ensures forall k :: 0 <= k < |settled| ==> Settled(billing, settled[k], occurrence, date)
    {
      if Full(billing.cycles[k]) && billing.cycles[k].status == Open {
        AfterDue(billing, student, occurrence, date);
        stopped := Write(MarkedDue(billing, k, date), student, occurrence, date, settled);
      } else {
        stopped := false;
      }
    }

    /** The student's open cycle; without one the next cycle is created. */
    method TakeOpenCycle(student: int, occurrence: int, date: int, ghost settled: seq<int>) returns (stopped: bool, k: nat)
      requires Sane(billing) && PlanUsable(billing, student) && student !in settled && LinkedCycle(billing, student, occurrence).None?
      requires forall k :: 0 <= k < |settled| ==> Settled(billing, settled[k], occurrence, date)
      modifies this`billing, this`lifetime
      ensures Sane(billing) && Settle(billing, student, occurrence, date) == Settle(old(billing), student, occurrence, date)
      ensures PlanUsable(billing, student)
      ensures !stopped ==> LinkedCycle(billing, student, occurrence).None? && OpenCycle(billing.cycles, student) == Some(k)
      ensures forall k :: 0 <= k < |settled| ==> Settled(billing, settled[k], occurrence, date)
    {
      var at := OpenCycle(billing.cycles, student);
      if at.Some? { return false, at.value; }
      CreateIsFirst(billing, student, occurrence, date);
      k := |billing.cycles|;
      stopped := Write(
        billing.(cycles := billing.cycles + [CreatedCycle(billing, student, date)], nextId := billing.nextId + 1),
        student, occurrence, date, settled);
    }

    /** Link the lesson at the cycle's next position; the last position makes the cycle due. */
    method LinkTo(k: nat, student: int, occurrence: int, date: int, ghost settled: seq<int>) returns (stopped: bool)
      requires Sane(billing) && PlanUsable(billing, student) && student !in settled && LinkedCycle(billing, student, occurrence).None?
      requires OpenCycle(billing.cycles, student) == Some(k) && !Full(billing.cycles[k])
      requires forall k :: 0 <= k < |settled| ==> Settled(billing, settled[k], occurrence, date)
      modifies this`billing, this`lifetime
      ensures Sane(billing) && Settle(billing, student, occurrence, date) == Settle(old(billing), student, occurrence, date)
      ensures !stopped ==> NextWrite(billing, student, occurrence, date) == None && !Blocked(billing, student, occurrence)
      ensures forall k :: 0 <= k < |settled| ==> Settled(billing, settled[k], occurrence, date)
    {
      AfterLink(billing, student, occurrence, k, date);
      LinkedIsFound(billing, student, occurrence, k);
      var cycle := billing.cycles[k];
      var position := cycle.opening + cycle.realCount + 1;
      stopped := Write(Linked(billing, k, occurrence), student, occurrence, date, settled);
      if !stopped && position == cycle.limit {
        AfterDue(billing, student, occurrence, date);
        stopped := Write(MarkedDue(billing, k, date), student, occurrence, date, settled);
      }
    }

    /** recordCompletedOccurrence: look for the link, else take or create the open cycle and link. */
    method Record(student: int, occurrence: int, date: int, ghost settled: seq<int>) returns (stopped: bool, failed: bool)
      requires Sane(billing) && student !in settled
      requires forall k :: 0 <= k < |settled| ==> Settled(billing, settled[k], occurrence, date)
      modifies this`billing, this`lifetime
      ensures Sane(billing) && Settle(billing, student, occurrence, date) == Settle(old(billing), student, occurrence, date)
      ensures !stopped ==> NextWrite(billing, student, occurrence, date) == None && failed == Blocked(billing, student, occurrence)
      ensures forall k :: 0 <= k < |settled| ==> Settled(billing, settled[k], occurrence, date)
    {
      if !Packaged(billing, student) { return false, false; }
      if billing.plans[student].size.None? || billing.plans[student].price.None? { return false, true; }
      var attempt := 0;
      while attempt < 4
        invariant Sane(billing) && PlanUsable(billing, student)
        invariant Settle(billing, student, occurrence, date) == Settle(old(billing), student, occurrence, date)
        invariant attempt > 0 ==> Blocked(billing, student, occurrence)
        invariant forall k :: 0 <= k < |settled| ==> Settled(billing, settled[k], occurrence, date)
      {
        attempt := attempt + 1;
        var linked := LinkedCycle(billing, student, occurrence);
        if linked.Some? {
          stopped := CloseLinked(linked.value, student, occurrence, date, settled);
          return stopped, false;
        }
        var k: nat;
        stopped, k := TakeOpenCycle(student, occurrence, date, settled);
        if stopped { return true, false; }
        if Full(billing.cycles[k]) { continue; }
        stopped := LinkTo(k, student, occurrence, date, settled);
        return stopped, false;
      }
      return false, true;
    }

    /** The loop over billed students. */
    method RecordAll(students: seq<int>, occurrence: int, date: int) returns (stopped: bool, result: Result)
      requires Sane(billing) && forall i, j :: 0 <= i < j < |students| ==> students[i] != students[j]
      modifies this`billing, this`lifetime
      ensures Sane(billing) && BillAll(billing, students, occurrence, date) == BillAll(old(billing), students, occurrence, date)
      ensures !stopped ==> (billing, result) == BillAll(old(billing), students, occurrence, date)
    {
      var k := 0;
      assert students[0..] == students;
      while k < |students|
        invariant k <= |students| && Sane(billing)
        invariant BillAll(billing, students[k..], occurrence, date) == BillAll(old(billing), students, occurrence, date)
        invariant forall j :: 0 <= j < k ==> Settled(billing, students[j], occurrence, date)
      {
        ghost var before := billing;
        assert students[k..][0] == students[k] && students[k..][1..] == students[k + 1..];
        var failed: bool;
        stopped, failed := Record(students[k], occurrence, date, students[..k]);
        assert BillAll(billing, students[k..], occurrence, date) == BillAll(before, students[k..], occurrence, date);
        forall j | 0 <= j < k ensures Settled(billing, students[j], occurrence, date) {
          assert students[..k][j] == students[j];
        }
        SettledPrefix(billing, students, k, occurrence, date);
        if stopped { return true, Completing; }
        if failed { return false, BillingFailed; }
        k := k + 1;
      }
      SettledPrefix(billing, students, k, occurrence, date);
      return false, Recorded;
    }

    /**
     Complete a lesson. Wherever the process stops, running the same command again ends in the very
     state, and with the very answer, of a run that was never stopped.
     */
    method Complete(session: Session, requested: Option<seq<int>>, occurrence: int, date: int) returns (stopped: bool, result: Result)
      requires Sane(billing)
      modifies this
      ensures Sane(billing)
      ensures CompleteLesson(Snapshot(), session, requested, occurrence, date)
           == CompleteLesson(old(Snapshot()), session, requested, occurrence, date)
      ensures !stopped ==> (Snapshot(), result) == CompleteLesson(old(Snapshot()), session, requested, occurrence, date)
    {
      ghost var before := Snapshot();
      if status != Completed {
        if status != Scheduled && status != Missed { return false, StateInvalid; }
        var participants := Participants(session, requested);
        if exists k :: 0 <= k < |participants| && participants[k] !in session.students { return false, ParticipantInvalid; }
        if |session.students| > 0 && |participants| == 0 { return false, ParticipantRequired; }
        if lifetime == 0 { return true, Completing; }
        AttendanceFirst(before, session, requested, occurrence, date);
        lifetime := lifetime - 1;
        status, attendance := Completed, participants;
        assert Snapshot() == WithAttendance(before, session, requested);
      }
      CompletedContinues(Snapshot(), session, requested, occurrence, date);
      stopped, result := RecordAll(Billed(session, attendance), occurrence, date);
      CompletedContinues(Snapshot(), session, requested, occurrence, date);
    }
  }

  /**
   Whatever came before, a completed command leaves every student it bills for a package linked to
   the lesson, and no student ever has two links to it.
   */
  lemma {:induction false} EveryoneBilledOnce(s: Store, students: seq<int>, occurrence: int, date: int, k: nat)
    requires Sane(s) && BillAll(s, students, occurrence, date).1 == Recorded && k < |students|
    requires forall i, j :: 0 <= i < j < |students| ==> students[i] != students[j]
    ensures var t := BillAll(s, students, occurrence, date).0;
      && (Packaged(s, students[k]) ==> AlreadyLinked(t, students[k], occurrence))
      && KeysUnique(t.links) && OneLinkPerStudent(t.cycles, t.links)
    decreases |students|
  {
    var m := Settle(s, students[0], occurrence, date);
    var t := BillAll(s, students, occurrence, date).0;
    if k > 0 {
      EveryoneBilledOnce(m, students[1..], occurrence, date, k - 1);
    } else if Packaged(s, students[0]) {
      SettledMeansLinked(m, students[0], occurrence, date);
      StaysSettled(m, students[1..], students[0], occurrence, date);
      SettledMeansLinked(t, students[0], occurrence, date);
    }
  }

  lemma {:induction false} StaysSettled(s: Store, students: seq<int>, other: int, occurrence: int, date: int)
    requires Sane(s) && Settled(s, other, occurrence, date) && other !in students
    ensures Settled(BillAll(s, students, occurrence, date).0, other, occurrence, date)
    decreases |students|
  {
    if students != [] {
      SettlingOne(s, students[0], other, occurrence, date);
      var t := Settle(s, students[0], occurrence, date);
      if !Blocked(t, students[0], occurrence) { StaysSettled(t, students[1..], other, occurrence, date); }
    }
  }

  lemma {:induction false} SettlingOne(s: Store, student: int, other: int, occurrence: int, date: int)
    requires Sane(s) && Settled(s, other, occurrence, date) && other != student
    ensures Settled(Settle(s, student, occurrence, date), other, occurrence, date)
    decreases Remaining(s, student, occurrence)
  {
    var next := NextWrite(s, student, occurrence, date);
    if next.Some? {
      WriteProgresses(s, student, occurrence, date);
      SettledStays(s, student, other, occurrence, date);
      SettlingOne(next.value, student, other, occurrence, date);
    }
  }
}
