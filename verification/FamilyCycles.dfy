/**
 A family account's cycles, derived from the progress cycles of its students: what one reconcile
 writes, and that a second one writes the same again. One workspace and one account.
 */
module FamilyCycles {
  import opened Numbers
  import opened Ledger

  datatype Status = Open | Due | Paid | Cancelled

  datatype Account = Account(id: int, shared: bool, primary: int, size: int, price: int)

  datatype Member = Member(account: int, student: int, active: bool)

  /** A student's own billing cycle. */
  datatype Progress = Progress(
    student: int, sequence: int, limit: int, opening: int, realCount: int, cancelled: bool,
    startedOn: Option<int>, completedOn: Option<int>)

  datatype FamilyCycle = FamilyCycle(
    id: int, account: int, sequence: int, size: int, price: int, status: Status,
    startedOn: Option<int>, completedOn: Option<int>, paidOn: Option<int>)

  /** What a reconcile reads and does not change; `ids` are the receipts of the account by date. */
  datatype Family = Family(
    account: Account, members: seq<Member>, progress: seq<Progress>, ids: seq<int>, receipts: Receipts)

  /** What it writes, and the allocation rows. */
  datatype Tables = Tables(cycles: seq<FamilyCycle>, rows: seq<Row>, nextId: int)

  /** The target type of a family cycle. */
  const FAMILY_PACKAGE: int := 2

  function TargetOf(id: int): Target { Target(TUTORING, FAMILY_PACKAGE, id) }

  // ---- progress -----------------------------------------------------------------------

  function ActiveMembers(members: seq<Member>, account: int): seq<int> {
    if members == [] then []
    else
      var rest := ActiveMembers(members[1..], account);
      if members[0].active && members[0].account == account then [members[0].student] + rest else rest
  }

  /** The students whose progress the account waits for. */
  function Required(f: Family): seq<int> {
    if f.account.shared then [f.account.primary] else ActiveMembers(f.members, f.account.id)
  }

  function StudentCycle(progress: seq<Progress>, student: int, n: int): (found: Option<Progress>)
    ensures found.Some? ==> found.value in progress
    ensures found.Some? ==> found.value.student == student && found.value.sequence == n && !found.value.cancelled
    ensures found.None? ==> forall p :: p in progress && p.student == student && p.sequence == n ==> p.cancelled
  {
    if progress == [] then None
    else if progress[0].student == student && progress[0].sequence == n && !progress[0].cancelled then Some(progress[0])
    else StudentCycle(progress[1..], student, n)
  }

  predicate Full(p: Progress) {
    Max(0, p.opening) + Max(0, p.realCount) >= p.limit
  }

  predicate SequenceComplete(f: Family, n: int) {
    && Required(f) != []
    && forall x :: x in Required(f) ==> StudentCycle(f.progress, x, n).Some? && Full(StudentCycle(f.progress, x, n).value)
  }

  function Later(a: Option<int>, b: Option<int>): Option<int> {
    if a.None? then b else if b.None? then a else Some(Max(a.value, b.value))
  }

  function Earlier(a: Option<int>, b: Option<int>): Option<int> {
    if a.None? then b else if b.None? then a else Some(Min(a.value, b.value))
  }

  function First(a: Option<int>, b: Option<int>): Option<int> {
    if a.Some? then a else b
  }

  /** The first start and the last completion among the students' cycles of a sequence. */
  function EarliestStart(progress: seq<Progress>, students: seq<int>, n: int): Option<int> {
    if students == [] then None
    else
      var found := StudentCycle(progress, students[0], n);
      Earlier(if found.Some? then found.value.startedOn else None, EarliestStart(progress, students[1..], n))
  }

  function LatestCompletion(progress: seq<Progress>, students: seq<int>, n: int): Option<int> {
    if students == [] then None
    else
      var found := StudentCycle(progress, students[0], n);
      Later(if found.Some? then found.value.completedOn else None, LatestCompletion(progress, students[1..], n))
  }

  /** The last payment among the rows of a target. */
  function LatestPayment(receipts: Receipts, rows: seq<Row>, t: Target): Option<int> {
    if rows == [] then None
    else
      Later(if rows[0].target == t && Active(receipts, rows[0].receiptId) then Some(receipts[rows[0].receiptId].command.receivedAt) else None,
            LatestPayment(receipts, rows[1..], t))
  }

  function InsertNumber(n: int, ns: seq<int>): (sorted: seq<int>)
    ensures forall m :: m in sorted <==> m == n || m in ns
  {
    if ns == [] || n < ns[0] then [n] + ns
    else if n == ns[0] then ns
    else [ns[0]] + InsertNumber(n, ns[1..])
  }

  predicate Increasing(ns: seq<int>) {
    forall i, j :: 0 <= i < j < |ns| ==> ns[i] < ns[j]
  }

  lemma {:induction false} InsertKeepsIncreasing(n: int, ns: seq<int>)
    requires Increasing(ns)
    ensures Increasing(InsertNumber(n, ns))
  {
    if ns != [] && n > ns[0] {
      InsertKeepsIncreasing(n, ns[1..]);
      var rest := InsertNumber(n, ns[1..]);
      forall j | 0 <= j < |rest| ensures ns[0] < rest[j] {
        assert rest[j] in rest;
      }
    }
  }

  /** The sequence numbers that some required student has entered, in order. */
  function SequencesIn(progress: seq<Progress>, students: seq<int>): (ns: seq<int>)
    ensures forall n :: n in ns <==> exists p :: p in progress && !p.cancelled && p.student in students && p.sequence == n
  {
    if progress == [] then []
    else
      var rest := SequencesIn(progress[1..], students);
      if !progress[0].cancelled && progress[0].student in students then InsertNumber(progress[0].sequence, rest) else rest
  }

  lemma {:induction false} SequencesIncrease(progress: seq<Progress>, students: seq<int>)
    ensures Increasing(SequencesIn(progress, students))
  {
    if progress != [] {
      SequencesIncrease(progress[1..], students);
      InsertKeepsIncreasing(progress[0].sequence, SequencesIn(progress[1..], students));
    }
  }

  function Sequences(f: Family): seq<int> { SequencesIn(f.progress, Required(f)) }

  // ---- one family cycle ---------------------------------------------------------------

  predicate Matches(c: FamilyCycle, account: int, n: int) {
    c.account == account && c.status != Cancelled && c.sequence == n
  }

  /** The first row of a sequence that is not cancelled. */
  function Existing(cycles: seq<FamilyCycle>, account: int, n: int): (at: Option<nat>)
    ensures at.Some? ==> at.value < |cycles| && Matches(cycles[at.value], account, n)
    ensures at.Some? ==> forall j :: 0 <= j < at.value ==> !Matches(cycles[j], account, n)
    ensures at.None? ==> forall j :: 0 <= j < |cycles| ==> !Matches(cycles[j], account, n)
  {
    if cycles == [] then None
    else if Matches(cycles[0], account, n) then Some(0)
    else
      var rest := Existing(cycles[1..], account, n);
      assert forall j :: 1 <= j < |cycles| ==> cycles[j] == cycles[1..][j - 1];
      if rest.Some? then Some(rest.value + 1) else None
  }

  lemma FirstMatch(cycles: seq<FamilyCycle>, account: int, n: int, i: nat)
    requires i < |cycles| && Matches(cycles[i], account, n) && forall j :: 0 <= j < i ==> !Matches(cycles[j], account, n)
    ensures Existing(cycles, account, n) == Some(i)
  {
  }

  function NewCycle(a: Account, n: int, id: int): FamilyCycle {
    FamilyCycle(id, a.id, n, a.size, a.price, Open, None, None, None)
  }

  /** A family cycle brought up to date with its students and its payments. */
  function Refresh(f: Family, rows: seq<Row>, base: FamilyCycle): (c: FamilyCycle)
    ensures c.id == base.id && c.account == base.account && c.sequence == base.sequence && c.size == base.size && c.price == base.price
    ensures c.status != Cancelled
  {
    var startedOn := First(EarliestStart(f.progress, Required(f), base.sequence), base.startedOn);
    var complete := SequenceComplete(f, base.sequence);
    var completedOn := if complete then First(First(LatestCompletion(f.progress, Required(f), base.sequence), base.completedOn), startedOn) else None;
    var paid := complete && ToTarget(f.receipts, rows, TargetOf(base.id)) >= base.price;
    base.(
      startedOn := startedOn, completedOn := completedOn,
      status := if complete then (if paid then Paid else Due) else Open,
      paidOn := if paid then First(First(LatestPayment(f.receipts, rows, TargetOf(base.id)), base.paidOn), completedOn) else None)
  }

  // ---- a reconcile --------------------------------------------------------------------

  /** Row i is the one its sequence is kept in. */
  predicate IsCurrent(cycles: seq<FamilyCycle>, account: int, i: nat)
    requires i < |cycles|
  {
    Existing(cycles, account, cycles[i].sequence) == Some(i)
  }

  /** The rows that were there, those of the sequences `ns` refreshed. */
  function Kept(f: Family, t: Tables, ns: seq<int>): (cycles: seq<FamilyCycle>)
    ensures |cycles| == |t.cycles|
    ensures forall i :: 0 <= i < |cycles| ==> 
      cycles[i] == (if t.cycles[i].sequence in ns && IsCurrent(t.cycles, f.account.id, i) then Refresh(f, t.rows, t.cycles[i]) else t.cycles[i])
  {
    seq(|t.cycles|, i requires 0 <= i < |t.cycles| =>
      if t.cycles[i].sequence in ns && IsCurrent(t.cycles, f.account.id, i) then Refresh(f, t.rows, t.cycles[i]) else t.cycles[i])
  }

  /** The rows for those of the sequences that had none. */
  function Created(f: Family, t: Tables, ns: seq<int>): (cycles: seq<FamilyCycle>)
    ensures |cycles| <= |ns|
  {
    if ns == [] then []
    else
      var before, n := Created(f, t, ns[..|ns| - 1]), ns[|ns| - 1];
      if Existing(t.cycles, f.account.id, n).Some? then before
      else before + [Refresh(f, t.rows, NewCycle(f.account, n, t.nextId + |before|))]
  }

  function After(f: Family, t: Tables, ns: seq<int>): seq<FamilyCycle> {
    Kept(f, t, ns) + Created(f, t, ns)
  }

  function Reconciled(f: Family, t: Tables): Tables {
    t.(cycles := After(f, t, Sequences(f)), nextId := t.nextId + |Created(f, t, Sequences(f))|)
  }

  /** Ids are unique and have been handed out. */
  predicate TablesOk(t: Tables) {
    && (forall i, j :: 0 <= i < j < |t.cycles| ==> t.cycles[i].id != t.cycles[j].id)
    && (forall i :: 0 <= i < |t.cycles| ==> t.cycles[i].id < t.nextId)
  }

  lemma {:induction false} CreatedRows(f: Family, t: Tables, ns: seq<int>, k: nat)
    requires k < |Created(f, t, ns)|
    ensures var c := Created(f, t, ns)[k];
      && c.id == t.nextId + k && c.sequence in ns && Existing(t.cycles, f.account.id, c.sequence).None?
      && c == Refresh(f, t.rows, NewCycle(f.account, c.sequence, c.id)) && Matches(c, f.account.id, c.sequence)
  {
    if k < |Created(f, t, ns[..|ns| - 1])| { CreatedRows(f, t, ns[..|ns| - 1], k); }
  }

  lemma {:induction false} CreatedFor(f: Family, t: Tables, ns: seq<int>, n: int) returns (k: nat)
    requires n in ns && Existing(t.cycles, f.account.id, n).None?
    ensures k < |Created(f, t, ns)| && Created(f, t, ns)[k].sequence == n
  {
    var last := |ns| - 1;
    if ns[last] == n {
      k := |Created(f, t, ns[..last])|;
    } else {
      k := CreatedFor(f, t, ns[..last], n);
    }
  }

  lemma {:induction false} CreatedDistinct(f: Family, t: Tables, ns: seq<int>, i: nat, j: nat)
    requires Increasing(ns) && i < j < |Created(f, t, ns)|
    ensures Created(f, t, ns)[i].sequence != Created(f, t, ns)[j].sequence
  {
    var last := |ns| - 1;
    if j < |Created(f, t, ns[..last])| {
      CreatedDistinct(f, t, ns[..last], i, j);
    } else {
      CreatedRows(f, t, ns[..last], i);
    }
  }

  lemma IdsAfter(f: Family, t: Tables, ns: seq<int>, i: nat)
    requires i < |After(f, t, ns)|
    ensures After(f, t, ns)[i].id == if i < |t.cycles| then t.cycles[i].id else t.nextId + i - |t.cycles|
  {
    if i >= |t.cycles| { CreatedRows(f, t, ns, i - |t.cycles|); }
  }

  /** Reconciling keeps ids unique, at every point of its writes. */
  lemma IdsStayUnique(f: Family, t: Tables, ns: seq<int>)
    requires TablesOk(t)
    ensures TablesOk(t.(cycles := After(f, t, ns), nextId := t.nextId + |Created(f, t, ns)|))
  {
    forall i | 0 <= i < |After(f, t, ns)|
      ensures After(f, t, ns)[i].id < t.nextId + |Created(f, t, ns)|
      ensures forall j :: 0 <= j < i ==> After(f, t, ns)[j].id != After(f, t, ns)[i].id
    {
      IdsAfter(f, t, ns, i);
      forall j | 0 <= j < i ensures After(f, t, ns)[j].id != After(f, t, ns)[i].id {
        IdsAfter(f, t, ns, j);
      }
    }
  }

  // ---- what a reconcile establishes ---------------------------------------------------

  lemma KeptMatches(f: Family, t: Tables, ns: seq<int>, n: int, j: nat)
    requires j < |t.cycles|
    ensures Matches(Kept(f, t, ns)[j], f.account.id, n) <==> Matches(t.cycles[j], f.account.id, n)
  {
    if IsCurrent(t.cycles, f.account.id, j) { assert t.cycles[j].status != Cancelled; }
  }

  /** A sequence without a row gets one, and it is the only one. */
  lemma CreatedIsCurrent(f: Family, t: Tables, n: int) returns (k: nat)
    requires n in Sequences(f) && Existing(t.cycles, f.account.id, n).None?
    ensures var made := Created(f, t, Sequences(f));
      && k < |made| && made[k] == Refresh(f, t.rows, NewCycle(f.account, n, made[k].id)) && Matches(made[k], f.account.id, n)
      && forall j :: 0 <= j < k ==> !Matches(made[j], f.account.id, n)
  {
    var ns := Sequences(f);
    k := CreatedFor(f, t, ns, n);
    CreatedRows(f, t, ns, k);
    SequencesIncrease(f.progress, Required(f));
    forall j | 0 <= j < k ensures !Matches(Created(f, t, ns)[j], f.account.id, n) {
      CreatedDistinct(f, t, ns, j, k);
    }
  }

  /** The sequence's row is where it was, or the one created for it. */
  lemma CurrentAfter(f: Family, t: Tables, n: int) returns (i: nat)
    requires n in Sequences(f)
    ensures var u := Reconciled(f, t);
      && i < |u.cycles| && Existing(u.cycles, f.account.id, n) == Some(i)
      && u.cycles[i] == Refresh(f, t.rows, if i < |t.cycles| then t.cycles[i] else NewCycle(f.account, n, u.cycles[i].id))
      && (i < |t.cycles| ==> Existing(t.cycles, f.account.id, n) == Some(i))
      && (i >= |t.cycles| ==> Existing(t.cycles, f.account.id, n) == None)
  {
    var ns, at, cycles := Sequences(f), Existing(t.cycles, f.account.id, n), Reconciled(f, t).cycles;
    forall j | 0 <= j < |t.cycles| ensures Matches(cycles[j], f.account.id, n) <==> Matches(t.cycles[j], f.account.id, n) {
      KeptMatches(f, t, ns, n, j);
    }
    if at.Some? {
      i := at.value;
    } else {
      var k := CreatedIsCurrent(f, t, n);
      i := |t.cycles| + k;
      forall j | |t.cycles| <= j < i ensures !Matches(cycles[j], f.account.id, n) {
        assert cycles[j] == Created(f, t, ns)[j - |t.cycles|];
      }
    }
    FirstMatch(cycles, f.account.id, n, i);
  }

  /**
   After a reconcile every sequence that some required student has entered has its cycle: open
   until all of them have completed it, then due until it is covered, then paid.
   */
  lemma ReconciledStatus(f: Family, t: Tables, n: int)
    requires n in Sequences(f)
    ensures var u := Reconciled(f, t); var at := Existing(u.cycles, f.account.id, n);
      && at.Some?
      && var c := u.cycles[at.value];
      && (c.status == Open <==> !SequenceComplete(f, n))
      && (c.status == Paid <==> SequenceComplete(f, n) && ToTarget(f.receipts, t.rows, TargetOf(c.id)) >= c.price)
      && (c.completedOn.Some? ==> SequenceComplete(f, n)) && (c.paidOn.Some? ==> c.status == Paid)
  {
    var i := CurrentAfter(f, t, n);
  }

  /** The row of the student's sequence counts at least as many lessons as it holds. */
  predicate HasCompleted(f: Family, student: int, n: int) {
    var p := StudentCycle(f.progress, student, n);
    && p.Some?
    && (if p.value.opening > 0 then p.value.opening else 0) + (if p.value.realCount > 0 then p.value.realCount else 0) >= p.value.limit
  }

  predicate IsMember(f: Family, student: int) {
    exists k :: 0 <= k < |f.members| && f.members[k].active && f.members[k].account == f.account.id && f.members[k].student == student
  }

  lemma {:induction false} ActiveMembersAre(members: seq<Member>, account: int, student: int)
    ensures student in ActiveMembers(members, account) <==>
      exists k :: 0 <= k < |members| && members[k].active && members[k].account == account && members[k].student == student
  {
    if members != [] {
      ActiveMembersAre(members[1..], account, student);
      assert members == [members[0]] + members[1..];
      if student in ActiveMembers(members[1..], account) {
        var k :| 0 <= k < |members[1..]| && members[1..][k].active && members[1..][k].account == account && members[1..][k].student == student;
        assert members[k + 1].student == student;
      }
      if k :| 0 <= k < |members| && members[k].active && members[k].account == account && members[k].student == student {
        if k > 0 { assert members[1..][k - 1] == members[k]; }
      }
    }
  }

  /** A shared account waits for its primary student, any other one for each of its active members. */
  lemma RequiredIff(f: Family, student: int)
    ensures f.account.shared ==> (student in Required(f) <==> student == f.account.primary)
    ensures !f.account.shared ==> (student in Required(f) <==> IsMember(f, student))
  {
    ActiveMembersAre(f.members, f.account.id, student);
  }

  /** Complete: by the primary student of a shared account, or by every active member, of which there is one. */
  lemma SequenceCompleteIff(f: Family, n: int)
    ensures f.account.shared ==> (SequenceComplete(f, n) <==> HasCompleted(f, f.account.primary, n))
    ensures !f.account.shared ==> (SequenceComplete(f, n) <==>
      (exists x :: IsMember(f, x)) && forall x :: IsMember(f, x) ==> HasCompleted(f, x, n))
  {
    forall x ensures !f.account.shared ==> (x in Required(f) <==> IsMember(f, x)) { RequiredIff(f, x); }
    forall x | StudentCycle(f.progress, x, n).Some?
      ensures Full(StudentCycle(f.progress, x, n).value) <==> HasCompleted(f, x, n)
    {
    }
    if Required(f) != [] && !f.account.shared { assert Required(f)[0] in Required(f) && IsMember(f, Required(f)[0]); }
  }

  /** The price and the size of a new row are the account's, and of an old one its own. */
  lemma ReconciledTerms(f: Family, t: Tables, n: int)
    requires n in Sequences(f)
    ensures var u := Reconciled(f, t);
      var old', new' := Existing(t.cycles, f.account.id, n), Existing(u.cycles, f.account.id, n);
      && new'.Some?
      && var c := u.cycles[new'.value];
      && c.account == f.account.id && c.sequence == n
      && (old'.Some? ==> c.id == t.cycles[old'.value].id && c.size == t.cycles[old'.value].size && c.price == t.cycles[old'.value].price)
      && (old'.None? ==> c.id >= t.nextId && c.size == f.account.size && c.price == f.account.price)
  {
    var i := CurrentAfter(f, t, n);
    if i >= |t.cycles| { IdsAfter(f, t, Sequences(f), i); }
  }

  // ---- its dates ----------------------------------------------------------------------

  predicate StartedAt(progress: seq<Progress>, student: int, n: int, d: int) {
    StudentCycle(progress, student, n).Some? && StudentCycle(progress, student, n).value.startedOn == Some(d)
  }

  predicate CompletedAt(progress: seq<Progress>, student: int, n: int, d: int) {
    StudentCycle(progress, student, n).Some? && StudentCycle(progress, student, n).value.completedOn == Some(d)
  }

  predicate PaidAt(receipts: Receipts, row: Row, t: Target, d: int) {
    row.target == t && Active(receipts, row.receiptId) && receipts[row.receiptId].command.receivedAt == d
  }

  lemma {:induction false} EarliestStartIsLeast(progress: seq<Progress>, students: seq<int>, n: int)
    ensures var e := EarliestStart(progress, students, n);
      && (forall x, d :: x in students && StartedAt(progress, x, n, d) ==> e.Some? && e.value <= d)
      && (e.Some? ==> exists x :: x in students && StartedAt(progress, x, n, e.value))
  {
    if students != [] {
      EarliestStartIsLeast(progress, students[1..], n);
      var e, rest := EarliestStart(progress, students, n), EarliestStart(progress, students[1..], n);
      if e.Some? && e == rest {
        var x :| x in students[1..] && StartedAt(progress, x, n, e.value);
        assert x in students;
      } else if e.Some? {
        assert students[0] in students && StartedAt(progress, students[0], n, e.value);
      }
    }
  }

  lemma {:induction false} LatestCompletionIsGreatest(progress: seq<Progress>, students: seq<int>, n: int)
    ensures var e := LatestCompletion(progress, students, n);
      && (forall x, d :: x in students && CompletedAt(progress, x, n, d) ==> e.Some? && d <= e.value)
      && (e.Some? ==> exists x :: x in students && CompletedAt(progress, x, n, e.value))
  {
    if students != [] {
      LatestCompletionIsGreatest(progress, students[1..], n);
      var e, rest := LatestCompletion(progress, students, n), LatestCompletion(progress, students[1..], n);
      if e.Some? && e == rest {
        var x :| x in students[1..] && CompletedAt(progress, x, n, e.value);
        assert x in students;
      } else if e.Some? {
        assert students[0] in students && CompletedAt(progress, students[0], n, e.value);
      }
    }
  }

  lemma {:induction false} LatestPaymentIsGreatest(receipts: Receipts, rows: seq<Row>, t: Target)
    ensures var e := LatestPayment(receipts, rows, t);
      && (forall row, d :: row in rows && PaidAt(receipts, row, t, d) ==> e.Some? && d <= e.value)
      && (e.Some? ==> exists row :: row in rows && PaidAt(receipts, row, t, e.value))
  {
    if rows != [] {
      LatestPaymentIsGreatest(receipts, rows[1..], t);
      var e, rest := LatestPayment(receipts, rows, t), LatestPayment(receipts, rows[1..], t);
      if e.Some? && e == rest {
        var row :| row in rows[1..] && PaidAt(receipts, row, t, e.value);
        assert row in rows;
      } else if e.Some? {
        assert rows[0] in rows && PaidAt(receipts, rows[0], t, e.value);
      }
    }
  }

  /**
   The dates of a sequence's row: it starts with the first of the required students, completes with
   the last of them, and is paid by the last of its payments.
   */
  lemma ReconciledDates(f: Family, t: Tables, n: int, i: nat)
    requires n in Sequences(f) && Existing(Reconciled(f, t).cycles, f.account.id, n) == Some(i)
    ensures var c := Reconciled(f, t).cycles[i];
      && (forall x, d :: x in Required(f) && StartedAt(f.progress, x, n, d) ==> c.startedOn.Some? && c.startedOn.value <= d)
      && ((exists x, d :: x in Required(f) && StartedAt(f.progress, x, n, d)) ==>
            exists x :: x in Required(f) && StartedAt(f.progress, x, n, c.startedOn.value))
      && (SequenceComplete(f, n) ==>
        && (forall x, d :: x in Required(f) && CompletedAt(f.progress, x, n, d) ==> c.completedOn.Some? && d <= c.completedOn.value)
        && ((exists x, d :: x in Required(f) && CompletedAt(f.progress, x, n, d)) ==>
              exists x :: x in Required(f) && CompletedAt(f.progress, x, n, c.completedOn.value)))
      && (c.status == Paid ==>
        && (forall row, d :: row in t.rows && PaidAt(f.receipts, row, TargetOf(c.id), d) ==> c.paidOn.Some? && d <= c.paidOn.value)
        && ((exists row, d :: row in t.rows && PaidAt(f.receipts, row, TargetOf(c.id), d)) ==>
              exists row :: row in t.rows && PaidAt(f.receipts, row, TargetOf(c.id), c.paidOn.value)))
  {
    var k := CurrentAfter(f, t, n);
    EarliestStartIsLeast(f.progress, Required(f), n);
    LatestCompletionIsGreatest(f.progress, Required(f), n);
    LatestPaymentIsGreatest(f.receipts, t.rows, TargetOf(Reconciled(f, t).cycles[i].id));
  }

  /** Where no student and no payment gives a date, the row keeps its own, or takes the one before it. */
  lemma ReconciledDatesKept(f: Family, t: Tables, n: int, i: nat)
    requires n in Sequences(f) && Existing(Reconciled(f, t).cycles, f.account.id, n) == Some(i)
    ensures var c, at := Reconciled(f, t).cycles[i], Existing(t.cycles, f.account.id, n);
      var started := if at.Some? then t.cycles[at.value].startedOn else None;
      var completed := if at.Some? then t.cycles[at.value].completedOn else None;
      var paid := if at.Some? then t.cycles[at.value].paidOn else None;
      && ((forall x, d :: x in Required(f) ==> !StartedAt(f.progress, x, n, d)) ==> c.startedOn == started)
      && (!SequenceComplete(f, n) ==> c.completedOn == None)
      && (SequenceComplete(f, n) && (forall x, d :: x in Required(f) ==> !CompletedAt(f.progress, x, n, d)) ==>
            c.completedOn == if completed.Some? then completed else c.startedOn)
      && (c.status != Paid ==> c.paidOn == None)
      && (c.status == Paid && (forall row, d :: row in t.rows ==> !PaidAt(f.receipts, row, TargetOf(c.id), d)) ==>
            c.paidOn == if paid.Some? then paid else c.completedOn)
  {
    var k := CurrentAfter(f, t, n);
    EarliestStartIsLeast(f.progress, Required(f), n);
    LatestCompletionIsGreatest(f.progress, Required(f), n);
    LatestPaymentIsGreatest(f.receipts, t.rows, TargetOf(Reconciled(f, t).cycles[i].id));
  }

  // ---- reconciling again --------------------------------------------------------------

  /** Refreshing twice: the dates stay, and so does everything if the payments did. */
  lemma RefreshAgain(f: Family, rows: seq<Row>, rows': seq<Row>, base: FamilyCycle)
    ensures var c := Refresh(f, rows, base); var d := Refresh(f, rows', c);
      && d.startedOn == c.startedOn && d.completedOn == c.completedOn
      && (d.status == Open <==> c.status == Open)
      && (rows' == rows ==> d == c)
  {
  }

  /** With all sequences served nothing is created. */
  lemma {:induction false} NothingCreated(f: Family, t: Tables, ns: seq<int>)
    requires forall n :: n in ns ==> Existing(t.cycles, f.account.id, n).Some?
    ensures Created(f, t, ns) == []
  {
    if ns != [] {
      assert forall n :: n in ns[..|ns| - 1] ==> n in ns;
      NothingCreated(f, t, ns[..|ns| - 1]);
      assert ns[|ns| - 1] in ns;
    }
  }

  /**
   A second reconcile, whatever was paid in between, creates nothing and moves no row; it can only
   turn due into paid or back, and without new rows it changes nothing.
   */
  lemma ReconcilingAgain(f: Family, t: Tables, rows: seq<Row>)
    ensures var u := Reconciled(f, t).(rows := rows); var v := Reconciled(f, u);
      && |v.cycles| == |u.cycles| && v.nextId == u.nextId
      && (forall i :: 0 <= i < |u.cycles| ==> SameCharge(u.cycles[i], v.cycles[i]))
      && (rows == t.rows ==> v == u)
  {
    var u := Reconciled(f, t).(rows := rows);
    var ns := Sequences(f);
    forall n | n in ns ensures Existing(u.cycles, f.account.id, n).Some? {
      var i := CurrentAfter(f, t, n);
    }
    NothingCreated(f, u, ns);
    var v := Reconciled(f, u);
    forall i | 0 <= i < |u.cycles| ensures SameCharge(u.cycles[i], v.cycles[i]) && (rows == t.rows ==> v.cycles[i] == u.cycles[i]) {
      var n := u.cycles[i].sequence;
      if n in ns && IsCurrent(u.cycles, f.account.id, i) {
        var k := CurrentAfter(f, t, n);
        RefreshAgain(f, t.rows, rows, if i < |t.cycles| then t.cycles[i] else NewCycle(f.account, n, u.cycles[i].id));
      }
    }
  }

  /** Equal up to the difference between due and paid. */
  predicate SameCharge(c: FamilyCycle, d: FamilyCycle) {
    && d == c.(status := d.status, paidOn := d.paidOn)
    && (d.status == c.status || (c.status in {Due, Paid} && d.status in {Due, Paid}))
  }
}
