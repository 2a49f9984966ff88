/**
 The forecast of charges that the rest of the month will add: a loop over the remaining lesson
 slots that advances packages and family accounts, and the closed form it amounts to.
 */
module Forecast {
  import opened Numbers
  import opened Packages

  /** A future lesson; participants and payer are those of its occurrence when it has one. */
  datatype Slot = Slot(
    date: int, perStudent: bool, unitPrice: nat, participants: seq<int>, payer: Option<int>,
    sessionPayer: Option<int>, sessionStudents: seq<int>)

  datatype Plan = Plan(packaged: bool, effectiveFrom: Option<int>)

  /** An active family account and the students whose packages it waits for. */
  datatype Account = Account(price: nat, effectiveFrom: int, required: seq<int>)

  datatype Setup = Setup(plans: map<int, Plan>, family: set<int>, accounts: seq<Account>, packages: map<int, Package>)

  ghost predicate SetupOk(g: Setup) {
    forall x <- g.packages :: PackageOk(g.packages[x])
  }

  predicate DatesSorted(slots: seq<Slot>) {
    forall i, j :: 0 <= i < j < |slots| ==> slots[i].date <= slots[j].date
  }

  function Distinct(ids: seq<int>): (d: seq<int>)
    ensures forall id :: id in d <==> id in ids
    ensures forall i, j :: 0 <= i < j < |d| ==> d[i] != d[j]
  {
    if ids == [] then []
    else
      var last := |ids| - 1;
      var d := Distinct(ids[..last]);
      if ids[last] in d then d else d + [ids[last]]
  }

  /** The students whose packages a slot advances, if they are billed by package. */
  function PackageIds(slot: Slot): (ids: seq<int>)
    ensures forall i, j :: 0 <= i < j < |ids| ==> ids[i] != ids[j]
  {
    if !slot.perStudent && slot.sessionPayer.Some? && slot.sessionPayer.value in slot.sessionStudents
    then [slot.sessionPayer.value] else Distinct(slot.participants)
  }

  predicate Started(plan: Plan, date: int) {
    plan.effectiveFrom.Some? ==> plan.effectiveFrom.value <= date
  }

  predicate PaysBySession(g: Setup, x: int, date: int) {
    x in g.plans && !g.plans[x].packaged && x !in g.family && Started(g.plans[x], date)
  }

  predicate TakesLesson(g: Setup, slot: Slot, x: int) {
    x in g.plans && g.plans[x].packaged && Started(g.plans[x], slot.date) && x in g.packages
  }

  // ---- specification ------------------------------------------------------------------

  function Payers(g: Setup, ids: seq<int>, date: int): nat {
    if ids == [] then 0 else Payers(g, ids[..|ids| - 1], date) + if PaysBySession(g, ids[|ids| - 1], date) then 1 else 0
  }

  function SessionCharge(g: Setup, slot: Slot): nat {
    if slot.perStudent then Payers(g, slot.participants, slot.date) * slot.unitPrice
    else if slot.payer.Some? && PaysBySession(g, slot.payer.value, slot.date) then slot.unitPrice else 0
  }

  function SessionTotal(g: Setup, slots: seq<Slot>): nat {
    if slots == [] then 0 else SessionTotal(g, slots[..|slots| - 1]) + SessionCharge(g, slots[|slots| - 1])
  }

  /** How many of the slots advance the student's package. */
  function Lessons(g: Setup, slots: seq<Slot>, x: int): nat {
    if slots == [] then 0
    else
      var slot := slots[|slots| - 1];
      Lessons(g, slots[..|slots| - 1], x) + if x in PackageIds(slot) && TakesLesson(g, slot, x) then 1 else 0
  }

  function PackagesAfter(g: Setup, slots: seq<Slot>): (m: map<int, Package>)
    ensures m.Keys == g.packages.Keys
  {
    map x | x in g.packages :: AdvanceBy(g.packages[x], Lessons(g, slots, x))
  }

  /** Outside families a student is charged for the cycles that his lessons complete. */
  function StudentDue(g: Setup, slots: seq<Slot>, x: int): nat
    requires x in g.packages
  {
    if x in g.family then 0 else Charged(g.packages[x], Lessons(g, slots, x))
  }

  function StudentCycles(g: Setup, slots: seq<Slot>, x: int): nat
    requires SetupOk(g) && x in g.packages
  {
    if x in g.family then 0 else Cycles(g.packages[x], Lessons(g, slots, x))
  }

  function DueByStudent(g: Setup, slots: seq<Slot>): (m: map<int, nat>)
    ensures m.Keys == g.packages.Keys
  {
    map x | x in g.packages :: StudentDue(g, slots, x)
  }

  function CyclesByStudent(g: Setup, slots: seq<Slot>): (m: map<int, nat>)
    requires SetupOk(g)
    ensures m.Keys == g.packages.Keys
  {
    map x | x in g.packages :: StudentCycles(g, slots, x)
  }

  function Total(ids: seq<int>, f: map<int, nat>): nat
    requires forall k :: 0 <= k < |ids| ==> ids[k] in f
  {
    if ids == [] then 0 else Total(ids[..|ids| - 1], f) + f[ids[|ids| - 1]]
  }

  function CompletedBy(packages: map<int, Package>, x: int): set<int> {
    if x in packages then packages[x].completed else {}
  }

  /** The sequences that every required student has completed; none when nobody is required. */
  function CompleteForAll(packages: map<int, Package>, required: seq<int>): set<int> {
    if required == [] then {}
    else if |required| == 1 then CompletedBy(packages, required[0])
    else CompleteForAll(packages, required[..|required| - 1]) * CompletedBy(packages, required[|required| - 1])
  }

  predicate CompleteNow(packages: map<int, Package>, required: seq<int>, n: int) {
    required != [] && forall k :: 0 <= k < |required| ==> n in CompletedBy(packages, required[k])
  }

  lemma {:induction false} CompleteMembers(packages: map<int, Package>, required: seq<int>, n: int)
    ensures n in CompleteForAll(packages, required) <==> CompleteNow(packages, required, n)
  {
    if |required| > 1 { CompleteMembers(packages, required[..|required| - 1], n); }
  }

  /** What a family account has to pay for: complete now, not accounted for before. */
  function NewFamilyCycles(g: Setup, slots: seq<Slot>, a: Account, before: set<int>): set<int> {
    if slots == [] || slots[|slots| - 1].date < a.effectiveFrom then {}
    else CompleteForAll(PackagesAfter(g, slots), a.required) - before
  }

  function FamilyTotal(accounts: seq<Account>, counts: seq<nat>): nat
    requires |counts| == |accounts|
  {
    if accounts == [] then 0
    else
      var last := |accounts| - 1;
      FamilyTotal(accounts[..last], counts[..last]) + counts[last] * accounts[last].price
  }

  function SumOf(counts: seq<nat>): nat {
    if counts == [] then 0 else SumOf(counts[..|counts| - 1]) + counts[|counts| - 1]
  }

  function FamilyCounts(g: Setup, slots: seq<Slot>, before: seq<set<int>>): (counts: seq<nat>)
    requires |before| == |g.accounts|
    ensures |counts| == |g.accounts|
    ensures forall a :: 0 <= a < |counts| ==> counts[a] == |NewFamilyCycles(g, slots, g.accounts[a], before[a])|
  {
    seq(|g.accounts|, a requires 0 <= a < |g.accounts| => |NewFamilyCycles(g, slots, g.accounts[a], before[a])|)
  }

  // ---- sums ---------------------------------------------------------------------------

  lemma {:induction false} TotalUpdate(ids: seq<int>, f: map<int, nat>, x: int, extra: nat)
    requires forall k :: 0 <= k < |ids| ==> ids[k] in f
    requires forall i, j :: 0 <= i < j < |ids| ==> ids[i] != ids[j]
    requires x in ids
    ensures Total(ids, f[x := f[x] + extra]) == Total(ids, f) + extra
  {
    var last := |ids| - 1;
    if ids[last] == x {
      TotalElsewhere(ids[..last], f, x, f[x] + extra);
    } else {
      TotalUpdate(ids[..last], f, x, extra);
    }
  }

  lemma {:induction false} TotalElsewhere(ids: seq<int>, f: map<int, nat>, x: int, value: nat)
    requires x !in ids && forall k :: 0 <= k < |ids| ==> ids[k] in f
    ensures Total(ids, f[x := value]) == Total(ids, f)
  {
    if ids != [] { TotalElsewhere(ids[..|ids| - 1], f, x, value); }
  }

  lemma {:induction false} TotalZero(ids: seq<int>, f: map<int, nat>)
    requires forall k :: 0 <= k < |ids| ==> ids[k] in f && f[ids[k]] == 0
    ensures Total(ids, f) == 0
  {
    if ids != [] { TotalZero(ids[..|ids| - 1], f); }
  }

  lemma {:induction false} FamilyZero(accounts: seq<Account>, counts: seq<nat>)
    requires |counts| == |accounts| && forall a :: 0 <= a < |counts| ==> counts[a] == 0
    ensures FamilyTotal(accounts, counts) == 0 && SumOf(counts) == 0
  {
    if accounts != [] { FamilyZero(accounts[..|accounts| - 1], counts[..|counts| - 1]); }
  }

  lemma {:induction false} FamilyUpdate(accounts: seq<Account>, counts: seq<nat>, a: nat, extra: nat)
    requires |counts| == |accounts| && a < |accounts|
    ensures FamilyTotal(accounts, counts[a := counts[a] + extra]) == FamilyTotal(accounts, counts) + extra * accounts[a].price
    ensures SumOf(counts[a := counts[a] + extra]) == SumOf(counts) + extra
  {
    var last := |accounts| - 1;
    var after := counts[a := counts[a] + extra];
    if a == last {
      assert after[..last] == counts[..last];
      assert (counts[a] + extra) * accounts[a].price == counts[a] * accounts[a].price + extra * accounts[a].price;
    } else {
      assert after[..last] == counts[..last][a := counts[a] + extra];
      FamilyUpdate(accounts[..last], counts[..last], a, extra);
    }
  }

  // ---- the loops ----------------------------------------------------------------------

  /** The per-lesson charges of one slot. */
  method ChargeSession(g: Setup, slot: Slot) returns (due: nat)
    ensures due == SessionCharge(g, slot)
  {
    due := 0;
    if slot.perStudent {
      var k := 0;
      while k < |slot.participants|
        invariant k <= |slot.participants| && due == Payers(g, slot.participants[..k], slot.date) * slot.unitPrice
      {
        assert slot.participants[..k + 1][..k] == slot.participants[..k];
        if PaysBySession(g, slot.participants[k], slot.date) {
          due := due + slot.unitPrice;
          assert (Payers(g, slot.participants[..k], slot.date) + 1) * slot.unitPrice == Payers(g, slot.participants[..k], slot.date) * slot.unitPrice + slot.unitPrice;
        }
        k := k + 1;
      }
      assert slot.participants[..k] == slot.participants;
    } else if slot.payer.Some? && PaysBySession(g, slot.payer.value, slot.date) {
      due := slot.unitPrice;
    }
  }

  /** The package of a student after one slot, when the first `ids` of the slot's students were advanced. */
  function AfterSlot(g: Setup, slot: Slot, ids: seq<int>, x: int, p: Package): Package {
    if x in ids && TakesLesson(g, slot, x) then Advance(p) else p
  }

  predicate ChargedNow(g: Setup, slot: Slot, ids: seq<int>, x: int, p: Package) {
    x in ids && TakesLesson(g, slot, x) && x !in g.family && Completes(p)
  }

  /** The students of the tallies: each package's student once. */
  ghost predicate Enumerates(students: seq<int>, packages: map<int, Package>) {
    && (forall k :: 0 <= k < |students| ==> students[k] in packages)
    && (forall x :: x in packages ==> x in students)
    && (forall i, j :: 0 <= i < j < |students| ==> students[i] != students[j])
  }

  /** One student's turn: the lesson taken, the charge made, nobody else touched. */
  ghost predicate OneTurn(g: Setup, slot: Slot, x: int, packages: map<int, Package>, after: map<int, Package>,
                          dues: map<int, nat>, dues': map<int, nat>, cycles: map<int, nat>, cycles': map<int, nat>) {
    && packages.Keys == g.packages.Keys == dues.Keys == cycles.Keys
    && after == (if TakesLesson(g, slot, x) then packages[x := Advance(packages[x])] else packages)
    && var charged := TakesLesson(g, slot, x) && x !in g.family && Completes(packages[x]);
    && dues' == (if charged then dues[x := dues[x] + packages[x].price] else dues)
    && cycles' == (if charged then cycles[x := cycles[x] + 1] else cycles)
  }

  /** One student of a slot: advance the package, charge a completed cycle outside families. */
  method AdvanceOne(g: Setup, slot: Slot, x: int, packages: map<int, Package>, ghost students: seq<int>,
                    ghost dues: map<int, nat>, ghost cycles: map<int, nat>)
    returns (after: map<int, Package>, due: nat, completions: nat, ghost dues': map<int, nat>, ghost cycles': map<int, nat>)
    requires packages.Keys == g.packages.Keys == dues.Keys == cycles.Keys && Enumerates(students, packages)
    ensures OneTurn(g, slot, x, packages, after, dues, dues', cycles, cycles')
    ensures Total(students, dues') == Total(students, dues) + due
    ensures Total(students, cycles') == Total(students, cycles) + completions
  {
    after, due, completions, dues', cycles' := packages, 0, 0, dues, cycles;
    if TakesLesson(g, slot, x) {
      var p := packages[x];
      if p.progress + 1 < p.size {
        after := after[x := p.(progress := p.progress + 1)];
      } else {
        if x !in g.family {
          due, completions := p.price, 1;
          TotalUpdate(students, dues, x, p.price);
          TotalUpdate(students, cycles, x, 1);
          dues', cycles' := dues[x := dues[x] + p.price], cycles[x := cycles[x] + 1];
        }
        after := after[x := Package(0, p.nextSize, p.nextPrice, p.nextSize, p.nextPrice, p.sequence + 1, p.completed + {p.sequence})];
      }
    }
  }

  /** The packages and tallies after the listed students of a slot. */
  ghost predicate Advanced(g: Setup, slot: Slot, ids: seq<int>, packages: map<int, Package>, after: map<int, Package>,
                           dues: map<int, nat>, dues': map<int, nat>, cycles: map<int, nat>, cycles': map<int, nat>) {
    && after.Keys == dues'.Keys == cycles'.Keys == packages.Keys == dues.Keys == cycles.Keys
    && forall x :: x in packages ==>
      && after[x] == AfterSlot(g, slot, ids, x, packages[x])
      && dues'[x] == dues[x] + (if ChargedNow(g, slot, ids, x, packages[x]) then packages[x].price else 0)
      && cycles'[x] == cycles[x] + (if ChargedNow(g, slot, ids, x, packages[x]) then 1 else 0)
  }

  lemma OneAdvanced(g: Setup, slot: Slot, ids: seq<int>, k: nat, packages: map<int, Package>, m: map<int, Package>, after: map<int, Package>,
                    dues: map<int, nat>, ds: map<int, nat>, dues': map<int, nat>, cycles: map<int, nat>, cs: map<int, nat>, cycles': map<int, nat>)
    requires k < |ids| && ids[k] !in ids[..k] && packages.Keys == g.packages.Keys
    requires Advanced(g, slot, ids[..k], packages, m, dues, ds, cycles, cs)
    requires OneTurn(g, slot, ids[k], m, after, ds, dues', cs, cycles')
    ensures Advanced(g, slot, ids[..k + 1], packages, after, dues, dues', cycles, cycles')
  {
    forall x ensures x in ids[..k + 1] <==> x in ids[..k] || x == ids[k] {
      TakeNext(ids, k);
    }
  }

  /** One turn of the loop over the slot's students. */
  method AdvanceNext(g: Setup, slot: Slot, ids: seq<int>, k: nat, ghost packages: map<int, Package>, m: map<int, Package>,
                     ghost students: seq<int>, ghost dues: map<int, nat>, ghost ds: map<int, nat>,
                     ghost cycles: map<int, nat>, ghost cs: map<int, nat>)
    returns (after: map<int, Package>, due: nat, completions: nat, ghost dues': map<int, nat>, ghost cycles': map<int, nat>)
    requires k < |ids| && ids[k] !in ids[..k] && packages.Keys == g.packages.Keys == dues.Keys == cycles.Keys
    requires Enumerates(students, packages) && Advanced(g, slot, ids[..k], packages, m, dues, ds, cycles, cs)
    ensures Advanced(g, slot, ids[..k + 1], packages, after, dues, dues', cycles, cycles')
    ensures Total(students, dues') == Total(students, ds) + due
    ensures Total(students, cycles') == Total(students, cs) + completions
  {
    after, due, completions, dues', cycles' := AdvanceOne(g, slot, ids[k], m, students, ds, cs);
    OneAdvanced(g, slot, ids, k, packages, m, after, dues, ds, dues', cycles, cs, cycles');
  }

  /** The loop over the slot's students. */
  method AdvancePackages(g: Setup, slot: Slot, packages: map<int, Package>, ghost students: seq<int>,
                         ghost dues: map<int, nat>, ghost cycles: map<int, nat>)
    returns (after: map<int, Package>, due: nat, completions: nat, ghost dues': map<int, nat>, ghost cycles': map<int, nat>)
    requires packages.Keys == g.packages.Keys == dues.Keys == cycles.Keys && Enumerates(students, packages)
    ensures Advanced(g, slot, PackageIds(slot), packages, after, dues, dues', cycles, cycles')
    ensures Total(students, dues') == Total(students, dues) + due
    ensures Total(students, cycles') == Total(students, cycles) + completions
  {
    after, due, completions, dues', cycles' := packages, 0, 0, dues, cycles;
    var ids := PackageIds(slot);
    var k := 0;
    while k < |ids|
      invariant k <= |ids| && Advanced(g, slot, ids[..k], packages, after, dues, dues', cycles, cycles')
      invariant Total(students, dues') == Total(students, dues) + due
      invariant Total(students, cycles') == Total(students, cycles) + completions
    {
      var d, c;
      after, d, c, dues', cycles' := AdvanceNext(g, slot, ids, k, packages, after, students, dues, dues', cycles, cycles');
      due, completions, k := due + d, completions + c, k + 1;
    }
    assert ids[..k] == ids;
  }

  /** Every sequence that some required student has completed. */
  function Candidates(packages: map<int, Package>, required: seq<int>): (s: set<int>)
    ensures CompleteForAll(packages, required) <= s
  {
    if required == [] then {}
    else Candidates(packages, required[..|required| - 1]) + CompletedBy(packages, required[|required| - 1])
  }

  lemma EmptySet(s: set<int>)
    ensures (forall n :: n !in s) ==> s == {}
  {
    if forall n :: n !in s {
      assert s <= {};
    }
  }

  method Pick(s: set<int>) returns (n: int)
    requires s != {}
    ensures n in s
  {
    EmptySet(s);
    n :| n in s;
  }

  /** The goal is split into what was found and what may still be found. */
  ghost predicate Splits(goal: set<int>, found: set<int>, rest: set<int>) {
    found <= goal && found !! rest && goal <= found + rest
  }

  lemma OneMorePrice(count: nat, price: nat)
    ensures (count + 1) * price == count * price + price
  {
  }

  method IsNew(a: Account, packages: map<int, Package>, accounted: set<int>, n: int) returns (isNew: bool)
    ensures isNew == (n in CompleteForAll(packages, a.required) - accounted)
  {
    CompleteMembers(packages, a.required, n);
    isNew := n !in accounted && CompleteNow(packages, a.required, n);
  }

  /** The charges of one family account: each newly complete sequence once. */
  method ChargeFamily(a: Account, packages: map<int, Package>, accounted: set<int>) returns (after: set<int>, due: nat, count: nat)
    ensures after == accounted + (CompleteForAll(packages, a.required) - accounted)
    ensures count == |CompleteForAll(packages, a.required) - accounted| && due == count * a.price
  {
    ghost var goal := CompleteForAll(packages, a.required) - accounted;
    var newly: set<int>;
    newly, due := ChargeEach(a, packages, accounted, Candidates(packages, a.required), goal);
    after, count := accounted + newly, |newly|;
  }

  method ChargeEach(a: Account, packages: map<int, Package>, accounted: set<int>, candidates: set<int>, ghost goal: set<int>)
    returns (newly: set<int>, due: nat)
    requires goal == CompleteForAll(packages, a.required) - accounted && goal <= candidates
    ensures newly == goal && due == |newly| * a.price
  {
    due, newly := 0, {};
    var rest := candidates;
    while rest != {}
      invariant Splits(goal, newly, rest) && due == |newly| * a.price
      decreases |rest|
    {
      var n := Pick(rest);
      rest := rest - {n};
      var isNew := IsNew(a, packages, accounted, n);
      if isNew {
        OneMorePrice(|newly|, a.price);
        due := due + a.price;
        newly := newly + {n};
      }
    }
  }

  // ---- one slot and all of them -------------------------------------------------------

  lemma {:induction false} MoreComplete(p: map<int, Package>, q: map<int, Package>, required: seq<int>)
    requires p.Keys == q.Keys && forall x :: x in p ==> p[x].completed <= q[x].completed
    ensures CompleteForAll(p, required) <= CompleteForAll(q, required)
  {
    if |required| > 1 { MoreComplete(p, q, required[..|required| - 1]); }
  }

  lemma CompleteGrows(g: Setup, slots: seq<Slot>, slot: Slot, required: seq<int>)
    ensures CompleteForAll(PackagesAfter(g, slots), required) <= CompleteForAll(PackagesAfter(g, slots + [slot]), required)
  {
    assert (slots + [slot])[..|slots|] == slots;
    MoreComplete(PackagesAfter(g, slots), PackagesAfter(g, slots + [slot]), required);
  }

  lemma FreshCycles(before: set<int>, old': set<int>, all: set<int>)
    requires old' <= all - before
    ensures |all - before| == |old'| + |all - (before + old')|
    ensures before + (all - before) == before + old' + (all - (before + old'))
  {
    assert all - before == old' + (all - (before + old'));
  }

  lemma FamilyStep(g: Setup, slots: seq<Slot>, slot: Slot, a: Account, before: set<int>, now: set<int>)
    requires DatesSorted(slots + [slot]) && now == before + NewFamilyCycles(g, slots, a, before)
    ensures var all := CompleteForAll(PackagesAfter(g, slots + [slot]), a.required);
      var after := if slot.date < a.effectiveFrom then now else now + (all - now);
      var extra := if slot.date < a.effectiveFrom then 0 else |all - now|;
      && after == before + NewFamilyCycles(g, slots + [slot], a, before)
      && |NewFamilyCycles(g, slots + [slot], a, before)| == |NewFamilyCycles(g, slots, a, before)| + extra
  {
    var longer := slots + [slot];
    assert longer[|longer| - 1] == slot;
    if slots != [] { assert longer[|slots| - 1] == slots[|slots| - 1]; }
    CompleteGrows(g, slots, slot, a.required);
    if slot.date >= a.effectiveFrom {
      FreshCycles(before, NewFamilyCycles(g, slots, a, before), CompleteForAll(PackagesAfter(g, longer), a.required));
    }
  }

  /** The first k entries are final, the others still as they were. */
  function Mixed<T>(final: seq<T>, initial: seq<T>, k: nat): (m: seq<T>)
    requires |final| == |initial| && k <= |final|
    ensures |m| == |final|
  {
    final[..k] + initial[k..]
  }

  lemma MixedEnds<T>(final: seq<T>, initial: seq<T>)
    requires |final| == |initial|
    ensures Mixed(final, initial, 0) == initial && Mixed(final, initial, |final|) == final
  {
  }

  lemma MixedNext<T>(final: seq<T>, initial: seq<T>, k: nat)
    requires |final| == |initial| && k < |final|
    ensures Mixed(final, initial, k)[k] == initial[k]
    ensures Mixed(final, initial, k)[k := final[k]] == Mixed(final, initial, k + 1)
  {
  }

  lemma FamilyNext(accounts: seq<Account>, final: seq<nat>, initial: seq<nat>, a: nat, extra: nat)
    requires |final| == |initial| == |accounts| && a < |accounts| && final[a] == initial[a] + extra
    ensures FamilyTotal(accounts, Mixed(final, initial, a + 1)) == FamilyTotal(accounts, Mixed(final, initial, a)) + extra * accounts[a].price
    ensures SumOf(Mixed(final, initial, a + 1)) == SumOf(Mixed(final, initial, a)) + extra
  {
    MixedNext(final, initial, a);
    FamilyUpdate(accounts, Mixed(final, initial, a), a, extra);
  }

  ghost function AccountedAfter(g: Setup, slots: seq<Slot>, before: seq<set<int>>): (now: seq<set<int>>)
    requires |before| == |g.accounts|
    ensures |now| == |g.accounts|
    ensures forall a :: 0 <= a < |g.accounts| ==> now[a] == before[a] + NewFamilyCycles(g, slots, g.accounts[a], before[a])
  {
    seq(|g.accounts|, a requires 0 <= a < |g.accounts| => before[a] + NewFamilyCycles(g, slots, g.accounts[a], before[a]))
  }

  /** One account at the end of a slot. */
  method ChargeAccount(g: Setup, slot: Slot, a: nat, packages: map<int, Package>, accounted: set<int>,
                       ghost slots: seq<Slot>, ghost before: set<int>)
    returns (after: set<int>, due: nat, count: nat)
    requires a < |g.accounts| && DatesSorted(slots + [slot]) && packages == PackagesAfter(g, slots + [slot])
    requires accounted == before + NewFamilyCycles(g, slots, g.accounts[a], before)
    ensures after == before + NewFamilyCycles(g, slots + [slot], g.accounts[a], before)
    ensures |NewFamilyCycles(g, slots + [slot], g.accounts[a], before)| == |NewFamilyCycles(g, slots, g.accounts[a], before)| + count
    ensures due == count * g.accounts[a].price
  {
    FamilyStep(g, slots, slot, g.accounts[a], before, accounted);
    if slot.date < g.accounts[a].effectiveFrom {
      after, due, count := accounted, 0, 0;
    } else {
      after, due, count := ChargeFamily(g.accounts[a], packages, accounted);
    }
  }

  /** The loop over family accounts at the end of a slot. */
  method ChargeFamilies(g: Setup, slot: Slot, packages: map<int, Package>, accounted: seq<set<int>>,
                        ghost slots: seq<Slot>, ghost before: seq<set<int>>)
    returns (after: seq<set<int>>, due: nat, count: nat)
    requires DatesSorted(slots + [slot]) && |before| == |g.accounts| && accounted == AccountedAfter(g, slots, before)
    requires packages == PackagesAfter(g, slots + [slot])
    ensures after == AccountedAfter(g, slots + [slot], before)
    ensures FamilyTotal(g.accounts, FamilyCounts(g, slots + [slot], before)) == FamilyTotal(g.accounts, FamilyCounts(g, slots, before)) + due
    ensures SumOf(FamilyCounts(g, slots + [slot], before)) == SumOf(FamilyCounts(g, slots, before)) + count
  {
    after, due, count := accounted, 0, 0;
    ghost var goal, from, to := AccountedAfter(g, slots + [slot], before), FamilyCounts(g, slots, before), FamilyCounts(g, slots + [slot], before);
    MixedEnds(goal, accounted);
    MixedEnds(to, from);
    var a := 0;
    while a < |g.accounts|
      invariant a <= |g.accounts| && after == Mixed(goal, accounted, a)
      invariant FamilyTotal(g.accounts, Mixed(to, from, a)) == FamilyTotal(g.accounts, from) + due
      invariant SumOf(Mixed(to, from, a)) == SumOf(from) + count
    {
      MixedNext(goal, accounted, a);
      var charged, d, c := ChargeAccount(g, slot, a, packages, after[a], slots, before[a]);
      FamilyNext(g.accounts, to, from, a, c);
      after := after[a := charged];
      due, count, a := due + d, count + c, a + 1;
    }
  }

  lemma NothingYet(g: Setup, before: seq<set<int>>, students: seq<int>)
    requires SetupOk(g) && |before| == |g.accounts| && Enumerates(students, g.packages)
    ensures PackagesAfter(g, []) == g.packages
    ensures Total(students, DueByStudent(g, [])) == 0 && Total(students, CyclesByStudent(g, [])) == 0
    ensures FamilyTotal(g.accounts, FamilyCounts(g, [], before)) == 0 && SumOf(FamilyCounts(g, [], before)) == 0
  {
    TotalZero(students, DueByStudent(g, []));
    TotalZero(students, CyclesByStudent(g, []));
    FamilyZero(g.accounts, FamilyCounts(g, [], before));
  }

  lemma StudentAfterSlot(g: Setup, slots: seq<Slot>, slot: Slot, x: int)
    requires SetupOk(g) && x in g.packages
    ensures var p, takes := AdvanceBy(g.packages[x], Lessons(g, slots, x)), x in PackageIds(slot) && TakesLesson(g, slot, x);
      && AdvanceBy(g.packages[x], Lessons(g, slots + [slot], x)) == (if takes then Advance(p) else p)
      && StudentDue(g, slots + [slot], x) == StudentDue(g, slots, x) + (if takes && x !in g.family && Completes(p) then p.price else 0)
      && StudentCycles(g, slots + [slot], x) == StudentCycles(g, slots, x) + (if takes && x !in g.family && Completes(p) then 1 else 0)
  {
    assert (slots + [slot])[..|slots|] == slots && (slots + [slot])[|slots|] == slot;
    NextLesson(g.packages[x], Lessons(g, slots, x));
  }

  lemma PackagesNext(g: Setup, slots: seq<Slot>, slot: Slot, after: map<int, Package>)
    requires SetupOk(g) && after.Keys == g.packages.Keys
    requires forall x :: x in g.packages ==> after[x] == AfterSlot(g, slot, PackageIds(slot), x, PackagesAfter(g, slots)[x])
    ensures after == PackagesAfter(g, slots + [slot])
  {
    forall x | x in g.packages ensures after[x] == PackagesAfter(g, slots + [slot])[x] { StudentAfterSlot(g, slots, slot, x); }
  }

  lemma DuesNext(g: Setup, slots: seq<Slot>, slot: Slot, dues': map<int, nat>)
    requires SetupOk(g) && dues'.Keys == g.packages.Keys
    requires forall x :: x in g.packages ==> (var p := PackagesAfter(g, slots)[x];
      dues'[x] == DueByStudent(g, slots)[x] + if ChargedNow(g, slot, PackageIds(slot), x, p) then p.price else 0)
    ensures dues' == DueByStudent(g, slots + [slot])
  {
    forall x | x in g.packages ensures dues'[x] == DueByStudent(g, slots + [slot])[x] { StudentAfterSlot(g, slots, slot, x); }
  }

  lemma CyclesNext(g: Setup, slots: seq<Slot>, slot: Slot, cycles': map<int, nat>)
    requires SetupOk(g) && cycles'.Keys == g.packages.Keys
    requires forall x :: x in g.packages ==> (var p := PackagesAfter(g, slots)[x];
      cycles'[x] == CyclesByStudent(g, slots)[x] + if ChargedNow(g, slot, PackageIds(slot), x, p) then 1 else 0)
    ensures cycles' == CyclesByStudent(g, slots + [slot])
  {
    forall x | x in g.packages ensures cycles'[x] == CyclesByStudent(g, slots + [slot])[x] { StudentAfterSlot(g, slots, slot, x); }
  }

  /** The tallies after one more slot are those of the longer list of slots. */
  lemma TalliesAfterSlot(g: Setup, slots: seq<Slot>, slot: Slot, packages: map<int, Package>, after: map<int, Package>,
                         dues: map<int, nat>, dues': map<int, nat>, cycles: map<int, nat>, cycles': map<int, nat>)
    requires SetupOk(g) && packages == PackagesAfter(g, slots) && dues == DueByStudent(g, slots) && cycles == CyclesByStudent(g, slots)
    requires Advanced(g, slot, PackageIds(slot), packages, after, dues, dues', cycles, cycles')
    ensures after == PackagesAfter(g, slots + [slot])
    ensures dues' == DueByStudent(g, slots + [slot])
    ensures cycles' == CyclesByStudent(g, slots + [slot])
  {
    PackagesNext(g, slots, slot, after);
    DuesNext(g, slots, slot, dues');
    CyclesNext(g, slots, slot, cycles');
  }

  /**
   projectedNewDue. However the slots of different students interleave, the charges are the sum of
   the per-lesson charges, of what each student's package comes to in closed form, and of one price
   for every sequence that became complete for a whole family.
   */
  method ProjectedNewDue(g: Setup, slots: seq<Slot>, before: seq<set<int>>, ghost students: seq<int>)
    returns (due: nat, completions: nat)
    requires SetupOk(g) && DatesSorted(slots) && |before| == |g.accounts| && Enumerates(students, g.packages)
    ensures due == SessionTotal(g, slots) + Total(students, DueByStudent(g, slots)) + FamilyTotal(g.accounts, FamilyCounts(g, slots, before))
    ensures completions == Total(students, CyclesByStudent(g, slots)) + SumOf(FamilyCounts(g, slots, before))
  {
    due, completions := 0, 0;
    var packages, accounted := g.packages, before;
    ghost var dues, cycles := DueByStudent(g, []), CyclesByStudent(g, []);
    NothingYet(g, before, students);
    var k := 0;
    while k < |slots|
      invariant k <= |slots| && packages == PackagesAfter(g, slots[..k]) && accounted == AccountedAfter(g, slots[..k], before)
      invariant dues == DueByStudent(g, slots[..k]) && cycles == CyclesByStudent(g, slots[..k])
      invariant due == SessionTotal(g, slots[..k]) + Total(students, dues) + FamilyTotal(g.accounts, FamilyCounts(g, slots[..k], before))
      invariant completions == Total(students, cycles) + SumOf(FamilyCounts(g, slots[..k], before))
    {
      var slot := slots[k];
      TakeNext(slots, k);
      var session := ChargeSession(g, slot);
      var after, d, c;
      ghost var dues', cycles';
      after, d, c, dues', cycles' := AdvancePackages(g, slot, packages, students, dues, cycles);
      TalliesAfterSlot(g, slots[..k], slot, packages, after, dues, dues', cycles, cycles');
      var family, count;
      accounted, family, count := ChargeFamilies(g, slot, after, accounted, slots[..k], before);
      due, completions := due + session + d + family, completions + c + count;
      packages, dues, cycles, k := after, dues', cycles', k + 1;
    }
    assert slots[..k] == slots;
  }

  /** The charges of two stretches of slots add up. */
  lemma {:induction false} SessionTotalsAddUp(g: Setup, a: seq<Slot>, b: seq<Slot>)
    ensures SessionTotal(g, a + b) == SessionTotal(g, a) + SessionTotal(g, b)
  {
    if b == [] {
      assert a + b == a;
    } else {
      assert (a + b)[..|a + b| - 1] == a + b[..|b| - 1];
      SessionTotalsAddUp(g, a, b[..|b| - 1]);
    }
  }

  // ---- which slots count --------------------------------------------------------------

  /** The student is billed per lesson, outside families, under a plan that is in force on that day. */
  predicate OwesForLesson(g: Setup, x: int, date: int) {
    && x in g.plans && x !in g.family && g.plans[x].packaged == false
    && match g.plans[x].effectiveFrom
       case None => true
       case Some(start) => start <= date
  }

  /** The slot counts for the student's package: under a package that is in force, and naming him or paid for by him alone. */
  predicate CountsFor(g: Setup, slot: Slot, x: int) {
    && x in g.packages && x in g.plans && g.plans[x].packaged == true
    && (match g.plans[x].effectiveFrom
        case None => true
        case Some(start) => start <= slot.date)
    && (if slot.perStudent || slot.sessionPayer.None? || slot.sessionPayer.value !in slot.sessionStudents then x in slot.participants
        else x == slot.sessionPayer.value)
  }

  lemma {:induction false} PayersAreCounted(g: Setup, ids: seq<int>, date: int)
    ensures Payers(g, ids, date) == |set k | 0 <= k < |ids| && OwesForLesson(g, ids[k], date)|
  {
    if ids != [] {
      var n := |ids| - 1;
      PayersAreCounted(g, ids[..n], date);
      var before, all := set k | 0 <= k < n && OwesForLesson(g, ids[..n][k], date), set k | 0 <= k < |ids| && OwesForLesson(g, ids[k], date);
      assert all == if OwesForLesson(g, ids[n], date) then before + {n} else before;
    }
  }

  /**
   A slot priced per student is charged once for every entry of its list who pays per lesson that day; a slot with one
   price is charged once, if its payer does.
   */
  lemma SessionChargeCounts(g: Setup, slot: Slot)
    ensures slot.perStudent ==>
      SessionCharge(g, slot) == slot.unitPrice * |set k | 0 <= k < |slot.participants| && OwesForLesson(g, slot.participants[k], slot.date)|
    ensures !slot.perStudent && (exists x :: slot.payer == Some(x) && OwesForLesson(g, x, slot.date)) ==> SessionCharge(g, slot) == slot.unitPrice
    ensures !slot.perStudent && !(exists x :: slot.payer == Some(x) && OwesForLesson(g, x, slot.date)) ==> SessionCharge(g, slot) == 0
  {
    PayersAreCounted(g, slot.participants, slot.date);
    if slot.payer.Some? && OwesForLesson(g, slot.payer.value, slot.date) { assert slot.payer == Some(slot.payer.value); }
  }

  /** A package advances by exactly the slots that count for the student; those before its start change nothing. */
  lemma {:induction false} LessonsAreCounted(g: Setup, slots: seq<Slot>, x: int)
    ensures Lessons(g, slots, x) == |set k | 0 <= k < |slots| && CountsFor(g, slots[k], x)|
  {
    if slots != [] {
      var n := |slots| - 1;
      LessonsAreCounted(g, slots[..n], x);
      var before, all := set k | 0 <= k < n && CountsFor(g, slots[..n][k], x), set k | 0 <= k < |slots| && CountsFor(g, slots[k], x);
      assert x in PackageIds(slots[n]) && TakesLesson(g, slots[n], x) <==> CountsFor(g, slots[n], x);
      assert all == if CountsFor(g, slots[n], x) then before + {n} else before;
    }
  }

  predicate AllBefore(slots: seq<Slot>, start: int) {
    forall k :: 0 <= k < |slots| ==> slots[k].date < start
  }

  lemma {:induction false} NoPayerBeforeStart(g: Setup, ids: seq<int>, date: int, x: int)
    requires x in g.plans && g.plans[x].effectiveFrom.Some? && date < g.plans[x].effectiveFrom.value
    ensures Payers(g.(plans := g.plans - {x}), ids, date) == Payers(g, ids, date)
  {
    if ids != [] { NoPayerBeforeStart(g, ids[..|ids| - 1], date, x); }
  }

  /** Slots before the start of a plan are forecast as if its student had none, per lesson and by package. */
  lemma {:induction false} NothingBeforeStart(g: Setup, slots: seq<Slot>, x: int)
    requires x in g.plans && g.plans[x].effectiveFrom.Some? && AllBefore(slots, g.plans[x].effectiveFrom.value)
    ensures Lessons(g, slots, x) == 0 && SessionTotal(g.(plans := g.plans - {x}), slots) == SessionTotal(g, slots)
  {
    if slots != [] {
      var n := |slots| - 1;
      NothingBeforeStart(g, slots[..n], x);
      NoPayerBeforeStart(g, slots[n].participants, slots[n].date, x);
    }
  }

  /** One student's part of the forecast, without simulating lessons. */
  lemma StudentDueClosedForm(g: Setup, slots: seq<Slot>, x: int)
    requires SetupOk(g) && x in g.packages && x !in g.family
    ensures StudentDue(g, slots, x) == Bill(g.packages[x], Cycles(g.packages[x], Lessons(g, slots, x)))
  {
    ChargedClosedForm(g.packages[x], Lessons(g, slots, x));
  }

  /** One family's part: a sequence counts when every required student has it, from before or by the forecast. */
  lemma FamilyClosedForm(g: Setup, slots: seq<Slot>, a: Account, before: set<int>, n: int)
    requires SetupOk(g) && slots != [] && slots[|slots| - 1].date >= a.effectiveFrom
    ensures n in NewFamilyCycles(g, slots, a, before) <==>
      n !in before && a.required != [] && forall k :: 0 <= k < |a.required| ==> ForecastCompletes(g, slots, a.required[k], n)
  {
    var after := PackagesAfter(g, slots);
    CompleteMembers(after, a.required, n);
    forall x ensures n in CompletedBy(after, x) <==> ForecastCompletes(g, slots, x, n) {
      if x in g.packages { CompletedClosedForm(g.packages[x], Lessons(g, slots, x)); }
    }
  }

  ghost predicate ForecastCompletes(g: Setup, slots: seq<Slot>, x: int, n: int)
    requires SetupOk(g)
  {
    x in g.packages && HasCompleted(g.packages[x], Lessons(g, slots, x), n)
  }

  predicate HasCompleted(p: Package, lessons: nat, n: int)
    requires PackageOk(p)
  {
    n in p.completed || p.sequence <= n < p.sequence + Cycles(p, lessons)
  }
}
