/** A student's package as the forecast advances it lesson by lesson, and what it comes to in one step. */
module Packages {
  import opened Numbers

  /** The open cycle's progress and terms, the terms of later cycles, and the sequences completed so far. */
  datatype Package = Package(
    progress: nat, size: nat, price: nat, nextSize: nat, nextPrice: nat, sequence: int, completed: set<int>)

  predicate PackageOk(p: Package) {
    p.nextSize >= 1
  }

  predicate Completes(p: Package) {
    p.progress + 1 >= p.size
  }

  /** One more lesson. */
  function Advance(p: Package): Package {
    if Completes(p) then
      p.(progress := 0, size := p.nextSize, price := p.nextPrice, sequence := p.sequence + 1, completed := p.completed + {p.sequence})
    else p.(progress := p.progress + 1)
  }

  function AdvanceBy(p: Package, lessons: nat): Package {
    if lessons == 0 then p else Advance(AdvanceBy(p, lessons - 1))
  }

  /** The prices of the cycles completed along the way. */
  function Charged(p: Package, lessons: nat): nat {
    if lessons == 0 then 0
    else
      var before := AdvanceBy(p, lessons - 1);
      Charged(p, lessons - 1) + if Completes(before) then before.price else 0
  }

  /** Lessons that the open cycle still takes; a cycle that is full already completes at the next one. */
  function Outstanding(p: Package): nat {
    if p.progress + 1 >= p.size then 1 else p.size - p.progress
  }

  /** How many cycles the lessons complete. */
  function Cycles(p: Package, lessons: nat): nat
    requires PackageOk(p)
  {
    if lessons < Outstanding(p) then 0 else 1 + (lessons - Outstanding(p)) / p.nextSize
  }

  lemma DivNext(n: nat, size: nat)
    requires size >= 1
    ensures (n + 1) % size == (if n % size + 1 == size then 0 else n % size + 1)
    ensures (n + 1) / size == n / size + (if n % size + 1 == size then 1 else 0)
  {
    var q, r := n / size, n % size;
    assert n == q * size + r;
    if r + 1 == size {
      assert (q + 1) * size == q * size + size;
      DivUnique(n + 1, size, q + 1, 0);
    } else {
      DivUnique(n + 1, size, q, r + 1);
    }
  }

  function SequencesFrom(first: int, count: nat): (s: set<int>)
    ensures forall n :: n in s <==> first <= n < first + count
  {
    if count == 0 then {} else SequencesFrom(first, count - 1) + {first + count - 1}
  }

  /** The state after any number of lessons, without simulating them. */
  lemma {:induction false} AdvancedClosedForm(p: Package, lessons: nat)
    requires PackageOk(p)
    ensures var q, k := AdvanceBy(p, lessons), Cycles(p, lessons);
      && q.nextSize == p.nextSize && q.nextPrice == p.nextPrice && q.sequence == p.sequence + k
      && q.size == (if k == 0 then p.size else p.nextSize) && q.price == (if k == 0 then p.price else p.nextPrice)
      && q.progress == (if k == 0 then p.progress + lessons else (lessons - Outstanding(p)) % p.nextSize)
  {
    if lessons > 0 {
      AdvancedClosedForm(p, lessons - 1);
      if lessons - 1 >= Outstanding(p) {
        DivNext(lessons - 1 - Outstanding(p), p.nextSize);
      } else if lessons == Outstanding(p) {
        DivUnique(0, p.nextSize, 0, 0);
      }
    }
  }

  lemma NextLesson(p: Package, lessons: nat)
    requires PackageOk(p)
    ensures Cycles(p, lessons + 1) == Cycles(p, lessons) + if Completes(AdvanceBy(p, lessons)) then 1 else 0
  {
    AdvancedClosedForm(p, lessons);
    AdvancedClosedForm(p, lessons + 1);
  }

  /** The first completed cycle costs the open cycle's price, every further one the plan's. */
  function Bill(p: Package, cycles: nat): nat {
    if cycles == 0 then 0 else p.price + (cycles - 1) * p.nextPrice
  }

  lemma NextBill(p: Package, cycles: nat)
    ensures Bill(p, cycles + 1) == Bill(p, cycles) + if cycles == 0 then p.price else p.nextPrice
  {
    if cycles > 0 { assert cycles * p.nextPrice == (cycles - 1) * p.nextPrice + p.nextPrice; }
  }

  /** What the completed cycles cost, without simulating them. */
  lemma {:induction false} ChargedClosedForm(p: Package, lessons: nat)
    requires PackageOk(p)
    ensures Charged(p, lessons) == Bill(p, Cycles(p, lessons))
  {
    if lessons > 0 {
      ChargedClosedForm(p, lessons - 1);
      NextLesson(p, lessons - 1);
      AdvancedClosedForm(p, lessons - 1);
      NextBill(p, Cycles(p, lessons - 1));
    }
  }

  /** The completed sequences are the old ones and the next in a row. */
  lemma {:induction false} CompletedClosedForm(p: Package, lessons: nat)
    requires PackageOk(p)
    ensures AdvanceBy(p, lessons).completed == p.completed + SequencesFrom(p.sequence, Cycles(p, lessons))
  {
    if lessons > 0 {
      CompletedClosedForm(p, lessons - 1);
      NextLesson(p, lessons - 1);
      AdvancedClosedForm(p, lessons - 1);
    }
  }
}
