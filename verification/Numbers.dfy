/** Integer helpers shared by the money and progress models. */
module Numbers {

  datatype Option<+T> = None | Some(value: T) {
    function GetOrElse(fallback: T): T {
      if Some? then value else fallback
    }
  }

  function Min(a: int, b: int): int { if a <= b then a else b }

  function Max(a: int, b: int): int { if a >= b then a else b }

  /** Sum of a sequence of amounts in pence. */
  function Sum(s: seq<nat>): nat {
    if s == [] then 0 else s[0] + Sum(s[1..])
  }

  /** Sum of the first k amounts: the left end of the k-th prefix interval. */
  function Prefix(s: seq<nat>, k: nat): nat
    requires k <= |s|
  {
    if k == 0 then 0 else Prefix(s, k - 1) + s[k - 1]
  }

  lemma {:induction false} SumAppend(s: seq<nat>, t: seq<nat>)
    ensures Sum(s + t) == Sum(s) + Sum(t)
  {
    if s == [] {
      assert s + t == t;
    } else {
      assert (s + t)[1..] == s[1..] + t;
      SumAppend(s[1..], t);
    }
  }

  lemma {:induction false} PrefixHead(s: seq<nat>, k: nat)
    requires 0 < k <= |s|
    ensures Prefix(s, k) == s[0] + Prefix(s[1..], k - 1)
  {
    if k > 1 { PrefixHead(s, k - 1); }
  }

  lemma PrefixStep(s: seq<nat>, k: nat)
    requires k < |s|
    ensures Prefix(s, k + 1) == Prefix(s, k) + s[k]
  {
  }

  lemma {:induction false} PrefixFull(s: seq<nat>)
    ensures Prefix(s, |s|) == Sum(s)
  {
    if s != [] {
      PrefixHead(s, |s|);
      PrefixFull(s[1..]);
    }
  }

  lemma {:induction false} PrefixMonotone(s: seq<nat>, j: nat, k: nat)
    requires j <= k <= |s|
    ensures Prefix(s, j) <= Prefix(s, k)
    decreases k - j
  {
    if j < k {
      PrefixStep(s, j);
      PrefixMonotone(s, j + 1, k);
    }
  }

  lemma {:induction false} SumZero(s: seq<nat>, k: nat)
    requires Sum(s) == 0 && k < |s|
    ensures s[k] == 0
  {
    if k > 0 {
      SumZero(s[1..], k - 1);
    }
  }

  // ---- sequences -----------------------------------------------------------------------

  lemma TakeNext<T>(s: seq<T>, k: nat)
    requires k < |s|
    ensures s[..k + 1] == s[..k] + [s[k]]
  {
  }

  lemma Regroup<T>(a: seq<T>, b: seq<T>, c: seq<T>)
    ensures a + (b + c) == a + b + c
  {
  }

  // ---- division ------------------------------------------------------------------------

  lemma MultipleGrows(d: int, size: int)
    requires size >= 1
    ensures d >= 1 ==> d * size >= size
    ensures d <= -1 ==> d * size <= -size
  {
    if d >= 1 {
      assert d * size == (d - 1) * size + size;
      assert (d - 1) * size >= 0;
    } else if d <= -1 {
      assert d * size == (d + 1) * size - size;
      assert (d + 1) * size <= 0;
    }
  }

  lemma DivUnique(n: int, size: int, q: int, m: int)
    requires size >= 1 && n == q * size + m && 0 <= m < size
    ensures n / size == q
  {
    var d, left := n / size, n % size;
    assert n == d * size + left;
    assert (d - q) * size == d * size - q * size;
    MultipleGrows(d - q, size);
  }
}
