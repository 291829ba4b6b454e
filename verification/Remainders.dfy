/** Remainders by a variable divisor, kept apart from everything else. */
module Remainders {

  lemma MulSign(a: int, d: int)
    requires 0 < a
    ensures 1 <= d ==> a <= a * d
    ensures d <= -1 ==> a * d <= -a
  {}

  lemma RemainderStep(n: nat, a: nat)
    requires 0 < a <= n
    ensures n % a == (n - a) % a
  {
    var q, r := (n - a) / a, (n - a) % a;
    assert n == a * (q + 1) + r;
    var d := n / a - (q + 1);
    assert a * d == r - n % a;
    MulSign(a, d);
  }

  /** `n` is a multiple of `unit`. */
  predicate Multiple(n: nat, unit: nat)
    requires 0 < unit
  {
    n == 0 || (unit <= n && Multiple(n - unit, unit))
  }

  /** The least multiple of `unit` that is at least `n`. */
  function RoundUp(n: int, unit: nat): nat
    requires 0 < unit
    decreases n
  {
    if n <= 0 then 0 else unit + RoundUp(n - unit, unit)
  }

  /** The greatest multiple of `unit` that is at most `n`. */
  function RoundDown(n: nat, unit: nat): nat
    requires 0 < unit
  {
    if n < unit then 0 else unit + RoundDown(n - unit, unit)
  }

  lemma {:induction false} MultipleSum(x: nat, y: nat, a: nat)
    requires 0 < a && Multiple(x, a) && Multiple(y, a)
    ensures Multiple(x + y, a)
  {
    if x != 0 { MultipleSum(x - a, y, a); }
  }

  lemma {:induction false} MultipleDifference(x: nat, y: nat, a: nat)
    requires 0 < a && Multiple(x, a) && Multiple(y, a) && x <= y
    ensures Multiple(y - x, a)
  {
    if x != 0 { MultipleDifference(x - a, y - a, a); }
  }

  /** The mask test of the source, written as a remainder, decides `Multiple`. */
  lemma {:induction false} MultipleIffNoRemainder(n: nat, a: nat)
    requires 0 < a
    ensures Multiple(n, a) <==> n % a == 0
  {
    if a <= n {
      MultipleIffNoRemainder(n - a, a);
      RemainderStep(n, a);
    }
  }

  lemma {:induction false} RoundUpMultiple(n: nat, a: nat)
    requires 0 < a
    ensures n <= RoundUp(n, a) < n + a && Multiple(RoundUp(n, a), a)
  {
    if a < n { RoundUpMultiple(n - a, a); }
  }

  /** No multiple of `a` that holds `n` is below `RoundUp(n, a)`. */
  lemma {:induction false} RoundUpLeast(n: int, m: nat, a: nat)
    requires 0 < a && Multiple(m, a) && n <= m
    ensures RoundUp(n, a) <= m
    decreases m
  {
    if 0 < n { RoundUpLeast(n - a, m - a, a); }
  }

  /** `m` is the multiple of `a` that holds `n` with less than `a` to spare. */
  predicate LeastMultiple(m: nat, n: nat, a: nat)
    requires 0 < a
  {
    m % a == 0 && n <= m < n + a
  }

  lemma RoundUpIsLeast(n: nat, a: nat)
    requires 0 < a
    ensures LeastMultiple(RoundUp(n, a), n, a)
  {
    RoundUpMultiple(n, a);
    MultipleIffNoRemainder(RoundUp(n, a), a);
  }

  lemma {:induction false} RoundDownMultiple(n: nat, a: nat)
    requires 0 < a
    ensures RoundDown(n, a) <= n < RoundDown(n, a) + a && Multiple(RoundDown(n, a), a)
  {
    if a <= n { RoundDownMultiple(n - a, a); }
  }

  /** The mask arithmetic of the source, written with remainders, rounds up and down. */
  lemma {:induction false} RoundingByRemainder(n: nat, a: nat)
    requires 0 < a
    ensures RoundDown(n, a) == n - n % a
    ensures RoundUp(n, a) == if n % a != 0 then n + (a - n % a) else n
    ensures RoundUp(n, a) == RoundDown(n + (a - 1), a)
  {
    if a <= n {
      RoundingByRemainder(n - a, a);
      RemainderStep(n, a);
    }
  }

  lemma MultipleStep(k: nat, n: nat)
    requires 0 < n
    ensures Multiple(n + k, n) == Multiple(k, n)
  {
    assert (n + k) - n == k;
  }
}
