/** Products and quotients, and the size of bounded sets. */
module Arithmetic {

  lemma MulLe(a: nat, b: nat, m: nat)
    requires a <= b
    ensures a * m <= b * m
  {
    assert b * m == a * m + (b - a) * m;
  }

  lemma MulGap(a: nat, b: nat, m: nat)
    requires a < b
    ensures a * m + m <= b * m
  {
    MulLe(a + 1, b, m);
    assert (a + 1) * m == a * m + m;
  }

  lemma ModOf(q: nat, r: nat, max: nat)
    requires r < max
    ensures (q * max + r) % max == r && (q * max + r) / max == q
  {
    var x := q * max + r;
    var d := x / max;
    assert x == d * max + x % max;
    if d < q { MulGap(d, q, max); } else if q < d { MulGap(q, d, max); }
  }

  lemma DivStep(a: nat, b: nat, gap: nat, m: nat)
    requires m > 0 && b >= a + gap * m
    ensures b / m >= a / m + gap
  {
    assert a == a / m * m + a % m && b == b / m * m + b % m;
    assert (a / m + gap) * m == a / m * m + gap * m;
    if b / m < a / m + gap { MulGap(b / m, a / m + gap, m); }
  }

  lemma {:induction false} SmallSets(s: set<nat>, n: nat)
    requires forall x :: x in s ==> x < n
    ensures |s| <= n
  {
    if n > 0 { SmallSets(s - {n - 1}, n - 1); } else { assert s == {}; }
  }
}
