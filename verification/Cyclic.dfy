/** Arithmetic of positions on a ring. */
module Cyclic {
  lemma ModBelow(x: nat, n: nat)
    requires n > 0
    ensures x < n ==> x % n == x
    ensures n <= x < 2 * n ==> x % n == x - n
    ensures x % n < n
  {
    if n <= x < 2 * n {
      assert x == n + (x - n);
      assert x / n == 1;
    }
  }

  lemma ModLap(x: nat, n: nat)
    requires n > 0
    ensures (x + n) % n == x % n
  {
    var q, r := x / n, x % n;
    assert x == q * n + r;
    assert x + n == (q + 1) * n + r;
    ModUnique(x + n, n, q + 1, r);
  }

  lemma ModUnique(x: nat, n: nat, q: nat, r: nat)
    requires n > 0 && r < n && x == q * n + r
    ensures x % n == r
  {
    var q', r' := x / n, x % n;
    assert x == q' * n + r';
    if q' < q { MulMonotone(q' + 1, q, n); }
    if q < q' { MulMonotone(q + 1, q', n); }
  }

  lemma MulMonotone(a: nat, b: nat, n: nat)
    requires a <= b
    ensures a * n <= b * n
  {
  }

  lemma ModShift(x: nat, i: nat, n: nat)
    requires n > 0
    ensures (x % n + i) % n == (x + i) % n
  {
    var q, r := (x % n + i) / n, (x % n + i) % n;
    assert x % n + i == q * n + r;
    assert x == (x / n) * n + x % n;
    assert x + i == (x / n + q) * n + r;
    ModUnique(x + i, n, x / n + q, r);
  }
}
