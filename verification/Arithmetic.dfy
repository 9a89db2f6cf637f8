/** Facts about multiples and remainders that several of the models share. */
module Arithmetic {

  // The only multiple of n strictly between -n and n is 0.
  lemma {:induction false} SmallMultiple(d: int, n: int)
    requires n > 0 && -n < d * n < n
    ensures d == 0
  {
    assert d > 0 ==> (d - 1) * n >= 0;
    assert d < 0 ==> (-d - 1) * n >= 0;
  }

  lemma {:induction false} RemainderUnique(a: int, q: int, r: int, n: int)
    requires 0 <= r < n && a == q * n + r
    ensures a % n == r
  {
    var d := a / n - q;
    assert a == (a / n) * n + a % n;
    assert d * n == (a / n) * n - q * n;
    SmallMultiple(d, n);
  }

  /** A number has one quotient by w. */
  lemma {:induction false} QuotientUnique(a: int, b: int, x: int, y: int, w: int)
    requires a * w + x == b * w + y && 0 <= x < w && 0 <= y < w
    ensures a == b && x == y
  {
    assert (a - b) * w == a * w - b * w;
    SmallMultiple(a - b, w);
  }
}
