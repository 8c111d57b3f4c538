/** Euclidean division facts used by the ring-buffer proofs. Cursors in the
    source are `size_t` values reduced with `%`; all operands here are
    non-negative divisors, where C's and Dafny's `%` agree. */
module Arith {

  lemma MulMono(a: int, b: int, m: int)
    requires a <= b && m >= 0
    ensures a * m <= b * m
  {
    assert b * m - a * m == (b - a) * m;
  }

  /** A value written as q*m + r with 0 <= r < m has quotient q and remainder r. */
  lemma DivModUnique(x: int, m: int, q: int, r: int)
    requires m > 0 && 0 <= r < m && x == q * m + r
    ensures x / m == q && x % m == r
  {
    var q', r' := x / m, x % m;
    assert x == q' * m + r';
    if q' < q {
      MulMono(q' + 1, q, m);
      assert false;
    } else if q < q' {
      MulMono(q + 1, q', m);
      assert false;
    }
  }

  lemma ModAddMultiple(x: int, k: int, m: int)
    requires m > 0
    ensures (x + k * m) % m == x % m
  {
    assert x + k * m == (x / m + k) * m + x % m;
    DivModUnique(x + k * m, m, x / m + k, x % m);
  }

  lemma ModOfSum(a: int, b: int, m: int)
    requires m > 0
    ensures (a % m + b) % m == (a + b) % m
  {
    ModAddMultiple(a + b, -(a / m), m);
    assert a % m + b == a + b + (-(a / m)) * m;
  }

  /** Advancing a sample index by one bumps the frame number exactly when the
      next index starts a new frame. */
  lemma DivStep(i: nat, ch: nat)
    requires ch > 0
    ensures (i + 1) % ch == 0 ==> (i + 1) / ch == i / ch + 1
    ensures (i + 1) % ch != 0 ==> (i + 1) / ch == i / ch
  {
    var q, r := i / ch, i % ch;
    if r + 1 < ch {
      DivModUnique(i + 1, ch, q, r + 1);
    } else {
      DivModUnique(i + 1, ch, q + 1, 0);
    }
  }
}
