/** Products, and division with remainder by a variable divisor. */
module Arith {

  lemma MulAtLeast(k: int, c: int)
    requires k >= 1 && c > 0
    ensures k * c >= c
  {
    var rest := k - 1;
    assert k * c == rest * c + c;
  }

  lemma DivModUnique(n: nat, c: nat, q: nat, r: nat)
    requires c > 0 && n == q * c + r && r < c
    ensures n / c == q && n % c == r
  {
    var p, s := n / c, n % c;
    assert n == p * c + s;
    assert (q - p) * c == s - r && (p - q) * c == r - s;
    if q > p {
      MulAtLeast(q - p, c);
    } else if p > q {
      MulAtLeast(p - q, c);
    }
  }

  /** The remainder counts up and wraps to 0. */
  lemma ModStep(n: nat, c: nat)
    requires c > 0
    ensures (n + 1) % c == if n % c + 1 == c then 0 else n % c + 1
  {
    var q, r := n / c, n % c;
    assert n == q * c + r;
    if r + 1 == c {
      assert n + 1 == (q + 1) * c + 0;
      DivModUnique(n + 1, c, q + 1, 0);
    } else {
      DivModUnique(n + 1, c, q, r + 1);
    }
  }

  lemma ModAtMost(n: nat, c: nat)
    requires c > 0
    ensures 0 <= n % c <= n && n % c < c
  {
    if n < c { DivModUnique(n, c, 0, n); }
  }

  /** The largest multiple of `c` that is at most `n`. */
  function LastMultiple(n: nat, c: nat): (m: nat)
    requires c > 0
    ensures m <= n < m + c
  {
    ModAtMost(n, c);
    n - n % c
  }

  lemma LastMultipleStep(n: nat, c: nat)
    requires c > 0
    ensures LastMultiple(n + 1, c) == if (n + 1) % c == 0 then n + 1 else LastMultiple(n, c)
  {
    ModStep(n, c);
  }

  lemma MulMonotone(x: nat, y: nat, c: nat)
    requires x <= y
    ensures x * c <= y * c
  {
    assert y * c == x * c + (y - x) * c;
  }
}
