/** Small facts about integer multiplication shared by the modules that
    reason about `%` and `//`. */
module Arith {
  function Min(a: int, b: int): int { if a <= b then a else b }

  lemma MulAtLeast(t: int, m: int)
    requires t >= 1 && m > 0
    ensures t * m >= m
  {
    assert t * m == (t - 1) * m + m;
  }

  lemma MulSub(a: int, b: int, m: int)
    ensures (a - b) * m == a * m - b * m
  {
  }

  /** A multiple of `m` strictly between `-m` and `m` is zero. */
  lemma QuotientClose(t: int, m: int, d: int)
    requires m > 0 && t * m == d && -m < d < m
    ensures t == 0
  {
    if t >= 1 {
      MulAtLeast(t, m);
    } else if t <= -1 {
      assert (-t) * m == -d;
      MulAtLeast(-t, m);
    }
  }
}
