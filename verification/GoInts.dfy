/** Go's integer remainder, which truncates toward zero, and the alignment
    arithmetic that every component builds on it. */
module GoInts {

  /** `a % b` of Go for `b > 0`: the remainder has the sign of `a`. */
  function GoMod(a: int, b: int): (r: int)
    requires b > 0
    ensures -b < r < b
    ensures a >= 0 ==> 0 <= r <= a
  {
    if a >= 0 then a % b else -((-a) % b)
  }

  function Abs(a: int): nat { if a < 0 then -a else a }

  /** `a` is a multiple of `b`; equivalent to `GoMod(a, b) == 0` (MultipleIsMod),
      but kept recursive so that proofs which only step by `b` need no division. */
  ghost predicate Multiple(a: int, b: int)
    requires b > 0
    decreases Abs(a)
  {
    a == 0 || (a >= b && Multiple(a - b, b)) || (a <= -b && Multiple(a + b, b))
  }

  lemma MulMonotone(p: int, q: int, b: int)
    requires b > 0 && p <= q
    ensures p * b <= q * b
  {
  }

  lemma DivModIdentity(x: int, b: int)
    requires b > 0
    ensures x == (x / b) * b + x % b && 0 <= x % b < b
  {
  }

  /** Quotient and remainder are the only such decomposition. */
  lemma DivModUnique(x: int, q: int, r: int, b: int)
    requires b > 0 && x == q * b + r && 0 <= r < b
    ensures x / b == q && x % b == r
  {
    var d := x / b;
    DivModIdentity(x, b);
    if q < d {
      MulMonotone(q + 1, d, b);
      assert false;
    } else if q > d {
      MulMonotone(d + 1, q, b);
      assert false;
    }
  }

  lemma {:induction false} MultipleFactor(a: int, b: int) returns (q: int)
    requires b > 0 && Multiple(a, b)
    ensures a == q * b
    decreases Abs(a)
  {
    if a == 0 {
      q := 0;
    } else if a >= b {
      var p := MultipleFactor(a - b, b);
      q := p + 1;
    } else {
      var p := MultipleFactor(a + b, b);
      q := p - 1;
    }
  }

  lemma {:induction false} FactorMultiple(q: int, b: int)
    requires b > 0
    ensures Multiple(q * b, b)
    decreases Abs(q)
  {
    if q > 0 {
      FactorMultiple(q - 1, b);
      assert (q - 1) * b == q * b - b;
      MulMonotone(1, q, b);
    } else if q < 0 {
      FactorMultiple(q + 1, b);
      assert (q + 1) * b == q * b + b;
      MulMonotone(q, -1, b);
    }
  }

  lemma MultipleIsMod(a: int, b: int)
    requires b > 0
    ensures Multiple(a, b) <==> GoMod(a, b) == 0
    ensures Multiple(a, b) <==> a % b == 0
  {
    if Multiple(a, b) {
      var q := MultipleFactor(a, b);
      DivModUnique(a, q, 0, b);
      assert -a == (-q) * b;
      DivModUnique(-a, -q, 0, b);
    }
    DivModIdentity(a, b);
    if a % b == 0 {
      FactorMultiple(a / b, b);
    }
    DivModIdentity(-a, b);
    if a < 0 && (-a) % b == 0 {
      assert a == (-((-a) / b)) * b;
      FactorMultiple(-((-a) / b), b);
    }
  }

  lemma MultipleSum(a: int, c: int, b: int)
    requires b > 0 && Multiple(a, b) && Multiple(c, b)
    ensures Multiple(a + c, b) && Multiple(a - c, b)
  {
    var p := MultipleFactor(a, b);
    var q := MultipleFactor(c, b);
    assert a + c == (p + q) * b && a - c == (p - q) * b;
    FactorMultiple(p + q, b);
    FactorMultiple(p - q, b);
  }

  lemma MultipleStep(a: int, b: int)
    requires b > 0 && Multiple(a, b)
    ensures Multiple(a + b, b) && Multiple(a - b, b)
  {
    FactorMultiple(1, b);
    MultipleSum(a, b, b);
  }

  /** Two multiples of `b` that differ are at least `b` apart. */
  lemma MultipleGap(a: int, c: int, b: int)
    requires b > 0 && Multiple(a, b) && Multiple(c, b)
    requires a < c
    ensures a + b <= c
  {
    var p := MultipleFactor(a, b);
    var q := MultipleFactor(c, b);
    if q <= p {
      MulMonotone(q, p, b);
      assert false;
    }
    MulMonotone(p + 1, q, b);
    assert (p + 1) * b == p * b + b;
  }

  /** Subtracting Go's remainder always lands on a multiple, within one period,
      on the side of zero. */
  lemma AlignDown(a: int, b: int)
    requires b > 0
    ensures Multiple(a - GoMod(a, b), b)
    ensures a >= 0 ==> a - b < a - GoMod(a, b) <= a
    ensures a < 0 ==> a <= a - GoMod(a, b) < a + b
  {
    if a >= 0 {
      DivModIdentity(a, b);
      FactorMultiple(a / b, b);
    } else {
      var q := (-a) / b;
      DivModIdentity(-a, b);
      assert a - GoMod(a, b) == (-q) * b;
      FactorMultiple(-q, b);
    }
  }
}
