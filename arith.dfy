/** Facts about multiplication, `/` and `%` on unbounded integers that the solver does not find unaided. */
module Arith {
  /** A positive multiple of a positive number is at least that number. */
  lemma {:induction false} MulAtLeast(a: int, s: int)
    requires a >= 1 && s > 0
    ensures a * s >= s
    decreases a
  {
    if a > 1 {
      MulAtLeast(a - 1, s);
      assert a * s == (a - 1) * s + s;
    }
  }

  /** A multiple of a positive number divided by that number gives the factor back. */
  lemma MulDiv(k: int, s: int)
    requires s > 0
    ensures (k * s) / s == k
  {
    var q := (k * s) / s;
    var m := (k * s) % s;
    assert k * s == s * q + m;
    assert (k - q) * s == m by {
      assert s * q == q * s;
    }
    assert (q - k) * s == -((k - q) * s);
    if k - q > 0 {
      MulAtLeast(k - q, s);
    } else if k - q < 0 {
      MulAtLeast(q - k, s);
    }
  }

  /** The only multiple of a positive `t` in `0 .. t - 1` is zero. */
  lemma MulBelow(a: int, t: int)
    requires t > 0 && 0 <= a * t < t
    ensures a == 0
  {
    assert a * t == -((-a) * t);
    if a >= 1 {
      MulAtLeast(a, t);
    } else if a <= -1 {
      MulAtLeast(-a, t);
    }
  }

  /** A multiple of a non-zero number leaves no remainder. */
  lemma MulMod(k: int, s: int)
    requires s != 0
    ensures (k * s) % s == 0
  {
    var q := (k * s) / s;
    var m := (k * s) % s;
    assert k * s == s * q + m;
    assert (k - q) * s == m by {
      assert s * q == q * s;
    }
    var t := if s > 0 then s else -s;
    var a := if s > 0 then k - q else q - k;
    assert m == a * t by {
      if s < 0 {
        assert (k - q) * s == (q - k) * t;
      }
    }
    MulBelow(a, t);
  }

  lemma ModZeroNegOne(a: int, b: int)
    requires b != 0 && a % b == 0
    ensures (-a) % (-b) == 0
  {
    var q := a / b;
    assert a == b * q;
    assert -a == q * (-b);
    MulMod(q, -b);
  }

  /** Negating both operands keeps a remainder of zero at zero. */
  lemma ModZeroNeg(a: int, b: int)
    requires b != 0
    ensures a % b == 0 <==> (-a) % (-b) == 0
  {
    if a % b == 0 {
      ModZeroNegOne(a, b);
    }
    if (-a) % (-b) == 0 {
      ModZeroNegOne(-a, -b);
    }
  }
}
