/** Arithmetic facts the proofs rest on: powers, Euclidean division and
    remainder by a positive modulus, and products and quotients of reals. */
module Arith {

  function Pow(b: int, e: nat): int
  {
    if e == 0 then 1 else b * Pow(b, e - 1)
  }

  lemma MulNonneg(a: int, b: int)
    requires 0 <= a && 0 <= b
    ensures 0 <= a * b
  {
  }

  lemma MulLe(a: int, b: int, c: int)
    requires 0 <= a && b <= c
    ensures a * b <= a * c
  {
    MulNonneg(a, c - b);
  }

  /** Quotient and remainder are unique. */
  lemma DivModUnique(y: int, m: int, q: int, r: int)
    requires m > 0 && 0 <= r < m && y == q * m + r
    ensures y % m == r && y / m == q
  {
    var q0, r0 := y / m, y % m;
    assert y == q0 * m + r0;
    var d := q - q0;
    assert d * m == r0 - r;
    MulOutside(d, m);
  }

  /** A nonzero multiple of `m` is at least `m` away from zero. */
  lemma MulOutside(d: int, m: int)
    requires m > 0
    ensures d >= 1 ==> d * m >= m
    ensures d <= -1 ==> d * m <= -m
  {
    if d >= 1 {
      MulNonneg(d - 1, m);
    } else if d <= -1 {
      MulNonneg(-d - 1, m);
    }
  }

  lemma ModAddMultiple(a: int, k: int, m: int)
    requires m > 0
    ensures (k * m + a) % m == a % m
  {
    var q, r := a / m, a % m;
    assert a == q * m + r;
    assert k * m + a == (k + q) * m + r;
    DivModUnique(k * m + a, m, k + q, r);
  }

  lemma ModOfSmall(x: int, m: int)
    requires 0 <= x < m
    ensures x % m == x
  {
    DivModUnique(x, m, 0, x);
  }

  /** Reduction commutes with multiplication. */
  lemma MulMod(x: int, y: int, m: int)
    requires m > 0
    ensures (x * y) % m == ((x % m) * (y % m)) % m
  {
    var qx, rx := x / m, x % m;
    var qy, ry := y / m, y % m;
    assert x == qx * m + rx;
    assert y == qy * m + ry;
    assert x * y == (qx * qy * m + qx * ry + rx * qy) * m + rx * ry;
    ModAddMultiple(rx * ry, qx * qy * m + qx * ry + rx * qy, m);
  }

  /** An even number reduced by an even modulus stays even. */
  lemma EvenMod(a: int, m: int)
    requires a % 2 == 0 && m > 0 && m % 2 == 0
    ensures (a % m) % 2 == 0
  {
    var q, h := a / m, m / 2;
    assert a == q * m + a % m;
    assert m == 2 * h;
    assert q * m == 2 * (q * h);
    ModAddMultiple(a % m, -(q * h) + a / 2, 2);
    assert a % m == 2 * (a / 2 - q * h);
  }

  lemma PowSquare(b: int, k: nat)
    ensures Pow(b * b, k) == Pow(b, 2 * k)
  {
    if k > 0 {
      PowSquare(b, k - 1);
      assert Pow(b, 2 * k) == b * (b * Pow(b, 2 * k - 2));
    }
  }

  /** Reducing the base first does not change the power's remainder. */
  lemma {:induction false} PowModBase(b: int, k: nat, m: int)
    requires m > 0
    ensures Pow(b % m, k) % m == Pow(b, k) % m
  {
    if k > 0 {
      PowModBase(b, k - 1, m);
      MulMod(b % m, Pow(b % m, k - 1), m);
      MulMod(b, Pow(b, k - 1), m);
      assert (b % m) % m == b % m by {
        ModOfSmall(b % m, m);
      }
    }
  }

  lemma {:induction false} PowAdd(b: int, i: nat, j: nat)
    ensures Pow(b, i + j) == Pow(b, i) * Pow(b, j)
  {
    if i > 0 {
      PowAdd(b, i - 1, j);
      assert Pow(b, i + j) == b * (Pow(b, i - 1) * Pow(b, j));
    }
  }

  /** One step of computing `b^e mod m` by halving the exponent: from the
      remainder `r` of `b^j` and `e == 2 * j + bit`, the remainder of `b^e`
      is `r' == r * r * b^bit - q * m`. The quotient `q` is given, so that
      checking the step is linear arithmetic. */
  lemma PowHalvingStep(b: int, e: nat, j: nat, bit: nat, m: int, r: int, r': int, q: int)
    requires m > 0 && bit <= 1 && e == 2 * j + bit && Pow(b, j) % m == r
    requires r * r * (if bit == 1 then b else 1) == q * m + r' && 0 <= r' < m
    ensures Pow(b, e) % m == r'
  {
    var p, c := Pow(b, j), if bit == 1 then b else 1;
    PowAdd(b, j, j);
    PowAdd(b, 2 * j, bit);
    assert Pow(b, bit) == c;
    assert Pow(b, e) == (p * p) * c;
    MulMod(p * p, c, m);
    MulMod(p, p, m);
    MulMod(r * r, c, m);
    MulMod(r, r, m);
    ModOfSmall(r, m);
    DivModUnique(r * r * c, m, q, r');
  }

  lemma PowTwoAbove(r: nat)
    ensures Pow(2, r) > r
  {
  }

  lemma PowTwoEven(e: nat)
    requires e >= 1
    ensures Pow(2, e) % 2 == 0
  {
  }

  lemma PowNonneg(b: int, e: nat)
    requires b >= 0
    ensures Pow(b, e) >= 0
  {
    if e > 0 {
      PowNonneg(b, e - 1);
      MulNonneg(b, Pow(b, e - 1));
    }
  }

  // ---------------------------------------------------------------- reals

  lemma MulNonnegReal(a: real, b: real)
    requires a >= 0.0 && b >= 0.0
    ensures a * b >= 0.0
  {
  }

  lemma MulPosReal(a: real, b: real)
    requires a > 0.0 && b > 0.0
    ensures a * b > 0.0
  {
  }

  /** Scaling by a positive factor keeps the order. */
  lemma ScaleLe(x: real, y: real, k: real)
    requires k > 0.0
    ensures x <= y <==> x * k <= y * k
  {
    if x > y {
      MulPosReal(x - y, k);
    } else {
      MulNonnegReal(y - x, k);
    }
  }

  /** A share `m / t` of a positive whole lies in [0, 1] and is one half
      exactly when `2m = t`. */
  lemma RatioBounds(m: real, t: real)
    requires 0.0 <= m <= t && t > 0.0
    ensures 0.0 <= m / t <= 1.0
    ensures m / t == 0.5 <==> 2.0 * m == t
  {
    var q := m / t;
    assert q * t == m;
    if q < 0.0 {
      MulPosReal(-q, t);
    }
    if q > 1.0 {
      MulPosReal(q - 1.0, t);
    }
    if q > 0.5 {
      MulPosReal(q - 0.5, t);
    }
    if q < 0.5 {
      MulPosReal(0.5 - q, t);
    }
  }
}
