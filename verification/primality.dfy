/** The prime sampler: deterministic Miller-Rabin with witnesses 2, 7 and 61
    over Go's `uint32`, the 64-bit square-and-multiply `modPow`, and the
    sampling loop of `generate32BitPrime`.

    Arithmetic is on `int` with Go's fixed widths written out: `Wrap32` is a
    `uint32` result and `Wrap64` a `uint64` one. */
module Primality {
  import opened Wrappers
  import opened Arith

  const TWO_POW_32: int := 0x1_0000_0000
  const TWO_POW_64: int := 0x1_0000_0000_0000_0000

  /** Largest value `generate32BitPrime` keeps: `math.MaxUint32 - 100`. */
  const MAX_SAMPLE: int := 0xFFFF_FFFF - 100

  /** Go's `uint32`. */
  type u32 = x: int | 0 <= x < 0x1_0000_0000

  /** Go's `uint8`. */
  type byte = x: int | 0 <= x < 256

  /** Reduction of an exact result to `uint32`, as Go's wrapping arithmetic does. */
  function Wrap32(x: int): u32
  {
    x % TWO_POW_32
  }

  /** Reduction of an exact result to `uint64`. */
  function Wrap64(x: int): int
  {
    x % TWO_POW_64
  }

  lemma ProductFits64(x: int, y: int)
    requires 0 <= x < TWO_POW_32 && 0 <= y < TWO_POW_32
    ensures 0 <= x * y < TWO_POW_64
  {
    MulNonneg(x, y);
    MulLe(x, y, TWO_POW_32 - 1);
    MulLe(TWO_POW_32 - 1, x, TWO_POW_32 - 1);
  }

  // ---------------------------------------------------------------------
  // modPow

  /** The square-and-multiply loop of `modPow` from the state
      (`result`, `b`, `e`); `e&1 == 1` is `e % 2 == 1` and `e >>= 1` is `e / 2`.
      Products are taken in `uint64`. Its value is `ModPowLoopValue`. */
  function ModPowLoop(result: int, b: int, e: nat, m: int): (r: int)
    requires 0 < m < TWO_POW_32
    requires 0 <= result < m || result == 1
    requires 0 <= b < m
    ensures e == 0 ==> r == result
    ensures e > 0 ==> 0 <= r < m
    decreases e
  {
    if e > 0 then
      var result' := if e % 2 == 1 then Wrap64(result * b) % m else result;
      var b' := Wrap64(b * b) % m;
      ModPowLoop(result', b', e / 2, m)
    else
      result
  }

  /** The loop computes `result * b^e (mod m)`: the `uint64` products never
      overflow, and each turn keeps that value. */
  lemma {:induction false} ModPowLoopValue(result: int, b: int, e: nat, m: int)
    requires 0 < m < TWO_POW_32
    requires 0 <= result < m || result == 1
    requires 0 <= b < m
    ensures e > 0 ==> ModPowLoop(result, b, e, m) == (result * Pow(b, e)) % m
    decreases e
  {
    if e > 0 {
      ProductFits64(result, b);
      ProductFits64(b, b);
      ModOfSmall(result * b, TWO_POW_64);
      ModOfSmall(b * b, TWO_POW_64);
      var result' := if e % 2 == 1 then (result * b) % m else result;
      ModPowStep(result, b, e, m);
      ModPowLoopValue(result', (b * b) % m, e / 2, m);
    }
  }

  /** One turn of the loop keeps `result * b^e (mod m)` unchanged. */
  lemma ModPowStep(result: int, b: int, e: nat, m: int)
    requires 0 < m < TWO_POW_32 && 0 <= result < TWO_POW_32 && 0 <= b < m && e > 0
    ensures var result' := if e % 2 == 1 then (result * b) % m else result;
            e / 2 > 0 ==> (result' * Pow((b * b) % m, e / 2)) % m == (result * Pow(b, e)) % m
    ensures e / 2 == 0 ==> (result * b) % m == (result * Pow(b, e)) % m
  {
    var k := e / 2;
    var p, p' := Pow(b * b, k), Pow((b * b) % m, k);
    PowSquare(b, k);
    PowModBase(b * b, k, m);
    assert p' % m == p % m;
    if e % 2 == 1 {
      assert Pow(b, e) == b * Pow(b, 2 * k);
      assert (result * b) * p == result * Pow(b, e);
      if k > 0 {
        ReduceLeft(result * b, p', m);
        ReduceRight(result * b, p', p, m);
      }
    } else {
      assert Pow(b, e) == p;
      ReduceRight(result, p', p, m);
    }
  }

  /** Reducing the left factor first does not change the product's remainder. */
  lemma ReduceLeft(x: int, y: int, m: int)
    requires m > 0
    ensures ((x % m) * y) % m == (x * y) % m
  {
    MulMod(x % m, y, m);
    MulMod(x, y, m);
    ModOfSmall(x % m, m);
  }

  /** Right factors with equal remainders give products with equal remainders. */
  lemma ReduceRight(x: int, y: int, y': int, m: int)
    requires m > 0 && y % m == y' % m
    ensures (x * y) % m == (x * y') % m
  {
    MulMod(x, y, m);
    MulMod(x, y', m);
  }

  /** `modPow(base, exp, mod)`; a zero modulus panics in Go, so it is excluded.
      An empty exponent leaves `result` at its initial 1, even for modulus 1. */
  function ModPow(base: u32, exp: u32, mod: u32): (r: u32)
    requires mod != 0
    ensures r == if exp == 0 then 1 else Pow(base, exp) % mod
    ensures exp > 0 || mod > 1 ==> r < mod
  {
    var r := ModPowLoop(1, base % mod, exp, mod);
    ModPowLoopValue(1, base % mod, exp, mod);
    PowModBase(base, exp, mod);
    Wrap32(r)
  }

  // ---------------------------------------------------------------------
  // Miller-Rabin

  /** The halving loop of `isPrime` from the state (`d`, `r`): while `d` is even
      it is halved and `r` counted up. */
  function HalvingLoop(d: u32, r: u32): (res: (u32, u32))
    requires d > 0 && d * Pow(2, r) < TWO_POW_32
    ensures res.0 % 2 == 1 && res.1 >= r
    ensures res.0 * Pow(2, res.1) == d * Pow(2, r)
    ensures d % 2 == 0 ==> res.1 > r
    decreases d
  {
    if d % 2 == 0 then
      PowTwoAbove(r);
      assert (d / 2) * Pow(2, r + 1) == d * Pow(2, r);
      HalvingLoop(d / 2, r + 1)
    else
      (d, r)
  }

  /** Decomposition `n - 1 == d * 2^r` with `d` odd. */
  function Decompose(n: u32): (res: (u32, u32))
    requires n >= 2
    ensures res.0 % 2 == 1
    ensures res.0 * Pow(2, res.1) == n - 1
    ensures n % 2 == 1 ==> res.1 >= 1
    ensures n % 2 == 0 ==> res == (n - 1, 0)
  {
    assert Pow(2, 0) == 1;
    assert n % 2 == 0 ==> (n - 1) % 2 == 1;
    HalvingLoop(n - 1, 0)
  }

  /** The squaring loop of `millerRabinTest`, from iteration `j` of `bound`.
      `x * x` is a `uint32` product, so it wraps before the reduction mod `n`. */
  function SquaringLoop(x: u32, n: u32, j: u32, bound: u32): bool
    requires n != 0
    decreases bound - j
  {
    if j < bound then
      var x' := Wrap32(x * x) % n;
      if x' == n - 1 then true
      else if x' == 1 then false
      else SquaringLoop(x', n, j + 1, bound)
    else
      false
  }

  /** `millerRabinTest(n, d, r, a)`: whether witness `a` fails to prove `n`
      composite. The loop bound `r - 1` is a `uint32`, so `r == 0` makes it
      2^32 - 1. */
  function MillerRabinTest(n: u32, d: u32, r: u32, a: u32): (passes: bool)
    requires n != 0
    ensures n == a ==> passes
    ensures 2 <= n <= 65536 && r >= 1 ==> (passes <==> StrongProbablePrime(n, d, r, a))
  {
    if n == a then
      true
    else
      var x := ModPow(a, d, n);
      SmallModulusSquarings(n, d, r, a);
      if x == 1 || x == n - 1 then true
      else SquaringLoop(x, n, 0, Wrap32(r - 1))
  }

  /** `isPrime(n)`: the boundary cases, then witnesses 2, 7 and 61. */
  function IsPrime(n: u32): (r: bool)
    ensures n <= 1 || n == 4 ==> !r
    ensures n == 2 || n == 3 ==> r
  {
    if n <= 1 || n == 4 then
      false
    else if n <= 3 then
      true
    else
      var (d, r) := Decompose(n);
      MillerRabinTest(n, d, r, 2) && MillerRabinTest(n, d, r, 7) && MillerRabinTest(n, d, r, 61)
  }

  // ---------------------------------------------------------------------
  // Reference Miller-Rabin with exact squaring, and where the two agree.

  /** Up to `steps` exact modular squarings of `x`, stopping at `n - 1` (pass)
      or at 1 (fail). */
  function ExactSquarings(x: int, n: int, steps: nat): bool
    requires n > 0
    decreases steps
  {
    if steps == 0 then
      false
    else
      var x' := (x * x) % n;
      if x' == n - 1 then true
      else if x' == 1 then false
      else ExactSquarings(x', n, steps - 1)
  }

  /** The textbook strong-probable-prime test of `n` to base `a` for
      `n - 1 == d * 2^r`: `a^d == ±1`, or one of the next `r - 1` squarings
      reaches `-1` before `1`. */
  function StrongProbablePrime(n: int, d: nat, r: nat, a: int): bool
    requires n > 0
  {
    if n == a then
      true
    else
      var x := Pow(a, d) % n;
      if x == 1 || x == n - 1 then true
      else ExactSquarings(x, n, if r == 0 then 0 else r - 1)
  }

  lemma SmallSquare(x: int)
    requires 0 <= x < 65536
    ensures Wrap32(x * x) == x * x
  {
    MulNonneg(x, x);
    MulLe(x, x, 65535);
    MulLe(65535, x, 65535);
    ModOfSmall(x * x, TWO_POW_32);
  }

  lemma {:induction false} SquaringLoopExact(x: u32, n: u32, j: u32, bound: u32)
    requires 0 < n <= 65536 && x < n && j <= bound
    ensures SquaringLoop(x, n, j, bound) == ExactSquarings(x, n, bound - j)
    decreases bound - j
  {
    if j < bound {
      SmallSquare(x);
      var x' := (x * x) % n;
      if x' != n - 1 && x' != 1 {
        SquaringLoopExact(x', n, j + 1, bound);
      }
    }
  }

  /** For moduli up to 2^16 the wrapping `uint32` square never wraps, so the
      witness test is exactly the textbook one: the power is the exact
      remainder, the loop bound does not wrap, and the squarings agree.
      Above 2^16 the square can wrap. */
  lemma SmallModulusSquarings(n: u32, d: u32, r: u32, a: u32)
    requires n != 0
    ensures 2 <= n <= 65536 && r >= 1 ==>
              && ModPow(a, d, n) == Pow(a, d) % n
              && Wrap32(r - 1) == r - 1
              && SquaringLoop(ModPow(a, d, n), n, 0, r - 1) == ExactSquarings(ModPow(a, d, n), n, r - 1)
  {
    if 2 <= n <= 65536 && r >= 1 {
      var x := ModPow(a, d, n);
      if d == 0 {
        ModOfSmall(1, n);
      }
      assert x == Pow(a, d) % n;
      assert Wrap32(r - 1) == r - 1;
      SquaringLoopExact(x, n, 0, r - 1);
    }
  }

  /** With an even modulus, squaring an even residue gives an even residue,
      which is never 1 nor the odd `n - 1`, so the loop runs out. */
  lemma {:induction false} EvenSquaringFails(x: u32, n: u32, j: u32, bound: u32)
    requires n > 0 && n % 2 == 0 && x % 2 == 0
    ensures !SquaringLoop(x, n, j, bound)
    decreases bound - j
  {
    if j < bound {
      assert (x * x) % 2 == 0 by {
        assert x * x == (x / 2) * x * 2;
      }
      EvenMod(x * x, TWO_POW_32);
      EvenMod(Wrap32(x * x), n);
      EvenSquaringFails(Wrap32(x * x) % n, n, j + 1, bound);
    }
  }

  /** Every even number above 4 is rejected: witness 2 leaves an even residue,
      and with `r == 0` the loop bound `r - 1` wraps to 2^32 - 1, so the loop
      runs until it is exhausted. */
  lemma EvenNumbersRejected(n: u32)
    requires n > 4 && n % 2 == 0
    ensures !IsPrime(n)
  {
    var (d, r) := Decompose(n);
    assert d == n - 1 && r == 0;
    var x := ModPow(2, d, n);
    PowTwoEven(d);
    EvenMod(Pow(2, d), n);
    assert Wrap32(r - 1) == 0xFFFF_FFFF;
    EvenSquaringFails(x, n, 0, 0xFFFF_FFFF);
  }

  /** `isPrime` with the textbook witness test in place of
      `millerRabinTest`: the same boundary cases, decomposition and
      witnesses 2, 7 and 61, with exact squares. */
  function TextbookIsPrime(n: u32): bool
  {
    if n <= 1 || n == 4 then
      false
    else if n <= 3 then
      true
    else
      var (d, r) := Decompose(n);
      StrongProbablePrime(n, d, r, 2) && StrongProbablePrime(n, d, r, 7) && StrongProbablePrime(n, d, r, 61)
  }

  /** Up to 2^16 `isPrime` gives the textbook verdict. For odd `n` the
      decomposition has `r >= 1` and each witness test is exact; for even
      `n > 4` both reject on witness 2, whose power leaves an even residue
      that is neither 1 nor the odd `n - 1`. */
  lemma IsPrimeExactBelow2To16(n: u32)
    requires n <= 65536
    ensures IsPrime(n) == TextbookIsPrime(n)
  {
    if n > 4 {
      var (d, r) := Decompose(n);
      if n % 2 == 0 {
        EvenNumbersRejected(n);
        assert d == n - 1 && r == 0;
        PowTwoEven(d);
        EvenMod(Pow(2, d), n);
        assert !StrongProbablePrime(n, d, r, 2);
      }
    }
  }

  /** For odd `n > 3` the halving loop ends with an odd `d`, `r >= 1` and
      `d * 2^r == n - 1`, and `isPrime` is the conjunction of the three
      witness tests on that decomposition. */
  lemma OddDecomposition(n: u32)
    requires n > 3 && n % 2 == 1
    ensures var (d, r) := Decompose(n);
            && d % 2 == 1 && r >= 1 && d * Pow(2, r) == n - 1
            && (IsPrime(n) <==> forall a | a in [2, 7, 61] :: MillerRabinTest(n, d, r, a))
  {
  }

  /** `a^16687 mod 66749` for the witnesses, through the remainders of
      `a^e` for the halved exponents `e1 = d / 2`, `e2 = d / 4`, ... down
      to 1. */
  lemma WitnessPower2(d: nat)
    requires d == 16687
    ensures Pow(2, d) % 66749 == 65932
  {
    var e1, e2, e3, e4, e5, e6, e7, e8, e9, e10, e11, e12, e13, e14 := d / 2, d / 4, d / 8, d / 16, d / 32, d / 64, d / 128, d / 256, d / 512, d / 1024, d / 2048, d / 4096, d / 8192, d / 16384;
    assert Pow(2, e14) == 2;
    PowHalvingStep(2, e13, e14, 0, 66749, 2, 4, 0);
    PowHalvingStep(2, e12, e13, 0, 66749, 4, 16, 0);
    PowHalvingStep(2, e11, e12, 0, 66749, 16, 256, 0);
    PowHalvingStep(2, e10, e11, 0, 66749, 256, 65536, 0);
    PowHalvingStep(2, e9, e10, 0, 66749, 65536, 2891, 64345);
    PowHalvingStep(2, e8, e9, 1, 66749, 2891, 28512, 250);
    PowHalvingStep(2, e7, e8, 0, 66749, 28512, 64822, 12178);
    PowHalvingStep(2, e6, e7, 0, 66749, 64822, 42134, 62950);
    PowHalvingStep(2, e5, e6, 1, 66749, 42134, 35104, 53192);
    PowHalvingStep(2, e4, e5, 0, 66749, 35104, 37527, 18461);
    PowHalvingStep(2, e3, e4, 1, 66749, 37527, 10654, 42196);
    PowHalvingStep(2, e2, e3, 1, 66749, 10654, 2083, 3401);
    PowHalvingStep(2, e1, e2, 1, 66749, 2083, 408, 130);
    PowHalvingStep(2, d, e1, 1, 66749, 408, 65932, 4);
  }

  lemma WitnessPower7(d: nat)
    requires d == 16687
    ensures Pow(7, d) % 66749 == 66748
  {
    var e1, e2, e3, e4, e5, e6, e7, e8, e9, e10, e11, e12, e13, e14 := d / 2, d / 4, d / 8, d / 16, d / 32, d / 64, d / 128, d / 256, d / 512, d / 1024, d / 2048, d / 4096, d / 8192, d / 16384;
    assert Pow(7, e14) == 7;
    PowHalvingStep(7, e13, e14, 0, 66749, 7, 49, 0);
    PowHalvingStep(7, e12, e13, 0, 66749, 49, 2401, 0);
    PowHalvingStep(7, e11, e12, 0, 66749, 2401, 24387, 86);
    PowHalvingStep(7, e10, e11, 0, 66749, 24387, 58928, 8909);
    PowHalvingStep(7, e9, e10, 0, 66749, 58928, 25957, 52023);
    PowHalvingStep(7, e8, e9, 1, 66749, 25957, 10101, 70658);
    PowHalvingStep(7, e7, e8, 0, 66749, 10101, 37729, 1528);
    PowHalvingStep(7, e6, e7, 0, 66749, 37729, 55016, 21325);
    PowHalvingStep(7, e5, e6, 1, 66749, 55016, 54459, 317417);
    PowHalvingStep(7, e4, e5, 0, 66749, 54459, 57862, 44431);
    PowHalvingStep(7, e3, e4, 1, 66749, 57862, 36165, 351107);
    PowHalvingStep(7, e2, e3, 1, 66749, 36165, 57735, 137160);
    PowHalvingStep(7, e1, e2, 1, 66749, 57735, 63892, 349567);
    PowHalvingStep(7, d, e1, 1, 66749, 63892, 66748, 428100);
  }

  lemma WitnessPower61(d: nat)
    requires d == 16687
    ensures Pow(61, d) % 66749 == 1
  {
    var e1, e2, e3, e4, e5, e6, e7, e8, e9, e10, e11, e12, e13, e14 := d / 2, d / 4, d / 8, d / 16, d / 32, d / 64, d / 128, d / 256, d / 512, d / 1024, d / 2048, d / 4096, d / 8192, d / 16384;
    assert Pow(61, e14) == 61;
    PowHalvingStep(61, e13, e14, 0, 66749, 61, 3721, 0);
    PowHalvingStep(61, e12, e13, 0, 66749, 3721, 28798, 207);
    PowHalvingStep(61, e11, e12, 0, 66749, 28798, 35228, 12424);
    PowHalvingStep(61, e10, e11, 0, 66749, 35228, 14576, 18592);
    PowHalvingStep(61, e9, e10, 0, 66749, 14576, 64458, 3182);
    PowHalvingStep(61, e8, e9, 1, 66749, 64458, 41337, 3796983);
    PowHalvingStep(61, e7, e8, 0, 66749, 41337, 39918, 25599);
    PowHalvingStep(61, e6, e7, 0, 66749, 39918, 14596, 23872);
    PowHalvingStep(61, e5, e6, 1, 66749, 14596, 6370, 194694);
    PowHalvingStep(61, e4, e5, 0, 66749, 6370, 60257, 607);
    PowHalvingStep(61, e3, e4, 1, 66749, 60257, 5420, 3318181);
    PowHalvingStep(61, e2, e3, 1, 66749, 5420, 16746, 26846);
    PowHalvingStep(61, e1, e2, 1, 66749, 16746, 39501, 256275);
    PowHalvingStep(61, d, e1, 1, 66749, 39501, 1, 1425940);
  }

  /** `modPow(a, 16687, 66749)` for the witnesses 2, 7 and 61. */
  lemma WitnessPowers(d: u32)
    requires d == 16687
    ensures ModPow(2, d, 66749) == 65932
    ensures ModPow(7, d, 66749) == 66748
    ensures ModPow(61, d, 66749) == 1
  {
    WitnessPower2(d);
    WitnessPower7(d);
    WitnessPower61(d);
  }

  /** For 66749 the exact squaring of witness 2's residue 65932 reaches
      n - 1, and witnesses 7 and 61 already give n - 1 and 1: the textbook
      test accepts 66749 for all three witnesses. */
  lemma ExactTestAccepts66749(n: u32, d: u32)
    requires n == 66749 && d == 16687
    ensures StrongProbablePrime(n, d, 2, 2) && StrongProbablePrime(n, d, 2, 7) && StrongProbablePrime(n, d, 2, 61)
  {
    WitnessPowers(d);
    DivModUnique(65932 * 65932, n, 65124, n - 1);
  }

  /** For 66749 the wrapped square of witness 2's residue reduces to 63857
      instead of n - 1, and with r = 2 that is the loop's only squaring. */
  lemma WrappedTestRejects66749(n: u32, d: u32)
    requires n == 66749 && d == 16687
    ensures !MillerRabinTest(n, d, 2, 2)
  {
    WitnessPowers(d);
    DivModUnique(65932 * 65932, TWO_POW_32, 1, 52061328);
    DivModUnique(52061328, n, 779, 63857);
    assert !SquaringLoop(63857, n, 1, 1);
  }

  /** Above 2^16 the wrapping square changes the verdict: 66749 is prime,
      and the textbook test with witnesses 2, 7 and 61 accepts it, but
      `isPrime` rejects it. */
  lemma WrappedSquareRejectsPrime(n: u32, d: u32)
    requires n == 66749 && d == 16687
    ensures Decompose(n) == (d, 2)
    ensures StrongProbablePrime(n, d, 2, 2) && StrongProbablePrime(n, d, 2, 7) && StrongProbablePrime(n, d, 2, 61)
    ensures !MillerRabinTest(n, d, 2, 2)
    ensures TextbookIsPrime(n) && !IsPrime(n)
  {
    assert HalvingLoop(n - 1, 0) == HalvingLoop(33374, 1) == HalvingLoop(d, 2);
    ExactTestAccepts66749(n, d);
    WrappedTestRejects66749(n, d);
  }

  // ---------------------------------------------------------------------
  // generate32BitPrime

  /** One `rand.Read` into the 4-byte buffer: the bytes it delivered, or an
      error from the entropy source. */
  datatype RandomRead = Read(bytes: seq<byte>) | ReadError

  datatype PrimeError =
    | RandomSourceFailure
    | IncompleteRead(got: nat)
    | PrimeSearchExhausted(attempts: int)

  /** `binary.BigEndian.Uint32`. */
  function BigEndian(b: seq<byte>): u32
    requires |b| == 4
  {
    (b[0] as int) * 0x100_0000 + (b[1] as int) * 0x1_0000 + (b[2] as int) * 0x100 + b[3]
  }

  /** A read that ends the search with an error. */
  predicate Broken(read: RandomRead)
  {
    read.ReadError? || |read.bytes| != 4
  }

  /** A complete read whose value is kept: at most `MAX_SAMPLE` and accepted
      by `isPrime`. */
  predicate KeptDraw(read: RandomRead)
  {
    && !Broken(read)
    && BigEndian(read.bytes) <= MAX_SAMPLE
    && IsPrime(BigEndian(read.bytes))
  }

  /** The error a broken read produces. */
  function ReadFailure(read: RandomRead): PrimeError
    requires Broken(read)
  {
    if read.ReadError? then RandomSourceFailure else IncompleteRead(|read.bytes|)
  }

  /** `generate32BitPrime`, with the successive `crypto/rand` reads given as
      `draws`; `used` is how many of them the loop consumed. The loop stops
      at the first read that is broken or kept; every read before it was
      skipped, being above `MAX_SAMPLE` or rejected by `isPrime`. */
  method Generate32BitPrime(maxAttempts: int, draws: seq<RandomRead>)
      returns (res: Result<u32, PrimeError>, used: nat)
    requires maxAttempts <= |draws|
    ensures used <= |draws| && (maxAttempts <= 0 ==> used == 0) && (maxAttempts > 0 ==> used <= maxAttempts)
    ensures forall k :: 0 <= k < used - 1 ==> !Broken(draws[k]) && !KeptDraw(draws[k])
    ensures res.Success? ==> used >= 1 && KeptDraw(draws[used - 1])
                             && res.value == BigEndian(draws[used - 1].bytes)
                             && res.value <= MAX_SAMPLE && IsPrime(res.value)
    ensures res.Failure? && res.error.PrimeSearchExhausted? ==>
              res.error.attempts == maxAttempts && used == (if maxAttempts < 0 then 0 else maxAttempts)
              && forall k :: 0 <= k < used ==> !Broken(draws[k]) && !KeptDraw(draws[k])
    ensures res.Failure? && !res.error.PrimeSearchExhausted? ==>
              used >= 1 && Broken(draws[used - 1]) && res.error == ReadFailure(draws[used - 1])
  {
    var attempt := 0;
    while attempt < maxAttempts
      invariant 0 <= attempt <= |draws|
      invariant if maxAttempts > 0 then attempt <= maxAttempts else attempt == 0
      invariant forall k :: 0 <= k < attempt ==> !Broken(draws[k]) && !KeptDraw(draws[k])
    {
      var read := draws[attempt];
      if read.ReadError? {
        return Failure(RandomSourceFailure), attempt + 1;
      }
      if |read.bytes| != 4 {
        return Failure(IncompleteRead(|read.bytes|)), attempt + 1;
      }
      var value := BigEndian(read.bytes);
      if value <= MAX_SAMPLE && IsPrime(value) {
        return Success(value), attempt + 1;
      }
      attempt := attempt + 1;
    }
    return Failure(PrimeSearchExhausted(maxAttempts)), attempt;
  }
}
