/** The statistical test suite of `statistical.go`: the Shannon entropy of a
    word's bits and the five tests (bit frequency, runs, serial,
    autocorrelation, linear complexity) every candidate is put through.

    Go computes in float64; the model computes in exact reals. The library
    calls `math.Sqrt`, `math.Exp` and `math.Log2` are parameters (`FloatLib`);
    a property that depends on them names the fact it needs as a hypothesis.
    A NaN score is `None`. */
module Statistics {
  import opened Words
  import opened Wrappers
  import opened Arith
  import Complexity

  /** The five tests, named by the `Name` strings of their results. */
  datatype TestKind = BitFrequency | Runs | Serial | AutoCorrelation | LinearComplexity

  /** `StatisticalTest` without its `Details` text. */
  datatype StatisticalTest = StatisticalTest(kind: TestKind, score: Option<real>, passed: bool)

  /** The floating-point library functions the tests call. */
  datatype FloatLib = FloatLib(sqrt: real -> real, exp: real -> real, log2: real -> real)

  const MIN_P_VALUE: real := 0.01
  const MAX_P_VALUE: real := 0.99
  const MIN_ENTROPY_SCORE: real := 1.0
  const MAX_ENTROPY_SCORE: real := 2.5
  const MAX_BIT_FREQUENCY_DEVIATION: real := 0.15
  const MIN_RUNS_Z_SCORE: real := -3.0
  const MAX_RUNS_Z_SCORE: real := 3.0
  const MAX_SERIAL_CORRELATION: real := 0.5

  function Abs(x: real): real
  {
    if x < 0.0 then -x else x
  }

  function Max(a: real, b: real): real
  {
    if a >= b then a else b
  }

  // ---------------------------------------------------------------- entropy

  /** `counts[bit]++` over bits `0 .. k-1`: a Go map, so a key is present
      only once some bit has taken that value. */
  function BitCounts(v: bv32, k: nat): (counts: map<bool, nat>)
    requires k <= 32
  {
    if k == 0 then map[]
    else
      var counts := BitCounts(v, k - 1);
      var bit := Bit(v, k - 1);
      counts[bit := (if bit in counts then counts[bit] else 0) + 1]
  }

  /** The map holds the number of ones and zeros below `k`, each only when
      nonzero. */
  lemma {:induction false} BitCountsBelow(v: bv32, k: nat)
    requires k <= 32
    ensures true in BitCounts(v, k) <==> OnesBelow(v, k) > 0
    ensures false in BitCounts(v, k) <==> OnesBelow(v, k) < k
    ensures true in BitCounts(v, k) ==> BitCounts(v, k)[true] == OnesBelow(v, k)
    ensures false in BitCounts(v, k) ==> BitCounts(v, k)[false] == k - OnesBelow(v, k)
  {
    if k > 0 {
      BitCountsBelow(v, k - 1);
    }
  }

  /** `-p * log2(p)` for a count out of 32. */
  function Surprisal(log2: real -> real, count: nat): real
  {
    var p := count as real / 32.0;
    if p > 0.0 then -(p * log2(p)) else 0.0
  }

  /** `calculateEntropy`: the sum over the keys of the count map. It is the
      entropy of the split into `PopCount(v)` ones and the rest zeros,
      whatever the order of the bits. */
  function Entropy(v: bv32, log2: real -> real): (h: real)
    ensures h == Surprisal(log2, PopCount(v)) + Surprisal(log2, 32 - PopCount(v))
  {
    var counts := BitCounts(v, 32);
    BitCountsBelow(v, 32);
    (if true in counts then Surprisal(log2, counts[true]) else 0.0)
      + (if false in counts then Surprisal(log2, counts[false]) else 0.0)
  }

  /** Complementing every bit swaps the two counts and keeps the entropy. */
  lemma EntropyComplement(v: bv32, log2: real -> real)
    ensures Entropy(!v, log2) == Entropy(v, log2)
  {
    PopCountComplement(v);
  }

  /** A word of one repeated bit has entropy 0. */
  lemma EntropyOfConstantWords(v: bv32, log2: real -> real)
    requires v == 0 || v == 0xFFFF_FFFF
    requires log2(1.0) == 0.0
    ensures Entropy(v, log2) == 0.0
  {
    PopCountExtremes(v);
  }

  /** Sixteen ones and sixteen zeros, in any order, give exactly one bit
      of entropy. */
  lemma EntropyOfBalancedWords(v: bv32, log2: real -> real)
    requires PopCount(v) == 16
    requires log2(0.5) == -1.0
    ensures Entropy(v, log2) == 1.0
  {
    assert Surprisal(log2, 16) == 0.5;
  }

  /** `p * log2(p)` for `p = c/32`. */
  function PLogP(log2: real -> real, c: int): real
  {
    (c as real / 32.0) * log2(c as real / 32.0)
  }

  /** The convexity of `p * log2(p)` that the entropy bound needs: on every
      count 1..31 it lies above its tangent line at 16, whose slope per unit
      count is `slope`. The true `log2` meets it with `slope` equal to
      `(log2(1/2) + 1/ln 2) / 32`. */
  ghost predicate AboveTangent(log2: real -> real, slope: real)
  {
    forall c :: 1 <= c <= 31 ==> PLogP(log2, c) >= -0.5 + slope * (c - 16) as real
  }

  /** An entropy over two symbols is at most one bit. */
  lemma EntropyAtMostOne(v: bv32, log2: real -> real, slope: real)
    requires log2(1.0) == 0.0
    requires AboveTangent(log2, slope)
    ensures Entropy(v, log2) <= 1.0
  {
    var k: int := PopCount(v);
    if k == 0 || k == 32 {
      assert Surprisal(log2, 0) == 0.0;
      assert Surprisal(log2, 32) == -(1.0 * log2(1.0));
    } else {
      assert Surprisal(log2, k) == -PLogP(log2, k);
      assert Surprisal(log2, 32 - k) == -PLogP(log2, 32 - k);
      var t := slope * (k - 16) as real;
      assert slope * (16 - k) as real == -t;
      assert PLogP(log2, k) >= -0.5 + t;
      assert PLogP(log2, 32 - k) >= -0.5 - t;
    }
  }

  // ------------------------------------------------------------ bit frequency

  /** `runBitFrequencyTest`. */
  function BitFrequencyTest(v: bv32): (t: StatisticalTest)
    ensures t.kind == BitFrequency
    ensures t.passed <==> 12 <= PopCount(v) <= 20
    ensures t.score == Some(1.0 - Abs(PopCount(v) as real - 16.0) / 16.0)
  {
    var ones := PopCount(v);
    var proportion := ones as real / 32.0;
    var deviation := Abs(proportion - 0.5);
    StatisticalTest(BitFrequency, Some(1.0 - deviation * 2.0), deviation <= MAX_BIT_FREQUENCY_DEVIATION)
  }

  /** The test sees only the balance of ones and zeros, so the complement
      scores the same. */
  lemma BitFrequencyComplement(v: bv32)
    ensures BitFrequencyTest(!v) == BitFrequencyTest(v)
  {
    PopCountComplement(v);
  }

  lemma BitFrequencyExamples()
    ensures BitFrequencyTest(0xAAAA_AAAA) == StatisticalTest(BitFrequency, Some(1.0), true)
    ensures BitFrequencyTest(0) == StatisticalTest(BitFrequency, Some(0.0), false)
    ensures BitFrequencyTest(0xFFFF_FFFF) == StatisticalTest(BitFrequency, Some(0.0), false)
  {
    PopCountAlternating();
    PopCountExtremes(0);
    PopCountExtremes(0xFFFF_FFFF);
  }

  // -------------------------------------------------------------------- runs

  /** Reference count: positions `1 <= i < k` whose bit differs from bit `i-1`. */
  function Transitions(v: bv32, k: nat): (r: nat)
    requires 1 <= k <= 32
    ensures r < k
  {
    if k == 1 then 0 else Transitions(v, k - 1) + (if Bit(v, k - 1) != Bit(v, k - 2) then 1 else 0)
  }

  /** The counting loop of `runRunsTest` from iteration `i`, with `current`
      the bit of the run in progress and `runs` the runs closed so far. */
  function CountRunsFrom(v: bv32, i: nat, current: bool, runs: nat): (r: nat)
    requires 1 <= i <= 32 && current == Bit(v, i - 1)
    ensures r == runs + Transitions(v, 32) - Transitions(v, i)
    decreases 32 - i
  {
    if i < 32 then
      var bit := Bit(v, i);
      if bit != current then CountRunsFrom(v, i + 1, bit, runs + 1)
      else CountRunsFrom(v, i + 1, current, runs)
    else runs
  }

  /** The number of maximal runs of equal bits. */
  function CountRuns(v: bv32): (r: nat)
    ensures r == 1 + Transitions(v, 32)
    ensures 1 <= r <= 32
  {
    CountRunsFrom(v, 1, Bit(v, 0), 0) + 1
  }

  /** Expected runs for `n1` ones among 32 bits. */
  function ExpectedRuns(n1: int): real
  {
    var n0 := 32 - n1;
    1.0 + 2.0 * n0 as real * n1 as real / 32.0
  }

  function RunsVariance(n1: int): real
  {
    var e := ExpectedRuns(n1);
    (e - 1.0) * (e - 2.0) / 31.0
  }

  /** The variance is positive exactly when both bit values occur. */
  lemma RunsVariancePositive(n1: int)
    requires 0 <= n1 <= 32
    ensures RunsVariance(n1) > 0.0 <==> 0 < n1 < 32
  {
    var x, y := (32 - n1) as real, n1 as real;
    var e := ExpectedRuns(n1);
    assert e - 1.0 == (x * y) / 16.0;
    if 0 < n1 < 32 {
      MulNonnegReal(y - 1.0, 31.0 - y);
      assert x * y - 31.0 == (y - 1.0) * (31.0 - y);
      assert e - 2.0 > 0.0;
      MulPosReal(e - 1.0, e - 2.0);
    } else {
      assert x * y == 0.0;
      assert (e - 1.0) * (e - 2.0) == 0.0;
    }
  }

  /** The verdict of `runRunsTest` from the run count and the number of
      ones. A zero variance (an all-zero or all-one word) divides by zero:
      the z-score and the score are NaN and the test fails. */
  function RunsVerdict(runs: nat, n1: nat, lib: FloatLib): (t: StatisticalTest)
    requires n1 <= 32
    ensures t.kind == Runs
    ensures t.passed ==> 0 < n1 < 32
    ensures n1 == 0 || n1 == 32 ==> t == StatisticalTest(Runs, None, false)
  {
    var expected := ExpectedRuns(n1);
    var variance := RunsVariance(n1);
    RunsVariancePositive(n1);
    if variance > 0.0 && lib.sqrt(variance) != 0.0 then
      var z := (runs as real - expected) / lib.sqrt(variance);
      StatisticalTest(Runs, Some(1.0 - Abs(z / 6.0)), MIN_RUNS_Z_SCORE <= z <= MAX_RUNS_Z_SCORE)
    else
      StatisticalTest(Runs, None, false)
  }

  /** `runRunsTest`. */
  function RunsTest(v: bv32, lib: FloatLib): (t: StatisticalTest)
    ensures t.kind == Runs
    ensures v == 0 || v == 0xFFFF_FFFF ==> t == StatisticalTest(Runs, None, false)
  {
    PopCountExtremes(v);
    RunsVerdict(CountRuns(v), PopCount(v), lib)
  }

  /** `root` is the exact square root of `x`. */
  predicate IsRootOf(root: real, x: real)
  {
    root >= 0.0 && root * root == x
  }

  /** |z| <= 3 exactly when z^2 <= 9. */
  lemma SquareAtMostNine(z: real)
    ensures -3.0 <= z <= 3.0 <==> z * z <= 9.0
  {
    if z > 3.0 {
      MulPosReal(z - 3.0, z + 3.0);
    } else if z < -3.0 {
      MulPosReal(-3.0 - z, 3.0 - z);
    } else {
      MulNonnegReal(3.0 - z, 3.0 + z);
    }
  }

  /** |a / s| <= 3 exactly when a^2 <= 9 s^2, for positive s. */
  lemma WithinThree(a: real, s: real)
    requires s > 0.0
    ensures -3.0 <= a / s <= 3.0 <==> a * a <= 9.0 * (s * s)
  {
    var z := a / s;
    assert a == z * s;
    assert a * a == ((z * z) * s) * s;
    assert 9.0 * (s * s) == (9.0 * s) * s;
    SquareAtMostNine(z);
    ScaleLe(z * z, 9.0, s);
    ScaleLe((z * z) * s, 9.0 * s, s);
  }

  /** With a true square root, the verdict passes exactly when both bit
      values occur and the run count is within three standard deviations of
      its expectation, stated without the square root. */
  lemma RunsVerdictExact(runs: nat, n1: nat, lib: FloatLib)
    requires n1 <= 32
    requires IsRootOf(lib.sqrt(RunsVariance(n1)), RunsVariance(n1))
    ensures RunsVerdict(runs, n1, lib).passed <==>
      0 < n1 < 32
      && (runs as real - ExpectedRuns(n1)) * (runs as real - ExpectedRuns(n1)) <= 9.0 * RunsVariance(n1)
  {
    var variance := RunsVariance(n1);
    RunsVariancePositive(n1);
    if 0 < n1 < 32 {
      var s := lib.sqrt(variance);
      assert s * s == variance;
      assert s > 0.0;
      WithinThree(runs as real - ExpectedRuns(n1), s);
    }
  }

  /** 0xAAAAAAAA changes bit at every position. */
  lemma AlternatingTransitions()
    ensures Transitions(0xAAAA_AAAA, 32) == 31
  {
    assert Transitions(0xAAAA_AAAA, 8) == 7;
    assert Transitions(0xAAAA_AAAA, 16) == 15;
    assert Transitions(0xAAAA_AAAA, 24) == 23;
  }

  /** The alternating word has 32 runs where 17 are expected: far outside
      three standard deviations, so the runs test rejects it. */
  lemma RunsTestRejectsAlternating(v: bv32, lib: FloatLib)
    requires v == 0xAAAA_AAAA
    requires IsRootOf(lib.sqrt(240.0 / 31.0), 240.0 / 31.0)
    ensures CountRuns(v) == 32
    ensures !RunsTest(v, lib).passed
  {
    AlternatingTransitions();
    PopCountAlternating();
    assert ExpectedRuns(16) == 17.0;
    assert RunsVariance(16) == 240.0 / 31.0;
    RunsVerdictExact(32, 16, lib);
    assert !RunsVerdict(32, 16, lib).passed by {
      assert (32.0 - 17.0) * (32.0 - 17.0) > 9.0 * (240.0 / 31.0);
    }
    assert RunsTest(v, lib) == RunsVerdict(CountRuns(v), PopCount(v), lib);
  }

  // ------------------------------------------------------------------ serial

  /** The 2-bit pattern `(value >> i) & 3`: bit `i+1` high, bit `i` low. */
  function Window(v: bv32, i: nat): (p: nat)
    requires i < 31
    ensures p < 4
  {
    (if Bit(v, i + 1) then 2 else 0) + (if Bit(v, i) then 1 else 0)
  }

  /** Reference count: windows `i < k` showing pattern `p`. */
  function PatternCount(v: bv32, p: nat, k: nat): nat
    requires k <= 31
  {
    if k == 0 then 0 else PatternCount(v, p, k - 1) + (if Window(v, k - 1) == p then 1 else 0)
  }

  /** The `patterns` array after the first `k` iterations. */
  function Tally(v: bv32, k: nat): (t: seq<nat>)
    requires k <= 31
    ensures |t| == 4
    ensures t[0] + t[1] + t[2] + t[3] == k
  {
    if k == 0 then [0, 0, 0, 0]
    else
      var t := Tally(v, k - 1);
      var p := Window(v, k - 1);
      t[p := t[p] + 1]
  }

  /** Each cell of the array counts the windows with its pattern. */
  lemma {:induction false} TallyCounts(v: bv32, k: nat, p: nat)
    requires k <= 31 && p < 4
    ensures Tally(v, k)[p] == PatternCount(v, p, k)
  {
    if k > 0 {
      TallyCounts(v, k - 1, p);
    }
  }

  const EXPECTED_PATTERN_COUNT: real := 31.0 / 4.0

  function ChiSquare(t: seq<nat>): (chi: real)
    requires |t| == 4
    ensures chi >= 0.0
  {
    var e := EXPECTED_PATTERN_COUNT;
    var d0, d1, d2, d3 := t[0] as real - e, t[1] as real - e, t[2] as real - e, t[3] as real - e;
    d0 * d0 / e + d1 * d1 / e + d2 * d2 / e + d3 * d3 / e
  }

  /** `runSerialTest`. */
  function SerialTest(v: bv32, lib: FloatLib): (t: StatisticalTest)
    ensures t.kind == Serial
    ensures t.score.Some?
    ensures t.passed <==> MIN_P_VALUE <= 1.0 - lib.exp(-ChiSquare(Tally(v, 31)) / 2.0) <= MAX_P_VALUE
  {
    var chi := ChiSquare(Tally(v, 31));
    var pValue := 1.0 - lib.exp(-chi / 2.0);
    StatisticalTest(Serial, Some(1.0 - Abs(pValue - 0.5) * 2.0), MIN_P_VALUE <= pValue <= MAX_P_VALUE)
  }

  /** When every window shows pattern `p`, its cell holds them all. */
  lemma {:induction false} UniformTally(v: bv32, k: nat, p: nat)
    requires k <= 31 && p < 4
    requires forall i :: 0 <= i < k ==> Window(v, i) == p
    ensures Tally(v, k)[p] == k
  {
    if k > 0 {
      UniformTally(v, k - 1, p);
    }
  }

  /** All 31 windows in one cell: chi-square is 3 * 7.75 + 23.25^2 / 7.75 = 93. */
  lemma ChiSquareOfUniformTally(t: seq<nat>, p: nat)
    requires |t| == 4 && p < 4
    requires t[0] + t[1] + t[2] + t[3] == 31 && t[p] == 31
    ensures ChiSquare(t) == 93.0
  {
    assert forall q :: 0 <= q < 4 && q != p ==> t[q] == 0;
    var e := EXPECTED_PATTERN_COUNT;
    assert (0.0 - e) * (0.0 - e) / e == 7.75;
    assert (31.0 - e) * (31.0 - e) / e == 69.75;
  }

  /** In an all-zero or all-one word every window shows the same pattern, so
      chi-square is 93 and the p-value is `1 - exp(-46.5)`, above 0.99. */
  lemma SerialTestRejectsConstantWords(v: bv32, lib: FloatLib)
    requires v == 0 || v == 0xFFFF_FFFF
    requires lib.exp(-46.5) < 0.01
    ensures ChiSquare(Tally(v, 31)) == 93.0
    ensures !SerialTest(v, lib).passed
  {
    var p := if v == 0 then 0 else 3;
    forall i | 0 <= i < 31
      ensures Window(v, i) == p
    {
      ZeroBitAt(i as bv5);
      ZeroBitAt((i + 1) as bv5);
      ComplementBit(0, i);
      ComplementBit(0, i + 1);
    }
    UniformTally(v, 31, p);
    ChiSquareOfUniformTally(Tally(v, 31), p);
  }

  // --------------------------------------------------------- autocorrelation

  /** Reference count: positions `i < k` whose bit equals the bit `shift` above. */
  function Matches(v: bv32, shift: nat, k: nat): (r: nat)
    requires shift + k <= 32
    ensures r <= k
  {
    if k == 0 then 0 else Matches(v, shift, k - 1) + (if Bit(v, k - 1) == Bit(v, k - 1 + shift) then 1 else 0)
  }

  /** `calculateAutocorrelation(value, shift)`; its callers pass 1..15. */
  function Autocorrelation(v: bv32, shift: nat): (r: real)
    requires 0 < shift < 32
    ensures 0.0 <= r <= 1.0
    ensures r == 0.0 <==> 2 * Matches(v, shift, 32 - shift) == 32 - shift
  {
    var total := 32 - shift;
    var matches := Matches(v, shift, total);
    RatioBounds(matches as real, total as real);
    Abs(matches as real / total as real - 0.5) * 2.0
  }

  /** Complementing both bits of a pair keeps their agreement. */
  lemma {:induction false} MatchesComplement(v: bv32, shift: nat, k: nat)
    requires shift + k <= 32
    ensures Matches(!v, shift, k) == Matches(v, shift, k)
  {
    if k > 0 {
      MatchesComplement(v, shift, k - 1);
      ComplementBit(v, k - 1);
      ComplementBit(v, k - 1 + shift);
    }
  }

  lemma AutocorrelationComplement(v: bv32, shift: nat)
    requires 0 < shift < 32
    ensures Autocorrelation(!v, shift) == Autocorrelation(v, shift)
  {
    MatchesComplement(v, shift, 32 - shift);
  }

  /** The loop of `runAutoCorrelationTest` from `shift` on, `acc` the
      maximum so far. */
  function MaxCorrelationFrom(v: bv32, shift: nat, acc: real): (r: real)
    requires 1 <= shift <= 16
    ensures r >= acc
    ensures forall s :: shift <= s < 16 ==> Autocorrelation(v, s) <= r
    ensures r == acc || exists s :: shift <= s < 16 && r == Autocorrelation(v, s)
    decreases 16 - shift
  {
    if shift < 16 then MaxCorrelationFrom(v, shift + 1, Max(acc, Abs(Autocorrelation(v, shift)))) else acc
  }

  /** `runAutoCorrelationTest`. */
  function AutoCorrelationTest(v: bv32): (t: StatisticalTest)
    ensures t.kind == AutoCorrelation
    ensures t.passed <==> forall s :: 1 <= s < 16 ==> Autocorrelation(v, s) <= MAX_SERIAL_CORRELATION
  {
    var m := MaxCorrelationFrom(v, 1, 0.0);
    StatisticalTest(AutoCorrelation, Some(1.0 - m), m <= MAX_SERIAL_CORRELATION)
  }

  /** Shifted by one, the alternating word disagrees with itself everywhere. */
  lemma AutoCorrelationRejectsAlternating()
    ensures Matches(0xAAAA_AAAA, 1, 31) == 0
    ensures Autocorrelation(0xAAAA_AAAA, 1) == 1.0
    ensures !AutoCorrelationTest(0xAAAA_AAAA).passed
  {
    assert Matches(0xAAAA_AAAA, 1, 8) == 0;
    assert Matches(0xAAAA_AAAA, 1, 16) == 0;
    assert Matches(0xAAAA_AAAA, 1, 24) == 0;
  }

  // ------------------------------------------------------- linear complexity

  /** `runLinearComplexityTest`. */
  function LinearComplexityTest(v: bv32): (t: StatisticalTest)
    ensures t.kind == LinearComplexity
    ensures t.passed <==> Complexity.LinearComplexity(v) >= 12
    ensures t.score.Some? && 0.0 <= t.score.value <= 1.0
  {
    var complexity := Complexity.LinearComplexity(v);
    var deviation := Abs(complexity as real - 16.0);
    StatisticalTest(LinearComplexity, Some(1.0 - deviation / 16.0), complexity >= 12)
  }

  /** The zero word has complexity 0 and fails. */
  lemma LinearComplexityRejectsZero()
    ensures !LinearComplexityTest(0).passed
  {
    Complexity.ComplexityZeroIffZero(0);
  }

  // --------------------------------------------------------------- the suite

  /** The entry of the test-function table for each kind. */
  function TestOfKind(v: bv32, lib: FloatLib, k: TestKind): (t: StatisticalTest)
    ensures t.kind == k
  {
    match k
    case BitFrequency => BitFrequencyTest(v)
    case Runs => RunsTest(v, lib)
    case Serial => SerialTest(v, lib)
    case AutoCorrelation => AutoCorrelationTest(v)
    case LinearComplexity => LinearComplexityTest(v)
  }

  /** Five results of five different kinds: each of them occurs once. */
  lemma OnePerKind(a: StatisticalTest, b: StatisticalTest, c: StatisticalTest, d: StatisticalTest,
                   e: StatisticalTest, t: StatisticalTest)
    requires a.kind == BitFrequency && b.kind == Runs && c.kind == Serial
    requires d.kind == AutoCorrelation && e.kind == LinearComplexity
    requires t == a || t == b || t == c || t == d || t == e
    ensures multiset{a, b, c, d, e}[t] == 1
  {
  }

  /** `runAllStatisticalTests` runs the five tests concurrently and appends
      each result as it finishes, so the slice holds the five results in
      some order: the model returns them as a multiset, one result per kind. */
  function AllStatisticalTests(v: bv32, lib: FloatLib): (ts: multiset<StatisticalTest>)
    ensures |ts| == 5
    ensures forall k :: ts[TestOfKind(v, lib, k)] == 1
  {
    var a, b, c := TestOfKind(v, lib, BitFrequency), TestOfKind(v, lib, Runs), TestOfKind(v, lib, Serial);
    var d, e := TestOfKind(v, lib, AutoCorrelation), TestOfKind(v, lib, LinearComplexity);
    var ts := multiset{a, b, c, d, e};
    forall k
      ensures ts[TestOfKind(v, lib, k)] == 1
    {
      OnePerKind(a, b, c, d, e, TestOfKind(v, lib, k));
    }
    ts
  }
}
