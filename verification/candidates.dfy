/** A candidate constant and the gates of `generator.go` it must pass: the
    weak-key tests, `validateCandidate`, the composite score and the
    "sufficiently different" relation between two candidates. */
module Candidates {
  import opened Words
  import opened Statistics
  import Configuration

  /** The two weak-key checks of `runWeakKeyTests`, by `Pattern` name. */
  datatype WeakPattern = LowHammingWeight | SimpleBitPattern

  /** `WeakKeyTest` without its `Details` text. */
  datatype WeakKeyTest = WeakKeyTest(pattern: WeakPattern, passed: bool)

  /** `ConstantCandidate`: the fields the vetting logic reads. The timing
      fields, and the primality and avalanche entries of `TestResults`, are
      never read by it. The statistical results arrive in no fixed order. */
  datatype Candidate = Candidate(
    value: bv32,
    bitDistribution: real,
    avalancheScore: real,
    hammingWeight: int,
    entropyScore: real,
    weakKeyTests: seq<WeakKeyTest>,
    statisticalTests: multiset<StatisticalTest>)

  /** The entropy `validateCandidate` demands. */
  const MIN_CANDIDATE_ENTROPY: real := 1.5

  // ------------------------------------------------------------ weak keys

  /** The repeating patterns of `hasSimpleBitPattern`, in the order listed. */
  const SIMPLE_PATTERNS: seq<bv32> :=
    [0xAAAA_AAAA, 0x5555_5555, 0x3333_3333, 0xCCCC_CCCC, 0x0F0F_0F0F, 0xF0F0_F0F0]

  /** The words the check refuses: each pattern and its complement, which
      the list already contains. */
  const SIMPLE_WORDS: set<bv32> :=
    {0xAAAA_AAAA, 0x5555_5555, 0x3333_3333, 0xCCCC_CCCC, 0x0F0F_0F0F, 0xF0F0_F0F0}

  /** The loop of `hasSimpleBitPattern` from pattern index `i` on. */
  function MatchesPatternFrom(v: bv32, i: nat): bool
    requires i <= |SIMPLE_PATTERNS|
    decreases |SIMPLE_PATTERNS| - i
  {
    if i == |SIMPLE_PATTERNS| then false
    else
      var pattern := SIMPLE_PATTERNS[i];
      if v == pattern || v == !pattern then true else MatchesPatternFrom(v, i + 1)
  }

  /** `hasSimpleBitPattern`. */
  function HasSimpleBitPattern(v: bv32): (r: bool)
    ensures r <==> v in SIMPLE_WORDS
  {
    MatchesPatternFrom(v, 0)
  }

  /** The refused set is closed under complement. */
  lemma SimpleBitPatternComplement(v: bv32)
    ensures HasSimpleBitPattern(!v) == HasSimpleBitPattern(v)
  {
  }

  /** Every refused word has exactly sixteen ones, so the popcount checks
      alone would let it through. */
  lemma SimpleWordsAreBalanced(v: bv32)
    requires v in SIMPLE_WORDS
    ensures PopCount(v) == 16
  {
    PopCountAlternating();
    PopCountComplement(0xAAAA_AAAA);
    PopCountPairs();
    PopCountComplement(0x3333_3333);
    PopCountQuads();
    PopCountComplement(0x0F0F_0F0F);
  }

  lemma PopCountPairs()
    ensures PopCount(0x3333_3333) == 16
  {
    assert OnesBelow(0x3333_3333, 8) == 4;
    assert OnesBelow(0x3333_3333, 16) == 8;
    assert OnesBelow(0x3333_3333, 24) == 12;
  }

  lemma PopCountQuads()
    ensures PopCount(0x0F0F_0F0F) == 16
  {
    assert OnesBelow(0x0F0F_0F0F, 4) == 4;
    assert OnesBelow(0x0F0F_0F0F, 8) == 4;
    assert OnesBelow(0x0F0F_0F0F, 12) == 8;
    assert OnesBelow(0x0F0F_0F0F, 16) == 8;
    assert OnesBelow(0x0F0F_0F0F, 20) == 12;
    assert OnesBelow(0x0F0F_0F0F, 24) == 12;
    assert OnesBelow(0x0F0F_0F0F, 28) == 16;
  }

  /** `runWeakKeyTests`: a popcount of at least 12, and not a simple pattern. */
  function WeakKeyTests(v: bv32): (ts: seq<WeakKeyTest>)
    ensures |ts| == 2
    ensures (forall i :: 0 <= i < |ts| ==> ts[i].passed) <==> PopCount(v) >= 12 && v !in SIMPLE_WORDS
  {
    var ts := [WeakKeyTest(LowHammingWeight, PopCount(v) >= 12), WeakKeyTest(SimpleBitPattern, !HasSimpleBitPattern(v))];
    assert (forall i :: 0 <= i < |ts| ==> ts[i].passed) <==> ts[0].passed && ts[1].passed;
    ts
  }

  // ------------------------------------------------------------ validation

  /** The loop over `WeakKeyTests` from index `i` on. */
  function AllWeakKeyTestsPass(ts: seq<WeakKeyTest>, i: nat): (r: bool)
    requires i <= |ts|
    ensures r <==> forall j :: i <= j < |ts| ==> ts[j].passed
    decreases |ts| - i
  {
    if i == |ts| then true else ts[i].passed && AllWeakKeyTestsPass(ts, i + 1)
  }

  /** `validateCandidate`. */
  function ValidateCandidate(cfg: Configuration.Config, c: Candidate): (r: bool)
    ensures r <==>
      cfg.minBitDistribution <= c.bitDistribution <= cfg.maxBitDistribution
      && c.avalancheScore >= cfg.minAvalancheScore
      && 12 <= c.hammingWeight <= 20
      && c.entropyScore >= MIN_CANDIDATE_ENTROPY
      && forall t :: t in c.weakKeyTests ==> t.passed
  {
    if c.bitDistribution < cfg.minBitDistribution || c.bitDistribution > cfg.maxBitDistribution then false
    else if c.avalancheScore < cfg.minAvalancheScore then false
    else if c.hammingWeight < 12 || c.hammingWeight > 20 then false
    else if c.entropyScore < MIN_CANDIDATE_ENTROPY then false
    else AllWeakKeyTestsPass(c.weakKeyTests, 0)
  }

  /** `calculateBitDistribution`: the share of one bits. */
  function BitDistribution(v: bv32): (r: real)
    ensures 0.0 <= r <= 1.0
    ensures r == 0.5 <==> PopCount(v) == 16
  {
    PopCount(v) as real / 32.0
  }

  /** The candidate `generateCandidate` assembles around a prime `v`, given
      the avalanche score its random trials produced. */
  function BuildCandidate(cfg: Configuration.Config, v: bv32, avalanche: real, lib: FloatLib): (c: Candidate)
    ensures c.value == v && c.hammingWeight == PopCount(v)
    ensures c.bitDistribution * 32.0 == c.hammingWeight as real
    ensures c.avalancheScore == avalanche
    ensures c.weakKeyTests == WeakKeyTests(v)
    ensures c.entropyScore == Entropy(v, lib.log2)
    ensures cfg.statisticalAnalysis ==> c.statisticalTests == AllStatisticalTests(v, lib)
    ensures !cfg.statisticalAnalysis ==> c.statisticalTests == multiset{}
  {
    Candidate(v, BitDistribution(v), avalanche, PopCount(v), Entropy(v, lib.log2), WeakKeyTests(v),
      if cfg.statisticalAnalysis then AllStatisticalTests(v, lib) else multiset{})
  }

  /** What acceptance of a built candidate comes down to, stated on the
      word itself. */
  lemma BuiltCandidateGate(cfg: Configuration.Config, v: bv32, avalanche: real, lib: FloatLib)
    ensures ValidateCandidate(cfg, BuildCandidate(cfg, v, avalanche, lib)) <==>
      cfg.minBitDistribution <= PopCount(v) as real / 32.0 <= cfg.maxBitDistribution
      && avalanche >= cfg.minAvalancheScore
      && 12 <= PopCount(v) <= 20
      && Entropy(v, lib.log2) >= MIN_CANDIDATE_ENTROPY
      && v !in SIMPLE_WORDS
  {
    var ts := WeakKeyTests(v);
    assert (forall t :: t in ts ==> t.passed) <==> (forall i :: 0 <= i < |ts| ==> ts[i].passed);
  }

  /** The entropy gate cannot be met: a two-symbol entropy is at most one
      bit, so no candidate built from any word is ever accepted. */
  lemma NoBuiltCandidateAccepted(cfg: Configuration.Config, v: bv32, avalanche: real, lib: FloatLib, slope: real)
    requires lib.log2(1.0) == 0.0
    requires AboveTangent(lib.log2, slope)
    ensures !ValidateCandidate(cfg, BuildCandidate(cfg, v, avalanche, lib))
  {
    EntropyAtMostOne(v, lib.log2, slope);
  }

  // ------------------------------------------------------------- scoring

  /** `calculateScore`: bit balance, avalanche (weight 2) and half the
      entropy (weight 1.5), averaged over the weights. */
  function Score(c: Candidate): (r: real)
    ensures 0.0 <= c.bitDistribution <= 1.0 && 0.0 <= c.avalancheScore <= 1.0 && 0.0 <= c.entropyScore <= 1.0
      ==> 1.0 / 9.0 <= r <= 5.0 / 6.0
  {
    var bitDistScore := 1.0 - Abs(0.5 - c.bitDistribution);
    var avalancheWeight := 2.0;
    var entropyWeight := 1.5;
    (bitDistScore + avalancheWeight * c.avalancheScore + entropyWeight * (c.entropyScore / 2.0))
      / (1.0 + avalancheWeight + entropyWeight)
  }

  /** More avalanche or more entropy never lowers the score, and a bit
      distribution nearer one half never lowers it either. */
  lemma ScoreMonotone(c: Candidate, d: Candidate)
    requires c.avalancheScore <= d.avalancheScore
    requires c.entropyScore <= d.entropyScore
    requires Abs(0.5 - d.bitDistribution) <= Abs(0.5 - c.bitDistribution)
    ensures Score(c) <= Score(d)
    ensures c.avalancheScore < d.avalancheScore ==> Score(c) < Score(d)
  {
  }

  // ------------------------------------------------------ mutual difference

  /** The shift loop of `areSufficientlyDifferent` from `i` on: true when no
      shift by `i .. 31` relates the two words. */
  function NoShiftFrom(a: bv32, b: bv32, i: nat): (r: bool)
    requires 1 <= i <= 32
    ensures r <==> forall j :: i <= j < 32 ==> a != ShlBy(b, j) && a != ShrBy(b, j)
    decreases 32 - i
  {
    if i == 32 then true
    else if a == ShlBy(b, i) || a == ShrBy(b, i) then false
    else NoShiftFrom(a, b, i + 1)
  }

  /** `areSufficientlyDifferent`. */
  function AreSufficientlyDifferent(a: Candidate, b: Candidate): (r: bool)
    ensures r <==> (PopCount(a.value ^ b.value) >= 12
      && forall i :: 1 <= i < 32 ==> a.value != ShlBy(b.value, i) && a.value != ShrBy(b.value, i))
  {
    var diff := a.value ^ b.value;
    var hammingDistance := PopCount(diff);
    if hammingDistance < 12 then false
    else NoShiftFrom(a.value, b.value, 1)
  }

  /** No candidate is sufficiently different from one with the same value. */
  lemma NotDifferentFromItself(a: Candidate, b: Candidate)
    requires a.value == b.value
    ensures !AreSufficientlyDifferent(a, b)
  {
    PopCountExtremes(a.value ^ b.value);
  }

  /** Only shifts are compared, not rotations: 0x6FC2A2C7 is 0xB7E15163
      rotated left by one, yet counts as sufficiently different from it. */
  lemma RotationNotDetected(a: Candidate, b: Candidate)
    requires a.value == 0x6FC2_A2C7 && b.value == 0xB7E1_5163
    ensures a.value == RotateLeft(b.value, 1)
    ensures AreSufficientlyDifferent(a, b)
  {
    assert PopCount(0xD823_F3A4) == 16 by {
      assert OnesBelow(0xD823_F3A4, 8) == 3;
      assert OnesBelow(0xD823_F3A4, 16) == 9;
      assert OnesBelow(0xD823_F3A4, 24) == 12;
    }
    forall i | 1 <= i < 32
      ensures a.value != ShlBy(b.value, i) && a.value != ShrBy(b.value, i)
    {
      RotationNotAShift(i as bv5);
    }
  }

  /** No shift of 0xB7E15163, by any amount, gives 0x6FC2A2C7. */
  lemma RotationNotAShift(s: bv5)
    ensures 0x6FC2_A2C7 != Shl(0xB7E1_5163, s) && 0x6FC2_A2C7 != Shr(0xB7E1_5163, s)
  {
  }
}
