/** Choosing the pair (P, Q) from the pool of accepted candidates and
    checking it again (`generator.go`: `selectBestConstants`,
    `verifyTestResults`, `validateSelectedConstants`, `runFinalValidation`,
    `processResults`, and the pool-size check of `Generate`).

    Two things the Go code leaves to the runtime are parameters here: the
    order `sort.Slice` leaves equal scores in (`ranked`, any descending
    arrangement of the pool), and the order in which the concurrently run
    statistical tests append their results (`order`, any arrangement of the
    five results for a value). */
module Selection {
  import opened Words
  import opened Wrappers
  import opened Statistics
  import opened Candidates
  import Configuration
  import Primality
  import Arith

  // ---------------------------------------------------------------- ranking

  /** Scores never increase along the sequence. */
  predicate Ranked(s: seq<Candidate>)
  {
    forall i, j :: 0 <= i < j < |s| ==> Score(s[i]) >= Score(s[j])
  }

  /** `ranked` is a possible result of sorting `pool` by descending score. */
  predicate IsRankingOf(ranked: seq<Candidate>, pool: seq<Candidate>)
  {
    multiset(ranked) == multiset(pool) && Ranked(ranked)
  }

  /** A candidate scoring below the head of a ranking, inserted into its
      tail, still scores at most the head everywhere. */
  lemma InsertedBelowHead(c: Candidate, s: seq<Candidate>, rest: seq<Candidate>)
    requires |s| > 0 && Ranked(s) && Score(c) < Score(s[0])
    requires forall i :: 0 <= i < |rest| ==> rest[i] == c || rest[i] in s[1..]
    ensures forall i :: 0 <= i < |rest| ==> Score(s[0]) >= Score(rest[i])
  {
    forall i | 0 <= i < |rest|
      ensures Score(s[0]) >= Score(rest[i])
    {
      if rest[i] != c {
        var j :| 0 <= j < |s[1..]| && s[1..][j] == rest[i];
        assert s[j + 1] == rest[i];
      }
    }
  }

  /** Inserts `c` before the first candidate it scores at least as high as. */
  function Insert(c: Candidate, s: seq<Candidate>): (r: seq<Candidate>)
    requires Ranked(s)
    ensures Ranked(r)
    ensures multiset(r) == multiset(s) + multiset{c}
    ensures |r| == |s| + 1
    ensures forall i :: 0 <= i < |r| ==> r[i] == c || r[i] in s
  {
    if |s| == 0 || Score(c) >= Score(s[0]) then [c] + s
    else
      var rest := Insert(c, s[1..]);
      InsertedBelowHead(c, s, rest);
      assert s == [s[0]] + s[1..];
      [s[0]] + rest
  }

  /** One admissible outcome of the sort: insertion sort, which is stable. */
  function Rank(pool: seq<Candidate>): (r: seq<Candidate>)
    ensures IsRankingOf(r, pool)
  {
    if |pool| == 0 then []
    else
      assert pool == [pool[0]] + pool[1..];
      Insert(pool[0], Rank(pool[1..]))
  }

  /** Every element of a ranking scores at most its head. */
  lemma HeadScoresHighest(ranked: seq<Candidate>, pool: seq<Candidate>, c: Candidate)
    requires IsRankingOf(ranked, pool) && |ranked| > 0
    requires c in pool
    ensures Score(c) <= Score(ranked[0])
  {
    assert c in multiset(pool);
    assert c in multiset(ranked);
    var j :| 0 <= j < |ranked| && ranked[j] == c;
  }

  // -------------------------------------------------------------- selection

  /** The scan over `scored[1:]` from index `i`: the first position whose
      candidate is sufficiently different from `p`, if any. */
  function FirstDifferent(p: Candidate, ranked: seq<Candidate>, i: nat): (r: Option<nat>)
    requires 1 <= i <= |ranked|
    ensures r.Some? ==> i <= r.value < |ranked| && AreSufficientlyDifferent(p, ranked[r.value])
    ensures r.Some? ==> forall k :: i <= k < r.value ==> !AreSufficientlyDifferent(p, ranked[k])
    ensures r.None? <==> forall k :: i <= k < |ranked| ==> !AreSufficientlyDifferent(p, ranked[k])
    decreases |ranked| - i
  {
    if i == |ranked| then None
    else if AreSufficientlyDifferent(p, ranked[i]) then Some(i)
    else FirstDifferent(p, ranked, i + 1)
  }

  /** Some candidate after the head of the ranking is sufficiently different
      from it. */
  predicate HasDifferentPartner(ranked: seq<Candidate>)
    requires |ranked| >= 1
  {
    exists j :: 1 <= j < |ranked| && AreSufficientlyDifferent(ranked[0], ranked[j])
  }

  /** `selectBestConstants` over the order the sort left. Fewer than two
      candidates make the Go function panic. */
  function SelectBestConstants(pool: seq<Candidate>, ranked: seq<Candidate>): (pq: (Candidate, Candidate))
    requires |pool| >= 2
    requires IsRankingOf(ranked, pool)
    ensures pq.0 == ranked[0]
    ensures pq.0 in pool && pq.1 in pool
    ensures forall c :: c in pool ==> Score(c) <= Score(pq.0)
    ensures HasDifferentPartner(ranked) ==>
      AreSufficientlyDifferent(pq.0, pq.1)
      && exists j :: 1 <= j < |ranked| && pq.1 == ranked[j]
           && forall k :: 1 <= k < j ==> !AreSufficientlyDifferent(pq.0, ranked[k])
    ensures !HasDifferentPartner(ranked) ==> pq.1 == ranked[1] && !AreSufficientlyDifferent(pq.0, pq.1)
  {
    assert |ranked| == |pool| by {
      assert |multiset(ranked)| == |multiset(pool)|;
    }
    assert forall c :: c in ranked ==> c in pool by {
      forall c | c in ranked
        ensures c in pool
      {
        assert c in multiset(ranked);
      }
    }
    forall c | c in pool
      ensures Score(c) <= Score(ranked[0])
    {
      HeadScoresHighest(ranked, pool, c);
    }
    var bestP := ranked[0];
    match FirstDifferent(bestP, ranked, 1)
    case Some(j) => (bestP, ranked[j])
    case None => (bestP, ranked[1])
  }

  // --------------------------------------------------- statistical re-check

  /** Reference count of failed results. */
  function FailureCount(tests: seq<StatisticalTest>): (n: nat)
    ensures n <= |tests|
  {
    if |tests| == 0 then 0
    else FailureCount(tests[..|tests| - 1]) + (if tests[|tests| - 1].passed then 0 else 1)
  }

  /** The counting loop of `verifyTestResults` from index `i`. */
  function CountFailedFrom(tests: seq<StatisticalTest>, i: nat, failed: nat): (n: nat)
    requires i <= |tests|
    ensures n == failed + FailureCount(tests) - FailureCount(tests[..i])
    decreases |tests| - i
  {
    if i == |tests| then
      assert tests[..i] == tests;
      failed
    else
      assert tests[..i + 1][..i] == tests[..i];
      CountFailedFrom(tests, i + 1, if tests[i].passed then failed else failed + 1)
  }

  /** `verifyTestResults`: at most a fifth of the tests may fail. */
  function VerifyTestResults(tests: seq<StatisticalTest>): (ok: bool)
    ensures ok <==> 5 * FailureCount(tests) <= |tests|
  {
    assert tests[..0] == [];
    var failedTests := CountFailedFrom(tests, 0, 0);
    failedTests <= |tests| / 5
  }

  lemma {:induction false} FailureCountAppend(a: seq<StatisticalTest>, b: seq<StatisticalTest>)
    ensures FailureCount(a + b) == FailureCount(a) + FailureCount(b)
    decreases |b|
  {
    if |b| == 0 {
      assert a + b == a;
    } else {
      FailureCountAppend(a, b[..|b| - 1]);
      assert (a + b)[..|a + b| - 1] == a + b[..|b| - 1];
    }
  }

  /** The number of failures does not depend on the order of the results. */
  lemma {:induction false} FailureCountPermutation(a: seq<StatisticalTest>, b: seq<StatisticalTest>)
    requires multiset(a) == multiset(b)
    ensures FailureCount(a) == FailureCount(b)
    decreases |a|
  {
    if |a| == 0 {
      assert |b| == |multiset(b)| == 0;
    } else {
      var x := a[|a| - 1];
      var a' := a[..|a| - 1];
      assert a == a' + [x];
      assert x in multiset(b);
      var i :| 0 <= i < |b| && b[i] == x;
      var b' := b[..i] + b[i + 1..];
      assert b == b[..i] + [x] + b[i + 1..];
      assert multiset(b') == multiset(a') by {
        assert multiset(b') == multiset(b[..i]) + multiset(b[i + 1..]);
        assert multiset(b[..i] + [x]) == multiset(b[..i]) + multiset{x};
        assert multiset(b) == multiset(b[..i] + [x]) + multiset(b[i + 1..]);
        assert multiset(a) == multiset(a') + multiset{x};
        assert multiset(a') == multiset(a) - multiset{x};
        assert multiset(b') == multiset(b) - multiset{x};
      }
      FailureCountPermutation(a', b');
      FailureCountAppend(b[..i] + [x], b[i + 1..]);
      FailureCountAppend(b[..i], [x]);
      FailureCountAppend(b[..i], b[i + 1..]);
      assert [x][..0] == [];
    }
  }

  /** The verdict does not depend on the order the results arrived in. */
  lemma VerifyTestResultsOrderFree(a: seq<StatisticalTest>, b: seq<StatisticalTest>)
    requires multiset(a) == multiset(b)
    ensures VerifyTestResults(a) == VerifyTestResults(b)
  {
    FailureCountPermutation(a, b);
    assert |a| == |multiset(a)| == |multiset(b)| == |b|;
  }

  /** The five results in the order of the test-function table. */
  function TableOrder(v: bv32, lib: FloatLib): (ts: seq<StatisticalTest>)
    ensures multiset(ts) == AllStatisticalTests(v, lib)
  {
    [TestOfKind(v, lib, BitFrequency), TestOfKind(v, lib, Runs), TestOfKind(v, lib, Serial),
     TestOfKind(v, lib, AutoCorrelation), TestOfKind(v, lib, LinearComplexity)]
  }

  /** The five results of a value, in whatever order they arrived, pass the
      re-check exactly when at most one of the five tests failed. */
  lemma FinalTestsTolerateOneFailure(v: bv32, lib: FloatLib, arrived: seq<StatisticalTest>)
    requires multiset(arrived) == AllStatisticalTests(v, lib)
    ensures VerifyTestResults(arrived) <==> FailureCount(TableOrder(v, lib)) <= 1
  {
    VerifyTestResultsOrderFree(arrived, TableOrder(v, lib));
  }

  // ------------------------------------------------------ final validation

  /** Why generation stopped. The Go code wraps these in context messages. */
  datatype GenerationError =
    | InvalidConfiguration(cause: Configuration.ConfigError)
    | InsufficientCandidates(got: nat)
    | ZeroValueSelected
    | AvalancheBelowMinimum
    | BitDistributionOutOfRange
    | NotPrime
    | FinalTestsFailed
    | NotSufficientlyDifferent

  /** `GenerationResult` without its timing fields. */
  datatype GenerationResult = GenerationResult(
    selectedP: Candidate,
    selectedQ: Candidate,
    totalCandidates: nat,
    config: Configuration.Config)

  /** `isValidBitDistribution`: for a candidate whose share is its Hamming
      weight over 32, the weight lies between 32 times the two bounds. */
  function IsValidBitDistribution(cfg: Configuration.Config, c: Candidate): (ok: bool)
    ensures c.bitDistribution * 32.0 == c.hammingWeight as real ==>
              (ok <==> cfg.minBitDistribution * 32.0 <= c.hammingWeight as real <= cfg.maxBitDistribution * 32.0)
  {
    Arith.ScaleLe(cfg.minBitDistribution, c.bitDistribution, 32.0);
    Arith.ScaleLe(c.bitDistribution, cfg.maxBitDistribution, 32.0);
    c.bitDistribution >= cfg.minBitDistribution && c.bitDistribution <= cfg.maxBitDistribution
  }

  /** Under the default bounds 0.45 and 0.55 a built candidate's distribution
      is accepted exactly when it has 15, 16 or 17 one bits. */
  lemma DefaultDistributionWeights(c: Candidate)
    requires c.bitDistribution * 32.0 == c.hammingWeight as real
    ensures IsValidBitDistribution(Configuration.DefaultConfig(), c) <==> 15 <= c.hammingWeight <= 17
  {
    var cfg := Configuration.DefaultConfig();
    assert cfg.minBitDistribution * 32.0 == 14.4 && cfg.maxBitDistribution * 32.0 == 17.6;
  }

  function IsPrimeWord(v: bv32): bool
  {
    Primality.IsPrime(v as int)
  }

  /** `validateSelectedConstants`: nil when both constants pass, otherwise
      the error of the first check that fails. */
  function ValidateSelectedConstants(cfg: Configuration.Config, p: Candidate, q: Candidate): (r: Outcome<GenerationError>)
    ensures r.Pass? <==>
      p.value != 0 && q.value != 0
      && p.avalancheScore >= cfg.minAvalancheScore && q.avalancheScore >= cfg.minAvalancheScore
      && cfg.minBitDistribution <= p.bitDistribution <= cfg.maxBitDistribution
      && cfg.minBitDistribution <= q.bitDistribution <= cfg.maxBitDistribution
      && IsPrimeWord(p.value) && IsPrimeWord(q.value)
    ensures r == Fail(ZeroValueSelected) <==> p.value == 0 || q.value == 0
    ensures r == Fail(NotPrime) ==> p.value != 0 && q.value != 0 && IsValidBitDistribution(cfg, p) && IsValidBitDistribution(cfg, q)
    ensures r.Fail? ==> r.error in {ZeroValueSelected, AvalancheBelowMinimum, BitDistributionOutOfRange, NotPrime}
  {
    if p.value == 0 || q.value == 0 then Fail(ZeroValueSelected)
    else if p.avalancheScore < cfg.minAvalancheScore || q.avalancheScore < cfg.minAvalancheScore then Fail(AvalancheBelowMinimum)
    else if !IsValidBitDistribution(cfg, p) || !IsValidBitDistribution(cfg, q) then Fail(BitDistributionOutOfRange)
    else if !IsPrimeWord(p.value) || !IsPrimeWord(q.value) then Fail(NotPrime)
    else Pass
  }

  /** An arrangement of each value's five results: one arrival order per value. */
  ghost predicate IsSchedule(order: bv32 -> seq<StatisticalTest>, lib: FloatLib)
  {
    forall v :: multiset(order(v)) == AllStatisticalTests(v, lib)
  }

  /** Only the values decide whether two candidates are sufficiently different. */
  lemma SameValuesSameVerdict(a: Candidate, b: Candidate, a': Candidate, b': Candidate)
    requires a.value == a'.value && b.value == b'.value
    ensures AreSufficientlyDifferent(a, b) == AreSufficientlyDifferent(a', b')
  {
  }

  /** `runFinalValidation`: run the five tests again on both values, store
      the fresh results, and require at most a fifth of each to fail and the
      two to be sufficiently different. */
  function RunFinalValidation(result: GenerationResult, lib: FloatLib, order: bv32 -> seq<StatisticalTest>)
    : (r: Result<GenerationResult, GenerationError>)
    requires IsSchedule(order, lib)
    ensures r.Success? <==>
      FailureCount(TableOrder(result.selectedP.value, lib)) <= 1
      && FailureCount(TableOrder(result.selectedQ.value, lib)) <= 1
      && AreSufficientlyDifferent(result.selectedP, result.selectedQ)
    ensures r.Success? ==>
      r.value.selectedP == result.selectedP.(statisticalTests := AllStatisticalTests(result.selectedP.value, lib))
      && r.value.selectedQ == result.selectedQ.(statisticalTests := AllStatisticalTests(result.selectedQ.value, lib))
    ensures r.Failure? ==> r.error == FinalTestsFailed || r.error == NotSufficientlyDifferent
  {
    var pTests := order(result.selectedP.value);
    var qTests := order(result.selectedQ.value);
    FinalTestsTolerateOneFailure(result.selectedP.value, lib, pTests);
    FinalTestsTolerateOneFailure(result.selectedQ.value, lib, qTests);
    var p := result.selectedP.(statisticalTests := multiset(pTests));
    var q := result.selectedQ.(statisticalTests := multiset(qTests));
    SameValuesSameVerdict(p, q, result.selectedP, result.selectedQ);
    var updated := result.(selectedP := p, selectedQ := q);
    if !VerifyTestResults(pTests) || !VerifyTestResults(qTests) then Failure(FinalTestsFailed)
    else if !AreSufficientlyDifferent(updated.selectedP, updated.selectedQ) then Failure(NotSufficientlyDifferent)
    else Success(updated)
  }

  /** `processResults`. */
  function ProcessResults(cfg: Configuration.Config, pool: seq<Candidate>, ranked: seq<Candidate>,
                          lib: FloatLib, order: bv32 -> seq<StatisticalTest>)
    : (r: Result<GenerationResult, GenerationError>)
    requires |pool| >= 2
    requires IsRankingOf(ranked, pool)
    requires IsSchedule(order, lib)
    ensures var (p, q) := SelectBestConstants(pool, ranked);
      r.Success? <==>
        ValidateSelectedConstants(cfg, p, q) == Pass
        && FailureCount(TableOrder(p.value, lib)) <= 1 && FailureCount(TableOrder(q.value, lib)) <= 1
        && AreSufficientlyDifferent(p, q)
    ensures var (p, q) := SelectBestConstants(pool, ranked);
      r.Success? ==> r.value == GenerationResult(
        p.(statisticalTests := AllStatisticalTests(p.value, lib)),
        q.(statisticalTests := AllStatisticalTests(q.value, lib)), |pool|, cfg)
  {
    var (bestP, bestQ) := SelectBestConstants(pool, ranked);
    match ValidateSelectedConstants(cfg, bestP, bestQ)
    case Fail(e) => Failure(e)
    case Pass =>
      var result := GenerationResult(bestP, bestQ, |pool|, cfg);
      RunFinalValidation(result, lib, order)
  }

  /** When nothing after the head of the ranking is sufficiently different
      from it, the fallback pair is refused: processing always fails. */
  lemma FallbackPairRejected(cfg: Configuration.Config, pool: seq<Candidate>, ranked: seq<Candidate>,
                             lib: FloatLib, order: bv32 -> seq<StatisticalTest>)
    requires |pool| >= 2
    requires IsRankingOf(ranked, pool)
    requires IsSchedule(order, lib)
    requires |ranked| >= 1 && !HasDifferentPartner(ranked)
    ensures ProcessResults(cfg, pool, ranked, lib, order).Failure?
  {
  }

  /** The part of `Generate` after the workers are done: fewer than two
      accepted candidates is an error, otherwise the pool is processed. */
  function FinishGeneration(cfg: Configuration.Config, pool: seq<Candidate>, ranked: seq<Candidate>,
                            lib: FloatLib, order: bv32 -> seq<StatisticalTest>)
    : (r: Result<GenerationResult, GenerationError>)
    requires IsRankingOf(ranked, pool)
    requires IsSchedule(order, lib)
    ensures |pool| < 2 ==> r == Failure(InsufficientCandidates(|pool|))
    ensures r.Success? ==> |pool| >= 2 && r.value.totalCandidates == |pool|
  {
    if |pool| < 2 then Failure(InsufficientCandidates(|pool|))
    else ProcessResults(cfg, pool, ranked, lib, order)
  }

  /** The workers pass on only the candidates `validateCandidate` accepts. */
  function Accepted(cfg: Configuration.Config, built: seq<Candidate>): (pool: seq<Candidate>)
    ensures forall c :: c in pool ==> c in built && ValidateCandidate(cfg, c)
    ensures forall c :: c in built && ValidateCandidate(cfg, c) ==> c in pool
    ensures |pool| <= |built|
    ensures (forall i :: 0 <= i < |built| ==> !ValidateCandidate(cfg, built[i])) ==> pool == []
  {
    if |built| == 0 then []
    else
      var rest := Accepted(cfg, built[1..]);
      assert forall c :: c in built ==> c == built[0] || c in built[1..];
      if ValidateCandidate(cfg, built[0]) then [built[0]] + rest else rest
  }

  /** Prepending `x` adds one occurrence of `x` and no other. */
  lemma ConsCount<T>(x: T, s: seq<T>, c: T)
    ensures multiset([x] + s)[c] == (if x == c then 1 else 0) + multiset(s)[c]
  {
    assert multiset([x] + s) == multiset{x} + multiset(s);
  }

  /** The pool keeps each accepted candidate as often as it was built, and
      no other. */
  lemma {:induction false} AcceptedCounts(cfg: Configuration.Config, built: seq<Candidate>, c: Candidate)
    ensures multiset(Accepted(cfg, built))[c] == if ValidateCandidate(cfg, c) then multiset(built)[c] else 0
  {
    if |built| > 0 {
      AcceptedCounts(cfg, built[1..], c);
      var rest := Accepted(cfg, built[1..]);
      ConsCount(built[0], built[1..], c);
      ConsCount(built[0], rest, c);
      assert built == [built[0]] + built[1..];
    }
  }

  /** With the entropy bounded by one bit, every built candidate is refused,
      the pool stays empty, and generation always ends with
      `InsufficientCandidates(0)`. */
  lemma GenerationAlwaysFails(cfg: Configuration.Config, words: seq<bv32>, avalanche: seq<real>,
                              lib: FloatLib, slope: real, order: bv32 -> seq<StatisticalTest>)
    requires |avalanche| == |words|
    requires lib.log2(1.0) == 0.0
    requires AboveTangent(lib.log2, slope)
    requires IsSchedule(order, lib)
    ensures var built := seq(|words|, i requires 0 <= i < |words| => BuildCandidate(cfg, words[i], avalanche[i], lib));
      Accepted(cfg, built) == []
      && FinishGeneration(cfg, Accepted(cfg, built), [], lib, order) == Failure(InsufficientCandidates(0))
  {
    var built := seq(|words|, i requires 0 <= i < |words| => BuildCandidate(cfg, words[i], avalanche[i], lib));
    forall i | 0 <= i < |words|
      ensures !ValidateCandidate(cfg, built[i])
    {
      NoBuiltCandidateAccepted(cfg, words[i], avalanche[i], lib, slope);
    }
  }
}
