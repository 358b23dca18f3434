# Vetting RC6-style constants

A Dafny model of the candidate-vetting core of the `constants` package of a
Go tool that searches for a pair of 32-bit constants (P, Q) for an RC6-like
cipher. A candidate is a 32-bit number drawn from `crypto/rand` and
accepted by `isPrime`; it is
measured (bit distribution, avalanche effect, entropy, Hamming weight,
weak-key tests, five statistical tests), filtered by `validateCandidate`,
ranked by `calculateScore`, and the best pair is checked again before it
is returned.

The model is functional: words are `bv32`, scores and thresholds are exact
`real`s, and the floating-point library calls (`math.Sqrt`, `math.Exp`,
`math.Log2`) are parameters (`Statistics.FloatLib`). The random draws and
the random avalanche inputs are input sequences. Where the code leaves
an order open (the order `sort.Slice` leaves equal scores in, the order in
which concurrently run statistical tests append their results), the order
is a parameter and the contracts hold for every choice.

Modules, following the program:

- `Wrappers` — `Option`, `Result`, `Outcome`.
- `Arith` — integer facts used by the primality proofs and real-number facts used by the statistics and avalanche proofs.
- `Words` — bits, population count, shifts and rotations of a `bv32`.
- `Primality` — `modPow`, `millerRabinTest`, `isPrime`, `generate32BitPrime`.
- `Complexity` — the Berlekamp–Massey loop of `calculateLinearComplexity`.
- `Statistics` — `calculateEntropy` and the five statistical tests.
- `Configuration` — `DefaultConfig`, `ValidateConfig`, `LoadConfig`.
- `Diffusion` — `rc6Transform` and the counting core of `testAvalancheEffect`.
- `Candidates` — weak-key tests, `validateCandidate`, `calculateScore`, `areSufficientlyDifferent`.
- `Selection` — `selectBestConstants`, `verifyTestResults`,
  `validateSelectedConstants`, `runFinalValidation`, `processResults` and
  the pool-size check of `Generate`.

Where the code and its documentation or tests disagree, the model follows
the code:

- `areSufficientlyDifferent` compares against logical shifts, not
  rotations. `Candidates.RotationNotDetected` exhibits two words, one a
  rotation of the other, that it calls sufficiently different.
- `sort.Slice` is not stable, so ties between equal scores are in no
  defined order. `Selection.SelectBestConstants` takes any descending
  arrangement of the pool.
- The entropy gate `EntropyScore < 1.5` can never be passed: an entropy
  over two symbols is at most one bit. No built candidate is accepted,
  so every run of `Generate` that reaches the pool-size check ends with
  "insufficient candidates" (`Selection.GenerationAlwaysFails`). Runs can
  end earlier, on an invalid configuration, the timeout or a worker
  error; those paths are not modelled.
- The runs test fails on `0xAAAAAAAA` (32 runs, z about 5.4), although
  the unit test for it expects a pass (`Statistics.RunsTestRejectsAlternating`).
- `isPrime` is documented as a deterministic Miller–Rabin test for 32-bit
  integers, but `millerRabinTest` squares in `uint32`, and above 2^16
  the square wraps before it is reduced. The prime 66749 is accepted by
  the textbook test with witnesses 2, 7 and 61 (with exact squares), yet
  `isPrime` rejects it (`Primality.WrappedSquareRejectsPrime`). Up to
  2^16 `isPrime` and the textbook test agree on every n
  (`Primality.IsPrimeExactBelow2To16`). So the model says "accepted by
  `isPrime`" wherever the code says "prime".
- For an even n the halving loop leaves r = 0, and the loop bound
  `r - 1` of `millerRabinTest` wraps to 2^32 - 1. Witness 2 keeps the
  residue even, so every even n above 4 that `generate32BitPrime` draws
  goes through 2^32 - 1 squarings before it is rejected
  (`Primality.EvenNumbersRejected`).
- The defaults in `config.go` (0.45 / 0.55 / 0.49) differ from the ones
  its unit test expects (0.35 / 0.65 / 0.25); `Configuration.DefaultConfig`
  has the values of `config.go`.

## Model

| member | source | states |
|---|---|---|
| Primality.ModPow | constants/generator.go:345-363 | for a non-zero modulus the result is base^exp mod m, below m unless exp is 0, in which case it is 1 even for m = 1 |
| Primality.ModPowLoopValue | constants/generator.go:354-362 | the square-and-multiply loop leaves result * base^exp mod m, the 64-bit products never wrapping |
| Primality.ProductFits64 | constants/generator.go:350-358 | the 64-bit products of two residues below 2^32 never overflow |
| Primality.Decompose | constants/generator.go:309-315 | the halving loop yields an odd d with d * 2^r == n - 1; r >= 1 for odd n and r == 0 for even n |
| Primality.IsPrime | constants/generator.go:298-305 | false for n <= 1 and n == 4, true for 2 and 3 |
| Primality.EvenNumbersRejected | constants/generator.go:298-342 | every even n above 4 is rejected: witness 2 keeps the residue even and the wrapped bound r - 1 = 2^32 - 1 exhausts the loop |
| Primality.OddDecomposition | constants/generator.go:310-322 | for odd n > 3 the decomposition is odd d, r >= 1, d * 2^r == n - 1, and `isPrime` accepts n exactly when the tests for 2, 7 and 61 all succeed |
| Primality.MillerRabinTest | constants/generator.go:325-343 | the witness equal to n passes; for 2 <= n <= 65536 and r >= 1 (so for every odd n) the wrapping 32-bit squaring gives the same verdict as the textbook strong-probable-prime test with exact squares |
| Primality.IsPrimeExactBelow2To16 | constants/generator.go:298-343 | for every n <= 65536, odd or even, `isPrime` gives the same verdict as the textbook test with witnesses 2, 7 and 61 and exact squares |
| Primality.WrappedSquareRejectsPrime | constants/generator.go:298-343 | for 66749 = 16687 * 2^2 + 1 the textbook test passes witnesses 2, 7 and 61, but the wrapped square fails witness 2, so `isPrime` rejects a number the textbook test accepts |
| Primality.SquaringLoopExact | constants/generator.go:333-341 | below 65536 each wrapped square reduced mod n equals the exact square mod n, so the loop agrees with the exact one |
| Primality.EvenSquaringFails | constants/generator.go:333-341 | for even n an even residue never reaches 1 or n - 1, so the squaring loop answers false |
| Primality.Generate32BitPrime | constants/generator.go:272-296 | consumes at most MaxPrimeAttempts draws and none when that bound is not positive; a success is the big-endian value of the last draw, at most 2^32 - 101 and accepted by `isPrime`; every earlier draw was skipped; a broken read ends with its own error; exhaustion reports the attempt count |
| Complexity.Step | constants/statistical.go:193-217 | one Berlekamp–Massey iteration keeps both registers at 32 entries and the length within 0..n+1 |
| Complexity.LinearComplexity | constants/statistical.go:183-221 | the linear complexity of a word lies in 0..32 |
| Complexity.RunNeverShortens | constants/statistical.go:193-220 | the register length never decreases across the remaining iterations |
| Complexity.RunZero | constants/statistical.go:193-220 | after all iterations the length is 0 exactly when every bit is 0 |
| Complexity.ComplexityZeroIffZero | constants/statistical.go:183-221 | the linear complexity is 0 exactly for the zero word |
| Statistics.BitCountsBelow | constants/statistical.go:33-38 | the Go map of bit counts holds a key only for a bit value that occurs, with its exact count |
| Statistics.Entropy | constants/statistical.go:32-50 | the entropy depends only on the number of one bits: it is -p log2 p for the share of ones plus the same for the share of zeros |
| Statistics.EntropyComplement | constants/statistical.go:32-50 | complementing a word leaves its entropy unchanged |
| Statistics.EntropyOfConstantWords | constants/statistical_test.go:97-107 | 0 and 0xFFFFFFFF have entropy 0 |
| Statistics.EntropyOfBalancedWords | constants/statistical.go:32-50 | every word with sixteen ones and sixteen zeros, in any order, has entropy exactly 1 |
| Statistics.EntropyAtMostOne | constants/statistical.go:32-50 | the entropy of every word is at most 1, given that p * log2 p lies on or above its tangent at p = 1/2 |
| Statistics.BitFrequencyTest | constants/statistical.go:53-70 | passes exactly when 12 <= popcount <= 20; the score is 1 - abs(ones - 16)/16 |
| Statistics.BitFrequencyComplement | constants/statistical.go:53-70 | a word and its complement get the same result |
| Statistics.BitFrequencyExamples | constants/statistical_test.go:145-196 | 0xAAAAAAAA scores 1.0 and passes; 0 and 0xFFFFFFFF score 0.0 and fail |
| Statistics.CountRuns | constants/statistical.go:76-84 | the run count is one more than the number of adjacent bit changes, so it lies in 1..32 |
| Statistics.CountRunsFrom | constants/statistical.go:78-84 | the counting loop from any position adds exactly the changes still ahead |
| Statistics.RunsVariancePositive | constants/statistical.go:87-93 | the variance is positive exactly when the word has both ones and zeros |
| Statistics.RunsVerdict | constants/statistical.go:87-103 | a word of a single bit value fails with no score; a pass needs both bit values |
| Statistics.RunsVerdictExact | constants/statistical.go:87-103 | with an exact square root the test passes exactly when n0*n1 > 0 and (runs - E)^2 <= 9 * variance, E = 1 + n0*n1/16 |
| Statistics.RunsTest | constants/statistical_test.go:211-218 | the all-zero and all-one words fail with no score |
| Statistics.RunsTestRejectsAlternating | constants/statistical_test.go:206-208 | 0xAAAAAAAA has 32 runs and fails, against the expectation of its unit test |
| Statistics.Tally | constants/statistical.go:106-112 | the four 2-bit pattern counts over the 31 overlapping windows sum to the number of windows |
| Statistics.TallyCounts | constants/statistical.go:108-112 | each tally entry is the number of windows showing that pattern |
| Statistics.SerialTest | constants/statistical.go:106-130 | the verdict is the p-value 1 - exp(-chi/2) lying in [0.01, 0.99] |
| Statistics.SerialTestRejectsConstantWords | constants/statistical.go:106-130 | for 0 and 0xFFFFFFFF chi-square is 93 and the test fails |
| Statistics.Autocorrelation | constants/statistical.go:151-164 | for a shift in 1..31 the correlation lies in [0, 1] and is 0 exactly when half the compared bits match |
| Statistics.AutocorrelationComplement | constants/statistical.go:151-164 | complementing a word leaves each correlation unchanged |
| Statistics.MaxCorrelationFrom | constants/statistical.go:134-141 | the running maximum bounds every correlation for shifts still ahead and is one of them or the start value |
| Statistics.AutoCorrelationTest | constants/statistical.go:133-148 | passes exactly when every correlation for shifts 1..15 is at most 0.5 |
| Statistics.AutoCorrelationRejectsAlternating | constants/statistical.go:133-164 | 0xAAAAAAAA has correlation 1 at shift 1 and fails |
| Statistics.LinearComplexityTest | constants/statistical.go:167-180 | passes exactly when the linear complexity is at least 12; the score lies in [0, 1] |
| Statistics.LinearComplexityRejectsZero | constants/statistical.go:167-180 | the zero word fails |
| Statistics.AllStatisticalTests | constants/statistical.go:224-253 | exactly five results, one of each kind |
| Configuration.DefaultConfig | constants/config.go:9-23 | the default field values |
| Configuration.ValidateConfig | constants/config.go:25-39 | no error exactly when candidates >= 1, workers >= 1, min < max distribution and 0 <= min avalanche <= 1; the first failing check decides the error |
| Configuration.ValidateConfigCases | constants/config_test.go:41-98 | the defaults pass; zero candidates, zero workers, min 0.6 / max 0.5 and min avalanche 1.5 are each refused for their own reason |
| Configuration.LoadConfig | constants/config.go:41-58 | an empty path gives the defaults and no error; an unreadable file gives the defaults and a read error; no error only for a well-formed configuration |
| Diffusion.Rc6Transform | constants/generator.go:210-217 | the constant 0 sends every input to 0; with constant 1 the transform is a rotation by 8 |
| Diffusion.TotalChanges | constants/generator.go:389-404 | at most 1024 changed bits per trial |
| Diffusion.AvalancheScore | constants/generator.go:375-405 | with at least one trial the score lies in [0, 1]; with none it is undefined |
| Diffusion.ZeroConstantScore | constants/generator.go:375-405 | the constant 0 has avalanche score 0 |
| Candidates.HasSimpleBitPattern | constants/generator.go:593-611 | true exactly for the six listed patterns |
| Candidates.SimpleBitPatternComplement | constants/generator.go:593-611 | the refused set is closed under complement |
| Candidates.SimpleWordsAreBalanced | constants/generator.go:595-602 | every refused pattern has sixteen one bits |
| Candidates.WeakKeyTests | constants/generator.go:579-591 | two entries, all passing exactly when popcount >= 12 and the word is not a simple pattern |
| Candidates.ValidateCandidate | constants/generator.go:427-452 | accepts exactly when distribution, avalanche, Hamming weight 12..20, entropy >= 1.5 and every weak-key entry pass |
| Candidates.BitDistribution | constants/generator.go:365-373 | the share of one bits lies in [0, 1] and is one half exactly for sixteen ones |
| Candidates.BuildCandidate | constants/generator.go:243-270 | the candidate records the word, its popcount and share, its entropy, and the statistical results only when analysis is enabled |
| Candidates.BuiltCandidateGate | constants/generator.go:427-452 | acceptance of a built candidate, restated on the word itself |
| Candidates.NoBuiltCandidateAccepted | constants/generator.go:441-443 | no built candidate passes the entropy gate |
| Candidates.Score | constants/generator.go:493-503 | for inputs in [0, 1] the score lies in [1/9, 5/6] |
| Candidates.ScoreMonotone | constants/generator.go:493-503 | more avalanche or entropy, or a distribution nearer one half, never lowers the score; more avalanche raises it |
| Candidates.NoShiftFrom | constants/generator.go:516-520 | the shift loop from i succeeds exactly when no remaining shift of b in either direction equals a |
| Candidates.AreSufficientlyDifferent | constants/generator.go:505-523 | true exactly when the words differ in at least 12 bits and neither logical shift by 1..31 of b equals a |
| Candidates.NotDifferentFromItself | constants/generator.go:505-523 | two candidates with the same value are never sufficiently different |
| Candidates.RotationNotDetected | constants/generator.go:516-520 | a word and its rotation by one can be judged sufficiently different |
| Selection.Rank | constants/generator.go:476-479 | insertion sort gives one admissible descending arrangement of the pool |
| Selection.HeadScoresHighest | constants/generator.go:476-482 | the head of any ranking has the maximal score in the pool |
| Selection.SelectBestConstants | constants/generator.go:454-491 | P is the head of the ranking and has maximal score; Q is the first later candidate sufficiently different from P if there is one, otherwise the second-ranked |
| Selection.VerifyTestResults | constants/generator.go:199-208 | accepts exactly when at most a fifth of the results failed |
| Selection.FailureCountPermutation | constants/generator.go:199-208 | the failure count does not depend on the order of the results |
| Selection.FinalTestsTolerateOneFailure | constants/statistical.go:224-253 | five results in any arrival order pass the re-check exactly when at most one test failed |
| Selection.IsValidBitDistribution | constants/generator.go:172-175 | for a candidate whose share is its weight over 32, accepted exactly when the weight lies between 32 times each bound |
| Selection.DefaultDistributionWeights | constants/generator.go:172-175 | under the default bounds 0.45 and 0.55 a candidate is accepted exactly when it has 15, 16 or 17 one bits |
| Selection.ValidateSelectedConstants | constants/generator.go:147-175 | no error exactly when both values are non-zero, meet the avalanche minimum and the distribution range and are accepted by `isPrime`; zero values are reported first |
| Selection.RunFinalValidation | constants/generator.go:177-197 | succeeds exactly when each value fails at most one statistical test and the pair is sufficiently different; on success the fresh results are stored |
| Selection.ProcessResults | constants/generator.go:119-145 | succeeds exactly when the selected pair passes the value checks, the statistical re-check and the difference check; the result holds that pair with its fresh results |
| Selection.FallbackPairRejected | constants/generator.go:489-491 | when the fallback pair is chosen, processing fails |
| Selection.FinishGeneration | constants/generator.go:98-101 | fewer than two candidates is an error carrying their number |
| Selection.Accepted | constants/generator.go:231-239 | the pool holds exactly the built candidates that validation accepts |
| Selection.AcceptedCounts | constants/generator.go:231-239 | the pool holds each accepted candidate as many times as it was built, and no refused one |
| Selection.GenerationAlwaysFails | constants/generator.go:98-101 | since no candidate is accepted, generation ends with "insufficient candidates: got 0" |

## Left out

- Concurrency: `Generate`, `worker`, `NewGenerator` and `Cleanup` (goroutines, channels, the wait group, context cancellation and the 30-minute timeout). Only the pool-size check and the processing of the finished pool are modelled.
- The `crypto/rand` reads are input sequences (`Primality.RandomRead` draws, and the avalanche inputs of `Diffusion.AvalancheScore`); `Candidates.BuildCandidate` takes the avalanche score as a parameter.
- Floating point: `math.Sqrt`, `math.Exp` and `math.Log2` are the functions of `Statistics.FloatLib`; nothing is claimed about rounding, NaN or infinities except that 0/0 is `None`: in the avalanche score with no trials, and in the runs test of a word whose variance is zero. `ValidateConfig` admits zero avalanche trials, and in Go the resulting NaN score passes the avalanche comparisons of `validateCandidate` and `validateSelectedConstants`, because every comparison with NaN is false. `Candidates.BuildCandidate` takes a `real` score, so in the model that NaN never reaches those gates. No outcome changes, since the entropy gate refuses every candidate anyway.
- Statistics.SerialTest: its verdict is stated through the `exp` parameter, not as a bound on chi-square.
- Statistics.EntropyAtMostOne: holds for any logarithm for which p * log2 p lies on or above its tangent at p = 1/2, as it does for the true `log2` because p * log2 p is convex; the premise is a parameter, not proved of the real logarithm.
- Diffusion.Rc6Transform: its contract covers only the constants 0 and 1; a general statement about the 32-bit product is beyond the solver's budget.
- Configuration.LoadConfig: the file read and the JSON decoding are not modelled; what they produced is a parameter. `ValidateConfig` receives the configuration by address but never writes to it; the model is a pure function, so nothing changes.
- `saveResults`, logging, the command line and output formatting.
- Timing fields (`time.Duration`, `time.Time`), the `Details` strings and the primality and avalanche entries of `TestResults`, which the vetting logic never reads.
- `compareOutputs` and `encryptionTest` (unused), `testCombinedAvalancheEffect` (used only by tests), `testConstantCorrelation` and `aggregateTestResults` (floating-point summaries).
- The error texts of the Go code are error constructors; the context wrapping of `fmt.Errorf` is not kept.
