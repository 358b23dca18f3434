/** The generator's configuration (`config.go`, `types.go`): its defaults,
    the checks `ValidateConfig` makes, and `LoadConfig`. Reading the file and
    decoding JSON are not modelled; what they produced is a parameter
    (`ConfigFile`). */
module Configuration {
  import opened Wrappers

  datatype Config = Config(
    numCandidates: int,
    avalancheTestCases: int,
    minPrimeAttempts: int,
    maxPrimeAttempts: int,
    parallelWorkers: int,
    minBitDistribution: real,
    maxBitDistribution: real,
    minAvalancheScore: real,
    resultsFile: string,
    detailedLogging: bool,
    statisticalAnalysis: bool)

  /** The errors `ValidateConfig` and `LoadConfig` return, in the order the
      checks are made. */
  datatype ConfigError =
    | NumCandidatesNotPositive
    | ParallelWorkersNotPositive
    | InvalidBitDistributionRange
    | InvalidAvalancheThreshold
    | ReadingConfig
    | ParsingConfig

  function DefaultConfig(): (c: Config)
    ensures c.numCandidates == 1000 && c.avalancheTestCases == 10000
    ensures c.minPrimeAttempts == 100 && c.maxPrimeAttempts == 10000
    ensures c.parallelWorkers == 8
    ensures c.minBitDistribution == 0.45 && c.maxBitDistribution == 0.55
    ensures c.minAvalancheScore == 0.49
    ensures c.resultsFile == "rc6_constants.json"
    ensures c.detailedLogging && c.statisticalAnalysis
  {
    Config(1000, 10000, 100, 10000, 8, 0.45, 0.55, 0.49, "rc6_constants.json", true, true)
  }

  /** Everything `ValidateConfig` demands of a configuration. */
  predicate WellFormed(c: Config)
  {
    c.numCandidates >= 1 && c.parallelWorkers >= 1
    && c.minBitDistribution < c.maxBitDistribution
    && 0.0 <= c.minAvalancheScore <= 1.0
  }

  /** `ValidateConfig`: nil for a well-formed configuration, otherwise the
      error of the first check that fails. */
  function ValidateConfig(c: Config): (r: Outcome<ConfigError>)
    ensures r.Pass? <==> WellFormed(c)
    ensures r == Fail(NumCandidatesNotPositive) <==> c.numCandidates < 1
    ensures r == Fail(ParallelWorkersNotPositive) <==> c.numCandidates >= 1 && c.parallelWorkers < 1
    ensures r == Fail(InvalidBitDistributionRange) <==>
      c.numCandidates >= 1 && c.parallelWorkers >= 1 && c.minBitDistribution >= c.maxBitDistribution
    ensures r.Fail? ==> r.error != ReadingConfig && r.error != ParsingConfig
  {
    if c.numCandidates < 1 then Fail(NumCandidatesNotPositive)
    else if c.parallelWorkers < 1 then Fail(ParallelWorkersNotPositive)
    else if c.minBitDistribution >= c.maxBitDistribution then Fail(InvalidBitDistributionRange)
    else if c.minAvalancheScore < 0.0 || c.minAvalancheScore > 1.0 then Fail(InvalidAvalancheThreshold)
    else Pass
  }

  /** A Go zero value with some fields set, as the table-driven cases build them. */
  function ZeroConfig(): Config
  {
    Config(0, 0, 0, 0, 0, 0.0, 0.0, 0.0, "", false, false)
  }

  /** The defaults pass, and each invalid case is refused for its own reason. */
  lemma ValidateConfigCases()
    ensures ValidateConfig(DefaultConfig()) == Pass
    ensures ValidateConfig(ZeroConfig()) == Fail(NumCandidatesNotPositive)
    ensures ValidateConfig(ZeroConfig().(numCandidates := 1000)) == Fail(ParallelWorkersNotPositive)
    ensures ValidateConfig(ZeroConfig().(numCandidates := 1000, parallelWorkers := 8,
      minBitDistribution := 0.6, maxBitDistribution := 0.5)) == Fail(InvalidBitDistributionRange)
    ensures ValidateConfig(ZeroConfig().(numCandidates := 1000, parallelWorkers := 8,
      minBitDistribution := 0.45, maxBitDistribution := 0.55, minAvalancheScore := 1.5)) == Fail(InvalidAvalancheThreshold)
  {
  }

  /** What reading and decoding the configuration file produced: the
      decoded configuration (the defaults with the document's keys laid over
      them) or the stage that failed with what had been decoded so far. */
  datatype ConfigFile =
    | Unreadable
    | Malformed(partial: Config)
    | Decoded(config: Config)

  /** `LoadConfig(path)`: the configuration and the error returned with it.
      An empty path means the defaults, checked like any other configuration. */
  function LoadConfig(path: string, file: ConfigFile): (res: (Config, Outcome<ConfigError>))
    ensures path == "" ==> res == (DefaultConfig(), Pass)
    ensures path != "" && file.Unreadable? ==> res == (DefaultConfig(), Fail(ReadingConfig))
    ensures path != "" && file.Malformed? ==> res == (file.partial, Fail(ParsingConfig))
    ensures res.1.Pass? ==> WellFormed(res.0)
    ensures path != "" && file.Decoded? ==> res.0 == file.config && (res.1.Pass? <==> WellFormed(file.config))
  {
    var config := DefaultConfig();
    if path == "" then
      (config, ValidateConfig(config))
    else
      match file
      case Unreadable => (config, Fail(ReadingConfig))
      case Malformed(partial) => (partial, Fail(ParsingConfig))
      case Decoded(decoded) => (decoded, ValidateConfig(decoded))
  }
}
