TestResult.DisplayName,TestResult.Outcome,TestResult.Duration,TestResult.ResourceCount,RandomSeed
Selection.Accepted (well-formedness),Passed,00:00:00.9553762,2499845,4
