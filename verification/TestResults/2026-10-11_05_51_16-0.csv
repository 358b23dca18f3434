TestResult.DisplayName,TestResult.Outcome,TestResult.Duration,TestResult.ResourceCount,RandomSeed
Selection.Accepted (well-formedness),Passed,00:00:00.8941765,1148178,1
