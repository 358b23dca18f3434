TestResult.DisplayName,TestResult.Outcome,TestResult.Duration,TestResult.ResourceCount,RandomSeed
Selection.Accepted (well-formedness),Passed,00:00:00.6702700,1331512,5
