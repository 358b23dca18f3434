TestResult.DisplayName,TestResult.Outcome,TestResult.Duration,TestResult.ResourceCount,RandomSeed
Selection.Accepted (well-formedness),Passed,00:00:01.2178012,2870489,3
