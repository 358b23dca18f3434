TestResult.DisplayName,TestResult.Outcome,TestResult.Duration,TestResult.ResourceCount,RandomSeed
Selection.Accepted (well-formedness),Passed,00:00:02.1119156,3485594,2
