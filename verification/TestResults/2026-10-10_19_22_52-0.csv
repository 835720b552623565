TestResult.DisplayName,TestResult.Outcome,TestResult.Duration,TestResult.ResourceCount,RandomSeed
Display.Apply (well-formedness),Passed,00:00:00.3364191,326560,6
