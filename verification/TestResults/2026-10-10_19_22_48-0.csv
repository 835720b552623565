TestResult.DisplayName,TestResult.Outcome,TestResult.Duration,TestResult.ResourceCount,RandomSeed
Display.Apply (well-formedness),Passed,00:00:00.3400118,343423,4
