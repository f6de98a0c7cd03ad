TestResult.DisplayName,TestResult.Outcome,TestResult.Duration,TestResult.ResourceCount,RandomSeed
Examples.EndLine (correctness),Passed,00:00:00.3224279,224082,3
