TestResult.DisplayName,TestResult.Outcome,TestResult.Duration,TestResult.ResourceCount,RandomSeed
Examples.EndLine (correctness),Passed,00:00:00.2928663,231026,2
