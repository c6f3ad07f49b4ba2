TestResult.DisplayName,TestResult.Outcome,TestResult.Duration,TestResult.ResourceCount,RandomSeed
Text.WordsAtBoundaries (correctness),Failed,00:00:00.6929447,2025305,0
Text.Words (well-formedness),Passed,00:00:00.1263313,218887,0
Text.WordsEmptyIff (correctness),Passed,00:00:00.0891243,55228,0
Text.WordsKeepText (correctness),Passed,00:00:00.0315040,68771,0
Text.WordsAtBoundaries (well-formedness),Passed,00:00:00.0272496,46582,0
