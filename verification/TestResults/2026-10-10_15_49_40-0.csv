TestResult.DisplayName,TestResult.Outcome,TestResult.Duration,TestResult.ResourceCount,RandomSeed
Catalog.FilterTwiceComplete (correctness),Passed,00:00:00.9436229,1575749,3
Catalog.FilterTwiceSound (correctness),Passed,00:00:00.5898262,955100,3
Catalog.FilterTwiceSound (well-formedness),Passed,00:00:00.1250627,31037,3
Catalog.FilterTwice (correctness),Passed,00:00:00.1117616,204121,3
Catalog.FilterTwiceComplete (well-formedness),Passed,00:00:00.0405320,28461,3
Catalog.FilterTwice (well-formedness),Passed,00:00:00.0306454,29887,3
