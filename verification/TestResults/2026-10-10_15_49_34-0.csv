TestResult.DisplayName,TestResult.Outcome,TestResult.Duration,TestResult.ResourceCount,RandomSeed
Catalog.FilterTwiceComplete (correctness),Passed,00:00:01.1955532,1499581,0
Catalog.FilterTwiceSound (correctness),Passed,00:00:01.1604510,981499,0
Catalog.FilterTwiceSound (well-formedness),Passed,00:00:00.2349536,31038,0
Catalog.FilterTwice (correctness),Passed,00:00:00.1367351,208028,0
Catalog.FilterTwiceComplete (well-formedness),Passed,00:00:00.0638723,28473,0
Catalog.FilterTwice (well-formedness),Passed,00:00:00.0482385,29888,0
