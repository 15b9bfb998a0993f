TestResult.DisplayName,TestResult.Outcome,TestResult.Duration,TestResult.ResourceCount,RandomSeed
Chat.IterationKeeps (correctness),Passed,00:00:00.3648040,524933,2
Legacy.SendingKeeps (correctness),Passed,00:00:00.3035820,724393,2
Chat.IterationKeeps (well-formedness),Passed,00:00:00.2413246,271058,2
Legacy.NoMessageKeeps (correctness),Passed,00:00:00.2187113,206713,2
Legacy.NoMessageKeeps (well-formedness),Passed,00:00:00.1581634,126398,2
Messages.AddedKeepsDuplicates (well-formedness),Passed,00:00:00.0851019,37367,2
Messages.AddedKeepsDuplicates (correctness),Passed,00:00:00.0850436,43288,2
Legacy.DeliverKeeps (correctness),Passed,00:00:00.0839036,216012,2
Legacy.DeliverKeeps (well-formedness),Passed,00:00:00.0749827,148596,2
Legacy.SendingKeeps (well-formedness),Passed,00:00:00.0647479,148904,2
Chat.AcceptKeeps (correctness),Passed,00:00:00.0606510,129594,2
Chat.AcceptKeeps (well-formedness),Passed,00:00:00.0489948,95354,2
