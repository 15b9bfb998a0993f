TestResult.DisplayName,TestResult.Outcome,TestResult.Duration,TestResult.ResourceCount,RandomSeed
Legacy.SendingKeeps (correctness),Passed,00:00:00.4283922,782888,0
Chat.IterationKeeps (correctness),Passed,00:00:00.3593278,542151,0
Chat.IterationKeeps (well-formedness),Passed,00:00:00.2641088,271081,0
Legacy.NoMessageKeeps (correctness),Passed,00:00:00.2471366,197645,0
Legacy.NoMessageKeeps (well-formedness),Passed,00:00:00.2377334,126340,0
Messages.AddedKeepsDuplicates (correctness),Passed,00:00:00.1283979,43179,0
Messages.AddedKeepsDuplicates (well-formedness),Passed,00:00:00.1269081,37388,0
Legacy.DeliverKeeps (well-formedness),Passed,00:00:00.0943767,148612,0
Legacy.DeliverKeeps (correctness),Passed,00:00:00.0848114,215281,0
Legacy.SendingKeeps (well-formedness),Passed,00:00:00.0635304,148917,0
Chat.AcceptKeeps (well-formedness),Passed,00:00:00.0611740,96348,0
Chat.AcceptKeeps (correctness),Passed,00:00:00.0519901,128455,0
