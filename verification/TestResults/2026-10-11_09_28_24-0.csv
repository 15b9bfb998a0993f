TestResult.DisplayName,TestResult.Outcome,TestResult.Duration,TestResult.ResourceCount,RandomSeed
Legacy.SendingKeeps (correctness),Passed,00:00:00.6410719,1176007,1
Chat.IterationKeeps (correctness),Passed,00:00:00.3657735,526132,1
Chat.IterationKeeps (well-formedness),Passed,00:00:00.3460250,271010,1
Legacy.NoMessageKeeps (correctness),Passed,00:00:00.2278692,206696,1
Legacy.NoMessageKeeps (well-formedness),Passed,00:00:00.1585512,126375,1
Legacy.DeliverKeeps (well-formedness),Passed,00:00:00.1147931,148630,1
Legacy.DeliverKeeps (correctness),Passed,00:00:00.1131651,217921,1
Chat.AcceptKeeps (correctness),Passed,00:00:00.0787044,129408,1
Messages.AddedKeepsDuplicates (correctness),Passed,00:00:00.0773430,43199,1
Messages.AddedKeepsDuplicates (well-formedness),Passed,00:00:00.0766081,37393,1
Legacy.SendingKeeps (well-formedness),Passed,00:00:00.0745003,148848,1
Chat.AcceptKeeps (well-formedness),Passed,00:00:00.0630308,96345,1
