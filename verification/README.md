# inventory-pos: ledger, accounting and matching, verified

Dafny models of the stateful core of the inventory-pos backend, with proofs of what
that core promises over whole runs.

| file | what it models |
|---|---|
| `InventoryLedger.dfy` | rows of the append-only inventory ledger, the queries over them, and the rows each operation writes |
| `InventoryService.dfy` | the inventory service as a class: one transaction per operation, retries on refused row locks |
| `InventoryInvariants.dfy`, `InventoryTheorems.dfy`, `InventoryValuation.dfy` | running columns against a replay of the ledger, transfers, the average-cost hull, valuation |
| `InventorySessions.dfy` | concurrent sessions with row locks, reads, writes, commits and aborts, and their invariant |
| `InventorySerializability.dfy` | the committed ledger against serial runs |
| `InventoryOutcomes.dfy`, `InventoryAttempts.dfy` | what each inventory call stores and when it is refused; what becomes of a session |
| `InventoryProgress.dfy` | waiting, deadlock freedom and termination of those sessions |
| `FiscalPeriods.dfy` | the period lifecycle |
| `Journal.dfy`, `GeneralLedger.dfy`, `GeneralLedgerService.dfy` | journal lines and balance tests, posting, auto-posting, reversal, closing, trial balance |
| `GeneralLedgerOutcomes.dfy` | when each ledger call goes through and what it stores |
| `PeriodClosing.dfy`, `TrialBalance.dfy`, `Reversals.dfy` | closing and freezing, drift of the trial balance, deduplication and reversal |
| `BankReconciliation.dfy`, `BankOutcomes.dfy` | automatic and manual matching of statement lines to payments |
| `Allocations.dfy`, `AllocationOutcomes.dfy` | invoices, payments and the allocations between them |
| `FixedAssets.dfy` | straight-line depreciation with cap and cent rounding |
| `PriceLists.dfy`, `PriceOutcomes.dfy` | price resolution and its cache |
| `ChartOfAccounts.dfy`, `ChartOutcomes.dfy` | account levels and the tree builder |
| `Numbering.dfy`, `NumberingOutcomes.dfy` | document numbers |
| `Common.dfy` | options, results, rounding |

## How the model is built

Each operation is a function from the stored rows to a result. The classes carry the
services' stored state in their fields; their methods follow the checks, loops and updates
of the source and are proved equal to those functions. The theorems are about the functions
and about runs of them. For every operation an outcome theorem says, in terms of the request
and the stored rows alone, exactly when it goes through and what it leaves stored. A run may contain failing calls anywhere; a failed call leaves the
state alone, because it fails before it writes or its transaction rolls back. The one
exception, a depreciation run, is modelled as such. Runs are sequential, except in the
session model of `InventorySessions.dfy` and for the concurrent callers of `Numbering.dfy`,
which interleave, and in the theorem on `applyPayment`, whose reading and writing are
separate steps.

- Quantities and amounts are exact (`real`, or whole cents in `FixedAssets.dfy`). Column
  rounding by the database and IEEE rounding are not modelled; `Math.round` is.
- Identifiers are natural numbers, usually the position of the row in storage. The nil
  UUID is 0 in the general ledger.
- `created_at` is insertion order. `recordMovement` reads the newest row by
  `movement_date` first, so theorems that mix it with the other operations ask for a
  chronological ledger: each row is dated no earlier than the older rows of its product
  and warehouse. Nothing is asked of the order in which operations are called beyond that.
- A query without ORDER BY returns rows in storage order.
- Automatic induction is switched off on every lemma: each proof is the one written down.
- The clock, the outcome of NOWAIT locks, lost database results and the manual parts of
  the closing checklist are parameters.

## Where the code differs from its documentation

The model follows the code; the theorems named with each difference show it on a run and
say exactly when it matters.

- `closePeriod` of `AccountingService` posts nothing when net income is zero, so a
  break-even period is closed with its revenue and expense balances standing
  (`CloseZeroesIff`, `BreakEvenIsNotClosed`).
- A period closed through `PeriodManagerService` gets no closing entry, and a later
  `AccountingService.closePeriod` still posts into it: a CLOSED period is frozen if and
  only if closing it would post nothing (`ClosedIsFrozenIff`, `ClosedPeriodTakesEntry`).
- `validatePeriodOpen` lets DRAFT periods pass: a posting goes through for any period that
  is not closed (`GeneralLedgerOutcomes.PostOutcome`, `DraftTakesPostings`).
- `AccountingService.closePeriod` checks neither status nor order, and `createPeriod`,
  said to validate calendar ordering, takes a month before a closed one. Of all steps on the ledger, exactly two kinds break the
  closing order of BR-ACC-007: such a close while a period earlier by year and month is not
  closed, and the creation of a period earlier than a closed one (`CloseKeepsOrderIff`,
  `PeriodClosing.StepKeepsOrderIff`, `CloseBreaksOrder`, `ClosedPrefixNeedsOrder`).
- Deduplication covers events only. A closing entry, a reversal or an auto-flagged posting
  can take a reference that an event already holds (`StepKeepsKeysIff`,
  `ClosingEventTakesKey`).
- `validateBalance` rounds every amount to cents before it sums and admits lines with both
  sides filled, so accepted lines can be out by more than the 0.01 of BR-ACC-001. They are
  all within 0.01 exactly when every amount is whole cents (`CentBoundIff`), and all within
  1 + L/2 cents exactly when at most L amounts are not, as when every line is one-sided
  (`CentsTestBound`, `LineBoundIff`).
- Outbound `recordMovement` stores `total_cost` 0, so ledger value and running cost agree
  exactly when no outbound movement took goods that carried a cost
  (`CostColumnIsLedgerValue`).
- `applyPayment` does not look at the payment's amount (`StepKeepsPaymentIff`,
  `ApplyCanOverspend`).
- `applyPayment` reads the invoice before its transaction opens. Its amounts come out right
  exactly when nothing was allocated to the invoice in between (`StaleApplyIff`,
  `StaleApplyLosesPayment`).
- `runDepreciation` calls `createManualEntry` without its transaction client, so the posting
  is committed on its own. If the asset's transaction is lost after that, the next run posts
  the charge again. Journal and asset register agree exactly when no run lost a charge this
  way, and differ by the lost charges (`PostingsAgreeIff`, `LostChargeIsPostedAgain`).
- Document numbers sort in issue order exactly up to counter 99999; beyond it the
  narrower counter is compared as if filled up with zeros behind (`OrderHoldsIff`, `StringOrderIff`).
- The uniqueness check on account codes passes over deleted accounts, the unique index does
  not: a code is used once and for all (`RunsKeepCodesUnique`).

## Model

| member | source | states |
|---|---|---|
| InventoryInvariants.RunsAreConsistent | src/modules/inventory/services/inventory.service.ts:51-106 | after every chronological run mixing the three operations, every row is legal over its predecessors; the newest row's quantity is sum in minus sum out and is >= 0, its cost is that of an unclamped weighted-average replay and is >= 0, and no stock means no cost |
| InventoryInvariants.NewestAgree | src/modules/inventory/services/inventory.service.ts:56-59 | on a chronological ledger ordering by date then insertion finds the row inserted last |
| InventoryInvariants.MovementRowIsLegal | src/modules/inventory/services/inventory.service.ts:61-83 | a movement writes a receipt at its own cost or an issue at average cost, and fails exactly when it would overdraw the balance |
| InventoryInvariants.TransferRowsAreLegal | src/modules/inventory/services/inventory.service.ts:285-361 | a transfer line writes an issue at average cost and a receipt at that cost; it fails only for missing stock |
| InventoryInvariants.AdjustRowsAreLegal | src/modules/inventory/services/inventory.service.ts:484-532 | a count line writes a legal row, and fails exactly when the shortage exceeds the balance |
| InventoryInvariants.LineRowsAreStamped | src/modules/inventory/services/inventory.service.ts:325-360 | every row bears the operation's date, its line's product and one of the operation's warehouses |
| InventoryTheorems.TransferConserves | src/modules/inventory/services/inventory.service.ts:285-362 | for any list of lines, products repeated or not, exactly the demand moves, cost over both ends is kept, and no other warehouse or product changes |
| InventoryTheorems.TransferSucceedsIff | src/modules/inventory/services/inventory.service.ts:286-323 | the lines go through exactly when the source covers the summed demand of every product; the only failure is missing stock, so the invariant check never throws |
| InventoryTheorems.TransferKeepsTotals | src/modules/inventory/services/inventory.service.ts:321-323 | quantity and running cost summed over any list of warehouses holding both ends are unchanged |
| InventoryOutcomes.MovementOutcome | src/modules/inventory/services/inventory.service.ts:45-106 | a movement goes through exactly when it is well formed and the stock covers it; the stored row has the quantities times and the unit cost divided by the positive conversion rate (1 without one), and the position changes accordingly |
| InventoryOutcomes.TransferLineOutcome | src/modules/inventory/services/inventory.service.ts:286-361 | both rows of a transfer line with every column; their unit cost is the average cost at the source |
| InventoryOutcomes.TransferOutcome | src/modules/inventory/services/inventory.service.ts:232-362 | a whole transfer goes through exactly when its ends differ and the source covers the summed demand; it writes two rows a line and moves exactly the demand |
| InventoryOutcomes.AdjustLineOutcome | src/modules/inventory/services/inventory.service.ts:484-532 | the row of a count line with every column: a surplus at its stated cost, a shortage at average cost, nothing when the count agrees |
| InventoryOutcomes.AdjustOutcome | src/modules/inventory/services/inventory.service.ts:438-537 | a whole adjustment goes through exactly when a reason is given and no product is short after any line; it adds each product's summed surplus in its warehouse and nothing else |
| InventoryOutcomes.StoredCostsAreNotNegative | src/modules/inventory/services/inventory.service.ts:64-67 | on any ledger, chronological or not, no stored running cost is negative |
| InventoryOutcomes.RunOutcome | src/modules/inventory/services/inventory.service.ts:51-106 | a run starts empty, takes each operation in turn, and a failing one leaves no row |
| InventoryTheorems.MovementEffect | src/modules/inventory/services/inventory.service.ts:45-80 | a movement changes its position by its quantity in base units, brings in the cost stated in the caller's units, leaves the average cost on issue, and touches nothing else |
| InventoryTheorems.AdjustLineEffect | src/modules/inventory/services/inventory.service.ts:485-513 | a count changes its position by the difference it reports, a surplus at the stated cost, a shortage at average cost |
| InventoryTheorems.AverageCostWithinInflows | src/modules/inventory/services/inventory.service.ts:302-319 | wherever a product is in stock its average cost lies between the lowest and highest base unit cost at which it ever came in from outside, after any transfers |
| InventoryTheorems.BoundsAreReached | src/modules/inventory/services/inventory.service.ts:64-67 | both bounds are unit costs at which a movement or an adjustment brought the product in |
| InventoryTheorems.TotalGrows | src/modules/inventory/services/inventory.service.ts:321-323 | the totals over warehouses are sums |
| InventoryValuation.CostColumnIsLedgerValue | src/modules/inventory/services/inventory.service.ts:82-83 | total cost in minus out exceeds running cost by what outbound movements removed unrecorded; they agree if and only if no outbound movement took goods carrying a cost |
| InventoryValuation.IssuesLeaveTheColumnsApart | src/modules/inventory/services/inventory.service.ts:83-106 | a run where the two differ |
| InventoryValuation.BalanceReportIsPosition | src/modules/inventory/services/inventory.service.ts:146-196 | the stock balance reports the replayed quantity and cost, and an average that is value per unit; its clamps do nothing |
| InventoryValuation.QuoteMatchesReceipt | src/modules/inventory/services/inventory.service.ts:658-695 | quoting the average with an incoming lot is within 0.00005 of the average that recording the lot leaves |
| InventoryValuation.QuoteOutcome | src/modules/inventory/services/inventory.service.ts:665-695 | the quote for any or no incoming lot: value per unit to four decimals, 0 without stock, never negative |
| InventoryValuation.NegativeStockIsNotQuoted | src/modules/inventory/services/inventory.service.ts:620-640 | only a negative balance is refused |
| InventoryService.InventoryService.RecordMovement | src/modules/inventory/services/inventory.service.ts:37-114 | appends exactly the specified row, or fails and appends nothing |
| InventoryService.InventoryService.TransferStock | src/modules/inventory/services/inventory.service.ts:227-377 | the outcome is that of the first attempt not refused a lock, on the ledger and the warehouse flags as that attempt finds them; three refusals give the lock error; a failure adds nothing of its own |
| InventoryService.InventoryService.AdjustStock | src/modules/inventory/services/inventory.service.ts:434-548 | the same for adjustments, with the reason required before the first attempt |
| InventoryService.ProcessStops | src/modules/inventory/services/inventory.service.ts:292-294 | a failing line fails the whole operation with its error |
| InventorySerializability.CommittedLedgerIsSerial | src/modules/inventory/services/inventory.service.ts:51-59 | in every interleaving the committed ledger is that of the committed operations run alone in commit order; each succeeds there and commits once; aborted and retried attempts leave nothing |
| InventoryAttempts.IdleSessionCompletes | src/modules/inventory/services/inventory.service.ts:51-106 | in any reachable system an idle session whose products nobody else holds, given its turns, commits exactly what its operation stores on the committed ledger, or fails and leaves the ledger when the operation fails |
| InventoryAttempts.SessionsFailForAReason | src/modules/inventory/services/inventory.service.ts:239-376 | a session fails only for an inadmissible operation, an abort, a failing line or a third refused NOWAIT lock; the third refusal always ends it, the first two never |
| InventoryAttempts.LockOrderIsSorted | src/modules/inventory/services/inventory.service.ts:257-261 | the locks of a session are the products of its lines, each once, ascending |
| InventoryAttempts.RefusalOutcome | src/modules/inventory/services/inventory.service.ts:364-374 | a refused movement waits; anything else lets go of its locks and tries again, at most three times |
| InventoryAttempts.AbortOutcome | src/modules/inventory/services/inventory.service.ts:240-240 | an abort ends a session, frees its locks and leaves no row |
| InventoryAttempts.HeldOutcome | src/modules/inventory/services/inventory.service.ts:51-54 | which locks a session holds in each phase |
| InventoryProgress.NoWaitCycle | src/modules/inventory/services/inventory.service.ts:259-263 | no cycle of sessions, each standing before a lock the next one holds and unable to step, is reachable |
| InventoryProgress.OnlyMovementsWait | src/modules/inventory/services/inventory.service.ts:51-54 | whoever cannot step for a lock is a movement, and holds nothing |
| InventoryProgress.SomeoneCanMove | src/modules/inventory/services/inventory.service.ts:443-460 | while a session is unfinished, some session can take a step without an abort |
| InventoryProgress.RunsAreBounded | src/modules/inventory/services/inventory.service.ts:443-460 | the steps of a run that change anything, refused locks, retries and aborts included, are bounded by a number the operations determine |
| InventoryProgress.EffectiveGrows | src/modules/inventory/services/inventory.service.ts:443-460 | what is bounded are the events that change anything |
| InventoryProgress.EveryRunCanFinish | src/modules/inventory/services/inventory.service.ts:240-263 | every run can be completed, without aborting anyone, until every session is committed or failed |
| InventorySerializability.ConcurrentLedgerIsConsistent | src/modules/inventory/services/inventory.service.ts:51-106 | a concurrently written ledger in date order has sound running columns |
| InventorySessions.ProcessLocal | src/modules/inventory/services/inventory.service.ts:286-316 | an operation reads only rows of the products it locks |
| FiscalPeriods.OverlapTestIsComplete | src/services/period-manager/period-manager.service.ts:130-141 | the three overlap tests find exactly the periods sharing a date with the new one |
| FiscalPeriods.CreateSucceedsIff | src/services/period-manager/period-manager.service.ts:99-161 | creation succeeds exactly for a month 1-12, a non-empty range, a new month and dates no period holds, and adds a DRAFT period |
| FiscalPeriods.OpenOutcome | src/services/period-manager/period-manager.service.ts:167-194 | opening succeeds exactly for a DRAFT period while none is OPEN, and changes its status only |
| FiscalPeriods.CloseOutcome | src/services/period-manager/period-manager.service.ts:202-254 | closing succeeds exactly for an OPEN period with every earlier month CLOSED and the checklist passed |
| FiscalPeriods.RunOutcome | src/services/period-manager/period-manager.service.ts:167-254 | a run takes each step in turn, a failing one changes nothing |
| FiscalPeriods.RunsKeepLifecycle | src/services/period-manager/period-manager.service.ts:167-254 | over every run date ranges stay disjoint, months unique and at most one period open |
| FiscalPeriods.AnswersAreUnique | src/services/period-manager/period-manager.service.ts:387-421 | a date has at most one period and at most one period is current |
| FiscalPeriods.StatusOnlyAdvances | src/services/period-manager/period-manager.service.ts:188-191 | a step keeps dates and moves a status up by at most one, and only that of the period it names |
| FiscalPeriods.StepKeepsOrderIff | src/services/period-manager/period-manager.service.ts:212-231 | a create, open or close keeps the closing order by year and month if and only if it creates no period earlier than a closed one |
| FiscalPeriods.RunsCloseInOrder | src/services/period-manager/period-manager.service.ts:212-231 | every run without such a creation closes periods in order |
| FiscalPeriods.ClosedFormPrefix | src/services/period-manager/period-manager.service.ts:212-231 | when periods are created in calendar order the closed ones come first |
| FiscalPeriods.ClosedPrefixNeedsOrder | src/services/period-manager/period-manager.service.ts:213-222 | a run with a backdated creation after which the closing order is broken |
| FiscalPeriods.PeriodManagerService.CreatePeriod | src/services/period-manager/period-manager.service.ts:99-161 | the searches for the month and for overlapping dates decide as specified; stores the new DRAFT period or reports the first failed check |
| FiscalPeriods.PeriodManagerService.OpenPeriod | src/services/period-manager/period-manager.service.ts:167-194 | opens a DRAFT period when the search finds none open |
| FiscalPeriods.PeriodManagerService.ClosePeriod | src/services/period-manager/period-manager.service.ts:202-254 | closes an OPEN period when the search finds no earlier one unclosed and the checklist passed |
| FiscalPeriods.PeriodManagerService.GetPeriodForDate | src/services/period-manager/period-manager.service.ts:405-421 | finds a period holding the date, or none exists |
| Journal.ValidateBalance | src/services/journal-engine/journal-engine.service.ts:336-340 | the loop decides the test in rounded cents |
| Journal.ValidateJournalBalance | src/services/journal-engine/journal-engine.service.ts:347-383 | accepts exactly two or more one-sided lines out by at most 0.01, and reports the first fault otherwise |
| Journal.CentsTestBound | src/services/journal-engine/journal-engine.service.ts:336-340 | accepted lines are out by at most 1 cent plus half a cent per amount that is not whole cents: 1 + L/2 when at most L amounts are not, in particular for one-sided lines, and 1 + L for any |
| Journal.LineBoundIff | src/services/journal-engine/journal-engine.service.ts:336-340 | for every L and f, all accepted lists of L lines with f amounts that are not whole cents are within 1 + L/2 cents if and only if f is at most L |
| Journal.CentBoundIff | src/services/journal-engine/journal-engine.service.ts:336-340 | for every number of lines, all accepted lists with f amounts that are not whole cents are within 0.01 if and only if f is 0 |
| Journal.TestsAgreeOnWholeCents | src/services/journal-engine/journal-engine.service.ts:370-373 | on whole-cent lines both balance tests agree |
| Journal.JournalFaults | src/services/journal-engine/journal-engine.service.ts:347-383 | which complaint is made: too few lines, the first faulty line, then the balance |
| GeneralLedgerOutcomes.PostOutcome | src/modules/accounting/services/accounting.service.ts:31-108 | a posting goes through exactly when its period (the named one if not CLOSED, else the OPEN one that starts first) exists, the ids and codes name accounts, and the lines are two or more, one-sided and within 0.01; it stores these lines with their totals |
| GeneralLedgerOutcomes.PostRefusals | src/modules/accounting/services/accounting.service.ts:33-44 | without a period to take it, the posting fails for that reason |
| GeneralLedgerOutcomes.EventOutcome | src/services/journal-engine/journal-engine.service.ts:95-188 | an unanswered event goes through exactly when its period is not CLOSED, its template active and its lines balanced in cents on known accounts; the lines are those it brings, else its amount debited and credited on the accounts of its template |
| GeneralLedgerOutcomes.AnsweredEvent | src/services/journal-engine/journal-engine.service.ts:41-93 | an event with a non-nil reference is answered by the first POSTED auto-generated entry of that reference |
| GeneralLedgerOutcomes.ManualOutcome | src/services/journal-engine/journal-engine.service.ts:219-280 | a manual entry goes, with its lines, to the OPEN period stored first, exactly when there is one and the lines balance in cents on known accounts |
| GeneralLedgerOutcomes.ReverseOutcome | src/modules/accounting/services/accounting.service.ts:110-171 | a reversal goes through exactly for a POSTED entry of a period not CLOSED; it marks the entry and adds every line with debit and credit exchanged |
| GeneralLedgerOutcomes.CloseOutcome | src/modules/accounting/services/accounting.service.ts:229-341 | closing posts exactly when the revenue, expense and COGS accounts do not net to zero and an equity account with a code in 3 exists; it then zeroes those three kinds, moves their sum to that account and touches no other |
| GeneralLedgerOutcomes.PostedLinesGrow | src/modules/accounting/services/accounting.service.ts:245-245 | the lines of a period are those of its POSTED entries |
| GeneralLedgerOutcomes.PeriodChangeOutcome | src/services/period-manager/period-manager.service.ts:99-254 | a change of the periods leaves the entries alone |
| GeneralLedgerOutcomes.RunOutcome | src/modules/accounting/services/accounting.service.ts:32-32 | a run takes each step in turn, a failing one changes nothing |
| PeriodClosing.DraftTakesPostings | src/services/period-manager/period-manager.service.ts:426-440 | a run that posts into a period never opened |
| GeneralLedgerService.LedgerService.PostJournalEntry | src/modules/accounting/services/accounting.service.ts:31-108 | resolves, validates and stores the entry as specified |
| GeneralLedgerService.LedgerService.ProcessEvent | src/services/journal-engine/journal-engine.service.ts:37-214 | answers with the existing entry or posts a new one |
| GeneralLedgerService.LedgerService.CreateManualEntry | src/services/journal-engine/journal-engine.service.ts:219-309 | posts into the current period after the cents test |
| GeneralLedgerService.LedgerService.ReverseJournalEntry | src/modules/accounting/services/accounting.service.ts:110-171 | marks the entry and appends its mirror |
| GeneralLedgerService.LedgerService.ClosePeriod | src/modules/accounting/services/accounting.service.ts:229-341 | the loop accumulates the specified closing lines and net income |
| GeneralLedgerService.LedgerService.GetTrialBalance | src/modules/accounting/services/accounting.service.ts:182-227 | reports each account with lines once with its totals; the grand totals cover every posted line |
| PeriodClosing.ClosingEntryIsCorrect | src/modules/accounting/services/accounting.service.ts:255-323 | the closing entry balances exactly, zeroes every revenue, expense and COGS account whatever its sign, moves retained earnings by exactly net income, and no other account |
| PeriodClosing.CloseZeroesIff | src/modules/accounting/services/accounting.service.ts:249-284 | closing zeroes those accounts exactly when an entry is posted or they were zero; one is posted exactly when retained earnings exists and net income is not zero |
| PeriodClosing.BreakEvenIsNotClosed | src/modules/accounting/services/accounting.service.ts:284-284 | a break-even period keeps its balances after closing |
| PeriodClosing.CloseSettles | src/modules/accounting/services/accounting.service.ts:229-341 | a second close would post nothing |
| PeriodClosing.ClosedPeriodIsFrozen | src/modules/accounting/services/accounting.service.ts:229-341 | after closing, no later run of postings, events, manual entries, reversals, closes and period changes alters the period's entries, lines or status |
| PeriodClosing.ClosedIsFrozenIff | src/services/period-manager/period-manager.service.ts:244-251 | a CLOSED period is frozen if and only if closing it would post nothing |
| PeriodClosing.ClosedPeriodTakesEntry | src/services/period-manager/period-manager.service.ts:244-251 | a run in which a period closed through PeriodManagerService takes a closing entry later |
| PeriodClosing.CloseKeepsOrderIff | src/modules/accounting/services/accounting.service.ts:229-341 | this close keeps the closing order exactly when every period earlier by year and month is closed |
| PeriodClosing.StepKeepsOrderIff | src/modules/accounting/services/accounting.service.ts:325-330 | of all steps on the ledger only a close past an unclosed earlier period and a backdated creation break the closing order |
| PeriodClosing.CloseKeepsPrefixIff | src/modules/accounting/services/accounting.service.ts:325-330 | for periods stored in calendar order the closed ones stay in front exactly when all before the closed one are closed |
| PeriodClosing.CloseBreaksOrder | src/modules/accounting/services/accounting.service.ts:325-330 | a run that closes February, never opened, before January |
| TrialBalance.GroupingKeepsTotals | src/modules/accounting/services/accounting.service.ts:184-208 | totals per account add up to the totals of the lines |
| TrialBalance.TrialBalanceDrift | src/modules/accounting/services/accounting.service.ts:201-208 | in every run on whole-cent amounts a period's trial balance is out by at most one cent per POSTED entry |
| TrialBalance.ChecklistItemThreeHolds | src/services/period-manager/period-manager.service.ts:309-328 | in such a run checklist item 3 never fails |
| TrialBalance.CountsGrow | src/services/period-manager/period-manager.service.ts:309-328 | both counts take the entries of the period one by one: POSTED ones, and those out by more than 0.01 |
| Reversals.RunsStaySound | src/services/journal-engine/journal-engine.service.ts:41-93 | over every run in which no caller posts an event of type JE_REVERSAL, flags a posting as auto-generated, or posts a PERIOD_CLOSING event under a period that the run closes: at most one POSTED auto-generated entry per reference; each entry is reversed at most once, by its mirror image |
| Reversals.StepKeepsKeysIff | src/modules/accounting/services/accounting.service.ts:118-167 | with no restriction on callers, a step keeps at most one POSTED auto-generated entry per reference if and only if it posts no auto-flagged entry, reversal or closing entry under a reference in force |
| Reversals.ClosingEventTakesKey | src/modules/accounting/services/accounting.service.ts:284-323 | a run of an event and a close that leaves two entries under one reference |
| Reversals.ReplayChangesNothing | src/services/journal-engine/journal-engine.service.ts:47-92 | while the entry that answered an event stands, a replay returns it and changes nothing |
| Reversals.AnsweredByItsEntry | src/services/journal-engine/journal-engine.service.ts:95-213 | an answered event has its POSTED entry, and at most one entry was added |
| Reversals.ReversalCancels | src/modules/accounting/services/accounting.service.ts:127-167 | a REVERSED entry has exactly one reversal, and counted together they net to zero on every account |
| BankReconciliation.AutoMatchIsMaximal | src/modules/invoicing/services/bank-reconciliation.service.ts:84-116 | the pairs form a valid matching (each line and payment once, equal amount, within a day), the rows record exactly it, and nothing that still fits is left |
| BankOutcomes.AutoMatchOutcome | src/modules/invoicing/services/bank-reconciliation.service.ts:60-126 | every pair is an open line of the account and a POSTED payment of equal amount at most 86400000 ms apart; lines are served in order with the first such payment left; the rows record exactly the pairs, and no such line and payment remain |
| BankOutcomes.CandidatesCounted | src/modules/invoicing/services/bank-reconciliation.service.ts:62-67 | the lines considered are the open lines of the account |
| BankOutcomes.AmountsAdd | src/modules/invoicing/services/bank-reconciliation.service.ts:112-115 | the matched amount adds up pair by pair |
| BankOutcomes.ManualMatchOutcome | src/modules/invoicing/services/bank-reconciliation.service.ts:128-154 | manual matching goes through exactly for an open line and a POSTED payment, whatever their amounts, and links only them |
| BankOutcomes.ImportOutcome | src/modules/invoicing/services/bank-reconciliation.service.ts:30-43 | importing adds one open line for every line given, with its amount and date, exactly when the account exists |
| BankOutcomes.RunOutcome | src/modules/invoicing/services/bank-reconciliation.service.ts:20-20 | a run takes each step in turn, a failing one changes nothing |
| BankReconciliation.AutoMatchIsHalfOptimal | src/modules/invoicing/services/bank-reconciliation.service.ts:84-116 | no valid matching has more than twice as many pairs |
| BankReconciliation.HalfIsTight | src/modules/invoicing/services/bank-reconciliation.service.ts:87-91 | the factor two is reached |
| BankReconciliation.RunsKeepExclusive | src/modules/invoicing/services/bank-reconciliation.service.ts:128-154 | over every run of imports, automatic and manual matching no payment is linked from two lines |
| BankReconciliation.BankReconciliationService.AutoMatch | src/modules/invoicing/services/bank-reconciliation.service.ts:60-126 | the loops make the greedy matching; matched plus unmatched is the number of lines considered; the total is the amount matched |
| BankReconciliation.BankReconciliationService.ManualMatch | src/modules/invoicing/services/bank-reconciliation.service.ts:128-154 | links an unmatched line to a POSTED payment or reports why not |
| BankReconciliation.BankReconciliationService.ImportBankStatement | src/modules/invoicing/services/bank-reconciliation.service.ts:20-43 | appends the lines unmatched, in order, if the account exists |
| Allocations.HeaderMatchesLines | src/modules/invoicing/services/invoice.service.ts:107-125 | the invoice total is the sum of its line totals, and neither part is negative |
| AllocationOutcomes.CreateOutcome | src/modules/invoicing/services/invoice.service.ts:107-145 | a new invoice is a draft whose total is the sum of quantity times price times one plus the tax rate, all of it outstanding |
| AllocationOutcomes.PostOutcome | src/modules/invoicing/services/invoice.service.ts:385-425 | posting opens exactly a draft |
| AllocationOutcomes.ReceiveOutcome | src/modules/invoicing/services/payment.service.ts:25-50 | a payment received is added with its amount |
| AllocationOutcomes.ApplySeenOutcome | src/modules/invoicing/services/invoice.service.ts:472-529 | applyPayment goes through exactly for a positive amount within what was seen outstanding on an invoice seen open, partial or overdue, from a payment that has given it nothing; what it stores, and which refusal comes first |
| AllocationOutcomes.ApplyOutcome | src/modules/invoicing/services/invoice.service.ts:483-487 | with nothing in between the invoice is seen as stored |
| AllocationOutcomes.AllocateOutcome | src/modules/invoicing/services/payment.service.ts:137-169 | every share becomes an allocation and is paid on its invoice as it stood; other invoices are unchanged |
| AllocationOutcomes.AllocateRefusals | src/modules/invoicing/services/payment.service.ts:128-135 | a missing payment and an exceeded payment are refused first |
| AllocationOutcomes.SumsGrow | src/modules/invoicing/services/payment.service.ts:130-131 | what is given and what is requested are sums |
| AllocationOutcomes.RunOutcome | src/modules/invoicing/services/payment.service.ts:123-123 | a run takes each step in turn, a failing one changes nothing |
| Allocations.RunsKeepExact | src/modules/invoicing/services/payment.service.ts:137-169 | over every run each invoice has paid = its allocations, paid + outstanding = total, outstanding >= 0, and the status that follows |
| Allocations.PaidEqualsAllocated | src/modules/invoicing/services/payment.service.ts:146-168 | paid over all invoices equals allocated over all payments |
| Allocations.AllocateSucceedsIff | src/modules/invoicing/services/payment.service.ts:122-171 | an allocation goes through exactly when the payment covers the total and every share fits its invoice as it stood, each invoice named once |
| Allocations.StepKeepsPaymentIff | src/modules/invoicing/services/invoice.service.ts:472-529 | a step keeps a payment within its amount exactly when it is not an applied amount that no longer fits |
| Allocations.PaymentNeverExceeded | src/modules/invoicing/services/payment.service.ts:130-135 | payments allocated only through allocateToInvoices never exceed their amount |
| Allocations.ApplyCanOverspend | src/modules/invoicing/services/invoice.service.ts:497-529 | a run in which a payment of 10 gives away 20 |
| Allocations.StaleApplyIff | src/modules/invoicing/services/invoice.service.ts:484-524 | with any calls completed between reading and writing, all invoice amounts are right afterwards if and only if those calls allocated nothing to the invoice |
| Allocations.StaleApplyLosesPayment | src/modules/invoicing/services/invoice.service.ts:484-524 | two overlapping calls that allocate 10 and record 5 as paid |
| Allocations.AllocationService.CreateInvoice | src/modules/invoicing/services/invoice.service.ts:119-153 | the amount fields of a new invoice |
| Allocations.AllocationService.Apply | src/modules/invoicing/services/invoice.service.ts:472-551 | checks and new amounts go by the invoice as it was read before the transaction; writes the allocation and those amounts as specified |
| Allocations.AllocationService.Allocate | src/modules/invoicing/services/payment.service.ts:122-171 | the loop applies every share or none |
| FixedAssets.SeriesClosedForm | src/modules/accounting/services/fixed-asset.service.ts:56-106 | after any series of runs, each failing anywhere with its posting refused or its update lost, accumulated depreciation is min(j m, D) for the j runs that passed the asset, and the posted amounts add up to it plus the lost charges |
| FixedAssets.PostingsAgreeIff | src/modules/accounting/services/fixed-asset.service.ts:82-103 | the journal never has less than the asset register; they agree if and only if no run lost a charge after posting it |
| FixedAssets.LostChargeIsPostedAgain | src/services/journal-engine/journal-engine.service.ts:286-288 | a run in which 100 is accumulated and 200 posted |
| FixedAssets.FullyDepreciatedIff | src/modules/accounting/services/fixed-asset.service.ts:62-78 | it never passes D and reaches D exactly from run ceil(D/m) on |
| FixedAssets.ChargeCloses | src/modules/accounting/services/fixed-asset.service.ts:67-76 | one run with cap and rounding takes min(n m, D) to min((n + 1) m, D) |
| FixedAssets.ChargeOutcome | src/modules/accounting/services/fixed-asset.service.ts:56-78 | the charge of any asset: nothing when inactive or down to salvage value, else the lesser of price less salvage over life and the rest, to the nearest cent |
| FixedAssets.FixedAssetService.Run | src/modules/accounting/services/fixed-asset.service.ts:49-109 | the loop charges and posts every asset due up to the first attempt that fails, keeps what came before it and a posting that was committed, and reports the failure |
| PriceLists.ResolutionPriority | src/modules/master-data/services/price-list.service.ts:92-167 | the price is that of the customer's own valid list with the latest start, else of the general one, else the product's, else not found |
| PriceOutcomes.PriceOutcome | src/modules/master-data/services/price-list.service.ts:82-168 | the answer for every product, customer and date from the stored fields: the customer's own valid list that started last, else the general one, else the product's price, else not found |
| PriceOutcomes.SomeListIsBest | src/modules/master-data/services/price-list.service.ts:114-125 | either no list of an owner is valid or one is the best |
| PriceOutcomes.SharedEntries | src/modules/master-data/services/price-list.service.ts:83-84 | cache entries are shared exactly within product, customer and UTC day |
| PriceOutcomes.GetOutcome | src/modules/master-data/services/price-list.service.ts:86-143 | a query changes nothing but the entry of its key |
| PriceOutcomes.CreateListOutcome | src/modules/master-data/services/price-list.service.ts:174-222 | a list starts without prices and is refused when it would end before it begins |
| PriceOutcomes.UpdateListOutcome | src/modules/master-data/services/price-list.service.ts:228-298 | exactly the given fields change |
| PriceOutcomes.UpdatePricesOutcome | src/modules/master-data/services/price-list.service.ts:304-350 | every product named gets the price asked for last, other prices stay; one unknown product and nothing changes |
| PriceOutcomes.DeactivateListOutcome | src/modules/master-data/services/price-list.service.ts:420-453 | a live list is marked deleted |
| PriceOutcomes.ProductOutcomes | src/modules/master-data/services/product.service.ts:163-258 | what creating, changing and deleting a product stores |
| PriceOutcomes.ExpireOutcome | src/modules/master-data/services/price-list.service.ts:135-141 | expiry removes one entry |
| PriceOutcomes.RunOutcome | src/modules/master-data/services/price-list.service.ts:291-295 | a run takes each step in turn |
| PriceLists.RunsKeepFresh | src/modules/master-data/services/price-list.service.ts:291-295 | in every sequential run each cached entry equals a fresh resolution of its key |
| PriceLists.AnswerIsFresh | src/modules/master-data/services/price-list.service.ts:82-168 | an answer is the fresh resolution whether it comes from the cache or not |
| PriceLists.NewListChangesNoPrice | src/modules/master-data/services/price-list.service.ts:174-222 | a new list changes no resolution, which is why creation leaves the cache alone |
| PriceLists.NewProductChangesNoPrice | src/modules/master-data/services/product.service.ts:163-171 | a new product changes no resolved price |
| PriceLists.PriceListService.GetActivePrice | src/modules/master-data/services/price-list.service.ts:82-168 | serves from the cache, or resolves and caches |
| PriceLists.PriceListService.UpdatePriceItems | src/modules/master-data/services/price-list.service.ts:304-350 | upserts all items or none and drops the active prices |
| PriceLists.PriceListService.CreatePriceList | src/modules/master-data/services/price-list.service.ts:174-222 | appends a list without prices and leaves the cache alone |
| PriceLists.PriceListService.UpdatePriceList | src/modules/master-data/services/price-list.service.ts:228-298 | changes the given fields and drops the active prices |
| PriceLists.PriceListService.DeactivatePriceList | src/modules/master-data/services/price-list.service.ts:420-453 | marks the list deleted and drops the active prices |
| PriceLists.PriceListService.ChangeProduct | src/modules/master-data/services/product.service.ts:180-258 | changes the selling price and drops the active prices |
| ChartOfAccounts.CodeLevelRange | src/modules/master-data/dto/coa.dto.ts:55-64 | a well-formed code has level 1 to 5, fixed by its length |
| ChartOfAccounts.RunsKeepLevels | src/modules/master-data/services/coa.service.ts:114-168 | over every run of create and softDelete roots have level 1, every other account its parent's level plus one, and levels stay within 1 to 5 |
| ChartOfAccounts.CreateSucceedsIff | src/modules/master-data/services/coa.service.ts:111-202 | creation succeeds exactly for a well-formed code no account ever had, one level below a live header or on level 1 |
| ChartOutcomes.LevelOutcome | src/modules/master-data/dto/coa.dto.ts:55-64 | the level of a code is its number of segments, against the grammar of a digit and up to four groups of a point and three digits |
| ChartOutcomes.CreateOutcome | src/modules/master-data/services/coa.service.ts:111-202 | creation stores the account as given on the level of its code, or changes nothing |
| ChartOutcomes.DeleteOutcome | src/modules/master-data/services/coa.service.ts:371-415 | deleting marks exactly a live account that is not a system account |
| ChartOutcomes.TreeOutcome | src/modules/master-data/services/coa.service.ts:75-92 | children are the accounts naming the parent and roots those whose parent is not given, both in input order |
| ChartOutcomes.RunOutcome | src/modules/master-data/services/coa.service.ts:111-202 | a run takes each step in turn |
| ChartOfAccounts.RunsKeepCodesUnique | prisma/schema.prisma:391 | over every run no two accounts, deleted or not, share a code |
| ChartOfAccounts.TreeIsComplete | src/modules/master-data/services/coa.service.ts:75-92 | for any selection of stored accounts in any order, walking the built trees from the roots lists every account exactly once |
| ChartOfAccounts.CoaService.BuildTree | src/modules/master-data/services/coa.service.ts:75-92 | each node's children are exactly the accounts naming it as parent, in input order, and roots are those whose parent is absent |
| ChartOfAccounts.CoaService.CreateAccount | src/modules/master-data/services/coa.service.ts:111-202 | stores the account or reports the first failed check |
| ChartOfAccounts.CoaService.DeleteAccount | src/modules/master-data/services/coa.service.ts:371-415 | marks a live non-system account deleted |
| Numbering.ParseInvertsFormat | src/services/numbering/numbering.service.ts:95-98 | type, period and counter are recovered from the number |
| Numbering.FormatIsInjective | src/services/numbering/numbering.service.ts:95-98 | different type, period or counter gives a different number |
| Numbering.PeriodIsInjective | src/services/numbering/numbering.service.ts:83-93 | the period string fixes year and month, and the day for daily types |
| NumberingOutcomes.PeriodOutcome | src/services/numbering/numbering.service.ts:83-93 | the period spells year and two digits of month, and of day exactly for POS and SHF |
| NumberingOutcomes.PrefixNames | src/services/numbering/numbering.service.ts:4-23 | each type is written as it is called |
| NumberingOutcomes.CounterOutcome | src/services/numbering/numbering.service.ts:96-96 | the counter is spelled in five digits, or more if it needs them |
| NumberingOutcomes.NumberOutcome | src/services/numbering/numbering.service.ts:95-98 | type, period and counter joined by dashes |
| NumberingOutcomes.CountersAreGapless | src/services/numbering/numbering.service.ts:108-124 | over any interleaving the counter of a type and period is how often it was counted |
| NumberingOutcomes.CallIsAnswered | src/services/numbering/numbering.service.ts:51-61 | in any reachable system a call begun, counted and answered gets the next number |
| NumberingOutcomes.ThreeAttempts | src/services/numbering/numbering.service.ts:57-77 | a call gives up exactly after its third failure |
| Numbering.NumbersAreDistinct | src/services/numbering/numbering.service.ts:51-77 | over any interleaving, with attempts that count and are then lost, no two calls get the same number |
| Numbering.StringOrderIff | src/services/numbering/numbering.service.ts:95-98 | for any two counters of a type and period, which number sorts first: the narrower counter is compared as if filled up with zeros behind, and goes first on a tie |
| Numbering.OrderHoldsIff | src/services/numbering/numbering.service.ts:96-96 | string order is issue order for all counters up to a bound if and only if the bound is at most 99999 |
| Numbering.NumberingService.Generate | src/services/numbering/numbering.service.ts:51-77 | the retry loop returns the number of the first attempt whose result arrives; every counted attempt uses up one number |
| Numbering.NumberingService.AtomicIncrement | src/services/numbering/numbering.service.ts:108-124 | creates or increments one counter |

## Left out

- Back-dated `recordMovement` calls: later rows ignore them, so the running columns are not claimed outside chronological ledgers.
- Database column rounding and IEEE floating point: arithmetic is exact.
- Document numbers and headers of transfers and adjustments are not stored in the model.
- Row locks taken by other services, foreign-key locks and statement-level snapshots finer than one read per line are not part of the session model.
- Warehouse flags are not part of the session model: there a locked warehouse is one of the reasons an attempt may abort.
- `getAccountBalance`, entry dates, cost centres, descriptions and audit fields of journal entries.
- Trial balance filtered by branch.
- `PaymentService.reverse`, which changes entries outside the rules the freezing and deduplication theorems rest on.
- The whole-run theorem on deduplication has no events of the reserved type JE_REVERSAL and no postings flagged auto-generated; what each such step does to the references is stated, for every ledger, by `StepKeepsKeysIff`.
- The CHECK constraints of prisma/migrations/20260410102341_accounting_tables/migration.sql (no negative, two-sided or all-zero lines, a POSTED entry has posted_by) and the key of `reversed_by` to journal entries (prisma/schema.prisma:1248), under which contrary-sign closing lines, two-sided events, 0/0 posting lines, manual entries and reversals would be refused. PHASE_2_DATABASE_AUDIT.md:64 reports the line checks absent from the database, so the repository is inconsistent; the model keeps only the key of lines to accounts.
- Credit and debit notes, write-offs and supplier payments of the accounts-payable module, which change invoice amounts without allocation rows.
- ChartOfAccounts.CoaService.BuildTree: nodes are addressed by account id through a map of child lists instead of by object reference; the tree cache and re-parenting through `update`, which does not recheck levels, are left out.
- Uniqueness of price-list and product codes, the price-list cache by id, and interleaved price reads and writes.
- PriceLists.PriceListService.GetActivePrice: expiry of cache entries is a separate step of the runs, not a timer.
- Concurrent calls of the other services. `PeriodManagerService` and `CoaService` check before they write, without a transaction, so two calls can pass the same check.
- `InvoiceService.dispute` and the marking of invoices as OVERDUE; with them the status of an invoice no longer follows from its amounts alone.
- Failing cache deletions: `delByPattern` in src/services/cache/cache.service.ts catches an error of Redis and logs it, so a price can outlive a change of the lists until it expires.
- Controllers, authentication, exports, seeds and the frontend.
