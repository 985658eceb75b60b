# Verified model of the billing engine, chunkers, caches, limiters and context manager

This project models the stateful core of the service in Dafny and proves what holds over all its runs.

* **Billing** (`Money`, `Pricing`, `BillingModel`, `BillingLaws`, `LimitPeriods`, `BudgetSpend`, `BillingEngine`,
  `BillingInvariants`, `Reconciliation`, `SpendingLimits`, `BillingClosing`, `BudgetFlags`, `BillingWitnesses`). Wallets, reservations, wallet
  transactions, budgets and the append-only ledger are tables; `BillingEngine.BillingTables` is the service that
  updates them, method by method. Each method is proved equal to a step function on a snapshot of the tables, and to
  do what a law says that names no step: which wallet, budget, reservation and ledger rows change, and by how much.
  The step functions are then run in any order, with any arguments, by any number of users, and conservation of
  money, hold accounting, the ledger's account of each reservation, closing once, reconciliation and lifetime
  limits are proved about every reachable state.
* **Concurrent reservations** (`ReserveRace`). `reserve` looks its key up before it takes any lock, so there its
  lookup, the locks on its limit rows, locked wallet update, insert, commit and recovery are separate steps of an
  interleaving model, and so are the steps of settlements beyond the estimate, which take the wallet before the limits.
* **Chunkers** (`Text`, `SentencePacker`, `Sections`, `SlidingWindow`, `ChunkLaws`, `ChunkDocument`). The five strategies as
  loops, what each loop computes as a function, and losslessness, coverage, fence safety and size bounds.
* **Embedding cache** (`EmbeddingCache`, `EmbedWithCache`). The keyed store with expiry, and the cached call with
  its hit/miss split, batches that may finish in any order, and scatter.
* **Rate limits** (`RateLimit`). The local log limiter, the Redis sorted-set limiter, and the middleware that falls
  back from one to the other.
* **Context assembly** (`ContextManager`). Three trimming passes for any token estimator, and an exact account of
  when the last pass ends with the service's own estimator.

## How the model represents the service

* Stored money is counted in quanta of 0.0001 and is an integer; unrounded amounts are reals in quanta. `money`
  rounds away from zero (`Money.Round`).
* A wallet is found by its user, whose id is unique in the wallet table; a reservation's id is its row number.
* A locked and committed method is one step. It works on copies of the rows and writes them when it commits, so a
  call that raises leaves only what it had already committed (a wallet created on first use by the wallet service).
* The unique columns are checked where the database checks them: ledger keys are real strings, the suffixes the
  services append are real suffixes, and a clash raises an integrity error.
* Clocks, identifiers of new wallet transactions, the provider's answers, the completion order of batches, hashes,
  the patterns that recognise code, and content type detection are parameters.
* A wallet's status may be changed at any time by someone else (`OpSetStatus`), and budgets by their owner, by budget
  checks and by the monthly reset (`OpBudget`). Limits that the request schemas refuse never reach the model's tables.
* Where the order of rows is left to the database, the model takes them in table order.
* `fuel` bounds the rounds of the two loops that need not end: the last one of `assemble` and the sliding window's.
  The theorems quantify over it. The longest loop of `assemble` that ends needs four rounds, and a window loop that
  ends needs no more than the text has characters.

## Where the code does not do what one would expect

Each of these is proved, with the condition under which it happens.

* `reconcile_wallet` compares `total_spent`, which refunds reduce, with settled ledger spend, which they do not: a
  refund alone makes a correct wallet "not ok" for ever (`Reconciliation.ReconcileExact`, `BillingWitnesses.RefundMisleads`).
* A lifetime limit L can be passed. The overrun check leaves the reservation itself out and tests only the additional
  amount, so one overrun ends past L by at most its reservation's estimate, the bound is 2L, and 2L is reached
  (`SpendingLimits.OverrunAtMostEstimate`, `SpendingLimits.LifetimeLimitHolds`, `BillingWitnesses.LimitCanDouble`).
* A settlement with a type outside the spending types moves money that the ledger's spend does not show
  (`Reconciliation.SettleKeepsLedgerIff`), and the report does not notice (`BillingWitnesses.OtherTypeOpensGap`).
* Ledger keys of top-ups and debits are built from the caller's reference, and can take the key that a settlement
  needs; that reservation can then only be released (`BillingWitnesses.TopUpBlocksSettlement`).
* A refund can clear `limit_reached` although the remaining spend still reaches the limit, and a monthly limit can be
  set at or below the spend while the flag stays clear; these two calls, and no others, leave a flag false
  (`BudgetFlags.ApplyKeepsFlag`, `BillingWitnesses.RefundMisleads`, `BudgetFlags.LoweringMisleads`).
* `reserve` returns whatever reservation has the key, whoever owns it: a caller can be handed another user's exactly
  when another user's call has the same key, both have a wallet, and the key is new (`ReserveRace.KeyIgnoresUser`).
* `reserve` locks limit rows before the wallet and a settlement beyond the estimate after it, so the two can block each
  other for good; the database then aborts one of them (`ReserveRace.PairDeadlocksIff`).
* Splitting a request can save money under some price book exactly when, for some operation, the first positive
  quantity of the whole exceeds those of the parts together, which takes a repeated operation with a negative quantity
  (`Pricing.SplitNeverSavesIff`, `Pricing.SplitRequestNeverSaves`). `calculate` accepts such quantities; the schema of
  cost estimates (app/schemas/billing.py:157-166) refuses them and the invoke route (app/api/v1/invoke/router.py:885-887)
  clamps the ones it settles with.
* The Redis limiter counts a request before it judges it, so it allows `limit - 1` requests in a window, one fewer than
  the local limiter; requests of one instance with the same clock reading count as one
  (`RateLimit.RedisWindowBound`, `RateLimit.SameTickCountedOnce`). A clock that goes back makes the local limiter
  forget allowed requests that are still in a window, and so breaks its bound; exactly when it forgets is
  `RateLimit.LogKnowsIff` (`RateLimit.BackwardClockOverruns`). During a Redis outage every process admits up to `limit`
  more (`RateLimit.OutageBound`).
* The final pass of `assemble`, described there as bounded, does not end when the last message is too large and the
  system messages leave it at least seven tokens: what a round removes, the marker gives back. With less room it
  ends, and the last message has become empty. In no case does the service's own estimator let a truncated last
  message through (`ContextManager.AssembleReturnsIff`, `ContextManager.AssembleEndsAtOnce`,
  `ContextManager.LoneMessageHangs`).
* The price book's rule for the provider itself has no precedence over the rule for every provider
  (`Pricing.ChosenIsNewest`).
* The sliding window chunker loses whatever is visible between two windows when the overlap is negative, and does not
  end when the size is not positive and the overlap not below it (`SlidingWindow.NothingLostIff`,
  `SlidingWindow.SlidingEndsIff`). The code chunker's fallback is never reached
  (`Sections.CodeFallbackIdle`).

## Model

| member | source | states |
|---|---|---|
| Money.RoundMeaning | app/services/metered_billing.py:40-41 | rounding gives the one integer at distance below one on the far side from zero, both directions |
| Money.RoundSubadditive | app/services/metered_billing.py:40-41 | rounding two nonnegative parts separately never gives less than rounding their sum |
| Pricing.ChosenIsNewest | app/services/metered_billing.py:63-79 | the rule used is the newest that applies for the model itself, without one the newest generic one, and there is none exactly when neither kind applies; provider and wildcard rules compete as equals |
| Pricing.RulesSorted | app/services/metered_billing.py:65-75 | the rule list holds exactly the active rules in force for provider, operation and model, in query order |
| Pricing.CustomerCoversProvider | app/services/metered_billing.py:82-83 | for one component the customer pays at least the provider cost if and only if the markup takes off less than one quantum |
| Pricing.AmountCoversCost | app/services/metered_billing.py:125-127 | a request's amount is its provider cost plus the rounded-up markups of its components, so it covers that cost if and only if those do not sum below zero, and always when no markup is negative |
| Pricing.PriceNearExact | app/services/metered_billing.py:82-84 | provider cost is at least price times quantity and less than one quantum above; the component price is at least price times quantity times one plus markup and less than 2 + markup quanta above |
| Pricing.SplittingNeverSaves | app/services/metered_billing.py:77-84 | for all quantities a price is monotone in the quantity and never lower when the usage is billed in two parts |
| Pricing.Calculate | app/services/metered_billing.py:86-127 | the loops compute the component list of meters then resources; each positive meter whose operation has a rule is one component with that quantity and its price, whatever the resources say; amount, provider cost and markup are exactly the sums and their difference; the markup is never negative without discounts |
| Pricing.AllMetersPriced | app/services/metered_billing.py:88-109 | each of the eight meters is priced under its own operation, and the operation's entry among the resources then has no effect |
| Pricing.HandoverSeamless | app/services/metered_billing.py:69-70 | a rule that ends when its successor begins hands over without gap or overlap |
| Pricing.ComponentsExact | app/services/metered_billing.py:88-124 | an operation is charged once, and exactly when some positive usage of it has a rule; the first such usage sets quantity and price |
| Pricing.AmountByUsage | app/services/metered_billing.py:97-125 | with distinct operations the amount is the sum of what each usage costs alone |
| Pricing.AmountByOperation | app/services/metered_billing.py:110-125 | the amount is the sum over the operations of the price of the first billable usage, resources that repeat a metered operation included |
| Pricing.SplitRequestNeverSaves | app/services/metered_billing.py:86-127 | a whole request billed in two parts never costs less than billed at once, unless an operation is named twice and has a negative quantity |
| Pricing.SplitNeverSavesIff | app/services/metered_billing.py:86-127 | for any two parts: under no sane price book does billing them apart save, if and only if for every operation the first positive quantity of the whole is at most those of the parts together |
| Pricing.ChargeIsPrice | app/services/metered_billing.py:88-117 | an operation is charged the price of its first positive quantity |
| Pricing.NegativeMeterSavesIff | app/services/metered_billing.py:110-112 | for a second reading that takes the first back, splitting saves under a given book if and only if the repeated resource costs more |
| Pricing.AmountNearExact | app/services/metered_billing.py:125-127 | the amount is at least the exact unrounded price and, when anything is charged, below it plus the sum of 2 + markup quanta over the components |
| BillingModel.CheckExact | app/services/metered_billing.py:142-159 | the limit check raises if and only if some active limit on one of the charge's scopes has no room |
| LimitPeriods.CheckByCalendar | app/services/metered_billing.py:142-159 | told by days and months: the check admits a charge if and only if for every applicable active limit the counted spend, the counted holds and the amount fit; otherwise it reports the first violated limit, user before organization, project, runtime and key, in table order within a scope |
| LimitPeriods.DailyStartIff | app/services/metered_billing.py:136-137 | the daily period starts at the one midnight that is not after now and less than a day before |
| LimitPeriods.MonthlyStartIff | app/services/metered_billing.py:138-139 | the monthly period starts at the one first-of-month midnight not after now with the next one after it, first days found by adding up years and months |
| LimitPeriods.InPeriodIff | app/services/metered_billing.py:151-153 | a row counts against a daily or monthly limit if and only if it was created on now's day, in its month, or later; against a lifetime limit always |
| BillingEngine.BillingTables.CheckLimits | app/services/metered_billing.py:142-159 | the nested loops raise nothing exactly when no limit is violated, told by days and months, and else the first violated limit in scope and table order |
| BillingEngine.BillingTables.Reserve | app/services/metered_billing.py:187-214 | the reserve step, errors included; under a new key exactly the rounded amount moves from the balance to the reserved part of the user's wallet, and the new rows carry the request, or nothing changes |
| BillingLaws.ReserveDoes | app/services/metered_billing.py:187-208 | that law, of the reserve step |
| BillingEngine.BillingTables.Settle | app/services/metered_billing.py:216-258 | the settle step; an accepted settlement spends exactly the rounded actual amount, gives the rest back or takes it, charges only this user's budget by it and sets its flag when the limit is reached, and posts the charge and the return, or nothing changes |
| BillingEngine.BillingTables.CoverOverrun | app/services/metered_billing.py:226-241 | the additional amount is held too, if limits and balance allow it |
| BillingLaws.SettleDoes | app/services/metered_billing.py:242-256 | the law of a settlement, field by field from the rows before |
| BudgetSpend.ApplySpends | app/services/metered_billing.py:246-250 | every call changes a budget's spend by exactly the settlements and counted debits it posts, less what a refund takes back, or restarts it |
| BudgetSpend.SpendIsPosted | app/services/metered_billing.py:246-250 | on every run every budget's spend is the sum of settlements and counted debits posted since its last restart, less what refunds took back |
| BillingEngine.BillingTables.PostSettlement | app/services/metered_billing.py:253-256 | the charge and the return of the unused part are posted together, or not at all when a key is taken |
| BillingEngine.BillingTables.ChargedBudgets | app/services/metered_billing.py:246-250 | the user's budget after a charge |
| BillingEngine.BillingTables.Release | app/services/metered_billing.py:260-272 | the release step; an open reservation gives its whole hold back and nothing else moves |
| BillingLaws.ReleaseDoes | app/services/metered_billing.py:260-272 | that law, of the release step |
| BillingEngine.BillingTables.ExpireReservations | app/services/metered_billing.py:274-288 | one release per expired reservation, oldest first, stopping at the first error, is the sweep of the model |
| BillingEngine.BillingTables.BillOperation | app/services/billing.py:55-97 | reserve, then settle whatever reservation came back; under a new key the wallet spends exactly the rounded actual amount, its reserved part is unchanged, and reservation and charge row carry that amount |
| BillingClosing.BillCharges | app/services/billing.py:79-97 | that law of an accepted bill |
| BillingEngine.BillingTables.AddCredit | app/services/billing.py:143-189 | the credit step; a new top-up credits exactly its amount, records it once, and clears the budget only when its flag is set and the balance positive |
| BillingLaws.CreditDoes | app/services/billing.py:153-189 | that law, of the credit step |
| BillingLaws.CreditRepeats | app/services/billing.py:148-152 | repeating a top-up under its reference, with any amount, returns the first transaction and changes nothing |
| BillingLaws.InactiveStays | app/services/billing.py:153-154 | a suspended or closed wallet is never reserved on, credited or debited |
| BillingEngine.BillingTables.DeductCredit | app/services/billing.py:191-239 | the debit step; a new debit takes exactly its amount from a balance that covers it and counts it against a budget with a limit |
| BillingLaws.DebitDoes | app/services/billing.py:203-239 | that law, of the debit step |
| BillingLaws.DebitRepeats | app/services/billing.py:196-199 | repeating a debit under its reference returns the first transaction and changes nothing |
| BillingEngine.BillingTables.RefundTransaction | app/services/billing.py:241-297 | the refund step; a refund gives back exactly what a debit of the user's own wallet took, or changes nothing |
| BillingLaws.RefundDoes | app/services/billing.py:241-297 | that law, of the refund step |
| BillingEngine.BillingTables.EnsureWallet | app/services/billing.py:103-121 | a missing wallet is created empty and committed |
| BillingEngine.BillingTables.CreateOrUpdateBudget | app/services/billing.py:594-616 | an existing budget gets the limit and keeps spend and flag; a new one starts at nothing spent |
| BillingEngine.BillingTables.UpdateBudget | app/services/billing.py:618-626 | the limit changes if there is a budget and a limit is given |
| BillingEngine.BillingTables.CheckBudget | app/services/billing.py:453-476 | the estimate passes if and only if there is no limit or it stays below; the flag is set exactly when it does not, and nothing else changes |
| BillingEngine.BillingTables.ResetMonthlyBudgets | app/tasks/billing.py:209-227 | every budget with a limit starts over |
| BillingEngine.BillingTables.ReconcileWallet | app/services/metered_billing.py:290-306 | the report is the one the model defines |
| BillingInvariants.RunsAreSound | app/services/metered_billing.py:187-272 | in every state of every run: balance + reserved + spent = top-ups, none of the four negative, the reserved part is the sum of the open holds, spend is the settled holds plus the unrefunded debits, ledger keys are unique, and each reservation's ledger rows tell exactly its state |
| BillingInvariants.ApplyKeepsSound | app/services/billing.py:143-297 | every single call keeps that |
| BillingInvariants.ReserveKeepsSound | app/services/metered_billing.py:187-208 | a reservation, accepted or refused, keeps the invariant |
| BillingInvariants.SettleKeepsSound | app/services/metered_billing.py:216-258 | a settlement keeps the invariant although an overrun changes the estimate midway |
| BillingInvariants.ReleaseKeepsSound | app/services/metered_billing.py:260-272 | a release keeps the invariant |
| BillingInvariants.RefundClampIdle | app/services/billing.py:281-281 | the clamp of the spend at zero never bites: an unrefunded debit is part of what was spent |
| BillingInvariants.RefundTakesOne | app/services/billing.py:249-282 | a refund takes exactly its debit's amount out of the unrefunded debits |
| Reconciliation.LedgerRebuildsWallet | app/services/metered_billing.py:290-306 | on runs whose settlements use the spending types the ledger and the open reservations determine all four amounts of every wallet |
| Reconciliation.SettleKeepsLedgerIff | app/services/metered_billing.py:28-37 | a settlement keeps the ledger in step with the wallets if and only if its type is a spending type or its amount is zero |
| Reconciliation.SettleGap | app/services/metered_billing.py:253-256 | how far any settlement moves wallet spend away from ledger spend: nothing, its amount, or twice its amount for a reversal |
| Reconciliation.ReconcileExact | app/services/metered_billing.py:290-306 | the report flags spend exactly when the user was ever refunded, expired reservations exactly when one is open, and never anything else |
| SpendingLimits.LifetimeLimitHolds | app/services/metered_billing.py:142-159 | for a lifetime limit L on any scope, settled spend plus open holds never exceeds L on a run without overruns nor 2L on any run |
| SpendingLimits.OverrunPassesLimitIff | app/services/metered_billing.py:226-241 | an accepted overrun ends past the limit if and only if the total before it, the reservation's estimate included, had no room for the additional amount |
| SpendingLimits.AdmittedFits | app/services/metered_billing.py:150-159 | an admitted charge leaves every applicable lifetime limit with room |
| SpendingLimits.OverrunAtMostEstimate | app/services/metered_billing.py:226-241 | an accepted overrun ends past a lifetime limit by at most its reservation's original estimate |
| SpendingLimits.SettleKeepsLimit | app/services/metered_billing.py:226-241 | a settlement keeps the total under L, or under 2L when it overruns |
| SpendingLimits.RunsKeepLimit | app/services/metered_billing.py:187-272 | the bound along every run, from the first call |
| BillingWitnesses.LimitCanDouble | app/services/metered_billing.py:226-241 | the bound 2L is reached: hold the whole limit, settle for twice as much |
| BillingWitnesses.CanDoubleAfterTopUp | app/services/metered_billing.py:187-208 | one top-up from empty tables reaches a state in which that can be done, for every such limit and key |
| BillingWitnesses.TopUpBlocksSettlement | app/services/billing.py:177-187 | a run after which a reservation cannot be settled for any amount at all, but can be released |
| BillingWitnesses.RefundMisleads | app/services/billing.py:281-284 | a run whose refund clears the flag of a budget spent twice over, and turns the report of its wallet from nothing to a spend mismatch |
| BillingWitnesses.OtherTypeOpensGap | app/services/metered_billing.py:253-253 | a run that settles with an unlisted type: the ledger lacks the amount and the report is empty |
| BillingClosing.FirstCloseWins | app/services/metered_billing.py:216-272 | once a reservation is closed, no sequence of calls changes it or posts another row about it |
| BillingClosing.CloseBalances | app/services/metered_billing.py:242-256 | at close, charged plus returned is the larger of first hold and charge for a settlement, and the whole hold for a release |
| BillingClosing.SuffixesSeparate | app/services/metered_billing.py:206-256 | the engine's ledger keys of different reservations or different kinds never meet |
| BillingClosing.BlockingRowsAreForeign | app/models/billing.py:135-156 | a row that blocks the closing of an open reservation was not posted by the engine |
| BillingClosing.SettleWithinEstimateRefusedIff | app/services/metered_billing.py:216-258 | a settlement within the estimate is refused if and only if such a foreign row has its key |
| BillingClosing.BillTwice | app/services/billing.py:79-97 | billing again under one key, with any amounts, returns the first bill and changes nothing |
| BillingClosing.ExpiredIdsComplete | app/services/metered_billing.py:277-283 | every expired open reservation is in the sweep's list |
| BillingClosing.ExpiredIdsOrdered | app/services/metered_billing.py:280-280 | the list is ordered by expiry |
| BillingClosing.SweepCloses | app/services/metered_billing.py:284-288 | a sweep without errors closes exactly its batch |
| BillingClosing.ExpireClears | app/services/metered_billing.py:274-288 | a sweep with room for all leaves no expired hold open; a smaller one takes the oldest |
| BudgetFlags.ApplyKeepsFlag | app/services/billing.py:241-284 | any call keeps "spend at the limit implies the flag" for a user if and only if it is neither a refund that passes every check, clears the flag, and leaves a spend that still reaches the limit, nor a new limit that the spend reaches while the flag is clear |
| BudgetFlags.BudgetStepKeepsFlag | app/services/billing.py:594-626 | among the changes of budgets, new limits, checks and the monthly reset, only such a new limit leaves the flag false |
| BudgetFlags.FlagsTellTheTruth | app/services/billing.py:143-297 | along every run, budgets created on the way included, all flags stay honest if and only if no call of the run is one of these two |
| BudgetFlags.FlagsTrueWithoutThem | app/services/metered_billing.py:246-250 | so on every run without refunds and new limits every budget that has spent its limit says so |
| BudgetFlags.LoweringMisleads | app/services/billing.py:594-605 | a budget whose limit is set to its spend while its flag is clear |
| ReserveRace.ReserveIsIdempotent | app/services/metered_billing.py:187-214 | for every interleaving of reservations and settlements: one reservation per key, wallets lose exactly the amounts reserved on them besides what others move, at most one winner per key, and all callers of a key get the same reservation |
| ReserveRace.SchedulesAreSound | app/services/metered_billing.py:191-214 | every interleaving keeps the lock, key and result invariants |
| ReserveRace.OnlyCommitsMove | app/services/metered_billing.py:204-214 | only a commit changes the tables, a reservation by exactly the claimed amount and a settlement by exactly the additional one; a loser leaves them as they were |
| ReserveRace.BalanceAccounted | app/services/metered_billing.py:198-208 | balance plus committed holds changes only by what settlements and other services move |
| ReserveRace.StuckShape | app/services/metered_billing.py:148-149 | when no unfinished call can move, a reservation with all its limit rows waits for the wallet of a settlement that still collects its own, and somebody waits for a limit row of that reservation |
| ReserveRace.SomeoneCanMove | app/services/metered_billing.py:191-241 | so some call can move whenever no reservation waits for such a settlement |
| ReserveRace.ReservationsCanMove | app/services/metered_billing.py:191-214 | reservations alone never deadlock over limit rows, wallet rows and the unique index |
| ReserveRace.PairDeadlocksIff | app/services/metered_billing.py:194-228 | a reservation and a settlement beyond its estimate can deadlock if and only if they are on one wallet and share a limit row |
| ReserveRace.KeyIgnoresUser | app/services/metered_billing.py:191-214 | some schedule hands a reservation call another user's reservation if and only if another user's reservation call has the same key, both users have a wallet, and the key's row is not posted before |
| ReserveRace.StrangerIsHandedHold | app/services/metered_billing.py:191-193 | for any two users, if the first can pay, a schedule in which the second is handed the first's reservation, its own wallet untouched |
| Text.SentencesCoverText | app/services/chunking.py:41-43 | sentence splitting loses nothing visible, cuts at every break, yields no blank sentence, and nothing exactly for a blank text |
| Text.SplitLinesJoins | app/services/chunking.py:139-139 | lines joined by line breaks give the text back |
| SentencePacker.ChunkSemantic | app/services/chunking.py:46-81 | the packing loop computes the chunks the packing function defines, the blank filter dropping none |
| SentencePacker.Overlap | app/services/chunking.py:61-71 | the backward loop finds the kept suffix |
| SentencePacker.KeptFits | app/services/chunking.py:64-69 | what a chunk hands on is a suffix within the overlap budget |
| SentencePacker.KeptIsLongest | app/services/chunking.py:64-69 | no longer suffix fits |
| SentencePacker.PackIsSlidingCover | app/services/chunking.py:56-79 | the chunks chain by kept suffixes, their new sentences are the whole list in order, each sentence fitted when added, and each chunk ends only where the next sentence would not fit |
| SentencePacker.CoverIsUnique | app/services/chunking.py:46-81 | a list of groups is such a cover if and only if it is what the packer computes |
| SentencePacker.ChunksAreSlidingRuns | app/services/chunking.py:46-81 | chunks are contiguous runs of sentences ending ever later, the last at the end, each starting with the kept suffix of the one before and adding at least one sentence |
| SentencePacker.ChunksBounded | app/services/chunking.py:29-79 | a chunk's tokens are at most the larger of the limit and overlap plus largest sentence, and its characters at most eight times that less one |
| SentencePacker.SemanticLosesNothing | app/services/chunking.py:46-81 | without overlap the chunks show exactly what the text shows |
| Sections.MarkdownLossless | app/services/chunking.py:138-172 | for every text the sections joined by line breaks give the text back, a code block lies whole at the start of one section, and sections begin only at headings and opening fences |
| Sections.ChunkMarkdown | app/services/chunking.py:134-186 | the line state machine and the emission loop compute the Markdown chunks |
| Sections.HeadingsLossless | app/services/chunking.py:246-263 | the heading sections give the text back and hold a heading only first |
| Sections.ChunkHeading | app/services/chunking.py:242-276 | the heading loop computes the heading chunks |
| Sections.CutsExact | app/services/chunking.py:200-215 | a block starts exactly at the recognised lines after the first, outside the first run of imports and the blank line after it |
| Sections.CodeLossless | app/services/chunking.py:197-234 | the code blocks give the text back whatever the patterns recognise |
| Sections.CodeFallbackIdle | app/services/chunking.py:236-237 | a text that is not blank always yields a chunk, so the fallback is never taken |
| Sections.FindBoundaries | app/services/chunking.py:198-217 | the boundary loop computes the block boundaries |
| Sections.ChunkCode | app/services/chunking.py:189-239 | the block loop computes the code chunks |
| Sections.EmitSections | app/services/chunking.py:174-186 | fitting sections are kept, larger ones packed, blank ones skipped |
| Sections.LineChunkersLoseNothing | app/services/chunking.py:134-276 | without overlap the Markdown, heading and code chunks show exactly what the text shows |
| SlidingWindow.WindowsCover | app/services/chunking.py:289-296 | windows fit the size, all but the last fill it, neighbours share exactly the overlap, and stitching them gives the text from the start position |
| SlidingWindow.WindowsReconstruct | app/services/chunking.py:279-298 | when no window is blank the chunks without their repeated starts are the text |
| SlidingWindow.WindowsLoseNothing | app/services/chunking.py:279-298 | without overlap the chunks show what the text shows, blank windows dropped |
| SlidingWindow.NothingLostIff | app/services/chunking.py:282-296 | with an overlap that is not positive the chunks show what the text shows if and only if every position between two windows holds whitespace |
| SlidingWindow.NegativeOverlapLoses | app/services/chunking.py:282-296 | a text of two characters that loses one, for every negative overlap |
| SlidingWindow.SlidingEndsIff | app/services/chunking.py:279-298 | for every size and overlap the loop ends if and only if the text is blank, the size is positive, or the overlap is below the size |
| SlidingWindow.SlidingIsWindows | app/services/chunking.py:289-296 | with a positive size as many rounds as the text has characters are enough and give the chunks of the windows |
| SlidingWindow.ChunkSlidingWindow | app/services/chunking.py:279-298 | the loop computes its chunks for every size and overlap, negative slice bounds included, round by round |
| ChunkDocument.Chunked | app/services/chunking.py:322-391 | each strategy, asked for or detected, does what sets it apart: Markdown is cut exactly at headings and opening fences outside code, headings at headings, code at the recognised lines, windows lie at their places, everything else is a sliding cover of sentences; the chunks are marked with it, numbered, paged by what came before, with counts and hash |
| ChunkDocument.RawFollowsLaw | app/services/chunking.py:334-355 | that law of the chunk texts |
| ChunkLaws.MarkdownLaw | app/services/chunking.py:138-186 | a Markdown text is cut exactly at the headings and fences that an even number of fences precedes, and each section becomes itself if it fits, its sentences in a sliding cover if not, nothing if blank |
| ChunkLaws.FittingBlockWhole | app/services/chunking.py:147-186 | a Markdown code block whose section fits is whole in one chunk |
| ChunkLaws.HeadingLaw | app/services/chunking.py:246-276 | a text is cut exactly at its heading lines |
| ChunkLaws.CodeLaw | app/services/chunking.py:193-239 | code is cut exactly at the recognised lines outside the leading imports |
| ChunkLaws.WindowLaw | app/services/chunking.py:282-296 | the windows lie one stride apart, each of the size or up to the end, and stop at the first that reaches the end or after which none can start |
| ChunkDocument.ChunkingLosesNothing | app/services/chunking.py:322-358 | for every text, strategy and size, without overlap the chunks in order show exactly the document's visible characters |
| ChunkDocument.ChunkingEndsIff | app/services/chunking.py:344-355 | chunking ends but for the window strategy on a text that is not blank with a size that is not positive and an overlap not below it |
| EmbeddingCache.UpsertSeen | app/repositories/embedding_cache.py:37-57 | an upsert changes what is read under its key and nothing else, at every time, and keeps one row per key |
| EmbeddingCache.ExpirySweepInvisible | app/repositories/embedding_cache.py:59-71 | deleting expired rows changes no later read |
| EmbeddingCache.CacheTable.FindActive | app/repositories/embedding_cache.py:16-35 | the unexpired row of the key, if there is one |
| EmbeddingCache.CacheTable.Upsert | app/repositories/embedding_cache.py:37-57 | the row is overwritten in place or added |
| EmbeddingCache.CacheTable.DeleteExpired | app/repositories/embedding_cache.py:59-71 | the loop leaves exactly the unexpired rows in order and counts the others |
| EmbeddingCache.CacheTable.Get | app/services/embedding_cache.py:17-34 | what a reader sees under the key at that time |
| EmbeddingCache.CacheTable.Set | app/services/embedding_cache.py:36-61 | an upsert with the expiry the days to live give |
| EmbeddingCache.CacheTable.GetOrGenerate | app/services/embedding_cache.py:66-96 | the cached vector untouched, or the generated one stored for thirty days |
| EmbedWithCache.BatchesCover | app/services/embeddings.py:414-417 | the batches hold every miss once, in order, paired with its position, none above the batch size |
| EmbedWithCache.Gather | app/services/embeddings.py:419-434 | for every completion order the answers are listed by batch |
| EmbedWithCache.UpsertKeepsCoherent | app/services/embeddings.py:404-451 | storing a true vector keeps the cache coherent |
| EmbedWithCache.Embedder.LookUp | app/services/embeddings.py:378-394 | hits and misses partition the positions: the misses are exactly the lookups that find nothing, in order, and each hit holds what its lookup found |
| EmbedWithCache.MissesExact | app/services/embeddings.py:382-394 | the miss list holds each position whose lookup finds nothing once, in order, and no other |
| EmbedWithCache.StoredForThirtyDays | app/services/embeddings.py:404-412 | a stored answer is read under its text's own project, hash, version, model and provider for thirty days and not after |
| EmbedWithCache.Embedder.StoreBatch | app/services/embeddings.py:401-412 | each vector is placed at its index and stored under its key, as far as both lists reach |
| EmbedWithCache.AfterBatch | app/services/embeddings.py:401-412 | that keeps one row per key and, for true vectors, true results and a coherent cache |
| EmbedWithCache.Embedder.StoreReplies | app/services/embeddings.py:436-451 | the first error in batch order is raised, exactly the batches before it are placed and stored, and a batch of wrong length as far as it reaches |
| EmbedWithCache.AfterReplies | app/services/embeddings.py:436-451 | whatever was raised, one row per key, coherence and truth are kept, and no other project, hash, version, model or provider reads anything new |
| EmbedWithCache.Embedder.Fill | app/services/embeddings.py:396-451 | one request or several, every miss is answered and stored in place, or exactly the first error is raised |
| EmbedWithCache.Embedder.Embed | app/services/embeddings.py:365-453 | the result is the provider's embedding of each text in place, for every hit pattern, batch size and completion order; the cache stays coherent with one row per key even when the call fails; and it raises exactly the error that the provider's replies, the lengths and the batch size determine, or none |
| RateLimit.InMemoryRateLimiter.IsAllowed | app/middleware/rate_limit.py:22-33 | the pruned log, the verdict, the remaining count and the reset time |
| RateLimit.LimiterRefinesHistory | app/middleware/rate_limit.py:22-33 | with a clock that never goes back, a request is allowed if and only if fewer than the limit of all allowed requests ever lie in its window |
| RateLimit.LogIsRecentHistory | app/middleware/rate_limit.py:26-27 | the pruned log and the full history agree on all that a later request can see |
| RateLimit.WindowBound | app/middleware/rate_limit.py:22-33 | no window holds more than the limit of allowed requests |
| RateLimit.LimiterFollowsRule | app/middleware/rate_limit.py:22-33 | on a clock that never goes back the limiter allows exactly the requests that the full-history rule allows |
| RateLimit.LogKnowsIff | app/middleware/rate_limit.py:22-33 | on any clock the log knows all allowed times after a cutoff if and only if no request of the key came when one of them had left its window |
| RateLimit.RememberedWindowBound | app/middleware/rate_limit.py:22-33 | on any clock, while nothing is so forgotten, no window holds more than the limit of requests that the limiter allowed |
| RateLimit.BackwardClockOverruns | app/middleware/rate_limit.py:26-33 | a run with a clock that goes back in which the limiter allows three requests in one window, with a limit of two |
| RateLimit.LogShape | app/middleware/rate_limit.py:22-33 | on a clock that never goes back the log of every run is in time order and no longer than the limit |
| RateLimit.ResetIsExact | app/middleware/rate_limit.py:29-31 | after a refusal on such a run the key's next request is admitted if and only if the reported reset time, before truncation, has come |
| RateLimit.RedisRateLimiter.IsAllowed | app/middleware/rate_limit.py:55-78 | the new sorted set, verdict, remaining count and reset, and the configured verdict when Redis does not answer |
| RateLimit.ZsetIsRecentHistory | app/middleware/rate_limit.py:60-65 | on a clock that never goes back nor repeats a reading for one instance and key, neither trimming nor key expiry drops a request still in the window |
| RateLimit.RedisCountsEverything | app/middleware/rate_limit.py:61-70 | a request is allowed if and only if all requests in its window, refused ones and itself included, are fewer than the limit |
| RateLimit.RedisWindowBound | app/middleware/rate_limit.py:55-72 | no window holds more than the limit less one of allowed requests |
| RateLimit.SameTickCountedOnce | app/middleware/rate_limit.py:59-64 | a second request of one instance at the same clock reading changes nothing and is admitted when the first is |
| RateLimit.RateLimitMiddleware.Dispatch | app/middleware/rate_limit.py:115-123 | Redis decides when it answers; when it does not, the process's own limiter decides, or everything passes if the limiter fails open; other processes' limiters are untouched |
| RateLimit.GateSplits | app/middleware/rate_limit.py:94-123 | Redis holds exactly the requests it answered, and each process's limiter exactly those left to it |
| RateLimit.GateCounts | app/middleware/rate_limit.py:115-123 | what passes in a window is what Redis allows plus what each process allows |
| RateLimit.OutageBound | app/middleware/rate_limit.py:94-123 | through any pattern of outages no window holds more than the limit less one, plus the limit for each process |
| ContextManager.BudgetFor | app/services/context_manager.py:68-82 | a given override is the context used; the reserve exceeds neither limit unless that is below 256, and is the request when the limits allow; the margin is the share in whole tokens and at least 256; one token remains, and the parts exceed the context exactly when reserve and margin fill it |
| ContextManager.DropsOldest | app/services/context_manager.py:110-115 | dropping keeps all system messages in order, the last message, and the newest of the others |
| ContextManager.DropUntilFits | app/services/context_manager.py:110-115 | the loop drops the fewest oldest messages that make the rest fit, or all it may |
| ContextManager.OldestRemovableIndex | app/services/context_manager.py:195-202 | the first message that is neither a system message nor the last |
| ContextManager.LongestCandidateIndex | app/services/context_manager.py:150-161 | the first of the longest contents outside system messages |
| ContextManager.ShrinkUntilFits | app/services/context_manager.py:149-172 | the last loop, round by round |
| ContextManager.Assemble | app/services/context_manager.py:87-186 | the three passes, counts, warnings and breakdown together |
| ContextManager.OverflowLeavesSystems | app/services/context_manager.py:117-128 | what still does not fit after dropping consists of system messages but for the last one |
| ContextManager.AssembleTrimsOldestFirst | app/services/context_manager.py:87-186 | for any estimator, whenever assembly returns: the fewest oldest are dropped, only the last message's content may differ, system messages never do, and the result fits or nothing but system messages has content |
| ContextManager.BreakdownIsComplete | app/services/context_manager.py:205-222 | every estimated token is in exactly one part of the breakdown |
| ContextManager.BreakdownParts | app/services/context_manager.py:211-221 | which messages each part of the breakdown counts |
| ContextManager.AssembleKeepsBeginnings | app/services/context_manager.py:131-169 | for any estimator every surviving content starts like the original, and what was cut away is replaced by markers only |
| ContextManager.AssembleReturnsIff | app/services/context_manager.py:149-172 | assembly returns if and only if the last message fits beside the system messages, is one itself, or has room for at most six tokens |
| ContextManager.AssembleHangs | app/services/context_manager.py:149-172 | otherwise no number of rounds is enough |
| ContextManager.AssembleEndsAtOnce | app/services/context_manager.py:149-172 | when it returns, four rounds are enough, and a last message that was too large has no content left |
| ContextManager.LongContentNeverFits | app/services/context_manager.py:161-169 | with room for seven tokens a content that long stays that long, round after round |
| ContextManager.ContentErased | app/services/context_manager.py:161-169 | with room for at most six a content that does not fit shrinks to nothing |
| ContextManager.LoneMessageHangs | app/services/context_manager.py:149-172 | one user message longer than the budget is enough |
| ContextManager.MoreFuelSame | app/services/context_manager.py:149-172 | once the loop ends, more rounds change nothing |

## Left out

- Database, Redis and HTTP mechanics: sessions, isolation levels other than the row locks and the unique index in `ReserveRace`, column overflow, the precision of decimal contexts.
- The lock on the reservation row that `reserve` asks for in its key lookup and a settlement takes first: a lookup that finds no row locks nothing, and who waits for that row holds no other lock.
- The database's way out of a deadlock, and settlements within the estimate, which lock no limit rows and are among the other services of `ReserveRace`.
- The creation of a wallet in the middle of a concurrent `reserve`: `ReserveRace` is about wallets that exist.
- Admin adjustments of wallets and payment webhooks: they change wallets from outside and are not part of this model.
- Budget warnings at 80 and 90 percent, auto top-up settings, notifications, usage logs, auto top-up, analytics and read-only queries.
- Wallet and ledger fields without influence on money: currency, request ids, metadata, reasons.
- The amounts of `add_credit` and `deduct_credit`, monthly limits and estimates are taken to be multiples of the quantum, as the column stores them.
- A wallet that a refused `reserve` creates and does not commit is not kept, as after a rollback.
- Daily and monthly limits over whole runs: a hold made in one period and settled in the next is not checked again, so only the check itself (`BillingModel.CheckExact`) covers them.
- SpendingLimits.LifetimeLimitHolds: excludes direct debits of the limited user, which write settled spend without asking any limit.
- Reconciliation.LedgerRebuildsWallet: is about settlements with the listed spending types; `Reconciliation.SettleKeepsLedgerIff` says what the others do.
- Pricing.SplittingNeverSaves: like the other theorems about sums of prices, assumes no negative price and no markup below minus one, which the price book's columns do not enforce.
- Document ids, sources, languages, headings and section names of chunks, and the detection of languages and content types.
- The regular expressions that recognise imports and code boundaries are parameters; the theorems hold for every pattern.
- EmbedWithCache.Embedder.Embed: assumes that a content hash determines the embedding and that the provider embeds each text by itself; a negative batch size is modelled as the empty list of batches that the code builds.
- Providers, hashing, concurrency limits of batches: a positive limit affects only when batches finish, and every completion order is covered.
- RateLimit.RedisWindowBound: assumes clock readings that never go back nor repeat for one instance and key, and that Redis's own clock agrees with the service's; `RateLimit.SameTickCountedOnce` says what equal readings do.
- RateLimit.OutageBound: numbers the processes from zero and is for a limiter that does not fail open; one that does admits everything during an outage.
- A middleware configured without Redis: it asks the local limiter alone.
- Request keys of the middleware, response headers and the paths it skips.
- The model registry behind `budget_for`: its answer is a parameter. Contents and roles that are not strings.
- `pressure`, a rounded quotient of two numbers the assembly already reports.
