# Cometa bank: verification model

Cometa is a personal bank on an append-only ledger. A device may keep its own copy, or the server holds the
one authoritative copy and clients adopt its revisions. This project models that behaviour in Dafny and proves
what the repository promises about it.

**The ledger.** `BankState` moves under commands (`BankCommands`) and under time (`BankDomain`). The strict
parser that accepts a state is the invariant: `BankValidity.Valid` states it conjunct by conjunct, and
`Sound` is all of it but the last check, which settles interest on a copy. The main theorems say which commands
keep it (`CommandProofs`, `Preservation`), that materialisation keeps it without conditions (`DomainProofs`), and when
the server's transition throws (`ServiceProofs`). `SampleBank` is a concrete accepted bank.

What the functions of the model mean is stated apart from them: conversions, quotes and limits in real money
(`CurrencyProofs`), written amounts at their decimal value (`AmountProofs`), interest over calendar days (`Calendar`,
`Interest`), acceptance in plain terms (`AcceptedBank`), and for every command why it is refused, in the order of the
checks, and what it writes, field by field (`EntryOutcomes`, `StandingOutcomes`, `CreationOutcomes`,
`CatchUpOutcomes`, `ServiceOutcomes`, in the terms of `CommandTerms`).

Four results differ from what the source expects of itself. The first three concern its rule that no command ever
breaks the invariant, the last one the question put to the user before a server copy replaces a local ledger:

- Closing an empty account that has no ledger row succeeds, but the invariant wants a last row with balance
  zero for every closed account. The closing keeps the invariant exactly when the account has a row.
- Opening an account accepts numbers with leading, trailing or doubled spaces, which the invariant refuses. The
  opening keeps the invariant exactly when the number is spaced normally.
- A command applied directly while interest is due may take the last sequence number, and the interest can
  then never be posted. It can be posted exactly when none is due before the command, or the command settles the
  savings account itself, or the sequence number before the command plus the number of rows that the command adds
  is below the largest safe integer. That number is computed from the state before the command; for a resumed rule
  from balances, terms and schedules, without building a ledger (`CatchUpTally`, `RowCount`). On the server this
  cannot happen, because interest is settled first.
- The comparison that decides whether the user is asked looks at the tab's memory, not at the stored snapshot. When
  another tab has committed in between, a server copy that equals the old memory replaces the newer snapshot and
  nobody is asked. An acceptable answer replaces the snapshot exactly when there is a receipt, or the tab has nothing
  to confirm, or the user has approved, or the tab's memory is the answer. As long as no other tab has written since the
  memory was the stored snapshot, nothing different is replaced that way.

So `Preservation.CommandKeepsValid` is an equivalence with the first three conditions, all decided before the command
is applied, and each condition has a concrete input in `SampleBank`. Conversely the cap of 64 on merged warnings,
which the code guards with an exception, is shown never to be exceeded.

**The server's log.** `OperationLog` specifies one transaction on the tables of states, operations and
messages; `Repository` is the class that performs it step by step with rollback; `OperationRuns` and `ServerRuns`
follow arbitrary interleavings of fresh calls, retries, reads and deliveries.

**The client's cutover.** `Receipt` is the record of adopted revisions and left epochs. `Cutover` is a state
machine of several tabs under one lock in which every storage write is a step and a tab may die in between.

**Smaller pieces.** `RateLimit`, `UpdateLog` and `Poller`, `OutboxDelivery`, and the printer and parser of amounts
(`Money`).

Modelling choices:

- Money is `int` with the safe-integer bound 2^53 - 1 wherever the source checks it. Minor units follow
  ISO 4217, month lengths and leap years section 5.7 and Appendix C of RFC 3339.
- A date is its year, month and day; an instant is a UTC date with milliseconds. An occurrence key is a rule and
  a month. Rates are decimals in units and places. Interest is computed over exact reals.
- Texts arrive normalised, as an option that is absent where the normaliser refuses. The clock, the network, the
  outcome of sending and the handler of an update are parameters.
- A transition that throws is `None`; a thrown range error inside the domain is `None` as well.
- Classes and loops of the source are classes and methods here, each proved against a specification function;
  pure code is functions and lemmas. Every induction is written out in the lemma that needs it.

Where code and comments of the repository disagree, the code is modelled: the comment that one command limit keeps
settlement inside the safe range is not assumed, the settlement check stays a condition of its own.

## Model

| member | source | states |
|---|---|---|
| Calendar.OccurrenceDates | src/domain/recurring.ts:99-115 | The loop computes the schedule: the dates due so far and the next one, or nothing beyond the cap or the calendar |
| Calendar.ScheduleIsMonthly | src/domain/recurring.ts:99-115 | A schedule has one date per calendar month on the anchor day clamped to the month, all on or before the day, the next one after it |
| Calendar.ScheduleExists | src/domain/recurring.ts:99-115 | A schedule exists as soon as one of the next occurrences within the cap is still to come |
| Calendar.NoSchedule | src/domain/recurring.ts:99-115 | No schedule exists when more dates are due than the cap allows |
| Calendar.CatchUpComposes | src/domain/recurring.ts:219-293 | Due dates up to one day followed by those from there to a later day are the due dates up to the later day |
| Calendar.CapKeepsDatesInWindow | src/domain/recurring.ts:233 | The cap of 120 occurrences alone puts every due date inside the ten-year window, leap days and month ends included |
| Calendar.CapIsTight | src/domain/inputValidation.ts:56-62 | With one occurrence more the catch-up would post a date that the window refuses |
| Calendar.NextIsFollowingMonth | src/domain/inputValidation.ts:82-89 | The next occurrence lies in the following month on the anchor day, and is missing exactly past year 9999 |
| Calendar.OccurrenceOrder | src/domain/inputValidation.ts:64-80 | Occurrences are ordered as their months, whatever the month lengths |
| Calendar.EpochDayIsCalendarOrder | src/domain/interest.ts:8-15 | UTC day numbers order dates exactly as their strings do, and tell different dates apart |
| Calendar.DayNumbersCountDays | src/domain/interest.ts:8-15 | Day numbers start with 1970 and their difference is the number of steps from day to day, by month lengths and leap years |
| Calendar.AllowedIsTenYears | src/domain/inputValidation.ts:56-62 | A date is allowed exactly when it has come and its tenth anniversary has not passed |
| Currency.Gcd | src/domain/currency.ts:44-53 | The loop finds the greatest common divisor |
| Currency.DecimalRate | src/domain/currency.ts:55-66 | The fraction of a decimal rate is in lowest terms and has its value |
| Currency.RoundMagnitudeIsRounded | src/domain/currency.ts:72-87 | The rounded quotient is the integer that the rounding mode asks for |
| Currency.RoundRatioOfEqualRatios | src/domain/currency.ts:72-87 | Equal ratios round to the same integer, reduced or not |
| Currency.ConvertMoneyAtBaseRates | src/domain/currency.ts:120-149 | The conversion with reduced rates gives what the unreduced rates give, and fails exactly beyond the safe integers; what that ratio is worth is the next row |
| CurrencyProofs.ConversionIsWorth | src/domain/currency.ts:120-149 | In major units, the credited amount at the source rate is the paid amount at the target rate, up to half a minor unit of the target |
| Currency.TrimKeepsValue | src/domain/currency.ts:167-170 | Cutting trailing zeros of a quote keeps its value |
| Currency.NonZeroConversionHasQuote | src/domain/currency.ts:152-171 | A conversion that credits something has a positive quote of at most 64 characters |
| CurrencyProofs.QuoteIsCrossRate | src/domain/currency.ts:152-171 | The quote is target rate over source rate, exact to half a unit of its eighteenth place |
| CurrencyProofs.LimitIsHundredThousandDollars | src/domain/commandLimits.ts:29-44 | The limit of a command is a hundred thousand dollars' worth, whatever the currency and rate |
| CurrencyProofs.RateInWriting | src/domain/bankState.ts:81-88 | Which decimals are rates: positive, and at most 64 characters in writing |
| CurrencyProofs.SafeIntegers | src/domain/currency.ts:89-95 | The bound of the safe integers is 2^53 - 1 |
| Money.PrintThenParse | src/domain/money.ts:159-195 | Parsing the printed amount gives the amount back, in both locales, when no digits are hidden |
| Money.ParsePrinted | src/domain/money.ts:20-48 | Parsing any printed amount gives the visible amount |
| Money.HiddenDigitsRound | src/domain/money.ts:20-48 | With hidden digits the plain form is the largest visible amount not above, the shortfall form the smallest not below |
| AmountProofs.WrittenIsRead | src/domain/money.ts:159-195 | A number written with the locale's separators, short fractions included, is read at its decimal value, or refused for zero or size alone |
| AmountProofs.ReadIsWritten | src/domain/money.ts:159-195 | Whatever the parser accepts is a number written that way |
| AmountProofs.PrintedIsValue | src/domain/money.ts:20-48 | A printed amount has the decimal value of the visible amount, all its places, and the sign of the amount |
| AmountProofs.GroupsOfThree | src/domain/money.ts:15-18 | Read from the right, every fourth character of a grouped number is a separator |
| Ledger.FindBalance | src/domain/ledger.ts:8-15 | The backward scan finds the snapshot of the account's last row |
| Ledger.LedgerErrors | src/domain/invariants.ts:7-25 | The check reports nothing exactly when every row agrees with the running sum, the order and the integer range |
| Ledger.BalanceIsSum | src/domain/ledger.ts:8-15 | On a consistent ledger the balance is the sum of the account's amounts |
| Ledger.ConsistentAppend | src/domain/ledger.ts:25-56 | Appending a stamped row keeps the ledger consistent |
| Posting.PostKeepsSound | src/domain/ledger.ts:25-56 | A row that an open account takes keeps the whole invariant |
| Posting.NewGroupIsFresh | src/domain/transfer.ts:167-189 | The group identifier of a new transfer is not taken by any older row |
| Posting.BalanceIsNatural | src/domain/bankState.ts:478 | Every balance of a state that the invariant accepts is a non-negative safe integer |
| AcceptedBank.AcceptedAccounts | src/domain/bankState.ts:443-486 | What acceptance promises of accounts: number, identifiers, roles, currencies, rates and times |
| AcceptedBank.AcceptedRows | src/domain/bankState.ts:443-486 | What it promises of a row: number, name, order, balance as the sum so far, time |
| AcceptedBank.AcceptedPostings | src/domain/bankState.ts:308-340 | What it promises of a row on its account: lifetime, date within ten years, a closed account empty |
| AcceptedBank.AcceptedRules | src/domain/bankState.ts:443-486 | What it promises of rules, cards, contacts and remembered identifiers |
| AcceptedBank.AccountExactly | src/domain/bankState.ts:108-116 | Which accounts are accepted by themselves, in plain terms and in both directions |
| AcceptedBank.RowExactly | src/domain/bankState.ts:131-143 | Which rows are, likewise |
| AcceptedBank.PostingExactly | src/domain/bankState.ts:308-340 | Which rows are accepted on which account |
| AcceptedBank.RuleExactly | src/domain/bankState.ts:157-160 | Which rules are accepted by themselves, likewise |
| AcceptedBank.CardsExactly | src/domain/bankState.ts:468-471 | Which cards are |
| AcceptedBank.ContactsExactly | src/domain/bankState.ts:149-151 | Which contacts are |
| AcceptedBank.RecentsExactly | src/domain/bankState.ts:443-444 | Which remembered identifiers are |
| AcceptedBank.RatesExactly | src/domain/bankState.ts:90-109 | Which rates are |
| AcceptedBank.SequenceExactly | src/domain/bankState.ts:478 | Which next sequence number is |
| OccurrenceCheck.IsRuleContinuous | src/domain/bankState.ts:342-372 | The walk over a rule's months decides that its rows are exactly one per month up to the next occurrence, on the anchor day |
| OccurrenceCheck.IndexRows | src/domain/bankState.ts:346-359 | Collecting and indexing the rows of a rule by their month |
| OccurrenceCheck.RowsAreMonths | src/domain/bankState.ts:342-372 | With unique occurrence keys a rule has as many rows as months |
| OccurrenceCheck.IsRecurringStartBounded | src/domain/bankState.ts:418-437 | The loop decides that a rule started within the window with at most 120 occurrences |
| TransferGroupCheck.HasValidTransferGroups | src/domain/bankState.ts:286-306 | Collecting the groups and judging each decides the condition on all groups |
| TransferGroupCheck.CollectGroups | src/domain/bankState.ts:288-293 | The map holds the rows of every group in ledger order, and misplaced group or exchange fields are found |
| TransferGroupCheck.GroupCheckIsPairing | src/domain/bankState.ts:286-306 | On a consistent ledger that condition is the pairing of the invariant: each transfer is two neighbouring legs in a group of their own |
| Interest.InterestIsNearest | src/domain/interest.ts:17-32 | Interest is what compounding day by day gains over the calendar days since the anchor, rounded to the nearest minor unit |
| Interest.NoInterestBackwards | src/domain/interest.ts:17-32 | A clock behind the anchor yields nothing |
| Interest.InterestGrows | src/domain/interest.ts:17-32 | Interest is never negative and never falls with time |
| Settlement.SettleAccountKeepsSound | src/domain/interest.ts:34-67 | Settling an account keeps the invariant within the row limit |
| Settlement.SettleAllKeepsSound | src/domain/interest.ts:69-84 | Settling all accounts keeps the invariant within the row limit |
| Settlement.SettleAllFrame | src/domain/interest.ts:69-84 | Settlement appends at most one row and otherwise moves accrual anchors only |
| Settlement.SettleNeedsRoom | src/domain/interest.ts:69-84 | Settlement fails exactly when interest is due that, or whose balance, is no safe integer, or whose sequence number is used up |
| Settlement.SettledIsFixed | src/domain/interest.ts:34-67 | After a settlement every later one on the same UTC day changes nothing and nothing is due |
| Settlement.OneSavingsAccount | src/domain/bankState.ts:378-409 | The canonical roles admit exactly one savings account |
| EntryOutcomes.SettlementOutcome | src/domain/interest.ts:34-67 | An open savings account with a rate and an earlier anchor gets its interest row and its anchor moves; any other is left alone |
| Recurring.MaterializeRecurringRules | src/domain/recurring.ts:219-293 | The loop over the rules is the fold of their turns, state and warnings in order |
| Recurring.CatchUpRule | src/domain/recurring.ts:228-290 | One due rule: the guards in their order, then all postings or none |
| Recurring.PostEach | src/domain/recurring.ts:265-277 | The postings one after the other; one failure discards all |
| RecurringProofs.FutureKeyIsFree | src/domain/recurring.ts:75-97 | No row has an occurrence key from the rule's next occurrence on |
| RecurringProofs.PostAllKeepsSound | src/domain/recurring.ts:265-290 | Posting a run of months and moving the rule past them keeps the invariant and appends exactly those rows |
| RecurringProofs.StatusKeepsSound | src/domain/recurring.ts:206-217 | Changing the status of a rule keeps the invariant |
| CatchUpProofs.NothingIsDropped | src/domain/recurring.ts:234-237 | The filter for months that have a row already never drops a due date |
| CatchUpProofs.AllDueOrNone | src/domain/recurring.ts:219-293 | A due rule either posts one row for every due month and moves past them, or posts nothing and is paused with a warning |
| CatchUpProofs.MaterializeKeepsSound | src/domain/recurring.ts:219-293 | A pass keeps the invariant, only appends, stays within the limit, and leaves no rule due |
| CatchUpProofs.NothingDueNothingDone | src/domain/recurring.ts:219-293 | With no rule due a pass changes nothing and warns of nothing |
| CatchUpTally.PostsIffRoom | src/domain/recurring.ts:265-277 | Dates without rows can be posted exactly when sequence and balance have room for all of them |
| CatchUpTally.TallyIsExact | src/domain/recurring.ts:219-293 | Which rules post, how many rows a pass adds and what balances it leaves follow from balances, terms and schedules alone |
| CatchUpOutcomes.DueExactly | src/domain/recurring.ts:229-232 | A rule is due exactly when it is active, its next occurrence has come and its account is an open checking account |
| CatchUpOutcomes.TurnOutcome | src/domain/recurring.ts:233-290 | Which reason pauses a due rule and with which amounts, and otherwise the exact rows it posts |
| CreationProofs.CreateIsCreated | src/domain/recurring.ts:117-204 | A created rule has all its past occurrences in the ledger, one per month, and the invariant holds |
| CreationProofs.AddRuleKeepsSound | src/domain/recurring.ts:175-190 | A new rule without rows keeps the invariant |
| CreationOutcomes.CreationOutcome | src/domain/recurring.ts:117-204 | Why a creation is refused, in the order of the checks, and otherwise the rule and the rows it adds, field by field |
| TransferProofs.SnapshotIsValid | src/domain/transfer.ts:65-86 | Every exchange that credits something writes a snapshot that the invariant accepts |
| TransferProofs.TransferKeepsSound | src/domain/transfer.ts:92-223 | A transfer within the row limit keeps the whole invariant |
| TransferProofs.ReplayedTransfer | src/domain/transfer.ts:96-98 | A transfer succeeds without being applied exactly when its identifier is well-formed and remembered, and then the state is the same |
| TransferProofs.AppliedParts | src/domain/transfer.ts:99-126 | An applied request pays a safe positive amount from an open account to another open account or a contact, under a fresh identifier |
| EntryOutcomes.TransferOutcome | src/domain/transfer.ts:92-223 | Why a transfer is refused, in the order of the checks, and otherwise the rows, the contact and the identifiers it writes |
| TransferEffects.TransferConserves | src/domain/transfer.ts:153-189 | The payer loses the amount, the payee gains its conversion, both first receive their pending interest, no other balance changes |
| TransferEffects.TransferRecents | src/domain/transfer.ts:214-222 | An applied transfer remembers its identifier among the last fifty, any other outcome none |
| TransferEffects.LastOfLast | src/domain/transfer.ts:220 | Remembering one identifier after another keeps the last fifty of all |
| ManualProofs.RecordKeepsSound | src/domain/manualTransactions.ts:46-101 | A recorded transaction keeps the invariant |
| ManualProofs.RecordMovesOneBalance | src/domain/manualTransactions.ts:46-101 | It moves its account's balance by exactly the amount entered and no other balance |
| ManualProofs.AdjustKeepsSound | src/domain/manualTransactions.ts:125-170 | An adjustment keeps the invariant |
| ManualProofs.AdjustHitsTarget | src/domain/manualTransactions.ts:125-170 | After an adjustment the balance is the target, pending interest included, and no other balance changed |
| EntryOutcomes.RecordOutcome | src/domain/manualTransactions.ts:46-101 | Why an entry is refused, in the order of the checks, and otherwise the row it writes, field by field |
| EntryOutcomes.AdjustOutcome | src/domain/manualTransactions.ts:125-170 | Why an adjustment is refused, and otherwise the correction it writes after the settlement |
| OpeningProofs.AddIsSoundIffNormalised | src/domain/accountLifecycle.ts:37-95 | A successful opening keeps the invariant exactly when the number has no leading, trailing or doubled space |
| StandingOutcomes.OpeningOutcome | src/domain/accountLifecycle.ts:37-95 | Why an opening is refused, and otherwise the account and the row it adds |
| LifecycleProofs.CloseIsSoundIffRow | src/domain/accountLifecycle.ts:97-144 | A successful closing keeps the invariant exactly when the account has a ledger row |
| LifecycleProofs.CloseAppendsNothing | src/domain/accountLifecycle.ts:97-144 | A closing appends no row, on savings either |
| LifecycleProofs.RestoreKeepsSound | src/domain/accountLifecycle.ts:146-205 | Restoring an account keeps the invariant |
| LifecycleProofs.RestoreUndoesClose | src/domain/accountLifecycle.ts:97-205 | Restoring straight after closing gives back the state exactly, except the accrual anchor of a savings account |
| StandingOutcomes.ClosingOutcome | src/domain/accountLifecycle.ts:97-144 | A closing settles, refuses money left and the last open account, and stops exactly what depends on the account |
| StandingOutcomes.RestoringOutcome | src/domain/accountLifecycle.ts:146-205 | A restoring refuses a second open account in a currency and starts exactly what the closing stopped |
| CommandProofs.CommandKeepsSound | src/domain/bankCommands.ts:267-420 | Every successful command keeps all conjuncts but the last exactly when it is acceptable |
| CommandProofs.CommandMoves | src/domain/bankCommands.ts:267-420 | Every successful command only appends to the ledger and keeps accounts, rules, owner and rates |
| CommandProofs.ResumeKeeps | src/domain/bankCommands.ts:305-320 | Resuming a rule with its catch-up keeps the invariant |
| CommandProofs.FreezeKeeps | src/domain/bankCommands.ts:369-391 | Freezing and unfreezing a card keeps the invariant |
| StandingOutcomes.PauseOutcome | src/domain/bankCommands.ts:294-304 | Pausing marks that rule as paused by hand and nothing else |
| StandingOutcomes.ResumeOutcome | src/domain/bankCommands.ts:305-320 | Resuming makes a paused rule of an open account active and catches up |
| StandingOutcomes.SwitchingOutcome | src/domain/bankCommands.ts:369-391 | A frozen card is frozen by hand, an unfrozen one active, on an open account; no other card changes |
| StandingOutcomes.SettingsOutcome | src/domain/bankCommands.ts:354-368 | Currency and name change alone, and count as applied exactly when they change |
| StandingOutcomes.SettlingOutcome | src/domain/bankCommands.ts:392-420 | A settlement settles the savings account, or is refused when its row does not fit |
| RowCount.RowsAreForetold | src/domain/bankCommands.ts:267-420 | A successful command adds exactly the rows foretold from the state before it, interest and occurrences included |
| Preservation.SettlingLeavesNothingDue | src/domain/transfer.ts:153-162 | A transfer or adjustment that touches the savings account leaves no interest due |
| Preservation.CommandKeepsValid | src/domain/bankState.ts:443-486 | A successful command leads from an accepted state to an accepted one exactly when it is acceptable and leaves room for the interest due, both decided before the command |
| SampleBank.SampleIsValid | src/domain/bankState.ts:443-486 | A concrete bank is accepted, with interest pending |
| SampleBank.ClosingWithoutRowIsRefused | src/domain/accountLifecycle.ts:97-144 | Closing an empty account that never had a row succeeds with a state that the invariant refuses |
| SampleBank.SpacedNumberIsRefused | src/domain/accountLifecycle.ts:8 | A number with a leading space passes the pattern and fails the invariant |
| SampleBank.UsedUpSequenceIsRefused | src/domain/ledger.ts:25-56 | With interest due, taking the last sequence number leaves no room by the condition, and a state that the invariant refuses |
| DomainProofs.MaterializeKeepsValid | bot/bank-domain.ts:107-123 | Materialising an accepted state always succeeds, leads to an accepted state, and leaves no rule due |
| DomainProofs.MaterializeMoves | bot/bank-domain.ts:107-123 | It only appends to the ledger |
| ServiceOutcomes.InterestComesFirst | bot/bank-domain.ts:107-123 | Interest comes before the rules, which have room up to the limit of rows when it fits |
| DomainProofs.MaterializeTwice | bot/bank-domain.ts:107-123 | A second materialisation on the same UTC day changes nothing and warns of nothing, the deferred case included |
| DomainProofs.DeferredAddsNothing | bot/bank-domain.ts:107-123 | When the interest does not fit, materialisation changes nothing but to pause exactly the due rules for lack of capacity, with one warning for each in order |
| WarningProofs.MaterializationWarnings | bot/bank-domain.ts:47-99 | Each rule warns at most once, and every warning has a rule of the state and its amounts behind it |
| WarningProofs.MergedWarningsFit | bot/bank-service.ts:200-216 | Materialising and then resuming a rule never gives more than 64 merged warnings |
| WarningProofs.MergedOnce | bot/bank-service.ts:200-216 | Merging keeps every rule and reason exactly once |
| BankService.MergeWarnings | bot/bank-service.ts:200-216 | The loop with its set of keys computes the merged list |
| ServiceProofs.TransitionThrows | bot/bank-service.ts:535-652 | On an accepted state the transition of a command throws exactly when the command succeeds on the materialised state and is not acceptable there |
| ServiceProofs.TransitionCommits | bot/bank-service.ts:535-652 | A committed transition leaves an accepted state and a storable outcome; a refused command leaves the very state it found |
| ServiceProofs.TransitionMoves | bot/bank-service.ts:535-652 | A committed transition only adds to the ledger |
| ServiceOutcomes.TransitionOutcome | bot/bank-service.ts:535-652 | The answer and the state of every command on an accepted state: reason and amounts of a refusal, or the outcome with the warnings of both passes |
| ServiceOutcomes.ServedCommandQueues | bot/bank-service.ts:576-648 | A committed command from Telegram always queues its answer, any other its warnings or nothing |
| ServiceOutcomes.ReadQueues | bot/bank-service.ts:379-402 | A read queues its warnings, if it has any, under the identifier of its revision |
| ServiceProofs.ClientForeseesServer | src/store/bankStore.ts:94-114 | The client asks for a settlement exactly when the validated transition of a settle command commits without failure and changes the state |
| ServiceProofs.BootstrapSucceeds | bot/bank-service.ts:379-402 | Reading an accepted state never fails, and has a message only when the state changed |
| ServiceProofs.RingHoldsLastFifty | src/domain/transfer.ts:214-222 | Over any run the ring is the last fifty of all applied identifiers, in order |
| ServiceProofs.AppliedOnceInFifty | src/domain/transfer.ts:96-98 | Over any run equal identifiers are applied more than fifty transfers apart |
| ServiceProofs.RunOnlyAppends | bot/bank-service.ts:748-772 | Over any run the ledger only grows and the reached state is accepted |
| Repository.BankRepository.ExecuteBankOperation | bot/repository.ts:839-923 | Replay, room, transition, state, row and message in one transaction, rolled back on failure; what that writes is in the rows below |
| Repository.BankRepository.ImportBankState | bot/repository.ts:779-837 | The first state of a user at revision one, or the stored answer, or a refusal |
| Repository.BankRepository.MutateBankState | bot/repository.ts:925-996 | A change outside user operations; its own operation identifier is never taken |
| Repository.BankRepository.MakeRoomForFreshUserOperation | bot/repository.ts:1570-1622 | Deletes exactly the oldest rows without a message, as many as needed, or none |
| Repository.BankRepository.CountOperations | bot/repository.ts:1575-1584 | Counts the user's rows of both user sources |
| Repository.BankRepository.SelectCandidates | bot/repository.ts:1588-1602 | Finds the oldest evictable rows, and as many as asked exactly when there are that many |
| Repository.BankRepository.CompleteBankOutbox | bot/repository.ts:1350-1354 | Removes the message and says whether it was there |
| Repository.BankRepository.DeferBankOutbox | bot/repository.ts:1324-1348 | Records an attempt only forwards and says whether it did |
| Repository.DeletingIsEvicting | bot/repository.ts:1603-1621 | Deleting the candidates one after the other is the eviction |
| OperationLogProofs.ExecuteKeepsSound | bot/repository.ts:839-923 | A user operation keeps keys, identifiers, revisions and messages in order |
| OperationLogProofs.ExecuteWrites | bot/repository.ts:872-920 | A commit stores the state, one row and, for a message, one outbox row for its operation, user and chat, due at once; anything else writes nothing |
| OperationLogProofs.FreshOperationFails | bot/repository.ts:839-911 | Why a fresh operation fails, in the order of the checks; without these reasons it commits |
| OperationLogProofs.EvictionIsMinimal | bot/repository.ts:1570-1622 | No row is evicted below the limit, and a full log stays exactly full |
| OperationLogProofs.RetentionHolds | bot/repository.ts:1570-1622 | After a committed user operation the user's rows are within the limit; the rows removed are the oldest without a message |
| OperationLogProofs.RevisionCountsChanges | bot/repository.ts:872-898 | The revision rises by one exactly when the state changes, and no other user's state is touched |
| OperationLogProofs.RetryIsAnswered | bot/repository.ts:1503-1534 | While a row is retained a retry gets its outcome and revision and changes nothing; another command under its key conflicts |
| OperationLogProofs.MaterializationIsFresh | bot/repository.ts:960-975 | The identifier of a materialisation is never taken |
| OperationLogProofs.MutateKeepsSound | bot/repository.ts:925-996 | A materialisation keeps the tables in order and never fails for a taken identifier |
| OperationLogProofs.MutateWrites | bot/repository.ts:925-996 | What a change outside user operations writes: state, and with a message one row under its revision and one outbox row |
| OperationLogProofs.ImportKeepsSound | bot/repository.ts:779-837 | An import keeps the tables in order |
| OperationLogProofs.ImportWrites | bot/repository.ts:779-837 | What an import writes: the first state at revision one and its row, no message |
| OperationLogProofs.DeliveryKeepsSound | bot/repository.ts:1324-1354 | Delivering or putting off a message keeps the tables in order |
| OperationLogProofs.EvictsOldest | bot/repository.ts:1588-1602 | Every evictable row that stays is younger than every row that goes |
| OperationRuns.StateIsFoldOfCommits | bot/repository.ts:839-923 | After any interleaving a user's state is the fold of the committed transitions in first-commit order |
| OperationRuns.CommitsOnceWhileRetained | bot/repository.ts:1503-1534 | While a row is retained no call commits under its key again |
| OperationRuns.RetryAfterRun | bot/repository.ts:1503-1534 | However much happens in between, a retry gets the first outcome and revision as long as the row is retained |
| OperationRuns.UndeliveredStays | bot/repository.ts:1588-1621 | No call removes an operation with an undelivered message |
| OperationRuns.CommittedMessageWaits | bot/repository.ts:899-908 | The message of a committed operation is in the outbox and stays there through any run until that row is delivered |
| OperationRuns.RunKeepsSound | bot/repository.ts:839-996 | Every run keeps the tables in order |
| OperationRuns.FailuresLeaveNoTrace | bot/repository.ts:1731-1742 | Over any run the calls that fail or are answered from the log leave all tables as if they had never been made, evictions undone |
| OperationRuns.ReachableIsWithinLimit | bot/repository.ts:850-923 | From an empty database every run keeps the tables in order and no user ever has more retained operations than the limit |
| ServerRuns.ServedCommandFails | bot/bank-service.ts:483-668 | A fresh command on an accepted state fails exactly for lack of room in the log, for an unacceptable command, or at the last revision when it succeeds on the materialised state with a state other than the stored one |
| ServerRuns.RefusalIsStored | bot/bank-service.ts:555-594 | A refused command is stored with its failure while state and revision stay |
| ServerRuns.ReadFailsOnlyAtEnd | bot/bank-service.ts:379-402 | A read of an accepted state fails only at the last revision |
| ServerRuns.StoredLedgerOnlyGrows | bot/repository.ts:839-996 | Whatever calls are served with whatever retries, a stored ledger only grows |
| ServerRuns.SecondReadIsQuiet | bot/bank-service.ts:379-402 | A second read at one instant changes nothing and has no message |
| OutboxDelivery.FlushBankOutbox | bot/bank-flow.ts:946-977 | Every due message is tried once; a fatal failure is reported at the end |
| OutboxDelivery.Deliver | bot/bank-flow.ts:950-974 | A message is removed when sent or impossible to send, put off otherwise, and a message put off is still there |
| OutboxDelivery.FlushLosesNothing | bot/bank-flow.ts:946-977 | A message that failed to go out is still stored with one more attempt and a later time; others are untouched |
| OutboxDelivery.FlushRemovesSent | bot/bank-flow.ts:950-958 | A message that was sent, or can never be sent, leaves the outbox |
| OutboxDelivery.FlushPutsOff | bot/bank-flow.ts:959-974 | A failed message has one attempt more and is due after the delay for that many |
| OutboxDelivery.RetryIsBounded | bot/bank-flow.ts:605-614 | A delay is between a second and an hour, honours the provider's, and never shrinks with attempts |
| OutboxDelivery.RetryDoubles | bot/bank-flow.ts:605-614 | The delay starts with a second and doubles up to a minute; the provider's delay is a lower bound up to an hour |
| Receipt.AdvanceIsReadable | src/platform/ledgerAuthorityReceipt.ts:193-212 | Advancing always yields a receipt that the parser accepts |
| Receipt.AdoptedExactly | src/platform/ledgerAuthorityReceipt.ts:180-212 | Exactly when a revision is adopted, and that it is then the current one |
| Receipt.RefusedBecause | src/platform/ledgerAuthorityReceipt.ts:180-191 | Which refusal is given when |
| Receipt.CurrentIsLastAdopted | src/platform/ledgerAuthorityReceipt.ts:193-212 | After any run the receipt is at the revision adopted last |
| Receipt.NeverRollsBack | src/platform/ledgerAuthorityReceipt.ts:180-191 | Within a stay in an epoch adopted revisions only grow, or repeat with the same digest |
| Receipt.RetiredAreLastEight | src/platform/ledgerAuthorityReceipt.ts:193-212 | The retired epochs are the last eight that were left |
| Receipt.LeftEpochIsRefused | src/platform/ledgerAuthorityReceipt.ts:180-212 | An epoch that was left is refused until eight further epochs have been left |
| Receipt.ForgottenEpochReturns | src/platform/ledgerAuthorityReceipt.ts:180-191 | A different epoch is adopted exactly when it is not among the retired ones |
| Cutover.StepKeepsSound | src/store/bankStore.ts:372-455 | Every step, a crash between two writes included, keeps the lock exclusive and marker, snapshot and receipt in step |
| Cutover.RunKeepsSound | src/store/bankStore.ts:372-455 | In every reachable state the stored snapshot is the receipt's revision or a later accepted one |
| Cutover.NoCommitAfterMarker | src/store/bankStore.ts:316-328 | Once the marker is set it stays, and no local mutation commits in any tab |
| Cutover.MutationCommitsExactly | src/store/bankStore.ts:316-328 | A local mutation commits on the latest state exactly in local mode without the marker |
| Cutover.ImportCaptures | src/store/bankStore.ts:749-777 | An import sets the marker and captures the latest state |
| Cutover.AdoptionCompletes | src/store/bankStore.ts:372-455 | An adoption that may go ahead ends with the server's snapshot, receipt, marker and mode |
| Cutover.FailedAdoptionIsReadOnly | src/store/bankStore.ts:423-440 | What an adoption leaves when one of its three writes fails |
| Cutover.RefusedAnswerChangesMode | src/store/bankStore.ts:385-401 | A refused answer changes nothing but the mode of the tab |
| Cutover.FailedMutationStaysInMemory | src/store/bankStore.ts:301-313 | A mutation whose write fails lives in its tab alone, marked as ahead of the storage |
| Cutover.SettingsOfTab | src/store/bankStore.ts:715-748 | What launch, approval, a late report and a reload make of a tab |
| Cutover.ImportHasEveryCommit | src/store/bankStore.ts:749-777 | The snapshot captured of the local ledger contains every local commit of every tab, and whatever follows, adoption included, there are no more |
| Cutover.NoUnconfirmedReplacement | src/store/bankStore.ts:403-416 | In any run the write that replaces the stored snapshot by a different server copy comes from a tab with a receipt, with nothing to confirm, with the user's approval, or whose own memory is that copy |
| Cutover.AdoptionNeedsConsent | src/store/bankStore.ts:403-433 | An acceptable answer replaces the stored snapshot exactly under that condition, and otherwise leaves it alone |
| Cutover.SilentReplacement | src/store/bankStore.ts:403-408 | After a commit of another tab a copy equal to the old memory replaces the newer snapshot unasked |
| Cutover.NothingReplacedUnseen | src/store/bankStore.ts:1047-1057 | As long as no other tab has written since the memory was the stored snapshot, an adoption nobody was asked about stores the same state again |
| RateLimit.InMemoryBankRequestLimiter.Admit | bot/rate-limit.ts:100-182 | One request updates its window and the order of the users as specified |
| RateLimit.InMemoryBankRequestLimiter.MakeRoom | bot/rate-limit.ts:184-188 | Forgets the first user when the list is full |
| RateLimitProofs.AtMostTwice | bot/rate-limit.ts:156-181 | An interval of one window length admits at most twice the maximum of charged requests |
| RateLimitProofs.LimitHolds | bot/rate-limit.ts:100-182 | The same over whole runs of requests of all users, for a user who is not forgotten |
| RateLimitProofs.TwiceIsReached | bot/rate-limit.ts:156-181 | Twice the maximum is reached |
| RateLimitProofs.BurstAdmitsMaximum | bot/rate-limit.ts:156-181 | A fresh window admits exactly the first requests up to the maximum |
| RateLimitProofs.OldWindowIsForgotten | bot/rate-limit.ts:156-172 | A window that is over, or ahead of the clock, does not count; a replay is admitted without a charge |
| RateLimitProofs.DelayIsExact | bot/rate-limit.ts:173-178 | The delay is the least number of whole seconds after which a request of that kind is admitted |
| RateLimitProofs.TrackedAreMostRecent | bot/rate-limit.ts:166-188 | The tracked users are exactly the most recently seen ones, in that order |
| RateLimitProofs.ConsumeKeepsBounds | bot/rate-limit.ts:184-188 | The list has one entry per user and never exceeds the capacity |
| UpdateLogProofs.MarkKeepsSound | bot/repository.ts:1363-1415 | Marking keeps the watermark above every row and at most the newest 4096 rows |
| UpdateLogProofs.PrunedIsNewest | bot/repository.ts:1706-1719 | Pruning keeps exactly the newest rows |
| UpdateLogProofs.MarkedKeepsNewest | bot/repository.ts:1363-1415 | The rows after marking are the newest 4096 with the new one in its place |
| UpdateLogProofs.MarkedReplies | bot/repository.ts:1363-1415 | Processing an update ends its delivered reply and notes it on a pending one |
| UpdateLogProofs.PreparedExactly | bot/repository.ts:1421-1477 | The numbering starts over exactly when all known times are six days old; otherwise rows and watermark stay and the watermark is the offset |
| UpdateLogProofs.RepliesExpire | bot/repository.ts:1721-1729 | Preparing drops the delivered replies that are six days old and no other |
| UpdateLogProofs.RunKeepsReplies | bot/repository.ts:1072-1242 | Over any run no reply row is both delivered and processed, and no user has two pending replies |
| UpdateLogProofs.QueuedOnce | bot/repository.ts:1072-1165 | An update that queues a reply moves its session once over any run in which the reply's row stays, and a replay finds that reply |
| UpdateLogProofs.ReplayMovesNoSession | bot/repository.ts:1072-1165 | While the row of its reply exists no replay of an update moves a session again |
| UpdateLogProofs.ResumeMakesRoom | bot/bank-flow.ts:904-926 | When the handling of an update goes on its user has no pending reply, so the new one finds room |
| UpdateLogProofs.ResumeReplaces | bot/bank-flow.ts:904-926 | An update whose reply is stored is not handled again; the reply is delivered or gone afterwards |
| UpdateLogProofs.AttemptOutcome | bot/bank-flow.ts:2235-2262 | What an attempt on a stored reply does when it is sent, rejected or cannot be sent |
| UpdateLogProofs.DeliveryOutcome | bot/repository.ts:1215-1242 | A delivered reply goes when its update was processed before, and is marked otherwise |
| UpdateLogProofs.QueueOutcome | bot/repository.ts:1072-1165 | Queuing answers with the stored reply, collides, or stores reply and session together |
| UpdateLogProofs.ResumeOutcome | bot/bank-flow.ts:904-926 | Which reply is attempted before an update is handled, and what that means for the handling |
| Poller.LongPoller.RunBatch | bot/poller.ts:117-157 | The loop over a batch does what the updates ask for one after the other and keeps the failure counter |
| PollerProofs.CompletedInOrder | bot/poller.ts:110-187 | Over any run with any restarts of the numbering, updates between two restarts are completed in strictly increasing order; those since the last restart are below the watermark |
| PollerProofs.AtMostFiveFailures | bot/poller.ts:125-147 | Over any run every update but the largest possible one fails at most five times between two restarts of the numbering |
| PollerProofs.CompletedExactly | bot/poller.ts:125-147 | An update is completed exactly when its handling succeeds, fails for good, or fails for the fifth time |
| PollerProofs.UpdateEffects | bot/poller.ts:122-150 | What completing, repeating and stopping leave in rows, watermark and attempts |
| PollerProofs.LargestNeverCompletes | bot/poller.ts:151-153 | No run ever completes the update with the largest possible id |

## Left out

- The command that rebuilds the demonstration data, the fixtures and the fixture identifier: finite data.
- Unicode normalisation and the text patterns of names, notes and counterparties: texts are opaque.
- The spelling of timestamps, and the expanded year that a date computation beyond year 9999 would print.
- Floating-point error in the interest formula: it is computed over reals.
- Validity at a later instant: the settlement check depends on the clock, so a state is accepted at one instant.
- The field-by-field projections and the migration of older states, the byte limits and digests of stored JSON: a state
  is a value, and equal states stand for equal digests.
- Replacing exchange rates, fetching and caching them: the snapshot of a state is one of its fields.
- The service's checks of identifiers, sources and delivery contexts before the transaction, the expected owner of a
  state, and the contexts merged beside the warnings.
- Preferences, names and locales outside the bank, including the launch preferences that commit without looking at the
  marker; the cutover theorems do not cover them.
- The fallback for browsers without locks, and storage that cannot be read.
- Sessions of several Telegram users in one browser: the cutover model has one namespace.
- Expiry and contents of conversation sessions, the texts of replies, and the order in which pending replies are listed.
- HTTP routing, transport, authentication and SQLite itself: a transaction is one atomic step.
- OutboxDelivery.FlushBankOutbox: does not model an abort in the middle of a flush, nor the order and limit of the due rows.
- Cutover.ImportHasEveryCommit: assumes that writes of snapshots succeed, because a failed write leaves a commit in one
  tab's memory only.
- RateLimit.InMemoryBankRequestLimiter.Admit: takes the shape of identifiers and fingerprints as one flag.
- Poller.LongPoller.RunBatch: is given the outcome of each handling; the waiting between polls and its random delay are not
  modelled.
- PollerProofs.AtMostFiveFailures: counts within one life of the worker, since a new one has no attempts on record, and
  relies on the provider to answer with updates from the offset on.
- PollerProofs.CompletedInOrder: relies on the provider in the same way.
