/** What the server guarantees: a command transition throws exactly when the command is not acceptable, a
    refused command changes nothing, and what holds over whole runs of commands. */
module ServiceProofs {
  import opened Wrappers
  import opened Calendar
  import opened Currency
  import Money
  import opened BankTypes
  import opened Ledger
  import opened Interest
  import opened BankValidity
  import opened Posting
  import opened Settlement
  import opened Recurring
  import opened CatchUpProofs
  import opened Growth
  import opened SavingsProofs
  import opened Transfer
  import opened TransferProofs
  import opened TransferEffects
  import opened ManualTransactions
  import opened ManualProofs
  import opened AccountLifecycle
  import opened OpeningProofs
  import opened CreationProofs
  import opened BankCommands
  import opened CommandProofs
  import opened BankDomain
  import opened DomainProofs
  import opened BankService
  import opened WarningProofs

  // ---------------------------------------------------------------- outcomes can be stored

  /** The amounts and counts of a successful command, apart from its warnings. */
  ghost predicate HasStorableDetails(out: Outcome)
    requires out.Done?
  {
    && (out.incoming.Some? ==> 0 < out.incoming.value <= MAX_SAFE)
    && (out.backfilled.Some? ==> out.backfilled.value <= MAX_BACKFILLED)
  }

  lemma {:induction false} TransferDetails(s: BankState, q: TransferRequest, now: Instant)
    requires Sound(s, now) && TransferWithinLimit(s, q, now).Done?
    ensures HasStorableDetails(TransferWithinLimit(s, q, now)) && TransferWithinLimit(s, q, now).warnings == []
  {
    hide Sound, ApplyTransfer, TransferBetween, TransferToContact, IsClientTransferId, FxMatches, BalanceOf, PostLegs, SettleBoth, Remember,
      SettleAccount, AppendRow, Touched, TransferWithinLimit;
    TransferIsWithin(s, q, now);
    if ApplyTransfer(s, q, now).applied {
      var i, target := AppliedParts(s, q, now);
      match target
      case ToAccount(j) =>
        var settled, posted, credited, fx := BetweenParts(s, i, j, q.amountMinor, q.clientTransferId, now);
      case ToContact(c) =>
        var settled, posted := ContactParts(s, s.accounts[i], c, q.amountMinor, q.clientTransferId, now);
    } else {
      ReplayedTransfer(s, q, now);
    }
  }

  lemma {:induction false} TransferIsWithin(s: BankState, q: TransferRequest, now: Instant)
    requires TransferWithinLimit(s, q, now).Done?
    ensures TransferWithinLimit(s, q, now) == ApplyTransfer(s, q, now)
  {
    hide ApplyTransfer;
  }

  lemma {:induction false} CreationDetails(s: BankState, input: RecurringInput, now: Instant)
    requires Sound(s, now) && CreateRecurringRule(s, input, now).Done?
    ensures HasStorableDetails(CreateRecurringRule(s, input, now)) && CreateRecurringRule(s, input, now).warnings == []
  {
    hide Sound, CreateRecurringRule, Backfill, NewRule, DueThrough, MonthOccurrence, IsAllowedEffectiveDate, IsRuleId, FindRule,
      StartsLaterThisMonth, FindAccount, AppendAll, BalanceOf;
    var i, amount, first, schedule := CreationParts(s, input, now);
    var rule := NewRule(input, amount, first, schedule.next, now);
    var a := s.accounts[i];
    assert rule.amountMinor == amount by { NewRuleAmount(input, amount, first, schedule.next, now); }
    BackfillParts(s, rule, schedule.due, a.currency, s.exchangeRates.rates.Of(a.currency), now);
    OccurrenceFacts(input.startYear, input.startMonth, input.anchorDay, first);
    ScheduleIsMonthly(first, input.anchorDay, now.date, 120);
  }

  lemma {:induction false} EntryDetails(s: BankState, input: ManualInput, adjustment: AdjustInput, now: Instant)
    ensures RecordTransaction(s, input, now).Done?
            ==> HasStorableDetails(RecordTransaction(s, input, now)) && RecordTransaction(s, input, now).warnings == []
    ensures AdjustBalance(s, adjustment, now).Done?
            ==> HasStorableDetails(AdjustBalance(s, adjustment, now)) && AdjustBalance(s, adjustment, now).warnings == []
  {
    hide AppendRow, BalanceOf, SettleAccount, FindAccount, WithinCommandUsdLimit, ManualRow, IsAllowedEffectiveDate, CorrectionRow,
      Money.ParseAmountInput, Money.ParseBalanceInput;
  }

  lemma {:induction false} LifecycleDetails(s: BankState, input: AddInput, id: string, now: Instant)
    ensures AddAccount(s, input, now).Done?
            ==> HasStorableDetails(AddAccount(s, input, now)) && AddAccount(s, input, now).warnings == []
    ensures CloseAccount(s, id, now).Done?
            ==> HasStorableDetails(CloseAccount(s, id, now)) && CloseAccount(s, id, now).warnings == []
    ensures RestoreAccount(s, id, now).Done?
            ==> HasStorableDetails(RestoreAccount(s, id, now)) && RestoreAccount(s, id, now).warnings == []
  {
    hide AppendRow, BalanceOf, SettleAccount, FindAccount, Shut, Reopen, CountOpen, IsTaken, HasOpenChecking, HasOtherOpenChecking,
      NewAccount, OpeningRow, IsAccountId, IsAccountNumber;
  }

  lemma {:induction false} SwitchDetails(s: BankState, id: string, frozen: bool, now: Instant)
    ensures Pause(s, id).Done? ==> HasStorableDetails(Pause(s, id)) && Pause(s, id).warnings == []
    ensures FreezeCard(s, id, frozen).Done? ==> HasStorableDetails(FreezeCard(s, id, frozen)) && FreezeCard(s, id, frozen).warnings == []
    ensures SettleInterest(s, now).Done? ==> HasStorableDetails(SettleInterest(s, now)) && SettleInterest(s, now).warnings == []
  {
    hide WithCard, WithStatus, SettleAll, FindAccount, FindRule, FindCard;
  }

  lemma {:induction false} ResumeDetails(s: BankState, id: string, now: Instant)
    requires Resume(s, id, now).Done?
    ensures HasStorableDetails(Resume(s, id, now))
  {
    hide MaterializeRecurring, Resumed;
  }

  lemma {:induction false} CommandDetails(s: BankState, c: BankCommand, now: Instant)
    requires Sound(s, now) && ApplyBankCommand(s, c, now).Done?
    ensures HasStorableDetails(ApplyBankCommand(s, c, now))
    ensures !c.ResumeRecurring? ==> ApplyBankCommand(s, c, now).warnings == []
  {
    hide Sound, RecordTransaction, CreateRecurringRule, Pause, Resume, AddAccount, AdjustBalance, CloseAccount,
      RestoreAccount, TransferWithinLimit, FreezeCard, SettleInterest;
    match c
    case MakeTransfer(q) => TransferDetails(s, q, now);
    case CreateRecurring(input) => CreationDetails(s, input, now);
    case ResumeRecurring(id) => ResumeDetails(s, id, now);
    case Record(input) => EntryDetails(s, input, AdjustInput("", "", Money.Ru), now);
    case Adjust(input) => EntryDetails(s, ManualInput("", Income, "", Money.Ru, None, None, None, now.date), input, now);
    case OpenAccount(input) => LifecycleDetails(s, input, "", now);
    case Close(id) => LifecycleDetails(s, AddInput("", USD, None, ""), id, now);
    case Restore(id) => LifecycleDetails(s, AddInput("", USD, None, ""), id, now);
    case PauseRecurring(id) => SwitchDetails(s, id, true, now);
    case SetCardFrozen(id, frozen) => SwitchDetails(s, id, frozen, now);
    case Settle => SwitchDetails(s, "", true, now);
    case _ =>
  }

  lemma {:induction false} MergedFit(s: BankState, due: Materialized, c: BankCommand, now: Instant)
    requires Valid(s, now) && MaterializeBankState(s, now) == Some(due)
    requires ApplyBankCommand(due.state, c, now).Done?
    ensures |Merged(due.warnings + ApplyBankCommand(due.state, c, now).warnings, {})| <= MAX_WARNINGS
  {
    hide Valid, Sound, MaterializeBankState, Merged, Resume, IsWarningOf, HasStorableDetails, NoneDueBefore;
    MaterializationWarnings(s, now);
    MaterializeKeepsValid(s, now);
    if c.ResumeRecurring? {
      MergedWarningsFit(s, c.ruleId, now);
      ResumeIs(due.state, c.ruleId, now);
    } else {
      hide ApplyBankCommand;
      ValidIsSound(due.state, now);
      CommandDetails(due.state, c, now);
      assert due.warnings + [] == due.warnings;
      MergedIsShorter(due.warnings, {});
    }
  }

  lemma {:induction false} ResumeIs(s: BankState, id: string, now: Instant)
    ensures ApplyBankCommand(s, ResumeRecurring(id), now) == Resume(s, id, now)
  {
    hide Resume;
  }

  // ---------------------------------------------------------------- after a materialisation

  lemma {:induction false} KeptNonePending(s: BankState, after: BankState, now: Instant)
    requires NonePending(s.accounts, now) && SavingsKept(s, after, now) && Sound(after, now) && Sound(s, now)
    ensures NoInterestDue(after, now)
  {
    var j := SavingsOf(after, now);
    var k := SavingsOf(s, now);
    hide Sound, SettleAll, BalanceOf, NoInterestDue, DueInterest, FindAccount, IsPending;
    assert KeptAt(s, after, k, now);
    assert j == k by { SameSavings(s, after, k, j, now); }
    var a, balance := after.accounts[j], BalanceOf(after.transactions, after.accounts[j].id);
    assert !IsPending(a, now) by { if IsPending(a, now) { PendingIsOpen(a, now); } }
    if DueInterest(a, balance, now) > 0 {
      DueIsPending(a, balance, now);
    }
    SavingsDue(after, j, now);
  }

  lemma {:induction false} PendingIsOpen(a: Account, now: Instant)
    requires IsPending(a, now)
    ensures a.status.Open? && a.kind.Savings?
  {
  }

  lemma {:induction false} KeptRoom(s: BankState, after: BankState, now: Instant)
    requires Valid(s, now) && Sound(after, now) && SavingsKept(s, after, now) && after.nextSeq == s.nextSeq
    ensures Valid(after, now)
  {
    hide Valid, Sound, SettleAll, BalanceOf, NoInterestDue, DueInterest, FindAccount, IsPending, HasRoom, SavingsKept;
    ValidIsSound(s, now);
    ValidUnlessExhausted(s, after, now);
    if !NoInterestDue(after, now) {
      var k := SavingsOf(s, now);
      var j := SavingsOf(after, now);
      SettleNeedsRoom(s, k, now);
      KeptSavings(s, after, k, now);
      assert j == k by { SameSavings(s, after, k, j, now); }
      SavingsDue(after, j, now);
      var a, balance := after.accounts[j], BalanceOf(after.transactions, after.accounts[j].id);
      DueIsPending(a, balance, now);
      RoomMeansSequence(a, balance, s.nextSeq, now);
    }
  }

  lemma {:induction false} KeptSavings(s: BankState, after: BankState, k: nat, now: Instant)
    requires SavingsKept(s, after, now) && k < |s.accounts|
    ensures |s.accounts| <= |after.accounts| && KeptAt(s, after, k, now)
  {
    hide KeptAt;
  }

  lemma {:induction false} RoomMeansSequence(a: Account, balance: int, nextSeq: int, now: Instant)
    requires HasRoom(a, balance, nextSeq, now) && DueInterest(a, balance, now) > 0
    ensures nextSeq < MAX_SAFE
  {
    hide DueInterest;
  }

  /** After a materialisation either no interest is pending, or the ledger is full. */
  lemma {:induction false} SettledOrFull(s: BankState, now: Instant)
    requires Valid(s, now)
    ensures MaterializeBankState(s, now).Some?
    ensures var due := MaterializeBankState(s, now).value.state;
            NonePending(due.accounts, now) || |due.transactions| == MAX_TRANSACTIONS
  {
    hide Valid, Sound, SettleAll, MaterializeBankState, MaterializeRecurring, NoneDueBefore, CaughtUpFrom, NonePending;
    ValidIsSound(s, now);
    var start, room, m := MaterializationParts(s, now);
    MaterializeKeepsSound(start, now, room);
    if |SettleAll(s, now).value.transactions| > MAX_TRANSACTIONS {
      DeferredIsFull(s, now);
      DeferredAddsNothing(s, now);
    } else {
      SettledNonePending(s, now, now);
      CaughtUpIds(start, m.state);
    }
  }

  lemma {:induction false} FullGrowsNot(s: BankState, after: BankState, now: Instant)
    requires Moved(s, after, now) && |s.transactions| == MAX_TRANSACTIONS && |after.transactions| <= MAX_TRANSACTIONS
    ensures after.nextSeq == s.nextSeq && SavingsKept(s, after, now)
  {
    hide SavingsKept, AccountsKept, RulesKept;
  }

  /** On a materialised state an acceptable command leads to an accepted state. */
  lemma {:induction false} AcceptableIsValid(s: BankState, due: BankState, c: BankCommand, now: Instant)
    requires Valid(s, now) && MaterializeBankState(s, now).Some? && due == MaterializeBankState(s, now).value.state
    requires ApplyBankCommand(due, c, now).Done?
    ensures Valid(ApplyBankCommand(due, c, now).state, now) <==> IsAcceptable(due, c)
  {
    hide Valid, Sound, MaterializeBankState, ApplyBankCommand, Moved, IsAcceptable, NoInterestDue, SavingsKept, NonePending, NoneDueBefore;
    SettledOrFull(s, now);
    MaterializeKeepsValid(s, now);
    ValidIsSound(due, now);
    var after := ApplyBankCommand(due, c, now).state;
    CommandKeepsSound(due, c, now);
    CommandMoves(due, c, now);
    MovedLater(due, after, now);
    ValidUnlessUsedUp(due, c, now);
    if IsAcceptable(due, c) {
      if NonePending(due.accounts, now) {
        KeptNonePending(due, after, now);
      } else {
        RowsWithinLimit(after, now);
        FullGrowsNot(due, after, now);
        KeptRoom(due, after, now);
      }
    }
  }

  // ---------------------------------------------------------------- the transition

  /** The parts of a command transition on an accepted state. */
  lemma {:induction false} TransitionParts(s: BankState, c: BankCommand, now: Instant) returns (due: Materialized)
    requires Valid(s, now)
    ensures MaterializeBankState(s, now) == Some(due)
    ensures |due.warnings| <= MAX_WARNINGS && Valid(due.state, now)
  {
    hide Valid, MaterializeBankState, IsWarningOf, NoneDueBefore;
    MaterializationWarnings(s, now);
    MaterializeKeepsValid(s, now);
    due := MaterializeBankState(s, now).value;
  }

  /** On an accepted state a command transition throws exactly when the command succeeds on the
      materialised state and is not acceptable there: an account without rows is closed, or the number of
      a new account is not spaced normally. */
  lemma {:induction false} TransitionThrows(s: BankState, c: BankCommand, now: Instant)
    requires Valid(s, now)
    ensures MaterializeBankState(s, now).Some?
    ensures var due := MaterializeBankState(s, now).value.state;
            CommandTransition(s, c, now).None? <==> ApplyBankCommand(due, c, now).Done? && !IsAcceptable(due, c)
  {
    hide Valid, MaterializeBankState, ApplyBankCommand, IsAcceptable, Merged, HasStorableDetails, Sound, FailureOf;
    var due := TransitionParts(s, c, now);
    var out := ApplyBankCommand(due.state, c, now);
    if out.Done? {
      AcceptableIsValid(s, due.state, c, now);
      ValidIsSound(due.state, now);
      CommandDetails(due.state, c, now);
      MergedFit(s, due, c, now);
      DetailsAreStorable(out, Merged(due.warnings + out.warnings, {}));
    }
  }

  lemma {:induction false} DetailsAreStorable(out: Outcome, warnings: seq<Warning>)
    requires out.Done? && HasStorableDetails(out) && |warnings| <= MAX_WARNINGS
    ensures IsStorable(StoredOutcome(out.applied, warnings, out.incoming, out.backfilled, None))
  {
  }

  /** A committed transition leaves an accepted state; a refused command leaves the very state it found,
      pending interest and due occurrences included. */
  lemma {:induction false} TransitionCommits(s: BankState, c: BankCommand, now: Instant)
    requires CommandTransition(s, c, now).Some?
    ensures Valid(s, now)
    ensures var t := CommandTransition(s, c, now).value;
            && Valid(t.state, now) && IsStorable(t.outcome)
            && (t.outcome.failure.Some? ==> t.state == s && t.outcome == StoredOutcome(false, [], None, None, t.outcome.failure))
  {
    hide Valid, MaterializeBankState, ApplyBankCommand, Merged, FailureOf;
  }

  lemma {:induction false} SuccessParts(s: BankState, c: BankCommand, now: Instant) returns (due: BankState)
    requires CommandTransition(s, c, now).Some? && CommandTransition(s, c, now).value.outcome.failure.None?
    ensures Valid(s, now) && MaterializeBankState(s, now).Some? && due == MaterializeBankState(s, now).value.state
    ensures ApplyBankCommand(due, c, now).Done?
    ensures CommandTransition(s, c, now).value.state == ApplyBankCommand(due, c, now).state
    ensures CommandTransition(s, c, now).value.outcome.applied == ApplyBankCommand(due, c, now).applied
  {
    hide Valid, MaterializeBankState, ApplyBankCommand, Merged, IsStorable;
    due := MaterializeBankState(s, now).value.state;
  }

  /** Every committed transition only adds to the ledger. */
  lemma {:induction false} TransitionMoves(s: BankState, c: BankCommand, now: Instant)
    requires CommandTransition(s, c, now).Some?
    ensures Moved(s, CommandTransition(s, c, now).value.state, now)
  {
    hide Valid, MaterializeBankState, ApplyBankCommand, CommandTransition, Moved, IsStorable, NoneDueBefore, Sound;
    TransitionCommits(s, c, now);
    if CommandTransition(s, c, now).value.outcome.failure.Some? {
      NothingMoved(s, now);
    } else {
      var due := SuccessParts(s, c, now);
      MaterializeMoves(s, now);
      MaterializeKeepsValid(s, now);
      ValidIsSound(due, now);
      CommandMoves(due, c, now);
      MovedTwice(s, due, CommandTransition(s, c, now).value.state, now);
    }
  }

  // ---------------------------------------------------------------- what the client foresees

  /** The server accepts a settle command and its ledger changes. */
  ghost predicate SettlementAdvances(s: BankState, now: Instant) {
    var t := CommandTransition(s, Settle, now);
    t.Some? && t.value.outcome.failure.None? && t.value.state != s
  }

  /** On an accepted state the server answers a settle command; the answer is that of the settlement on the
      materialised state. */
  lemma {:induction false} SettlementAnswers(s: BankState, now: Instant)
    requires Valid(s, now)
    ensures MaterializeBankState(s, now).Some?
    ensures var due, t := MaterializeBankState(s, now).value.state, CommandTransition(s, Settle, now);
            && t.Some?
            && (t.value.outcome.failure.None? <==> SettleInterest(due, now).Done?)
            && (SettleInterest(due, now).Done? ==> t.value.state == SettleInterest(due, now).state)
  {
    hide Valid, MaterializeBankState, SettleInterest, Merged, IsStorable, FailureOf;
    TransitionThrows(s, Settle, now);
  }

  /** The client asks for a settlement exactly when the server would accept it and change the ledger. */
  lemma {:induction false} ClientForeseesServer(s: BankState, now: Instant)
    requires Valid(s, now)
    ensures NeedsServerMaterialization(s, now) <==> SettlementAdvances(s, now)
  {
    hide Valid, Sound, SettleAll, NeedsServerMaterialization, MaterializeBankState, SettleInterest, CommandTransition, SomeWants,
      MaterializeRecurring, NoneDueBefore;
    ValidIsSound(s, now);
    NeedsCases(s, now);
    SettlementAnswers(s, now);
    if |SettleAll(s, now).value.transactions| > MAX_TRANSACTIONS {
      DeferredRefuses(s, now);
    } else {
      var m := FittingAnswers(s, SettleAll(s, now).value, now);
      FittingAdvances(s, SettleAll(s, now).value, now);
    }
  }

  // ---------------------------------------------------------------- reading brings the state up to date

  /** Reading never fails on an accepted state, and it has a message to send only when the state changed. */
  lemma {:induction false} BootstrapSucceeds(s: BankState, now: Instant)
    requires Valid(s, now)
    ensures BootstrapTransition(s, now).Some?
    ensures var due := BootstrapTransition(s, now).value;
            Valid(due.state, now) && (due.warnings != [] ==> due.state != s)
  {
    hide Valid, MaterializeBankState;
    var due := TransitionParts(s, Settle, now);
    WarnedIsChanged(s, due, now);
  }

  lemma {:induction false} WarnedIsChanged(s: BankState, due: Materialized, now: Instant)
    requires Valid(s, now) && MaterializeBankState(s, now) == Some(due)
    ensures due.warnings != [] ==> due.state != s
  {
    hide Valid, Sound, SettleAll, MaterializeBankState, MaterializeRecurring, NoneDueBefore, CaughtUpFrom;
    ValidIsSound(s, now);
    var start, room, m := MaterializationParts(s, now);
    MaterializeKeepsSound(start, now, room);
    CaughtUpIds(start, m.state);
    if due.state == s {
      if start == s {
        NothingDueAgain(s, now, now, room);
      } else {
        SettlementMovesAnchor(s, now);
      }
    }
  }

  // ---------------------------------------------------------------- runs of commands

  datatype Step = Step(command: BankCommand, now: Instant)

  /** The state after a run of committed transitions; `None` as soon as one of them throws. */
  ghost function Run(s: BankState, steps: seq<Step>): Option<BankState>
    decreases |steps|
  {
    if steps == [] then Some(s)
    else match CommandTransition(s, steps[0].command, steps[0].now)
      case None => None
      case Some(t) => Run(t.state, steps[1..])
  }

  /** The identifiers of the transfers that a run applies, in order. */
  ghost function AppliedIds(s: BankState, steps: seq<Step>): seq<string>
    decreases |steps|
  {
    if steps == [] then []
    else match CommandTransition(s, steps[0].command, steps[0].now)
      case None => []
      case Some(t) =>
        (if steps[0].command.MakeTransfer? && t.outcome.applied then [steps[0].command.request.clientTransferId] else [])
        + AppliedIds(t.state, steps[1..])
  }

  lemma {:induction false} OtherRecents(s: BankState, c: BankCommand, now: Instant)
    requires Sound(s, now) && ApplyBankCommand(s, c, now).Done? && !c.MakeTransfer?
    ensures ApplyBankCommand(s, c, now).state.recentTransferIds == s.recentTransferIds
  {
    hide Sound, RecordTransaction, CreateRecurringRule, Pause, Resume, AddAccount, AdjustBalance, CloseAccount, RestoreAccount,
      TransferWithinLimit, FreezeCard, SettleInterest, Moved, RecordedOnly, AdjustedOnly;
    match c
    case Record(input) => RecordMovesOneBalance(s, input, now);
    case CreateRecurring(input) => CreateKeeps(s, input, now);
    case PauseRecurring(id) => PauseKeeps(s, id, now);
    case ResumeRecurring(id) => ResumeKeeps(s, id, now);
    case OpenAccount(input) => AddMoves(s, input, now);
    case Adjust(input) => AdjustHitsTarget(s, input, now);
    case Close(id) => CloseMoves(s, id, now);
    case Restore(id) => RestoreMoves(s, id, now);
    case SetPrimaryCurrency(currency) =>
    case SetDisplayName(name) =>
    case SetCardFrozen(id, frozen) => FreezeKeeps(s, id, frozen, now);
    case Settle => SettleKeeps(s, now);
  }

  /** A committed transition remembers the identifier of the transfer it applies, and no other. */
  ghost predicate RemembersOne(before: seq<string>, after: seq<string>, c: BankCommand, applied: bool) {
    if c.MakeTransfer? && applied
    then c.request.clientTransferId !in before && after == LastIds(before + [c.request.clientTransferId])
    else after == before
  }

  lemma {:induction false} CommandRemembers(s: BankState, c: BankCommand, now: Instant)
    requires Sound(s, now) && ApplyBankCommand(s, c, now).Done?
    ensures var out := ApplyBankCommand(s, c, now); RemembersOne(s.recentTransferIds, out.state.recentTransferIds, c, out.applied)
  {
    if c.MakeTransfer? {
      hide Sound, ApplyTransfer, LastIds, TransferWithinLimit;
      TransferIsWithin(s, c.request, now);
      TransferRecents(s, c.request, now);
    } else {
      hide Sound, ApplyBankCommand, LastIds;
      OtherRecents(s, c, now);
    }
  }

  lemma {:induction false} TransitionRemembers(s: BankState, c: BankCommand, now: Instant)
    requires CommandTransition(s, c, now).Some?
    ensures var t := CommandTransition(s, c, now).value;
            RemembersOne(s.recentTransferIds, t.state.recentTransferIds, c, t.outcome.applied)
  {
    hide Valid, MaterializeBankState, ApplyBankCommand, CommandTransition, RemembersOne, IsStorable, NoneDueBefore, Sound, Moved;
    TransitionCommits(s, c, now);
    if CommandTransition(s, c, now).value.outcome.failure.Some? {
      NothingRemembered(s.recentTransferIds, c);
    } else {
      var due := SuccessParts(s, c, now);
      MaterializeMoves(s, now);
      MaterializeKeepsValid(s, now);
      ValidIsSound(due, now);
      CommandRemembers(due, c, now);
    }
  }

  lemma {:induction false} NothingRemembered(ids: seq<string>, c: BankCommand)
    ensures RemembersOne(ids, ids, c, false)
  {
  }

  /** Over any run the ring of recent identifiers is the last fifty of all identifiers applied, in order. */
  lemma {:induction false} RingHoldsLastFifty(s: BankState, steps: seq<Step>, earlier: seq<string>)
    requires Run(s, steps).Some? && s.recentTransferIds == LastIds(earlier)
    ensures Run(s, steps).value.recentTransferIds == LastIds(earlier + AppliedIds(s, steps))
    decreases |steps|
  {
    hide CommandTransition, LastIds;
    if steps == [] {
      assert earlier + [] == earlier;
    } else {
      var c, now := steps[0].command, steps[0].now;
      var t := CommandTransition(s, c, now).value;
      TransitionRemembers(s, c, now);
      if c.MakeTransfer? && t.outcome.applied {
        var id := c.request.clientTransferId;
        LastOfLast(earlier, id);
        RingHoldsLastFifty(t.state, steps[1..], earlier + [id]);
        assert earlier + [id] + AppliedIds(t.state, steps[1..]) == earlier + AppliedIds(s, steps);
      } else {
        RingHoldsLastFifty(t.state, steps[1..], earlier);
        assert AppliedIds(s, steps) == AppliedIds(t.state, steps[1..]);
      }
    }
  }

  ghost predicate WellSpaced(ids: seq<string>) {
    forall i, j :: 0 <= i < j < |ids| && ids[i] == ids[j] ==> j - i > RECENT_IDS_CAP
  }

  /** Over any run the same identifier is applied at most once in fifty-one transfers. */
  lemma {:induction false} AppliedOnceInFifty(s: BankState, steps: seq<Step>, earlier: seq<string>)
    requires Run(s, steps).Some? && s.recentTransferIds == LastIds(earlier) && WellSpaced(earlier)
    ensures WellSpaced(earlier + AppliedIds(s, steps))
    decreases |steps|
  {
    hide CommandTransition, LastIds, WellSpaced;
    if steps == [] {
      assert earlier + [] == earlier;
    } else {
      var c, now := steps[0].command, steps[0].now;
      var t := CommandTransition(s, c, now).value;
      TransitionRemembers(s, c, now);
      if c.MakeTransfer? && t.outcome.applied {
        var id := c.request.clientTransferId;
        LastOfLast(earlier, id);
        OneMoreSpaced(earlier, id);
        AppliedOnceInFifty(t.state, steps[1..], earlier + [id]);
        assert earlier + [id] + AppliedIds(t.state, steps[1..]) == earlier + AppliedIds(s, steps);
      } else {
        AppliedOnceInFifty(t.state, steps[1..], earlier);
        assert AppliedIds(s, steps) == AppliedIds(t.state, steps[1..]);
      }
    }
  }

  lemma {:induction false} RecentIsRemembered(ids: seq<string>, i: nat)
    requires i < |ids| && |ids| - i <= RECENT_IDS_CAP
    ensures ids[i] in LastIds(ids)
  {
    var d := if |ids| <= RECENT_IDS_CAP then 0 else |ids| - RECENT_IDS_CAP;
    assert LastIds(ids) == ids[d..];
    assert LastIds(ids)[i - d] == ids[i];
  }

  lemma {:induction false} OneMoreSpaced(ids: seq<string>, id: string)
    requires WellSpaced(ids) && id !in LastIds(ids)
    ensures WellSpaced(ids + [id])
  {
    hide LastIds;
    forall i | 0 <= i < |ids| && ids[i] == id
      ensures |ids| - i > RECENT_IDS_CAP
    {
      if |ids| - i <= RECENT_IDS_CAP {
        RecentIsRemembered(ids, i);
      }
    }
  }

  /** Over any run the ledger only grows, and every state in between is accepted when it is reached. */
  lemma {:induction false} RunOnlyAppends(s: BankState, steps: seq<Step>)
    requires Run(s, steps).Some?
    ensures Grown(s, Run(s, steps).value)
    ensures steps != [] ==> Valid(Run(s, steps).value, steps[|steps| - 1].now)
    decreases |steps|
  {
    hide CommandTransition, Grown, Valid, IsStorable, SavingsKept;
    if steps == [] {
      GrownNot(s);
    } else {
      var c, now := steps[0].command, steps[0].now;
      var next := CommandTransition(s, c, now).value.state;
      TransitionCommits(s, c, now);
      TransitionMoves(s, c, now);
      RunOnlyAppends(next, steps[1..]);
      GrownTwice(s, next, Run(s, steps).value);
    }
  }
}
