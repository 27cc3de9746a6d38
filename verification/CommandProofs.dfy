/** What every command keeps and what it moves. */
module CommandProofs {
  import opened Wrappers
  import opened Calendar
  import opened Currency
  import opened BankTypes
  import opened Ledger
  import opened Interest
  import opened BankValidity
  import opened Posting
  import opened Settlement
  import opened Recurring
  import opened RecurringProofs
  import opened CatchUpProofs
  import opened Growth
  import opened SavingsProofs
  import opened Transfer
  import opened TransferProofs
  import opened TransferEffects
  import opened ManualTransactions
  import opened ManualProofs
  import opened AccountLifecycle
  import opened LifecycleProofs
  import opened OpeningProofs
  import opened CreationProofs
  import opened BankCommands

  // ---------------------------------------------------------------- pausing and resuming

  lemma {:induction false} StatusMoves(s: BankState, id: string, status: RuleStatus, reason: Option<PauseReason>, now: Instant)
    ensures Moved(s, s.(recurringRules := WithStatus(s.recurringRules, id, status, reason)), now)
  {
    hide IsPending, BalanceOf, Identity;
  }

  lemma {:induction false} PauseKeeps(s: BankState, id: string, now: Instant)
    requires Sound(s, now) && Pause(s, id).Done?
    ensures Sound(Pause(s, id).state, now) && Moved(s, Pause(s, id).state, now)
    ensures Pause(s, id).state.recentTransferIds == s.recentTransferIds
  {
    hide Sound, Moved, WithStatus, FindRule;
    NothingMoved(s, now);
    StatusMoves(s, id, RulePaused, Some(ManualPause), now);
    RuleFound(s.recurringRules, id);
    StatusKeepsSound(s, FindRule(s.recurringRules, id).value, RulePaused, Some(ManualPause), now);
  }

  lemma {:induction false} RuleFound(rules: seq<RecurringRule>, id: string)
    ensures FindRule(rules, id).Some? ==> FindRule(rules, id).value < |rules| && rules[FindRule(rules, id).value].id == id
  {
  }

  lemma {:induction false} CaughtUpMoved(s: BankState, after: BankState, now: Instant)
    requires CaughtUpFrom(s, after)
    ensures Moved(s, after, now) && after.recentTransferIds == s.recentTransferIds
  {
    CaughtUpGrown(s, after);
    hide IsPending, BalanceOf, Grown;
  }

  lemma {:induction false} OpenAccountOf(s: BankState, i: nat, now: Instant)
    requires Sound(s, now) && i < |s.accounts| && s.accounts[i].status.Open?
    ensures AccountOpen(s.accounts, s.accounts[i].id)
  {
    hide Sound;
    AccountIsUnique(s, i, now);
  }

  lemma {:induction false} ResumeParts(s: BankState, id: string, now: Instant) returns (i: nat, j: nat)
    requires Resume(s, id, now).Done? && Resume(s, id, now).applied
    ensures i < |s.recurringRules| && s.recurringRules[i].id == id
    ensures j < |s.accounts| && s.accounts[j].id == s.recurringRules[i].accountId && s.accounts[j].status.Open?
    ensures var m := MaterializeRecurring(Resumed(s, id), now, MAX_TRANSACTIONS);
            Resume(s, id, now) == Done(m.state, true, m.warnings, None, None)
  {
    hide MaterializeRecurring, Resumed;
    i := FindRule(s.recurringRules, id).value;
    j := FindAccount(s.accounts, s.recurringRules[i].accountId).value;
  }

  lemma {:induction false} ResumeNothing(s: BankState, id: string, now: Instant)
    requires Resume(s, id, now).Done? && !Resume(s, id, now).applied
    ensures Resume(s, id, now).state == s
  {
    hide MaterializeRecurring, Resumed;
  }

  lemma {:induction false} ResumeKeeps(s: BankState, id: string, now: Instant)
    requires Sound(s, now) && Resume(s, id, now).Done?
    ensures Sound(Resume(s, id, now).state, now) && Moved(s, Resume(s, id, now).state, now)
    ensures Resume(s, id, now).state.recentTransferIds == s.recentTransferIds
  {
    hide Sound, Moved, WithStatus, Resume, MaterializeRecurring, CaughtUpFrom, NoneDueBefore, AccountOpen;
    if Resume(s, id, now).applied {
      var i, j := ResumeParts(s, id, now);
      OpenAccountOf(s, j, now);
      StatusKeepsSound(s, i, RuleActive, None, now);
      StatusMoves(s, id, RuleActive, None, now);
      var resumed := Resumed(s, id);
      MaterializeKeepsSound(resumed, now, MAX_TRANSACTIONS);
      CaughtUpMoved(resumed, Resume(s, id, now).state, now);
      MovedTwice(s, resumed, Resume(s, id, now).state, now);
    } else {
      ResumeNothing(s, id, now);
      NothingMoved(s, now);
    }
  }

  // ---------------------------------------------------------------- cards, names, currency, settlement

  lemma {:induction false} SwitchKeepsCards(cards: seq<Card>, accounts: seq<Account>, i: nat, frozen: bool)
    requires CardsValid(cards, accounts) && i < |cards|
    requires !frozen ==> AccountOpen(accounts, cards[i].accountId)
    requires cards[i].status != (if frozen then CardFrozen else CardActive)
    ensures CardsValid(WithCard(cards, cards[i].id, frozen), accounts)
  {
    hide AccountIds;
    var after := WithCard(cards, cards[i].id, frozen);
    assert forall k :: 0 <= k < |cards| && cards[k].id == cards[i].id ==> k == i;
    forall k, j | 0 <= k < |cards| && 0 <= j < |accounts| && after[k].accountId == accounts[j].id
      ensures CardFits(after[k], accounts[j])
    {
      assert CardFits(cards[k], accounts[j]);
    }
  }

  lemma {:induction false} CardsReplaced(s: BankState, cards: seq<Card>, now: Instant)
    requires Sound(s, now) && CardsValid(cards, s.accounts)
    ensures Sound(s.(cards := cards), now)
  {
    hide AccountsValid, RowsValid, NextSeqValid, PostedWithin, ClosedAtZero, TransfersPaired, RulesValid, RulesFit,
      RowsLinked, RulesContinuous, CardsValid, ContactsValid, RatesValid, RecentIdsValid;
  }

  lemma {:induction false} FreezeParts(s: BankState, id: string, frozen: bool) returns (i: nat)
    requires FreezeCard(s, id, frozen).Done? && FreezeCard(s, id, frozen).applied
    ensures i < |s.cards| && s.cards[i].id == id && s.cards[i].status != (if frozen then CardFrozen else CardActive)
    ensures !frozen ==> exists j :: 0 <= j < |s.accounts| && s.accounts[j].id == s.cards[i].accountId && s.accounts[j].status.Open?
    ensures FreezeCard(s, id, frozen) == Ok(s.(cards := WithCard(s.cards, id, frozen)), true)
  {
    hide WithCard;
    i := FindCard(s.cards, id).value;
  }

  lemma {:induction false} FreezeNothing(s: BankState, id: string, frozen: bool)
    requires FreezeCard(s, id, frozen).Done? && !FreezeCard(s, id, frozen).applied
    ensures FreezeCard(s, id, frozen).state == s
  {
    hide WithCard;
  }

  lemma {:induction false} CardsOf(s: BankState, now: Instant)
    requires Sound(s, now)
    ensures CardsValid(s.cards, s.accounts)
  {
    hide AccountsValid, RowsValid, NextSeqValid, PostedWithin, ClosedAtZero, TransfersPaired, RulesValid, RulesFit,
      RowsLinked, RulesContinuous, CardsValid, ContactsValid, RatesValid, RecentIdsValid;
  }

  lemma {:induction false} FreezeKeeps(s: BankState, id: string, frozen: bool, now: Instant)
    requires Sound(s, now) && FreezeCard(s, id, frozen).Done?
    ensures Sound(FreezeCard(s, id, frozen).state, now) && Moved(s, FreezeCard(s, id, frozen).state, now)
    ensures FreezeCard(s, id, frozen).state.recentTransferIds == s.recentTransferIds
  {
    hide Sound, FreezeCard, WithCard, CardsValid, Moved, AccountOpen;
    if FreezeCard(s, id, frozen).applied {
      var i := FreezeParts(s, id, frozen);
      if !frozen {
        var j :| 0 <= j < |s.accounts| && s.accounts[j].id == s.cards[i].accountId && s.accounts[j].status.Open?;
        OpenAccountOf(s, j, now);
      }
      CardsOf(s, now);
      SwitchKeepsCards(s.cards, s.accounts, i, frozen);
      CardsReplaced(s, WithCard(s.cards, id, frozen), now);
      SameBooksMoved(s, FreezeCard(s, id, frozen).state, now);
    } else {
      FreezeNothing(s, id, frozen);
      NothingMoved(s, now);
    }
  }

  lemma {:induction false} SameBooksMoved(s: BankState, after: BankState, now: Instant)
    requires after == s.(primaryCurrency := after.primaryCurrency, cards := after.cards, profile := after.profile)
    requires after.profile.telegramId == s.profile.telegramId
    ensures Moved(s, after, now)
  {
    SavingsUntouched(s, after, now);
    hide SavingsKept, Identity, Terms;
  }

  lemma {:induction false} PreferencesKeep(s: BankState, currency: Currency, name: Text, now: Instant)
    requires Sound(s, now)
    ensures Sound(s.(primaryCurrency := currency), now)
    ensures Sound(s.(profile := s.profile.(displayName := name)), now)
  {
    hide AccountsValid, RowsValid, NextSeqValid, PostedWithin, ClosedAtZero, TransfersPaired, RulesValid, RulesFit,
      RowsLinked, RulesContinuous, CardsValid, ContactsValid, RatesValid, RecentIdsValid;
  }

  lemma {:induction false} SettleKeeps(s: BankState, now: Instant)
    requires Sound(s, now) && SettleInterest(s, now).Done?
    ensures Sound(SettleInterest(s, now).state, now) && Moved(s, SettleInterest(s, now).state, now)
    ensures SettleInterest(s, now).state.recentTransferIds == s.recentTransferIds
  {
    hide Sound, SettleAll, Moved, SameStanding;
    SettleAllKeepsSound(s, now);
    SettleAllFrame(s, now);
    SettleAllMoves(s, now);
  }

  lemma {:induction false} SettleAllMoves(s: BankState, now: Instant)
    requires Sound(s, now) && SettleAll(s, now).Some?
    ensures Moved(s, SettleAll(s, now).value, now)
  {
    var j := SavingsOf(s, now);
    hide Sound, SettleAll, SettleAccount, Moved, UniqueAccountIds, NothingPending;
    SettleAllIsOne(s, j, now);
    SequenceStarted(s, now);
    if s.accounts[j].status.Open? {
      SettleMoves(s, s.accounts[j].id, now);
    } else {
      NothingMoved(s, now);
    }
  }

  lemma {:induction false} TransferKeeps(s: BankState, q: TransferRequest, now: Instant)
    requires Sound(s, now) && TransferWithinLimit(s, q, now).Done?
    ensures Sound(TransferWithinLimit(s, q, now).state, now) && Moved(s, TransferWithinLimit(s, q, now).state, now)
    ensures TransferWithinLimit(s, q, now) == ApplyTransfer(s, q, now)
  {
    hide Sound, ApplyTransfer, Moved;
    TransferKeepsSound(s, q, now);
    TransferMoves(s, q, now);
  }

  // ---------------------------------------------------------------- the theorem

  /** The two conditions beyond the guards of the commands themselves: the number of a new account is
      spaced normally, and an account that is closed has at least one row. */
  predicate IsAcceptable(s: BankState, c: BankCommand) {
    match c
    case OpenAccount(input) => IsNormalisedNumber(input.number)
    case Close(id) => HasRow(s.transactions, id)
    case _ => true
  }

  lemma {:induction false} ClosedRows(s: BankState, i: nat, now: Instant)
    requires Sound(s, now) && i < |s.accounts| && s.accounts[i].status.Closed?
    ensures HasRow(s.transactions, s.accounts[i].id)
  {
    hide HasRow, BalanceOf;
  }

  lemma {:induction false} ClosedHasRow(s: BankState, id: string, now: Instant)
    requires Sound(s, now) && CloseAccount(s, id, now).Done? && !CloseAccount(s, id, now).applied
    ensures HasRow(s.transactions, id)
  {
    hide Sound, SettleAccount, CountOpen, Shut, HasRow, BalanceOf;
    ClosedRows(s, FindAccount(s.accounts, id).value, now);
  }

  lemma {:induction false} CloseKeeps(s: BankState, id: string, now: Instant)
    requires Sound(s, now) && CloseAccount(s, id, now).Done?
    ensures Sound(CloseAccount(s, id, now).state, now) <==> HasRow(s.transactions, id)
  {
    hide Sound, CloseAccount, HasRow;
    if CloseAccount(s, id, now).applied {
      CloseIsSoundIffRow(s, id, now);
    } else {
      CloseNothing(s, id, now);
      ClosedHasRow(s, id, now);
    }
  }

  lemma {:induction false} CreateKeeps(s: BankState, input: RecurringInput, now: Instant)
    requires Sound(s, now) && CreateRecurringRule(s, input, now).Done?
    ensures Sound(CreateRecurringRule(s, input, now).state, now) && Moved(s, CreateRecurringRule(s, input, now).state, now)
    ensures CreateRecurringRule(s, input, now).state.recentTransferIds == s.recentTransferIds
  {
    hide Sound, CreateRecurringRule, Moved, IsAddableRule, Created;
    var r, schedule := CreateIsCreated(s, input, now);
    CreatedMoves(s, r, schedule, now, CreateRecurringRule(s, input, now).state);
  }

  /** Every successful command keeps all conjuncts of the invariant but the last exactly when it is
      acceptable; in particular no balance becomes negative. */
  lemma {:induction false} CommandKeepsSound(s: BankState, c: BankCommand, now: Instant)
    requires Sound(s, now) && ApplyBankCommand(s, c, now).Done?
    ensures Sound(ApplyBankCommand(s, c, now).state, now) <==> IsAcceptable(s, c)
  {
    hide Sound, RecordTransaction, CreateRecurringRule, Pause, Resume, AddAccount, AdjustBalance, CloseAccount, RestoreAccount,
      TransferWithinLimit, FreezeCard, SettleInterest, Moved, HasRow, IsNormalisedNumber, RecordedOnly, AdjustedOnly;
    match c
    case Record(input) => RecordKeepsSound(s, input, now);
    case CreateRecurring(input) => CreateKeeps(s, input, now);
    case PauseRecurring(id) => PauseKeeps(s, id, now);
    case ResumeRecurring(id) => ResumeKeeps(s, id, now);
    case OpenAccount(input) => AddIsSoundIffNormalised(s, input, now);
    case Adjust(input) => AdjustKeepsSound(s, input, now);
    case Close(id) => CloseKeeps(s, id, now);
    case Restore(id) => RestoreKeepsSound(s, id, now);
    case MakeTransfer(q) => TransferKeeps(s, q, now);
    case SetPrimaryCurrency(currency) => PreferencesKeep(s, currency, "", now);
    case SetDisplayName(name) => PreferencesKeep(s, s.primaryCurrency, name.value, now);
    case SetCardFrozen(id, frozen) => FreezeKeeps(s, id, frozen, now);
    case Settle => SettleKeeps(s, now);
  }

  /** Every successful command only appends to the ledger, keeps accounts, rules, owner and rates, and
      leaves no savings account both changed and with interest pending. */
  lemma {:induction false} CommandMoves(s: BankState, c: BankCommand, now: Instant)
    requires Sound(s, now) && ApplyBankCommand(s, c, now).Done?
    ensures Moved(s, ApplyBankCommand(s, c, now).state, now)
  {
    hide Sound, RecordTransaction, CreateRecurringRule, Pause, Resume, AddAccount, AdjustBalance, CloseAccount, RestoreAccount,
      TransferWithinLimit, FreezeCard, SettleInterest, Moved, RecordedOnly, AdjustedOnly;
    match c
    case Record(input) => RecordMovesOneBalance(s, input, now);
    case CreateRecurring(input) => CreateKeeps(s, input, now);
    case PauseRecurring(id) => PauseKeeps(s, id, now);
    case ResumeRecurring(id) => ResumeKeeps(s, id, now);
    case OpenAccount(input) => AddMoves(s, input, now);
    case Adjust(input) => AdjustHitsTarget(s, input, now);
    case Close(id) => CloseMoves(s, id, now);
    case Restore(id) => RestoreMoves(s, id, now);
    case MakeTransfer(q) => TransferKeeps(s, q, now);
    case SetPrimaryCurrency(currency) => SameBooksMoved(s, ApplyBankCommand(s, c, now).state, now);
    case SetDisplayName(name) => SameBooksMoved(s, ApplyBankCommand(s, c, now).state, now);
    case SetCardFrozen(id, frozen) => FreezeKeeps(s, id, frozen, now);
    case Settle => SettleKeeps(s, now);
  }

  lemma {:induction false} MovedLater(s: BankState, after: BankState, now: Instant)
    requires Moved(s, after, now)
    ensures SavingsKept(s, after, now) && s.nextSeq <= after.nextSeq && s.transactions <= after.transactions
  {
    hide SavingsKept, AccountsKept, RulesKept;
  }

  /** An acceptable command leads to an accepted state unless it used up the sequence while interest is
      still due. `Preservation` says beforehand which commands those are. */
  lemma {:induction false} ValidUnlessUsedUp(s: BankState, c: BankCommand, now: Instant)
    requires Valid(s, now) && ApplyBankCommand(s, c, now).Done?
    ensures var after := ApplyBankCommand(s, c, now).state;
            Valid(after, now) <==> IsAcceptable(s, c) && (NoInterestDue(after, now) || after.nextSeq < MAX_SAFE)
  {
    hide Valid, Sound, ApplyBankCommand, Moved, IsAcceptable, NoInterestDue, SavingsKept;
    var after := ApplyBankCommand(s, c, now).state;
    ValidIsSound(s, now);
    CommandKeepsSound(s, c, now);
    CommandMoves(s, c, now);
    MovedLater(s, after, now);
    if IsAcceptable(s, c) {
      ValidUnlessExhausted(s, after, now);
    } else if Valid(after, now) {
      ValidIsSound(after, now);
    }
  }

  lemma {:induction false} ValidIsSound(s: BankState, now: Instant)
    requires Valid(s, now)
    ensures Sound(s, now) && SettleAll(s, now).Some?
  {
    hide Sound, SettleAll;
  }
}
