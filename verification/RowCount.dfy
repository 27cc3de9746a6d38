/** How many ledger rows a successful command adds, foretold from the state before it. */
module RowCount {
  import opened Wrappers
  import opened Calendar
  import opened Money
  import opened BankTypes
  import opened Ledger
  import opened Interest
  import opened BankValidity
  import opened Posting
  import opened Settlement
  import opened Recurring
  import opened RecurringProofs
  import opened CatchUpProofs
  import opened CatchUpTally
  import opened Growth
  import opened SavingsProofs
  import opened Transfer
  import opened TransferProofs
  import opened TransferEffects
  import opened ManualTransactions
  import opened ManualProofs
  import opened AccountLifecycle
  import opened LifecycleProofs
  import opened OpeningProofs
  import opened CreationProofs
  import opened BankCommands
  import opened CommandProofs

  /** The row that settling this account first would post. */
  function InterestRows(s: BankState, id: string, now: Instant): nat {
    match FindAccount(s.accounts, id)
    case None => 0
    case Some(i) => if PendingInterest(s, s.accounts[i], now) > 0 then 1 else 0
  }

  function CreationRows(input: RecurringInput, now: Instant): nat {
    match MonthOccurrence(input.startYear, input.startMonth, input.anchorDay)
    case None => 0
    case Some(first) =>
      match DueThrough(first, input.anchorDay, now.date, 120)
      case None => 0
      case Some(schedule) => |schedule.due|
  }

  /** A rule that is resumed brings the whole pass with it. */
  function ResumeRows(s: BankState, id: string, now: Instant): nat {
    match FindRule(s.recurringRules, id)
    case None => 0
    case Some(i) =>
      if s.recurringRules[i].status.RuleActive? then 0
      else
        var tally := Tally(BooksOf(s), Resumed(s, id).recurringRules, s.accounts, now.date, MAX_TRANSACTIONS);
        if tally.rows < |s.transactions| then 0 else tally.rows - |s.transactions|
  }

  function AdjustRows(s: BankState, input: AdjustInput, now: Instant): nat {
    match FindAccount(s.accounts, input.accountId)
    case None => 0
    case Some(i) =>
      var a := s.accounts[i];
      var target := ParseBalanceInput(input.targetAmountInput, a.currency, input.locale);
      var settled := BalanceOf(s.transactions, input.accountId) + PendingInterest(s, a, now);
      InterestRows(s, input.accountId, now) + if target == Some(settled) then 0 else 1
  }

  function TransferRows(s: BankState, q: TransferRequest, now: Instant): nat {
    if q.clientTransferId in s.recentTransferIds then 0
    else
      InterestRows(s, q.fromAccountId, now)
      + if q.toAccountId.Some? then InterestRows(s, q.toAccountId.value, now) + 2 else 1
  }

  /** The rows that the command adds to this state when it succeeds. */
  function RowsOf(s: BankState, c: BankCommand, now: Instant): nat {
    match c
    case Record(_) => 1
    case CreateRecurring(input) => CreationRows(input, now)
    case ResumeRecurring(id) => ResumeRows(s, id, now)
    case OpenAccount(_) => 1
    case Adjust(input) => AdjustRows(s, input, now)
    case MakeTransfer(q) => TransferRows(s, q, now)
    case Settle => if NoInterestDue(s, now) then 0 else 1
    case _ => 0
  }

  ghost predicate AddsRows(s: BankState, after: BankState, n: nat) {
    |after.transactions| == |s.transactions| + n
  }

  // ---------------------------------------------------------------- command by command

  lemma {:induction false} SettleRows(s: BankState, id: string, now: Instant)
    requires SettleAccount(s, id, now).Some?
    ensures AddsRows(s, SettleAccount(s, id, now).value, InterestRows(s, id, now))
  {
    hide AccruedInterest, BalanceOf, ElapsedDays, FindAccount, TxId;
  }

  lemma {:induction false} RecordRows(s: BankState, input: ManualInput, now: Instant)
    requires RecordTransaction(s, input, now).Done?
    ensures AddsRows(s, RecordTransaction(s, input, now).state, 1)
  {
    hide RecordTransaction, ManualRow, AppendRow, BalanceOf, IsAllowedEffectiveDate;
    var i, amount := RecordParts(s, input, now);
    AppendedParts(s, ManualRow(input, amount, now));
  }

  lemma {:induction false} OpeningRows(s: BankState, input: AddInput, now: Instant)
    requires AddAccount(s, input, now).Done?
    ensures AddsRows(s, AddAccount(s, input, now).state, 1)
  {
    hide AddAccount, IsAccountNumber, IsTaken, HasOpenChecking, NewAccount, AppendRow, OpeningRow;
    var enlarged := AddParts(s, input, now);
    AppendedParts(enlarged, OpeningRow(input.accountId, now));
  }

  lemma {:induction false} CreatedRows(s: BankState, input: RecurringInput, now: Instant)
    requires Sound(s, now) && CreateRecurringRule(s, input, now).Done?
    ensures AddsRows(s, CreateRecurringRule(s, input, now).state, CreationRows(input, now))
  {
    hide Sound, CreateRecurringRule, Backfill, NewRule, DueThrough, MonthOccurrence, IsAllowedEffectiveDate, IsRuleId, FindRule,
      StartsLaterThisMonth, FindAccount, AppendAll, BalanceOf, Created, IsAddableRule;
    var r, made := CreateIsCreated(s, input, now);
    CreatedAdds(s, r, made, now, CreateRecurringRule(s, input, now).state);
    var i, amount, first, schedule := CreationParts(s, input, now);
    var rule := NewRule(input, amount, first, schedule.next, now);
    NewRuleAmount(input, amount, first, schedule.next, now);
    var a := s.accounts[i];
    BackfillParts(s, rule, schedule.due, a.currency, s.exchangeRates.rates.Of(a.currency), now);
  }

  lemma {:induction false} CreatedAdds(s: BankState, r: RecurringRule, schedule: Schedule, now: Instant, after: BankState)
    requires Created(s, r, schedule, now, after)
    ensures AddsRows(s, after, |schedule.due|) && after.accounts == s.accounts
  {
    hide Sound, AtMonth, MonthIndex, OccurrenceRow, BalanceOf;
    assert Extends(WithRule(s, r), after.(recurringRules := WithRule(s, r).recurringRules), |schedule.due|);
  }

  lemma {:induction false} ResumedKeepsSound(s: BankState, id: string, now: Instant)
    requires Sound(s, now) && Resume(s, id, now).Done? && Resume(s, id, now).applied
    ensures Sound(Resumed(s, id), now)
  {
    hide Sound, WithStatus, Resume, AccountOpen;
    var i, j := ResumeParts(s, id, now);
    OpenAccountOf(s, j, now);
    StatusKeepsSound(s, i, RuleActive, None, now);
  }

  lemma {:induction false} ResumedRows(s: BankState, id: string, now: Instant)
    requires Sound(s, now) && Resume(s, id, now).Done?
    ensures AddsRows(s, Resume(s, id, now).state, ResumeRows(s, id, now))
  {
    hide Sound, MaterializeRecurring, Tally, BalanceOf, AccountIds, CaughtUpFrom, NoneDueBefore, WithStatus;
    if Resume(s, id, now).applied {
      var resumed := Resumed(s, id);
      ResumedKeepsSound(s, id, now);
      TallyIsExact(resumed, now, MAX_TRANSACTIONS);
      MaterializeKeepsSound(resumed, now, MAX_TRANSACTIONS);
      CaughtUpGrows(resumed, MaterializeRecurring(resumed, now, MAX_TRANSACTIONS).state);
    }
  }

  lemma {:induction false} CaughtUpGrows(s: BankState, after: BankState)
    requires CaughtUpFrom(s, after)
    ensures |s.transactions| <= |after.transactions| && after.accounts == s.accounts
  {
    hide BalanceOf, Terms;
  }

  lemma {:induction false} AdjustedRows(s: BankState, input: AdjustInput, now: Instant)
    requires AdjustBalance(s, input, now).Done?
    ensures AddsRows(s, AdjustBalance(s, input, now).state, AdjustRows(s, input, now))
  {
    hide AdjustBalance, SettleAccount, Correct, BalanceOf, PendingInterest, AppendRow, CorrectionRow, FindAccount, ParseBalanceInput;
    var i, target, settled := AdjustParts(s, input, now);
    CorrectParts(s, settled, s.accounts[i], target, now);
    FindGives(s.accounts, input.accountId, i);
    SettledBalance(s, i, now);
    SettleRows(s, input.accountId, now);
    var amount := target - BalanceOf(settled.transactions, input.accountId);
    if amount != 0 {
      AppendedParts(settled, CorrectionRow(input.accountId, amount, now));
    }
  }

  lemma {:induction false} BothRows(s: BankState, i: nat, j: nat, now: Instant)
    requires Sound(s, now) && i < |s.accounts| && j < |s.accounts| && i != j
    requires SettleBoth(s, s.accounts[i].id, s.accounts[j].id, now).Some?
    ensures AddsRows(s, SettleBoth(s, s.accounts[i].id, s.accounts[j].id, now).value,
                     InterestRows(s, s.accounts[i].id, now) + InterestRows(s, s.accounts[j].id, now))
  {
    hide Sound, SettleAccount, BalanceOf, FindAccount, DueInterest, UniqueAccountIds, Moved, NothingPending;
    var from, to := s.accounts[i], s.accounts[j];
    DistinctIds(s, i, j, now);
    FindIsUnique(s.accounts, j);
    SettleRows(s, from.id, now);
    OtherBalances(s, from.id, now);
    var one := SettleAccount(s, from.id, now).value;
    SettleMoves(s, from.id, now);
    SettleKeepsOtherAccount(s, from.id, j, now);
    FindIsUnique(one.accounts, j);
    SettleRows(one, to.id, now);
  }

  lemma {:induction false} TransferredRows(s: BankState, q: TransferRequest, now: Instant)
    requires Sound(s, now) && ApplyTransfer(s, q, now).Done?
    ensures AddsRows(s, ApplyTransfer(s, q, now).state, TransferRows(s, q, now))
  {
    hide Sound, ApplyTransfer, TransferBetween, TransferToContact, IsClientTransferId, InterestRows, SettleBoth, SettleAccount, PostLegs,
      AppendRow, BalanceOf, FxMatches, LastIds, ContactLeg, Touched;
    if ApplyTransfer(s, q, now).applied {
      var i, target := AppliedParts(s, q, now);
      match target
      case ToAccount(j) =>
        var settled, posted, credited, fx := BetweenParts(s, i, j, q.amountMinor, q.clientTransferId, now);
        BothRows(s, i, j, now);
        LegsAdd(settled, s.accounts[i], s.accounts[j], q.amountMinor, credited, fx, now);
      case ToContact(c) =>
        var settled, posted := ContactParts(s, s.accounts[i], c, q.amountMinor, q.clientTransferId, now);
        SettleRows(s, s.accounts[i].id, now);
        AppendedParts(settled, ContactLeg(s.accounts[i], c, q.amountMinor, now));
    } else {
      ReplayedTransfer(s, q, now);
    }
  }

  lemma {:induction false} LegsAdd(s: BankState, from: Account, to: Account, amount: int, credited: int, fx: Option<FxSnapshot>, now: Instant)
    requires PostLegs(s, from, to, amount, credited, fx, now).Some?
    ensures AddsRows(s, PostLegs(s, from, to, amount, credited, fx, now).value, 2)
    ensures PostLegs(s, from, to, amount, credited, fx, now).value.accounts == s.accounts
  {
    hide PostLegs, OutLeg, InLeg, AppendRow, BalanceOf;
    var one := LegsAsRows(s, from, to, amount, credited, fx, now);
    AppendedParts(s, OutLeg(s, from, to, amount, fx, now));
    AppendedParts(one, InLeg(s, from, to, credited, fx, now));
  }

  lemma {:induction false} SettledRows(s: BankState, now: Instant)
    requires Sound(s, now) && SettleInterest(s, now).Done?
    ensures AddsRows(s, SettleInterest(s, now).state, if NoInterestDue(s, now) then 0 else 1)
  {
    var j := SavingsOf(s, now);
    hide Sound, SettleAll, NoInterestDue, FindAccount, BalanceOf, DueInterest;
    SettlementRows(s, j, now);
    SavingsDue(s, j, now);
  }

  lemma {:induction false} PlainRows(s: BankState, c: BankCommand, now: Instant)
    requires c.PauseRecurring? || c.SetPrimaryCurrency? || c.SetDisplayName? || c.SetCardFrozen?
    requires ApplyBankCommand(s, c, now).Done?
    ensures AddsRows(s, ApplyBankCommand(s, c, now).state, 0)
  {
    hide WithCard, WithStatus, FindCard, FindRule, FindAccount;
  }

  lemma {:induction false} RestoredRows(s: BankState, id: string, now: Instant)
    requires RestoreAccount(s, id, now).Done?
    ensures AddsRows(s, RestoreAccount(s, id, now).state, 0)
  {
    hide FindAccount, HasOtherOpenChecking, ReopenIn, UnfreezeCards, UnpauseRules;
  }

  /** A successful command adds exactly the rows foretold, its interest and all its occurrences included. */
  lemma {:induction false} RowsAreForetold(s: BankState, c: BankCommand, now: Instant)
    requires Sound(s, now) && ApplyBankCommand(s, c, now).Done?
    ensures |ApplyBankCommand(s, c, now).state.transactions| == |s.transactions| + RowsOf(s, c, now)
    ensures ApplyBankCommand(s, c, now).state.nextSeq == s.nextSeq + RowsOf(s, c, now)
  {
    hide Sound, RecordTransaction, CreateRecurringRule, Pause, Resume, AddAccount, AdjustBalance, CloseAccount, RestoreAccount,
      TransferWithinLimit, FreezeCard, SettleInterest, Moved, NoInterestDue, ApplyTransfer, CreationRows, ResumeRows, AdjustRows,
      TransferRows;
    CommandMoves(s, c, now);
    MovedCounts(s, ApplyBankCommand(s, c, now).state, now);
    match c
    case Record(input) => RecordRows(s, input, now);
    case CreateRecurring(input) => CreatedRows(s, input, now);
    case ResumeRecurring(id) => ResumedRows(s, id, now);
    case OpenAccount(input) => OpeningRows(s, input, now);
    case Adjust(input) => AdjustedRows(s, input, now);
    case Close(id) => CloseAppendsNothing(s, id, now);
    case Restore(id) => RestoredRows(s, id, now);
    case MakeTransfer(q) =>
      TransferKeeps(s, q, now);
      TransferredRows(s, q, now);
    case Settle => SettledRows(s, now);
    case _ => PlainRows(s, c, now);
  }

  lemma {:induction false} MovedCounts(s: BankState, after: BankState, now: Instant)
    requires Moved(s, after, now)
    ensures after.nextSeq == s.nextSeq + (|after.transactions| - |s.transactions|)
  {
    hide SavingsKept, AccountsKept, RulesKept;
  }
}
