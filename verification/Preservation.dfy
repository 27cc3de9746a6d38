/** The preservation theorem: which commands lead from an accepted state to an accepted state, decided
    before the command is applied. */
module Preservation {
  import opened Wrappers
  import opened Calendar
  import opened Currency
  import opened BankTypes
  import opened Ledger
  import opened Interest
  import opened BankValidity
  import opened Settlement
  import opened Recurring
  import opened CatchUpProofs
  import opened SavingsProofs
  import opened Transfer
  import opened TransferProofs
  import opened TransferEffects
  import opened ManualTransactions
  import opened ManualProofs
  import opened AccountLifecycle
  import opened OpeningProofs
  import opened CreationProofs
  import opened BankCommands
  import opened CommandProofs
  import opened RowCount

  predicate IsSavings(accounts: seq<Account>, id: string) {
    exists j :: 0 <= j < |accounts| && accounts[j].id == id && accounts[j].kind.Savings?
  }

  /** The command settles the savings account on its way: it names that account, or it is the settlement. */
  predicate SettlesSavings(s: BankState, c: BankCommand) {
    match c
    case Settle => true
    case Adjust(input) => IsSavings(s.accounts, input.accountId)
    case MakeTransfer(q) =>
      && q.clientTransferId !in s.recentTransferIds
      && (|| IsSavings(s.accounts, q.fromAccountId)
          || (q.toAccountId.Some? && IsSavings(s.accounts, q.toAccountId.value)))
    case _ => false
  }

  /** The interest that is due can still be posted after the command: there is none, or the command posts it,
      or the rows of the command leave a sequence number for it. */
  predicate LeavesRoom(s: BankState, c: BankCommand, now: Instant) {
    NoInterestDue(s, now) || SettlesSavings(s, c) || s.nextSeq + RowsOf(s, c, now) < MAX_SAFE
  }

  // ---------------------------------------------------------------- the savings account before and after

  lemma {:induction false} StillNotDue(s: BankState, after: BankState, now: Instant)
    requires Sound(s, now) && Sound(after, now) && SavingsKept(s, after, now) && NoInterestDue(s, now)
    ensures NoInterestDue(after, now)
  {
    var j := SavingsOf(s, now);
    var k := SavingsOf(after, now);
    assert KeptAt(s, after, j, now);
    hide Sound, IsPending, BalanceOf, NoInterestDue, DueInterest, FindAccount;
    assert j == k by { hide KeptAt; SameSavings(s, after, j, k, now); }
    SavingsDue(s, j, now);
    SavingsDue(after, j, now);
    var a, balance := after.accounts[j], BalanceOf(after.transactions, after.accounts[j].id);
    if DueInterest(a, balance, now) > 0 {
      DueIsPending(a, balance, now);
    }
  }

  ghost predicate SavingsSame(s: BankState, after: BankState) {
    forall j :: 0 <= j < |s.accounts| && s.accounts[j].kind.Savings? ==> j < |after.accounts| && after.accounts[j] == s.accounts[j]
  }

  lemma {:induction false} StillDue(s: BankState, after: BankState, now: Instant)
    requires Sound(s, now) && Sound(after, now) && SavingsKept(s, after, now) && SavingsSame(s, after) && !NoInterestDue(s, now)
    ensures !NoInterestDue(after, now)
  {
    var j := SavingsOf(s, now);
    var k := SavingsOf(after, now);
    assert KeptAt(s, after, j, now);
    hide Sound, IsPending, BalanceOf, NoInterestDue, DueInterest, FindAccount;
    assert j == k by { hide KeptAt, SavingsSame; SameSavings(s, after, j, k, now); }
    SavingsDue(s, j, now);
    SavingsDue(after, j, now);
    DueIsPending(s.accounts[j], BalanceOf(s.transactions, s.accounts[j].id), now);
  }

  lemma {:induction false} SettledNotDue(s: BankState, after: BankState, id: string, now: Instant)
    requires Sound(s, now) && Sound(after, now) && SavingsKept(s, after, now)
    requires IsSavings(s.accounts, id) && NothingPending(after.accounts, id, now)
    ensures NoInterestDue(after, now)
  {
    var j := SavingsOf(s, now);
    var k := SavingsOf(after, now);
    assert KeptAt(s, after, j, now);
    hide Sound, IsPending, BalanceOf, NoInterestDue, DueInterest, FindAccount;
    assert j == k by { hide KeptAt; SameSavings(s, after, j, k, now); }
    SavingsDue(after, j, now);
    var a, balance := after.accounts[j], BalanceOf(after.transactions, after.accounts[j].id);
    if DueInterest(a, balance, now) > 0 {
      DueIsPending(a, balance, now);
    }
  }

  // ---------------------------------------------------------------- commands that settle it

  lemma {:induction false} CorrectionSame(settled: BankState, after: BankState, id: string, target: nat, now: Instant)
    requires Corrected(settled, after, id, target, now)
    ensures after.accounts == settled.accounts
  {
    hide AppendRow, CorrectionRow, BalanceOf;
    AppendKeepsAccounts(settled, CorrectionRow(id, target - BalanceOf(settled.transactions, id), now));
  }

  lemma {:induction false} AdjustSettles(s: BankState, input: AdjustInput, now: Instant)
    requires Sound(s, now) && AdjustBalance(s, input, now).Done?
    ensures NothingPending(AdjustBalance(s, input, now).state.accounts, input.accountId, now)
  {
    hide Sound, AdjustBalance, SettleAccount, Correct, Corrected, NothingPending, UniqueAccountIds, Moved, FindAccount;
    var i, target, settled := AdjustParts(s, input, now);
    FindGives(s.accounts, input.accountId, i);
    CorrectParts(s, settled, s.accounts[i], target, now);
    SequenceStarted(s, now);
    SettleMoves(s, input.accountId, now);
    CorrectionSame(settled, AdjustBalance(s, input, now).state, input.accountId, target, now);
  }

  lemma {:induction false} TransferSettles(s: BankState, q: TransferRequest, now: Instant)
    requires Sound(s, now) && ApplyTransfer(s, q, now).Done? && ApplyTransfer(s, q, now).applied
    ensures NothingPending(ApplyTransfer(s, q, now).state.accounts, q.fromAccountId, now)
    ensures q.toAccountId.Some? ==> NothingPending(ApplyTransfer(s, q, now).state.accounts, q.toAccountId.value, now)
  {
    hide Sound, ApplyTransfer, TransferBetween, TransferToContact, IsClientTransferId, SettleBoth, SettleAccount, PostLegs, AppendRow,
      BalanceOf, FxMatches, LastIds, ContactLeg, Touched, NothingPending, UniqueAccountIds, Moved;
    var i, target := AppliedParts(s, q, now);
    SequenceStarted(s, now);
    match target
    case ToAccount(j) =>
      var settled, posted, credited, fx := BetweenParts(s, i, j, q.amountMinor, q.clientTransferId, now);
      BothMove(s, s.accounts[i].id, s.accounts[j].id, now);
      LegsAdd(settled, s.accounts[i], s.accounts[j], q.amountMinor, credited, fx, now);
    case ToContact(c) =>
      var settled, posted := ContactParts(s, s.accounts[i], c, q.amountMinor, q.clientTransferId, now);
      SettleMoves(s, s.accounts[i].id, now);
      AppendKeepsAccounts(settled, ContactLeg(s.accounts[i], c, q.amountMinor, now));
  }

  lemma {:induction false} SettleSettles(s: BankState, now: Instant)
    requires Sound(s, now) && SettleInterest(s, now).Done?
    ensures NoInterestDue(SettleInterest(s, now).state, now)
  {
    hide Sound, SettleAll, NoInterestDue;
    SettledIsFixed(s, now, now);
  }

  /** A command that settles the savings account leaves no interest due. */
  lemma {:induction false} SettlingLeavesNothingDue(s: BankState, c: BankCommand, now: Instant)
    requires Sound(s, now) && ApplyBankCommand(s, c, now).Done? && Sound(ApplyBankCommand(s, c, now).state, now)
    requires SettlesSavings(s, c)
    ensures NoInterestDue(ApplyBankCommand(s, c, now).state, now)
  {
    hide Sound, AdjustBalance, TransferWithinLimit, ApplyTransfer, SettleInterest, Moved, NoInterestDue, IsSavings, NothingPending, SavingsKept;
    CommandMoves(s, c, now);
    var after := ApplyBankCommand(s, c, now).state;
    MovedLater(s, after, now);
    match c
    case Settle => SettleSettles(s, now);
    case Adjust(input) =>
      AdjustSettles(s, input, now);
      SettledNotDue(s, after, input.accountId, now);
    case MakeTransfer(q) =>
      TransferKeeps(s, q, now);
      ReplayedTransfer(s, q, now);
      TransferSettles(s, q, now);
      SettledNotDue(s, after, if IsSavings(s.accounts, q.fromAccountId) then q.fromAccountId else q.toAccountId.value, now);
    case _ =>
  }

  // ---------------------------------------------------------------- commands that do not

  lemma {:induction false} OthersSettleNothing(s: BankState, id: string, now: Instant)
    requires Sound(s, now) && !IsSavings(s.accounts, id) && SettleAccount(s, id, now).Some?
    ensures SettleAccount(s, id, now) == Some(s)
  {
    hide Sound, BalanceOf, ElapsedDays, AccruedInterest;
  }

  lemma {:induction false} SameAccountsSame(s: BankState, after: BankState)
    requires s.accounts <= after.accounts
    ensures SavingsSame(s, after)
  {
  }

  lemma {:induction false} AdjustSame(s: BankState, input: AdjustInput, now: Instant)
    requires Sound(s, now) && AdjustBalance(s, input, now).Done? && !IsSavings(s.accounts, input.accountId)
    ensures AdjustBalance(s, input, now).state.accounts == s.accounts
  {
    hide Sound, AdjustBalance, SettleAccount, Correct, Corrected, IsSavings, FindAccount;
    var i, target, settled := AdjustParts(s, input, now);
    FindGives(s.accounts, input.accountId, i);
    CorrectParts(s, settled, s.accounts[i], target, now);
    OthersSettleNothing(s, input.accountId, now);
    CorrectionSame(settled, AdjustBalance(s, input, now).state, input.accountId, target, now);
  }

  lemma {:induction false} TransferSame(s: BankState, q: TransferRequest, now: Instant)
    requires Sound(s, now) && ApplyTransfer(s, q, now).Done? && !SettlesSavings(s, MakeTransfer(q))
    ensures ApplyTransfer(s, q, now).state.accounts == s.accounts
  {
    hide Sound, ApplyTransfer, TransferBetween, TransferToContact, IsClientTransferId, SettleAccount, PostLegs, AppendRow,
      BalanceOf, FxMatches, LastIds, ContactLeg, Touched, IsSavings;
    ReplayedTransfer(s, q, now);
    if ApplyTransfer(s, q, now).applied {
      var i, target := AppliedParts(s, q, now);
      match target
      case ToAccount(j) =>
        var settled, posted, credited, fx := BetweenParts(s, i, j, q.amountMinor, q.clientTransferId, now);
        OthersSettleNothing(s, s.accounts[i].id, now);
        OthersSettleNothing(s, s.accounts[j].id, now);
        LegsAdd(settled, s.accounts[i], s.accounts[j], q.amountMinor, credited, fx, now);
      case ToContact(c) =>
        var settled, posted := ContactParts(s, s.accounts[i], c, q.amountMinor, q.clientTransferId, now);
        OthersSettleNothing(s, s.accounts[i].id, now);
        AppendKeepsAccounts(settled, ContactLeg(s.accounts[i], c, q.amountMinor, now));
    }
  }

  lemma {:induction false} RecordSame(s: BankState, input: ManualInput, now: Instant)
    requires RecordTransaction(s, input, now).Done?
    ensures RecordTransaction(s, input, now).state.accounts == s.accounts
  {
    hide RecordTransaction, ManualRow, AppendRow, BalanceOf, IsAllowedEffectiveDate;
    var i, amount := RecordParts(s, input, now);
    AppendKeepsAccounts(s, ManualRow(input, amount, now));
  }

  lemma {:induction false} OpeningSame(s: BankState, input: AddInput, now: Instant)
    requires AddAccount(s, input, now).Done?
    ensures s.accounts <= AddAccount(s, input, now).state.accounts
  {
    hide AddAccount, IsAccountNumber, IsTaken, HasOpenChecking, NewAccount, AppendRow, OpeningRow;
    var enlarged := AddParts(s, input, now);
    AppendKeepsAccounts(enlarged, OpeningRow(input.accountId, now));
  }

  lemma {:induction false} CreateSame(s: BankState, input: RecurringInput, now: Instant)
    requires Sound(s, now) && CreateRecurringRule(s, input, now).Done?
    ensures CreateRecurringRule(s, input, now).state.accounts == s.accounts
  {
    hide Sound, CreateRecurringRule, Created, IsAddableRule;
    var r, made := CreateIsCreated(s, input, now);
    CreatedAdds(s, r, made, now, CreateRecurringRule(s, input, now).state);
  }

  lemma {:induction false} ResumeSame(s: BankState, id: string, now: Instant)
    requires Sound(s, now) && Resume(s, id, now).Done?
    ensures Resume(s, id, now).state.accounts == s.accounts
  {
    hide Sound, MaterializeRecurring, CaughtUpFrom, NoneDueBefore, WithStatus;
    if Resume(s, id, now).applied {
      var resumed := Resumed(s, id);
      ResumedKeepsSound(s, id, now);
      MaterializeKeepsSound(resumed, now, MAX_TRANSACTIONS);
      CaughtUpGrows(resumed, MaterializeRecurring(resumed, now, MAX_TRANSACTIONS).state);
    }
  }

  /** A command that adds rows without settling the savings account leaves that account as it is. */
  lemma {:induction false} AddingLeavesSavings(s: BankState, c: BankCommand, now: Instant)
    requires Sound(s, now) && ApplyBankCommand(s, c, now).Done? && !SettlesSavings(s, c) && RowsOf(s, c, now) > 0
    ensures SavingsSame(s, ApplyBankCommand(s, c, now).state)
  {
    hide Sound, RecordTransaction, CreateRecurringRule, Pause, Resume, AddAccount, AdjustBalance, TransferWithinLimit, ApplyTransfer,
      SavingsSame, CreationRows, ResumeRows, AdjustRows, TransferRows, IsSavings, Moved;
    match c {
      case Record(input) => RecordSame(s, input, now);
      case CreateRecurring(input) => CreateSame(s, input, now);
      case ResumeRecurring(id) => ResumeSame(s, id, now);
      case OpenAccount(input) => OpeningSame(s, input, now);
      case Adjust(input) => AdjustSame(s, input, now);
      case MakeTransfer(q) =>
        TransferKeeps(s, q, now);
        TransferSame(s, q, now);
      case _ =>
    }
    SameAccountsSame(s, ApplyBankCommand(s, c, now).state);
  }

  // ---------------------------------------------------------------- the theorem

  lemma {:induction false} DueHasRoom(s: BankState, now: Instant)
    requires Valid(s, now)
    ensures NoInterestDue(s, now) || s.nextSeq < MAX_SAFE
  {
    hide SettleAll, NoInterestDue, BalanceOf, FindAccount, DueInterest;
    var j := SavingsOf(s, now);
    SettleNeedsRoom(s, j, now);
    SavingsDue(s, j, now);
  }

  /** A successful command leads from an accepted state to one that is accepted at the same instant exactly
      when the command is acceptable and leaves room for the interest that is due, which the state before and
      the command decide. */
  lemma {:induction false} CommandKeepsValid(s: BankState, c: BankCommand, now: Instant)
    requires Valid(s, now) && ApplyBankCommand(s, c, now).Done?
    ensures Valid(ApplyBankCommand(s, c, now).state, now) <==> IsAcceptable(s, c) && LeavesRoom(s, c, now)
  {
    hide Valid, Sound, ApplyBankCommand, Moved, IsAcceptable, NoInterestDue, SavingsKept, SettlesSavings, RowsOf, SavingsSame;
    var after := ApplyBankCommand(s, c, now).state;
    ValidIsSound(s, now);
    CommandKeepsSound(s, c, now);
    ValidUnlessUsedUp(s, c, now);
    if IsAcceptable(s, c) {
      CommandMoves(s, c, now);
      MovedLater(s, after, now);
      RowsAreForetold(s, c, now);
      DueHasRoom(s, now);
      if NoInterestDue(s, now) {
        StillNotDue(s, after, now);
      } else if SettlesSavings(s, c) {
        SettlingLeavesNothingDue(s, c, now);
      } else if RowsOf(s, c, now) > 0 {
        AddingLeavesSavings(s, c, now);
        StillDue(s, after, now);
      }
    }
  }
}
