/** Rows entered by hand keep the invariant and move exactly one balance. */
module ManualProofs {
  import opened Wrappers
  import opened Calendar
  import opened Currency
  import opened Money
  import opened BankTypes
  import opened Ledger
  import opened Interest
  import opened BankValidity
  import opened Posting
  import opened Settlement
  import opened RecurringProofs
  import opened Growth
  import opened SavingsProofs
  import opened TransferProofs
  import opened TransferEffects
  import opened ManualTransactions

  // ---------------------------------------------------------------- a recorded transaction

  lemma {:induction false} RecordParts(s: BankState, input: ManualInput, now: Instant) returns (i: nat, amount: nat)
    requires RecordTransaction(s, input, now).Done?
    ensures FindAccount(s.accounts, input.accountId) == Some(i) && IsOpenChecking(s.accounts[i])
    ensures ParseAmountInput(input.amountInput, s.accounts[i].currency, input.locale) == Some(amount)
    ensures 0 < amount <= MAX_SAFE && |s.transactions| < MAX_TRANSACTIONS
    ensures input.counterparty.Some? && input.note.Some? && input.category.Some?
    ensures IsAllowedEffectiveDate(input.effectiveDate, now)
    ensures input.direction.Expense? ==> amount <= BalanceOf(s.transactions, input.accountId)
    ensures AppendRow(s, ManualRow(input, amount, now)).Some?
    ensures RecordTransaction(s, input, now) == Ok(AppendRow(s, ManualRow(input, amount, now)).value, true)
  {
    hide AppendRow, BalanceOf, IsAllowedEffectiveDate, WithinCommandUsdLimit, ManualRow;
    i := FindAccount(s.accounts, input.accountId).value;
    amount := ParseAmountInput(input.amountInput, s.accounts[i].currency, input.locale).value;
  }

  lemma {:induction false} ManualRowShape(input: ManualInput, amount: nat, now: Instant)
    requires input.counterparty.Some? && input.note.Some? && input.category.Some?
    requires IsAllowedEffectiveDate(input.effectiveDate, now) && 0 < amount <= MAX_SAFE
    ensures var d := ManualRow(input, amount, now);
            && DraftShape(d) && DraftTimes(d, now) && d.createdAt == now && d.accountId == input.accountId
            && !IsOwnTransfer(d.kind) && d.recurringRuleId.None? && d.occurrenceKey.None?
            && d.amountMinor == Signed(input.direction, amount)
  {
    hide IsAllowedEffectiveDate;
    ThisInstant(now);
  }

  lemma {:induction false} ManualRowFits(input: ManualInput, amount: nat, a: Account, now: Instant)
    requires input.counterparty.Some? && input.note.Some? && input.category.Some?
    requires IsAllowedEffectiveDate(input.effectiveDate, now)
    requires IsOpenChecking(a) && NotAfter(a.createdAt, now)
    ensures RowFits(ManualRow(input, amount, now), a, now)
  {
    AllowedIsNotLater(input.effectiveDate, now);
  }

  lemma {:induction false} ManualRowPostable(s: BankState, i: nat, input: ManualInput, amount: nat, now: Instant)
    requires Sound(s, now) && i < |s.accounts| && s.accounts[i].id == input.accountId && IsOpenChecking(s.accounts[i])
    requires 0 < amount <= MAX_SAFE && |s.transactions| < MAX_TRANSACTIONS
    requires input.counterparty.Some? && input.note.Some? && input.category.Some?
    requires IsAllowedEffectiveDate(input.effectiveDate, now)
    requires input.direction.Expense? ==> amount <= BalanceOf(s.transactions, input.accountId)
    ensures Postable(s, ManualRow(input, amount, now), now)
  {
    hide Sound, BalanceOf, NotAfter, IsAllowedEffectiveDate, ManualRow, DraftShape, DraftTimes, RowFits;
    AccountFacts(s, i, now);
    BalanceIsNatural(s, input.accountId, now);
    ManualRowShape(input, amount, now);
    ManualRowFits(input, amount, s.accounts[i], now);
  }

  lemma {:induction false} RecordKeepsSound(s: BankState, input: ManualInput, now: Instant)
    requires Sound(s, now) && RecordTransaction(s, input, now).Done?
    ensures Sound(RecordTransaction(s, input, now).state, now)
  {
    hide Sound, RecordTransaction, ManualRow, AppendRow, Postable, BalanceOf, IsAllowedEffectiveDate;
    var i, amount := RecordParts(s, input, now);
    ManualRowShape(input, amount, now);
    ManualRowPostable(s, i, input, amount, now);
    PostKeepsSound(s, ManualRow(input, amount, now), now);
  }

  lemma {:induction false} CheckingNotPending(s: BankState, i: nat, now: Instant)
    requires Sound(s, now) && i < |s.accounts| && s.accounts[i].kind.Checking?
    ensures NothingPending(s.accounts, s.accounts[i].id, now)
  {
    hide ElapsedDays;
    SequenceStarted(s, now);
    OnlyOneOfId(s.accounts, i, now);
  }

  ghost predicate OnlyBalance(s: BankState, after: BankState, accountId: string, balance: int) {
    && BalanceOf(after.transactions, accountId) == balance
    && (forall a: string :: a != accountId ==> BalanceOf(after.transactions, a) == BalanceOf(s.transactions, a))
  }

  ghost predicate RecordedOnly(s: BankState, after: BankState, input: ManualInput) {
    var found := FindAccount(s.accounts, input.accountId);
    && found.Some?
    && var amount := ParseAmountInput(input.amountInput, s.accounts[found.value].currency, input.locale);
    && amount.Some?
    && OnlyBalance(s, after, input.accountId, BalanceOf(s.transactions, input.accountId) + Signed(input.direction, amount.value))
  }

  /** A recorded row moves its account's balance by exactly the amount entered, down for an expense, and
      no other balance. */
  lemma {:induction false} RecordMovesOneBalance(s: BankState, input: ManualInput, now: Instant)
    requires Sound(s, now) && RecordTransaction(s, input, now).Done?
    ensures var after := RecordTransaction(s, input, now).state;
            Moved(s, after, now) && RecordedOnly(s, after, input) && after.recentTransferIds == s.recentTransferIds
  {
    hide Sound, RecordTransaction, ManualRow, AppendRow, BalanceOf, IsAllowedEffectiveDate, NothingPending, Grown, SavingsKept;
    var i, amount := RecordParts(s, input, now);
    ManualRowShape(input, amount, now);
    CheckingNotPending(s, i, now);
    PostedOnSettled(s, ManualRow(input, amount, now), now);
    AppendKeepsFrame(s, ManualRow(input, amount, now));
  }

  // ---------------------------------------------------------------- an adjusted balance

  lemma {:induction false} AdjustParts(s: BankState, input: AdjustInput, now: Instant)
      returns (i: nat, target: nat, settled: BankState)
    requires AdjustBalance(s, input, now).Done?
    ensures FindAccount(s.accounts, input.accountId) == Some(i) && s.accounts[i].status.Open?
    ensures ParseBalanceInput(input.targetAmountInput, s.accounts[i].currency, input.locale) == Some(target)
    ensures target <= MAX_SAFE
    ensures SettleAccount(s, input.accountId, now) == Some(settled)
    ensures AdjustBalance(s, input, now) == Correct(s, settled, s.accounts[i], target, now)
  {
    hide SettleAccount, Correct;
    i := FindAccount(s.accounts, input.accountId).value;
    target := ParseBalanceInput(input.targetAmountInput, s.accounts[i].currency, input.locale).value;
    settled := SettleAccount(s, input.accountId, now).value;
  }

  /** The outcome of a correction: nothing more than the settlement, or one row that makes up the
      difference. */
  ghost predicate Corrected(settled: BankState, after: BankState, accountId: string, target: nat, now: Instant) {
    var amount := target - BalanceOf(settled.transactions, accountId);
    if amount == 0 then after == settled
    else
      && |settled.transactions| < MAX_TRANSACTIONS && IsSafe(amount)
      && AppendRow(settled, CorrectionRow(accountId, amount, now)) == Some(after)
  }

  lemma {:induction false} CorrectParts(s: BankState, settled: BankState, account: Account, target: nat, now: Instant)
    requires Correct(s, settled, account, target, now).Done?
    ensures |settled.transactions| <= MAX_TRANSACTIONS
    ensures Corrected(settled, Correct(s, settled, account, target, now).state, account.id, target, now)
  {
    hide AppendRow, BalanceOf, WithinCommandUsdLimit, CorrectionRow;
  }

  lemma {:induction false} CorrectionShape(accountId: string, amount: int, now: Instant)
    requires IsSafe(amount) && amount != 0
    ensures var d := CorrectionRow(accountId, amount, now);
            && DraftShape(d) && DraftTimes(d, now) && d.createdAt == now && d.accountId == accountId
            && !IsOwnTransfer(d.kind) && d.recurringRuleId.None? && d.occurrenceKey.None? && d.amountMinor == amount
  {
    ThisInstant(now);
  }

  lemma {:induction false} CorrectionFits(amount: int, a: Account, now: Instant)
    requires a.status.Open? && NotAfter(a.createdAt, now)
    ensures RowFits(CorrectionRow(a.id, amount, now), a, now)
  {
  }

  lemma {:induction false} CorrectionPostable(s: BankState, i: nat, target: nat, now: Instant)
    requires Sound(s, now) && i < |s.accounts| && s.accounts[i].status.Open?
    requires |s.transactions| < MAX_TRANSACTIONS
    requires var amount := target - BalanceOf(s.transactions, s.accounts[i].id); IsSafe(amount) && amount != 0
    ensures Postable(s, CorrectionRow(s.accounts[i].id, target - BalanceOf(s.transactions, s.accounts[i].id), now), now)
  {
    hide Sound, BalanceOf, NotAfter, CorrectionRow, DraftShape, DraftTimes, RowFits;
    var amount := target - BalanceOf(s.transactions, s.accounts[i].id);
    AccountFacts(s, i, now);
    CorrectionShape(s.accounts[i].id, amount, now);
    CorrectionFits(amount, s.accounts[i], now);
  }

  lemma {:induction false} CorrectKeepsSound(s: BankState, after: BankState, i: nat, target: nat, now: Instant)
    requires Sound(s, now) && i < |s.accounts| && s.accounts[i].status.Open?
    requires Corrected(s, after, s.accounts[i].id, target, now)
    ensures Sound(after, now)
  {
    hide Sound, CorrectionRow, AppendRow, Postable, BalanceOf;
    var amount := target - BalanceOf(s.transactions, s.accounts[i].id);
    if amount != 0 {
      CorrectionShape(s.accounts[i].id, amount, now);
      CorrectionPostable(s, i, target, now);
      PostKeepsSound(s, CorrectionRow(s.accounts[i].id, amount, now), now);
    }
  }

  lemma {:induction false} AdjustKeepsSound(s: BankState, input: AdjustInput, now: Instant)
    requires Sound(s, now) && AdjustBalance(s, input, now).Done?
    ensures Sound(AdjustBalance(s, input, now).state, now)
  {
    hide Sound, AdjustBalance, SettleAccount, Correct, Corrected, SettledFrom;
    var i, target, settled := AdjustParts(s, input, now);
    CorrectParts(s, settled, s.accounts[i], target, now);
    SettleAccountKeepsSound(s, input.accountId, now);
    SettleAccountFrame(s, input.accountId, now);
    SettledFromAccounts(s, settled, i);
    IdentityIds(settled.accounts[i], s.accounts[i]);
    CorrectKeepsSound(settled, AdjustBalance(s, input, now).state, i, target, now);
  }

  lemma {:induction false} CorrectHitsTarget(s: BankState, after: BankState, accountId: string, target: nat, now: Instant)
    requires Corrected(s, after, accountId, target, now)
    ensures OnlyBalance(s, after, accountId, target)
    ensures after.recentTransferIds == s.recentTransferIds
  {
    hide AppendRow, BalanceOf;
    var amount := target - BalanceOf(s.transactions, accountId);
    if amount != 0 {
      AppendKeepsFrame(s, CorrectionRow(accountId, amount, now));
    }
  }

  lemma {:induction false} CorrectMoves(s: BankState, after: BankState, accountId: string, target: nat, now: Instant)
    requires Corrected(s, after, accountId, target, now) && NothingPending(s.accounts, accountId, now)
    ensures Moved(s, after, now)
  {
    hide AppendRow, BalanceOf, NothingPending, Grown, SavingsKept;
    var amount := target - BalanceOf(s.transactions, accountId);
    if amount == 0 {
      NothingMoved(s, now);
    } else {
      PostedOnSettled(s, CorrectionRow(accountId, amount, now), now);
    }
  }

  ghost predicate AdjustedOnly(s: BankState, after: BankState, input: AdjustInput) {
    var found := FindAccount(s.accounts, input.accountId);
    && found.Some?
    && var target := ParseBalanceInput(input.targetAmountInput, s.accounts[found.value].currency, input.locale);
    && target.Some?
    && OnlyBalance(s, after, input.accountId, target.value)
  }

  /** After a successful adjustment the balance is the target, pending interest included; no other
      balance changes. */
  lemma {:induction false} AdjustHitsTarget(s: BankState, input: AdjustInput, now: Instant)
    requires Sound(s, now) && AdjustBalance(s, input, now).Done?
    ensures var after := AdjustBalance(s, input, now).state;
            Moved(s, after, now) && AdjustedOnly(s, after, input) && after.recentTransferIds == s.recentTransferIds
  {
    hide Sound, AdjustBalance, SettleAccount, Correct, Corrected, Moved, NothingPending, BalanceOf, SameStanding, UniqueAccountIds;
    var i, target, settled := AdjustParts(s, input, now);
    CorrectParts(s, settled, s.accounts[i], target, now);
    SequenceStarted(s, now);
    SettleMoves(s, input.accountId, now);
    SettleAccountFrame(s, input.accountId, now);
    OtherBalances(s, input.accountId, now);
    var after := AdjustBalance(s, input, now).state;
    CorrectHitsTarget(settled, after, input.accountId, target, now);
    CorrectMoves(settled, after, input.accountId, target, now);
    MovedTwice(s, settled, after, now);
  }
}
