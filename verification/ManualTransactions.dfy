/** Rows that the user enters by hand: `src/domain/manualTransactions.ts`. */
module ManualTransactions {
  import opened Wrappers
  import opened Calendar
  import opened Currency
  import opened Money
  import opened BankTypes
  import opened Ledger
  import opened Interest
  import opened Recurring

  /** The texts arrive normalised: `None` where the normaliser refuses them; a note that was not given is
      `Some("")`, and a category that was not given is `Some("other")`. */
  datatype ManualInput = ManualInput(
    accountId: string, direction: Direction, amountInput: string, locale: Locale, counterparty: Option<Text>,
    note: Option<Text>, category: Option<Text>, effectiveDate: CalendarDate)

  function Signed(direction: Direction, amount: int): int {
    if direction.Expense? then -amount else amount
  }

  function ManualRow(input: ManualInput, amount: nat, now: Instant): Draft
    requires input.counterparty.Some? && input.note.Some? && input.category.Some?
    requires IsAllowedEffectiveDate(input.effectiveDate, now)
  {
    Draft(input.accountId, Signed(input.direction, amount),
          if input.direction.Expense? then ManualExpense else ManualIncome,
          input.counterparty, input.category, None, None, NonEmpty(input.note.value), Some(input.effectiveDate),
          None, None, now)
  }

  function RecordTransaction(s: BankState, input: ManualInput, now: Instant): Outcome {
    var found := FindAccount(s.accounts, input.accountId);
    if found.None? then Refuse(UnknownAccount)
    else
      var account := s.accounts[found.value];
      if account.status.Closed? then Refuse(AccountClosed)
      else if !account.kind.Checking? then Refuse(CheckingOnly)
      else if !IsAllowedEffectiveDate(input.effectiveDate, now) then Refuse(InvalidDate)
      else
        match ParseAmountInput(input.amountInput, account.currency, input.locale)
        case None => Refuse(InvalidAmount)
        case Some(amount) =>
          if !WithinCommandUsdLimit(amount, account.currency, s.exchangeRates.rates.Of(account.currency)) then Refuse(AmountTooLarge)
          else if input.counterparty.None? then Refuse(InvalidCounterparty)
          else if input.note.None? then Refuse(InvalidNote)
          else if input.category.None? then Refuse(InvalidCategory)
          else if |s.transactions| >= MAX_TRANSACTIONS then Refuse(NoCapacity)
          else
            var available := BalanceOf(s.transactions, input.accountId);
            if input.direction.Expense? && amount > available then Refused(NotEnoughFunds, Some(available), Some(amount))
            else match AppendRow(s, ManualRow(input, amount, now))
              case None => Refuse(BalanceOverflow)
              case Some(posted) => Ok(posted, true)
  }

  datatype AdjustInput = AdjustInput(accountId: string, targetAmountInput: string, locale: Locale)

  function Absolute(n: int): nat {
    if n < 0 then -n else n
  }

  function CorrectionRow(accountId: string, amount: int, now: Instant): Draft {
    Draft(accountId, amount, BalanceAdjustment, Some("Balance correction"), Some("other"), None, None, None,
          Some(now.date), None, None, now)
  }

  function AdjustBalance(s: BankState, input: AdjustInput, now: Instant): Outcome {
    var found := FindAccount(s.accounts, input.accountId);
    if found.None? then Refuse(UnknownAccount)
    else
      var account := s.accounts[found.value];
      if account.status.Closed? then Refuse(AccountClosed)
      else
        match ParseBalanceInput(input.targetAmountInput, account.currency, input.locale)
        case None => Refuse(InvalidAmount)
        case Some(target) =>
          match SettleAccount(s, input.accountId, now)
          case None => Refuse(BalanceOverflow)
          case Some(settled) => Correct(s, settled, account, target, now)
  }

  function Correct(s: BankState, settled: BankState, account: Account, target: nat, now: Instant): Outcome {
    var amount := target - BalanceOf(settled.transactions, account.id);
    if |settled.transactions| > MAX_TRANSACTIONS then Refuse(NoCapacity)
    else if amount == 0 then Ok(settled, settled != s)
    else if |settled.transactions| >= MAX_TRANSACTIONS then Refuse(NoCapacity)
    else if !IsSafe(amount) then Refuse(BalanceOverflow)
    else if !WithinCommandUsdLimit(Absolute(amount), account.currency, settled.exchangeRates.rates.Of(account.currency)) then
      Refuse(AmountTooLarge)
    else match AppendRow(settled, CorrectionRow(account.id, amount, now))
      case None => Refuse(BalanceOverflow)
      case Some(posted) => Ok(posted, true)
  }
}
