/** The entities of the bank: `src/domain/types.ts`. Texts and identifiers are opaque strings; a `Text`
    is one that already went through the text normaliser. */
module BankTypes {
  import opened Wrappers
  import opened Calendar
  import opened Currency

  type Text = string

  datatype RateSource = Frankfurter | Fallback

  datatype RateTable = RateTable(usd: Rate, eur: Rate, rub: Rate, kzt: Rate, thb: Rate, vnd: Rate, idr: Rate, gel: Rate) {
    function Of(c: Currency): Rate {
      match c
      case USD => usd
      case EUR => eur
      case RUB => rub
      case KZT => kzt
      case THB => thb
      case VND => vnd
      case IDR => idr
      case GEL => gel
    }
  }

  datatype ExchangeRates = ExchangeRates(asOf: Date, fetchedAt: Instant, source: RateSource, rates: RateTable)

  datatype AccountType = Checking | Savings
  datatype AccountRole = PrimaryChecking | PrimarySavings | Companion1 | Companion2 | Custom
  datatype AccountStatus = Open | Closed

  datatype Account = Account(
    id: string, kind: AccountType, role: AccountRole, status: AccountStatus, closedAt: Option<Instant>,
    name: Text, currency: Currency, number: string, apy: Option<real>, accrualAnchor: Option<Instant>,
    createdAt: Instant)

  datatype TransactionKind =
    | Purchase | TransferOwnOut | TransferOwnIn | TransferContact | Interest | Topup | Seed
    | ManualIncome | ManualExpense | BalanceAdjustment

  datatype FxSnapshot = FxSnapshot(
    fromCurrency: Currency, toCurrency: Currency, fromAmountMinor: int, toAmountMinor: int,
    rate: Decimal, fromUsdRate: Rate, toUsdRate: Rate, asOf: Date, fetchedAt: Instant, source: RateSource)

  /** The identity of a monthly occurrence: the string `ruleId:YYYY-MM` by its parts. */
  datatype OccurrenceKey = OccurrenceKey(ruleId: string, month: int)

  /** The fields of a ledger row that its writer chooses. */
  datatype Draft = Draft(
    accountId: string, amountMinor: int, kind: TransactionKind, counterparty: Option<Text>,
    category: Option<Text>, transferGroupId: Option<string>, fxSnapshot: Option<FxSnapshot>,
    note: Option<Text>, effectiveDate: Option<Date>, recurringRuleId: Option<string>,
    occurrenceKey: Option<OccurrenceKey>, createdAt: Instant)

  /** A ledger row: the ledger itself stamps the identifier, the sequence number and the balance. */
  datatype Transaction = Transaction(id: string, seqNo: int, balanceAfterMinor: int, row: Draft)

  datatype CardStatus = CardActive | CardFrozen
  datatype FreezeReason = ManualFreeze | FrozenByClosing

  datatype Card = Card(id: string, accountId: string, face: Text, status: CardStatus, freezeReason: Option<FreezeReason>)

  datatype Direction = Income | Expense
  datatype RuleStatus = RuleActive | RulePaused
  datatype PauseReason = ManualPause | PausedByClosing | Capacity | Overflow | InsufficientFunds

  datatype RecurringRule = RecurringRule(
    id: string, accountId: string, direction: Direction, amountMinor: int, counterparty: Text,
    note: Option<Text>, category: Text, anchorDay: int, startsOn: Date, nextOccurrence: Date,
    status: RuleStatus, pauseReason: Option<PauseReason>, createdAt: Instant)

  datatype Contact = Contact(id: string, name: Text, initials: Text, lastTransferAt: Option<Instant>)

  datatype Profile = Profile(displayName: Text, telegramId: Option<string>)

  datatype BankState = BankState(
    primaryCurrency: Currency, demoBaseCurrency: Currency, exchangeRates: ExchangeRates,
    accounts: seq<Account>, transactions: seq<Transaction>, cards: seq<Card>, contacts: seq<Contact>,
    profile: Profile, nextSeq: int, recentTransferIds: seq<string>, recurringRules: seq<RecurringRule>)

  /** Why an operation refuses; every operation uses a part of this list. */
  datatype BankError =
    | UnknownAccount | UnknownCard | UnknownRule | AccountClosed | CheckingOnly | InvalidAccount
    | DuplicateAccount | DuplicateCurrency | NonZeroBalance | LastActiveAccount | InvalidRuleId
    | DuplicateRuleId | InvalidAmount | InvalidCounterparty | InvalidNote | InvalidCategory | InvalidDate
    | InvalidDisplayName | AmountTooLarge | TooManyOccurrences | NotEnoughFunds | NoCapacity | BalanceOverflow
    | InvalidClientTransferId | SameAccount | UnknownTarget | InvalidExchangeRate | ConvertedAmountTooSmall

  datatype Warning = Warning(ruleId: string, reason: PauseReason, available: Option<int>, required: Option<int>)

  /** What an operation gives back: a new state (`applied` is false for a successful no-op), or a refusal. */
  datatype Outcome =
    | Done(state: BankState, applied: bool, warnings: seq<Warning>, incoming: Option<int>, backfilled: Option<nat>)
    | Refused(error: BankError, available: Option<int>, required: Option<int>)

  function Ok(state: BankState, applied: bool): Outcome { Done(state, applied, [], None, None) }

  function Refuse(error: BankError): Outcome { Refused(error, None, None) }

  const MAX_ACCOUNTS := 24
  const MAX_TRANSACTIONS := 5_000
  const MAX_RECURRING_RULES := 64
  const MAX_CARDS := 64
  const MAX_CONTACTS := 256
}
