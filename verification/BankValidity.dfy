/** The invariant that `parseBankState` checks, conjunct by conjunct: `src/domain/bankState.ts`. */
module BankValidity {
  import opened Wrappers
  import opened Calendar
  import opened Currency
  import opened Money
  import opened BankTypes
  import opened Ledger
  import opened Interest

  // ---------------------------------------------------------------- accounts

  predicate IsWordChar(c: char) {
    || 'A' <= c <= 'Z' || 'a' <= c <= 'z' || '0' <= c <= '9'
    || c == '_' || c == '.' || c == ':' || c == '-'
  }

  /** A prefix followed by one to `maximum` of the characters `A-Za-z0-9_.:-`. */
  predicate IsIdentifier(s: string, prefix: string, maximum: nat) {
    && |prefix| < |s| <= |prefix| + maximum
    && s[..|prefix|] == prefix
    && forall i :: |prefix| <= i < |s| ==> IsWordChar(s[i])
  }

  predicate IsClientTransferId(s: string) { IsIdentifier(s, "ct_", 96) }
  predicate IsRuleId(s: string) { IsIdentifier(s, "rr_", 92) }
  predicate IsAccountId(s: string) { IsIdentifier(s, "acc_", 91) }

  /** What text normalisation leaves unchanged, as far as spaces go. */
  predicate IsNormalisedNumber(s: string) {
    && 1 <= |s| <= 40
    && s[0] != ' ' && s[|s| - 1] != ' '
    && forall i :: 0 < i < |s| ==> s[i] != ' ' || s[i - 1] != ' '
  }

  predicate AccountShape(a: Account) {
    && (a.status.Open? <==> a.closedAt.None?)
    && (a.closedAt.Some? ==> NotAfter(a.createdAt, a.closedAt.value))
    && (a.apy.Some? ==> 0.0 <= a.apy.value <= 1.0)
    && (a.accrualAnchor.Some? ==> EpochDay(a.createdAt.date) <= EpochDay(a.accrualAnchor.value.date))
    && (a.kind.Savings? <==> a.apy.Some?)
    && (a.kind.Savings? <==> a.accrualAnchor.Some?)
    && IsNormalisedNumber(a.number)
  }

  predicate AccountTimes(a: Account, now: Instant) {
    && NotAfter(a.createdAt, now)
    && (a.closedAt.Some? ==> NotAfter(a.closedAt.value, now))
    && (a.accrualAnchor.Some? ==> NotAfter(a.accrualAnchor.value, now))
    && (a.accrualAnchor.Some? && a.closedAt.Some? ==> NotAfter(a.accrualAnchor.value, a.closedAt.value))
  }

  ghost predicate UniqueAccountIds(accounts: seq<Account>) {
    forall i, j :: 0 <= i < j < |accounts| ==> accounts[i].id != accounts[j].id
  }

  ghost predicate OnlyAccountOf(accounts: seq<Account>, role: AccountRole, currency: Currency, i: nat) {
    && i < |accounts| && accounts[i].role == role && accounts[i].currency == currency
    && forall j :: 0 <= j < |accounts| && accounts[j].role == role ==> j == i
  }

  function CompanionCurrencies(base: Currency): (Currency, Currency) {
    if base.USD? then (EUR, KZT) else if base.EUR? then (USD, KZT) else (USD, EUR)
  }

  ghost predicate CanonicalRoles(accounts: seq<Account>, base: Currency) {
    && (forall i :: 0 <= i < |accounts| ==> (accounts[i].role.PrimarySavings? <==> accounts[i].kind.Savings?))
    && (exists i :: OnlyAccountOf(accounts, PrimaryChecking, base, i))
    && (exists i :: OnlyAccountOf(accounts, PrimarySavings, base, i))
    && (exists i :: OnlyAccountOf(accounts, Companion1, CompanionCurrencies(base).0, i))
    && (exists i :: OnlyAccountOf(accounts, Companion2, CompanionCurrencies(base).1, i))
  }

  predicate IsOpenChecking(a: Account) { a.status.Open? && a.kind.Checking? }

  ghost predicate UniqueCheckingCurrencies(accounts: seq<Account>) {
    forall i, j :: 0 <= i < j < |accounts| && IsOpenChecking(accounts[i]) && IsOpenChecking(accounts[j])
                   ==> accounts[i].currency != accounts[j].currency
  }

  ghost predicate AccountsValid(accounts: seq<Account>, base: Currency, now: Instant) {
    && 1 <= |accounts| <= MAX_ACCOUNTS
    && (forall i :: 0 <= i < |accounts| ==> AccountShape(accounts[i]) && AccountTimes(accounts[i], now))
    && UniqueAccountIds(accounts)
    && CanonicalRoles(accounts, base)
    && UniqueCheckingCurrencies(accounts)
    && (exists i :: 0 <= i < |accounts| && accounts[i].status.Open?)
  }

  function AccountIds(accounts: seq<Account>): set<string> {
    set i | 0 <= i < |accounts| :: accounts[i].id
  }

  // ---------------------------------------------------------------- ledger rows

  predicate IsRateDateCoherent(asOf: Date, fetchedAt: Instant) {
    0 <= EpochDay(fetchedAt.date) - EpochDay(asOf) <= 7
  }

  predicate FxSnapshotValid(x: FxSnapshot) {
    && x.fromCurrency != x.toCurrency
    && 0 < x.fromAmountMinor <= MAX_SAFE && 0 < x.toAmountMinor <= MAX_SAFE
    && IsPositiveDecimal(x.rate)
    && (x.fromCurrency.USD? ==> x.fromUsdRate == ONE)
    && (x.toCurrency.USD? ==> x.toUsdRate == ONE)
    && IsRateDateCoherent(x.asOf, x.fetchedAt)
    && x.rate == QuoteCrossRate(x.fromUsdRate, x.toUsdRate)
    && Converted(x.fromAmountMinor, x.fromCurrency, x.toCurrency, x.fromUsdRate, x.toUsdRate) == Some(x.toAmountMinor)
  }

  predicate IsOwnTransfer(k: TransactionKind) { k.TransferOwnOut? || k.TransferOwnIn? }
  predicate IsManual(k: TransactionKind) { k.ManualIncome? || k.ManualExpense? }

  predicate DraftShape(d: Draft) {
    && IsSafe(d.amountMinor)
    && (d.recurringRuleId.Some? <==> d.occurrenceKey.Some?)
    && (d.occurrenceKey.Some? ==> d.effectiveDate.Some?)
    && (d.kind.ManualIncome? ==> d.amountMinor > 0)
    && (d.kind.ManualExpense? ==> d.amountMinor < 0)
    && (d.kind.BalanceAdjustment? ==> d.amountMinor != 0)
    && (IsOwnTransfer(d.kind) <==> d.transferGroupId.Some?)
    && (d.fxSnapshot.Some? ==> IsOwnTransfer(d.kind) && FxSnapshotValid(d.fxSnapshot.value))
  }

  predicate DraftTimes(d: Draft, now: Instant) {
    && NotAfter(d.createdAt, now)
    && (d.fxSnapshot.Some? ==>
          && AtMost(d.fxSnapshot.value.asOf, d.createdAt.date)
          && NotAfter(d.fxSnapshot.value.fetchedAt, d.createdAt))
  }

  predicate RowShape(t: Transaction) {
    && 0 < t.seqNo <= MAX_SAFE && t.id == TxId(t.seqNo)
    && 0 <= t.balanceAfterMinor <= MAX_SAFE
    && DraftShape(t.row)
  }

  ghost predicate UniqueKeys(txs: seq<Transaction>) {
    forall i, j :: 0 <= i < j < |txs| && txs[i].row.occurrenceKey.Some?
                   ==> txs[i].row.occurrenceKey != txs[j].row.occurrenceKey
  }

  ghost predicate RowsValid(txs: seq<Transaction>, now: Instant) {
    && |txs| <= MAX_TRANSACTIONS
    && (forall i :: 0 <= i < |txs| ==> RowShape(txs[i]) && DraftTimes(txs[i].row, now))
    && LedgerConsistent(txs)
    && UniqueKeys(txs)
  }

  predicate NextSeqValid(txs: seq<Transaction>, nextSeq: int) {
    && nextSeq == (if txs == [] then 0 else txs[|txs| - 1].seqNo) + 1
    && 0 < nextSeq <= MAX_SAFE
  }

  // ---------------------------------------------------------------- rows within their accounts

  predicate RowFits(d: Draft, a: Account, now: Instant) {
    && NotAfter(a.createdAt, d.createdAt)
    && (IsManual(d.kind) ==>
          && a.kind.Checking? && d.effectiveDate.Some?
          && IsAllowedEffectiveDate(d.effectiveDate.value, d.createdAt)
          && AtMost(d.effectiveDate.value, now.date))
    && (d.kind.BalanceAdjustment? && a.kind.Savings? ==> d.effectiveDate == Some(d.createdAt.date))
    && (a.status.Closed? ==> a.closedAt.Some? && NotAfter(d.createdAt, a.closedAt.value))
  }

  ghost predicate PostedWithin(txs: seq<Transaction>, accounts: seq<Account>, now: Instant) {
    && (forall i :: 0 <= i < |txs| ==> txs[i].row.accountId in AccountIds(accounts))
    && (forall i, j :: 0 <= i < |txs| && 0 <= j < |accounts| && txs[i].row.accountId == accounts[j].id
                       ==> RowFits(txs[i].row, accounts[j], now))
  }

  predicate HasRow(txs: seq<Transaction>, accountId: string) {
    exists i :: 0 <= i < |txs| && txs[i].row.accountId == accountId
  }

  ghost predicate ClosedAtZero(txs: seq<Transaction>, accounts: seq<Account>) {
    forall j :: 0 <= j < |accounts| && accounts[j].status.Closed?
                ==> HasRow(txs, accounts[j].id) && BalanceOf(txs, accounts[j].id) == 0
  }

  // ---------------------------------------------------------------- transfer pairs

  predicate IsNumberedGroup(g: string) {
    |g| > 4 && g[..4] == "grp_" && AllDigits(g[4..])
  }

  predicate LegsAgree(o: Draft, n: Draft, from: Currency, to: Currency) {
    if from == to then o.fxSnapshot.None? && n.fxSnapshot.None? && -o.amountMinor == n.amountMinor
    else
      && o.fxSnapshot.Some? && o.fxSnapshot == n.fxSnapshot
      && o.fxSnapshot.value.fromCurrency == from && o.fxSnapshot.value.toCurrency == to
      && o.fxSnapshot.value.fromAmountMinor == -o.amountMinor
      && o.fxSnapshot.value.toAmountMinor == n.amountMinor
  }

  ghost predicate PairValid(o: Transaction, n: Transaction, accounts: seq<Account>) {
    && o.row.kind.TransferOwnOut? && n.row.kind.TransferOwnIn?
    && o.row.transferGroupId.Some? && o.row.transferGroupId == n.row.transferGroupId
    && o.row.accountId != n.row.accountId
    && o.row.amountMinor < 0 < n.row.amountMinor
    && n.seqNo == o.seqNo + 1 && n.row.createdAt == o.row.createdAt
    && (IsNumberedGroup(o.row.transferGroupId.value) ==>
          o.seqNo > 0 && o.row.transferGroupId.value == GroupId(o.seqNo))
    && (forall j, k :: 0 <= j < |accounts| && 0 <= k < |accounts|
                       && accounts[j].id == o.row.accountId && accounts[k].id == n.row.accountId
                       ==> LegsAgree(o.row, n.row, accounts[j].currency, accounts[k].currency))
  }

  /** Position `i` is no leg of an own transfer, or the outgoing leg with its incoming leg next to it, or
      the incoming leg with its outgoing leg before it. */
  ghost predicate LegPaired(txs: seq<Transaction>, accounts: seq<Account>, i: nat)
    requires i < |txs|
  {
    && (txs[i].row.kind.TransferOwnOut? ==> i + 1 < |txs| && PairValid(txs[i], txs[i + 1], accounts))
    && (txs[i].row.kind.TransferOwnIn? ==> i > 0 && PairValid(txs[i - 1], txs[i], accounts))
  }

  ghost predicate GroupsDistinct(txs: seq<Transaction>) {
    forall i, j :: 0 <= i < j < |txs| && txs[i].row.kind.TransferOwnOut? && txs[j].row.kind.TransferOwnOut?
                   ==> txs[i].row.transferGroupId != txs[j].row.transferGroupId
  }

  ghost predicate TransfersPaired(txs: seq<Transaction>, accounts: seq<Account>) {
    && (forall i :: 0 <= i < |txs| ==> LegPaired(txs, accounts, i))
    && GroupsDistinct(txs)
  }

  // ---------------------------------------------------------------- recurring rules

  predicate RuleShape(r: RecurringRule) {
    && 0 < r.amountMinor <= MAX_SAFE
    && 1 <= r.anchorDay <= 31
    && IsAnchored(r.startsOn, r.anchorDay) && IsAnchored(r.nextOccurrence, r.anchorDay)
    && MonthIndex(r.startsOn) <= MonthIndex(r.nextOccurrence)
    && (r.status.RuleActive? <==> r.pauseReason.None?)
    && IsRuleId(r.id)
  }

  /** A rule starts within ten years before its creation or later in the month of its creation, and at
      most 120 occurrences were due when it was created. */
  predicate IsStartBounded(r: RecurringRule) {
    && (|| IsAllowedEffectiveDate(r.startsOn, r.createdAt)
        || (Before(r.createdAt.date, r.startsOn) && MonthIndex(r.startsOn) == MonthIndex(r.createdAt.date)))
    && DueThrough(r.startsOn, r.anchorDay, r.createdAt.date, 120).Some?
  }

  predicate RuleTimes(r: RecurringRule, now: Instant) {
    && NotAfter(r.createdAt, now)
    && MonthIndex(r.startsOn) <= MonthIndex(now.date)
    && IsStartBounded(r)
  }

  ghost predicate UniqueRuleIds(rules: seq<RecurringRule>) {
    forall i, j :: 0 <= i < j < |rules| ==> rules[i].id != rules[j].id
  }

  ghost predicate RulesValid(rules: seq<RecurringRule>, now: Instant) {
    && |rules| <= MAX_RECURRING_RULES
    && (forall i :: 0 <= i < |rules| ==> RuleShape(rules[i]) && RuleTimes(rules[i], now))
    && UniqueRuleIds(rules)
  }

  predicate RuleFits(r: RecurringRule, a: Account) {
    && a.kind.Checking?
    && (r.status.RuleActive? ==> a.status.Open?)
    && (r.pauseReason == Some(PausedByClosing) ==> a.status.Closed?)
  }

  ghost predicate RulesFit(rules: seq<RecurringRule>, accounts: seq<Account>) {
    && (forall i :: 0 <= i < |rules| ==> rules[i].accountId in AccountIds(accounts))
    && (forall i, j :: 0 <= i < |rules| && 0 <= j < |accounts| && rules[i].accountId == accounts[j].id
                       ==> RuleFits(rules[i], accounts[j]))
  }

  function RuleIds(rules: seq<RecurringRule>): set<string> {
    set i | 0 <= i < |rules| :: rules[i].id
  }

  /** A row posted for a rule carries the rule's account, amount, direction and occurrence. */
  predicate RowMatchesRule(d: Draft, r: RecurringRule) {
    && d.accountId == r.accountId
    && d.effectiveDate.Some?
    && d.occurrenceKey == Some(OccurrenceKey(r.id, MonthIndex(d.effectiveDate.value)))
    && (if r.direction.Expense? then d.kind.ManualExpense? && d.amountMinor == -r.amountMinor
        else d.kind.ManualIncome? && d.amountMinor == r.amountMinor)
  }

  ghost predicate RowsLinked(txs: seq<Transaction>, rules: seq<RecurringRule>) {
    && (forall i :: 0 <= i < |txs| && txs[i].row.recurringRuleId.Some?
                    ==> txs[i].row.recurringRuleId.value in RuleIds(rules))
    && (forall i, j :: 0 <= i < |txs| && 0 <= j < |rules| && txs[i].row.recurringRuleId == Some(rules[j].id)
                       ==> RowMatchesRule(txs[i].row, rules[j]))
  }

  predicate IsRowOf(d: Draft, ruleId: string) {
    d.recurringRuleId == Some(ruleId) && d.effectiveDate.Some?
  }

  /** The months for which a rule has a ledger row. */
  ghost function MonthsPosted(txs: seq<Transaction>, ruleId: string): set<int> {
    set i | 0 <= i < |txs| && IsRowOf(txs[i].row, ruleId) :: MonthIndex(txs[i].row.effectiveDate.value)
  }

  predicate IsFrom(first: int, m: int) { first <= m }

  function Months(first: int, next: int): set<int> {
    set m: int | first <= m < next && IsFrom(first, m)
  }

  predicate OnAnchorDay(d: Date, anchorDay: int) {
    && FIRST_MONTH <= MonthIndex(d) < MONTH_LIMIT && 1 <= anchorDay <= 31
    && d == OccurrenceIn(MonthIndex(d), anchorDay)
  }

  /** The rows of a rule lie on its anchor day, and their months are exactly those from the start of the
      rule up to its next occurrence. (Occurrence keys are unique, so there is one row for each.) */
  ghost predicate RuleContinuous(txs: seq<Transaction>, r: RecurringRule) {
    && (forall i :: 0 <= i < |txs| && IsRowOf(txs[i].row, r.id)
                    ==> OnAnchorDay(txs[i].row.effectiveDate.value, r.anchorDay))
    && MonthsPosted(txs, r.id) == Months(MonthIndex(r.startsOn), MonthIndex(r.nextOccurrence))
  }

  ghost predicate RulesContinuous(txs: seq<Transaction>, rules: seq<RecurringRule>) {
    forall j :: 0 <= j < |rules| ==> RuleContinuous(txs, rules[j])
  }

  // ---------------------------------------------------------------- cards, contacts, rates, identifiers

  predicate CardFits(c: Card, a: Account) {
    && (c.freezeReason == Some(FrozenByClosing) ==> a.status.Closed?)
    && (a.status.Closed? ==> c.status.CardFrozen?)
  }

  ghost predicate CardsValid(cards: seq<Card>, accounts: seq<Account>) {
    && |cards| <= MAX_CARDS
    && (forall i :: 0 <= i < |cards| ==> (cards[i].status.CardActive? ==> cards[i].freezeReason.None?))
    && (forall i, j :: 0 <= i < j < |cards| ==> cards[i].id != cards[j].id)
    && (forall i :: 0 <= i < |cards| ==> cards[i].accountId in AccountIds(accounts))
    && (forall i, j :: 0 <= i < |cards| && 0 <= j < |accounts| && cards[i].accountId == accounts[j].id
                       ==> CardFits(cards[i], accounts[j]))
  }

  ghost predicate ContactsValid(contacts: seq<Contact>, now: Instant) {
    && |contacts| <= MAX_CONTACTS
    && (forall i, j :: 0 <= i < j < |contacts| ==> contacts[i].id != contacts[j].id)
    && (forall i :: 0 <= i < |contacts| && contacts[i].lastTransferAt.Some?
                    ==> NotAfter(contacts[i].lastTransferAt.value, now))
  }

  predicate RatesValid(x: ExchangeRates, now: Instant) {
    && x.rates.usd == ONE
    && IsRateDateCoherent(x.asOf, x.fetchedAt)
    && AtMost(x.asOf, now.date) && NotAfter(x.fetchedAt, now)
  }

  const RECENT_IDS_CAP := 50

  ghost predicate RecentIdsValid(ids: seq<string>) {
    && |ids| <= RECENT_IDS_CAP
    && (forall i :: 0 <= i < |ids| ==> IsClientTransferId(ids[i]))
    && (forall i, j :: 0 <= i < j < |ids| ==> ids[i] != ids[j])
  }

  // ---------------------------------------------------------------- the whole state

  /** Everything but the last check, which settles interest on a copy. */
  ghost predicate Sound(s: BankState, now: Instant) {
    && AccountsValid(s.accounts, s.demoBaseCurrency, now)
    && RowsValid(s.transactions, now)
    && NextSeqValid(s.transactions, s.nextSeq)
    && PostedWithin(s.transactions, s.accounts, now)
    && ClosedAtZero(s.transactions, s.accounts)
    && TransfersPaired(s.transactions, s.accounts)
    && RulesValid(s.recurringRules, now)
    && RulesFit(s.recurringRules, s.accounts)
    && RowsLinked(s.transactions, s.recurringRules)
    && RulesContinuous(s.transactions, s.recurringRules)
    && CardsValid(s.cards, s.accounts)
    && ContactsValid(s.contacts, now)
    && RatesValid(s.exchangeRates, now)
    && RecentIdsValid(s.recentTransferIds)
  }

  /** `parseBankState` accepts the state at this instant. */
  ghost predicate Valid(s: BankState, now: Instant) {
    Sound(s, now) && SettleAll(s, now).Some?
  }
}
