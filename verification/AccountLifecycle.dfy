/** Opening, closing and restoring accounts: `src/domain/accountLifecycle.ts`. */
module AccountLifecycle {
  import opened Wrappers
  import opened Calendar
  import opened Currency
  import opened BankTypes
  import opened Ledger
  import opened Interest
  import opened BankValidity

  // ---------------------------------------------------------------- opening

  /** The name arrives normalised: `None` where the normaliser refuses it. */
  datatype AddInput = AddInput(accountId: string, currency: Currency, name: Option<Text>, number: string)

  predicate IsNumberChar(c: char) { 'A' <= c <= 'Z' || '0' <= c <= '9' || c == ' ' }

  /** Ten to thirty-four capital letters, digits and spaces. */
  predicate IsAccountNumber(number: string) {
    10 <= |number| <= 34 && forall i :: 0 <= i < |number| ==> IsNumberChar(number[i])
  }

  predicate IsTaken(accounts: seq<Account>, id: string, number: string) {
    exists i :: 0 <= i < |accounts| && (accounts[i].id == id || accounts[i].number == number)
  }

  predicate HasOpenChecking(accounts: seq<Account>, currency: Currency) {
    exists i :: 0 <= i < |accounts| && IsOpenChecking(accounts[i]) && accounts[i].currency == currency
  }

  function NewAccount(input: AddInput, now: Instant): Account
    requires input.name.Some?
  {
    Account(input.accountId, Checking, Custom, Open, None, input.name.value, input.currency, input.number, None, None, now)
  }

  function OpeningRow(accountId: string, now: Instant): Draft {
    Draft(accountId, 0, Seed, Some("Account opened"), Some("other"), None, None, None, Some(now.date), None, None, now)
  }

  function AddAccount(s: BankState, input: AddInput, now: Instant): Outcome {
    if !IsAccountId(input.accountId) || input.name.None? || !IsAccountNumber(input.number) then Refuse(InvalidAccount)
    else if IsTaken(s.accounts, input.accountId, input.number) then Refuse(DuplicateAccount)
    else if HasOpenChecking(s.accounts, input.currency) then Refuse(DuplicateCurrency)
    else if |s.accounts| >= MAX_ACCOUNTS || |s.transactions| >= MAX_TRANSACTIONS then Refuse(NoCapacity)
    else match AppendRow(s.(accounts := s.accounts + [NewAccount(input, now)]), OpeningRow(input.accountId, now))
      case None => Refuse(BalanceOverflow)
      case Some(posted) => Ok(posted, true)
  }

  // ---------------------------------------------------------------- closing

  function CountOpen(accounts: seq<Account>): nat {
    if accounts == [] then 0
    else CountOpen(accounts[1..]) + if accounts[0].status.Open? then 1 else 0
  }

  function ClosedNow(a: Account, now: Instant): Account {
    a.(status := Closed, closedAt := Some(now), accrualAnchor := if a.kind.Savings? then Some(now) else a.accrualAnchor)
  }

  function FrozenBy(c: Card): Card {
    if c.status.CardActive? then c.(status := CardFrozen, freezeReason := Some(FrozenByClosing)) else c
  }

  function PausedBy(r: RecurringRule): RecurringRule {
    if r.status.RuleActive? then r.(status := RulePaused, pauseReason := Some(PausedByClosing)) else r
  }

  function CloseIn(accounts: seq<Account>, id: string, now: Instant): (r: seq<Account>)
    ensures |r| == |accounts|
    ensures forall i :: 0 <= i < |r| ==> r[i] == if accounts[i].id == id then ClosedNow(accounts[i], now) else accounts[i]
  {
    seq(|accounts|, i requires 0 <= i < |accounts| => if accounts[i].id == id then ClosedNow(accounts[i], now) else accounts[i])
  }

  function FreezeCards(cards: seq<Card>, id: string): (r: seq<Card>)
    ensures |r| == |cards|
    ensures forall i :: 0 <= i < |r| ==> r[i] == if cards[i].accountId == id then FrozenBy(cards[i]) else cards[i]
  {
    seq(|cards|, i requires 0 <= i < |cards| => if cards[i].accountId == id then FrozenBy(cards[i]) else cards[i])
  }

  function PauseRules(rules: seq<RecurringRule>, id: string): (r: seq<RecurringRule>)
    ensures |r| == |rules|
    ensures forall i :: 0 <= i < |r| ==> r[i] == if rules[i].accountId == id then PausedBy(rules[i]) else rules[i]
  {
    seq(|rules|, i requires 0 <= i < |rules| => if rules[i].accountId == id then PausedBy(rules[i]) else rules[i])
  }

  function Shut(s: BankState, id: string, now: Instant): BankState {
    s.(accounts := CloseIn(s.accounts, id, now), cards := FreezeCards(s.cards, id),
       recurringRules := PauseRules(s.recurringRules, id))
  }

  function CloseAccount(s: BankState, id: string, now: Instant): Outcome {
    var found := FindAccount(s.accounts, id);
    if found.None? then Refuse(UnknownAccount)
    else if s.accounts[found.value].status.Closed? then Ok(s, false)
    else match SettleAccount(s, id, now)
      case None => Refuse(BalanceOverflow)
      case Some(settled) =>
        if BalanceOf(settled.transactions, id) != 0 then Refuse(NonZeroBalance)
        else if CountOpen(settled.accounts) <= 1 then Refuse(LastActiveAccount)
        else Ok(Shut(settled, id, now), true)
  }

  // ---------------------------------------------------------------- restoring

  function ReopenedNow(a: Account, now: Instant): Account {
    a.(status := Open, closedAt := None, accrualAnchor := if a.kind.Savings? then Some(now) else a.accrualAnchor)
  }

  function Unfrozen(c: Card): Card {
    if c.freezeReason == Some(FrozenByClosing) then c.(status := CardActive, freezeReason := None) else c
  }

  function Unpaused(r: RecurringRule): RecurringRule {
    if r.pauseReason == Some(PausedByClosing) then r.(status := RuleActive, pauseReason := None) else r
  }

  function ReopenIn(accounts: seq<Account>, id: string, now: Instant): (r: seq<Account>)
    ensures |r| == |accounts|
    ensures forall i :: 0 <= i < |r| ==> r[i] == if accounts[i].id == id then ReopenedNow(accounts[i], now) else accounts[i]
  {
    seq(|accounts|, i requires 0 <= i < |accounts| => if accounts[i].id == id then ReopenedNow(accounts[i], now) else accounts[i])
  }

  function UnfreezeCards(cards: seq<Card>, id: string): (r: seq<Card>)
    ensures |r| == |cards|
    ensures forall i :: 0 <= i < |r| ==> r[i] == if cards[i].accountId == id then Unfrozen(cards[i]) else cards[i]
  {
    seq(|cards|, i requires 0 <= i < |cards| => if cards[i].accountId == id then Unfrozen(cards[i]) else cards[i])
  }

  function UnpauseRules(rules: seq<RecurringRule>, id: string): (r: seq<RecurringRule>)
    ensures |r| == |rules|
    ensures forall i :: 0 <= i < |r| ==> r[i] == if rules[i].accountId == id then Unpaused(rules[i]) else rules[i]
  {
    seq(|rules|, i requires 0 <= i < |rules| => if rules[i].accountId == id then Unpaused(rules[i]) else rules[i])
  }

  function Reopen(s: BankState, id: string, now: Instant): BankState {
    s.(accounts := ReopenIn(s.accounts, id, now), cards := UnfreezeCards(s.cards, id),
       recurringRules := UnpauseRules(s.recurringRules, id))
  }

  predicate HasOtherOpenChecking(accounts: seq<Account>, id: string, currency: Currency) {
    exists i :: 0 <= i < |accounts| && accounts[i].id != id && IsOpenChecking(accounts[i]) && accounts[i].currency == currency
  }

  function RestoreAccount(s: BankState, id: string, now: Instant): Outcome {
    var found := FindAccount(s.accounts, id);
    if found.None? then Refuse(UnknownAccount)
    else
      var account := s.accounts[found.value];
      if account.status.Open? then Ok(s, false)
      else if account.kind.Checking? && HasOtherOpenChecking(s.accounts, id, account.currency) then Refuse(DuplicateCurrency)
      else Ok(Reopen(s, id, now), true)
  }
}
