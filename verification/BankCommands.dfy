/** The step function of the bank: `src/domain/bankCommands.ts`, without the command that rebuilds the
    demonstration data. */
module BankCommands {
  import opened Wrappers
  import opened Calendar
  import opened Currency
  import opened BankTypes
  import opened Interest
  import opened Recurring
  import opened Transfer
  import opened ManualTransactions
  import opened AccountLifecycle

  datatype BankCommand =
    | Record(manual: ManualInput)
    | CreateRecurring(recurring: RecurringInput)
    | PauseRecurring(ruleId: string)
    | ResumeRecurring(ruleId: string)
    | OpenAccount(add: AddInput)
    | Adjust(adjustment: AdjustInput)
    | Close(accountId: string)
    | Restore(accountId: string)
    | MakeTransfer(request: TransferRequest)
    | SetPrimaryCurrency(currency: Currency)
    | SetDisplayName(displayName: Option<Text>)
    | SetCardFrozen(cardId: string, frozen: bool)
    | Settle

  function ApplyBankCommand(s: BankState, c: BankCommand, now: Instant): Outcome {
    match c
    case Record(input) => RecordTransaction(s, input, now)
    case CreateRecurring(input) => CreateRecurringRule(s, input, now)
    case PauseRecurring(id) => Pause(s, id)
    case ResumeRecurring(id) => Resume(s, id, now)
    case OpenAccount(input) => AddAccount(s, input, now)
    case Adjust(input) => AdjustBalance(s, input, now)
    case Close(id) => CloseAccount(s, id, now)
    case Restore(id) => RestoreAccount(s, id, now)
    case MakeTransfer(q) => TransferWithinLimit(s, q, now)
    case SetPrimaryCurrency(c) => Ok(s.(primaryCurrency := c), c != s.primaryCurrency)
    case SetDisplayName(name) =>
      if name.None? then Refuse(InvalidDisplayName)
      else Ok(s.(profile := s.profile.(displayName := name.value)), name.value != s.profile.displayName)
    case SetCardFrozen(id, frozen) => FreezeCard(s, id, frozen)
    case Settle => SettleInterest(s, now)
  }

  function Pause(s: BankState, id: string): Outcome {
    var found := FindRule(s.recurringRules, id);
    if found.None? then Refuse(UnknownRule)
    else
      var r := s.recurringRules[found.value];
      if r.status.RulePaused? && r.pauseReason == Some(ManualPause) then Ok(s, false)
      else Ok(s.(recurringRules := WithStatus(s.recurringRules, id, RulePaused, Some(ManualPause))), true)
  }

  function Resumed(s: BankState, id: string): BankState {
    s.(recurringRules := WithStatus(s.recurringRules, id, RuleActive, None))
  }

  function Resume(s: BankState, id: string, now: Instant): Outcome {
    var found := FindRule(s.recurringRules, id);
    if found.None? then Refuse(UnknownRule)
    else
      var r := s.recurringRules[found.value];
      var account := FindAccount(s.accounts, r.accountId);
      if account.None? then Refuse(UnknownAccount)
      else if s.accounts[account.value].status.Closed? then Refuse(AccountClosed)
      else if r.status.RuleActive? then Ok(s, false)
      else
        var m := MaterializeRecurring(Resumed(s, id), now, MAX_TRANSACTIONS);
        Done(m.state, true, m.warnings, None, None)
  }

  function TransferWithinLimit(s: BankState, q: TransferRequest, now: Instant): Outcome {
    var out := ApplyTransfer(s, q, now);
    if out.Done? && |out.state.transactions| > MAX_TRANSACTIONS then Refuse(NoCapacity) else out
  }

  function FindCard(cards: seq<Card>, id: string): (r: Option<nat>)
    ensures r.Some? ==> r.value < |cards| && cards[r.value].id == id
  {
    if cards == [] then None
    else if cards[0].id == id then Some(0)
    else match FindCard(cards[1..], id)
      case None => None
      case Some(i) => Some(i + 1)
  }

  function WithCard(cards: seq<Card>, id: string, frozen: bool): (r: seq<Card>)
    ensures |r| == |cards|
    ensures forall i :: 0 <= i < |r| ==> r[i] == if cards[i].id == id then Switched(cards[i], frozen) else cards[i]
  {
    seq(|cards|, i requires 0 <= i < |cards| => if cards[i].id == id then Switched(cards[i], frozen) else cards[i])
  }

  function Switched(c: Card, frozen: bool): Card {
    c.(status := if frozen then CardFrozen else CardActive, freezeReason := if frozen then Some(ManualFreeze) else None)
  }

  function FreezeCard(s: BankState, id: string, frozen: bool): Outcome {
    var found := FindCard(s.cards, id);
    if found.None? then Refuse(UnknownCard)
    else
      var card := s.cards[found.value];
      var account := FindAccount(s.accounts, card.accountId);
      if !frozen && (account.None? || s.accounts[account.value].status.Closed?) then Refuse(AccountClosed)
      else if card.status == (if frozen then CardFrozen else CardActive) then Ok(s, false)
      else Ok(s.(cards := WithCard(s.cards, id, frozen)), true)
  }

  function SettleInterest(s: BankState, now: Instant): Outcome {
    match SettleWithinLimit(s, now, MAX_TRANSACTIONS)
    case None => Refuse(BalanceOverflow)
    case Some(settlement) =>
      if settlement.capacityReached then Refuse(NoCapacity) else Ok(settlement.state, settlement.applied)
  }
}
