/** Monthly recurring rules: `src/domain/recurring.ts`. */
module Recurring {
  import opened Arithmetic
  import opened Wrappers
  import opened Calendar
  import opened Currency
  import opened Money
  import opened BankTypes
  import opened Ledger
  import opened Interest
  import opened BankValidity

  // ---------------------------------------------------------------- posting occurrences

  function OccurrenceRow(r: RecurringRule, date: Date, createdAt: Instant): Draft {
    Draft(r.accountId, if r.direction.Expense? then -r.amountMinor else r.amountMinor,
          if r.direction.Expense? then ManualExpense else ManualIncome,
          Some(r.counterparty), Some(r.category), None, None, r.note, Some(date), Some(r.id),
          Some(OccurrenceKey(r.id, MonthIndex(date))), createdAt)
  }

  predicate HasKey(txs: seq<Transaction>, key: OccurrenceKey) {
    exists i :: 0 <= i < |txs| && txs[i].row.occurrenceKey == Some(key)
  }

  function AppendOccurrence(s: BankState, r: RecurringRule, date: Date, createdAt: Instant): Option<BankState> {
    if HasKey(s.transactions, OccurrenceKey(r.id, MonthIndex(date))) then Some(s)
    else AppendRow(s, OccurrenceRow(r, date, createdAt))
  }

  /** One posting after the other; `None` as soon as one of them fails. */
  function AppendAll(s: BankState, r: RecurringRule, dates: seq<Date>, createdAt: Instant): Option<BankState>
    decreases |dates|
  {
    if dates == [] then Some(s)
    else match AppendOccurrence(s, r, dates[0], createdAt)
      case None => None
      case Some(next) => AppendAll(next, r, dates[1..], createdAt)
  }

  function MissingDue(txs: seq<Transaction>, ruleId: string, due: seq<Date>): seq<Date> {
    if due == [] then []
    else
      var rest := MissingDue(txs, ruleId, due[1..]);
      if HasKey(txs, OccurrenceKey(ruleId, MonthIndex(due[0]))) then rest else [due[0]] + rest
  }

  // ---------------------------------------------------------------- rules by identifier

  function FindRule(rules: seq<RecurringRule>, id: string): (r: Option<nat>)
    ensures r.Some? ==> r.value < |rules| && rules[r.value].id == id
    ensures r.None? ==> forall i :: 0 <= i < |rules| ==> rules[i].id != id
  {
    if rules == [] then None
    else if rules[0].id == id then Some(0)
    else match FindRule(rules[1..], id)
      case None => None
      case Some(i) => Some(i + 1)
  }

  function WithStatus(rules: seq<RecurringRule>, id: string, status: RuleStatus, reason: Option<PauseReason>): (r: seq<RecurringRule>)
    ensures |r| == |rules|
    ensures forall i :: 0 <= i < |r| ==>
              r[i] == if rules[i].id == id then rules[i].(status := status, pauseReason := reason) else rules[i]
  {
    seq(|rules|, i requires 0 <= i < |rules| =>
      if rules[i].id == id then rules[i].(status := status, pauseReason := reason) else rules[i])
  }

  function WithNext(rules: seq<RecurringRule>, id: string, next: Date): (r: seq<RecurringRule>)
    ensures |r| == |rules|
    ensures forall i :: 0 <= i < |r| ==>
              r[i] == if rules[i].id == id then rules[i].(nextOccurrence := next) else rules[i]
  {
    seq(|rules|, i requires 0 <= i < |rules| =>
      if rules[i].id == id then rules[i].(nextOccurrence := next) else rules[i])
  }

  // ---------------------------------------------------------------- catching up

  datatype RuleOutcome = RuleOutcome(state: BankState, warning: Option<Warning>)

  function PauseRule(s: BankState, id: string, reason: PauseReason): BankState {
    s.(recurringRules := WithStatus(s.recurringRules, id, RulePaused, Some(reason)))
  }

  function PausedOutcome(s: BankState, id: string, reason: PauseReason): RuleOutcome {
    RuleOutcome(PauseRule(s, id, reason), Some(Warning(id, reason, None, None)))
  }

  predicate CanPostTo(accounts: seq<Account>, accountId: string) {
    var found := FindAccount(accounts, accountId);
    found.Some? && IsOpenChecking(accounts[found.value])
  }

  /** The rule has an occurrence to post today, on an account that takes it. */
  predicate IsDue(r: RecurringRule, accounts: seq<Account>, today: Date) {
    r.status.RuleActive? && !Before(today, r.nextOccurrence) && CanPostTo(accounts, r.accountId)
  }

  /** All due rows of one rule or none of them; a rule that cannot post them all is paused. */
  function CatchUp(s: BankState, r: RecurringRule, now: Instant, maxTransactions: nat): RuleOutcome {
    match DueThrough(r.nextOccurrence, r.anchorDay, now.date, 120)
    case None => PausedOutcome(s, r.id, Capacity)
    case Some(schedule) =>
      PostMissing(s, r, MissingDue(s.transactions, r.id, schedule.due), schedule.next, now, maxTransactions)
  }

  function PostMissing(s: BankState, r: RecurringRule, missing: seq<Date>, next: Date, now: Instant, maxTransactions: nat): RuleOutcome {
    var required := r.amountMinor * |missing|;
    var available := BalanceOf(s.transactions, r.accountId);
    if |s.transactions| + |missing| > maxTransactions then PausedOutcome(s, r.id, Capacity)
    else if !IsSafe(required) then PausedOutcome(s, r.id, Overflow)
    else if r.direction.Expense? && required > available then
      RuleOutcome(PauseRule(s, r.id, InsufficientFunds),
                  Some(Warning(r.id, InsufficientFunds, Some(available), Some(required))))
    else match AppendAll(s, r, missing, now)
      case None => PausedOutcome(s, r.id, Overflow)
      case Some(posted) => RuleOutcome(posted.(recurringRules := WithNext(posted.recurringRules, r.id, next)), None)
  }

  function MaterializeRule(s: BankState, id: string, now: Instant, maxTransactions: nat): RuleOutcome {
    match FindRule(s.recurringRules, id)
    case None => RuleOutcome(s, None)
    case Some(i) =>
      if !IsDue(s.recurringRules[i], s.accounts, now.date) then RuleOutcome(s, None)
      else CatchUp(s, s.recurringRules[i], now, maxTransactions)
  }

  datatype Materialized = Materialized(state: BankState, warnings: seq<Warning>)

  function WarningsOf(w: Option<Warning>): seq<Warning> {
    if w.Some? then [w.value] else []
  }

  /** The rules from position `k` of the original list on, each against the state left by those before. */
  function MaterializeFrom(s: BankState, originals: seq<RecurringRule>, k: nat, now: Instant, maxTransactions: nat): Materialized
    requires k <= |originals|
    decreases |originals| - k
  {
    if k == |originals| then Materialized(s, [])
    else
      var one := MaterializeRule(s, originals[k].id, now, maxTransactions);
      var rest := MaterializeFrom(one.state, originals, k + 1, now, maxTransactions);
      Materialized(rest.state, WarningsOf(one.warning) + rest.warnings)
  }

  function MaterializeRecurring(s: BankState, now: Instant, maxTransactions: nat): Materialized {
    MaterializeFrom(s, s.recurringRules, 0, now, maxTransactions)
  }

  method MaterializeRecurringRules(s: BankState, now: Instant, maxTransactions: nat)
    returns (state: BankState, warnings: seq<Warning>)
    ensures Materialized(state, warnings) == MaterializeRecurring(s, now, maxTransactions)
  {
    hide MaterializeRule, IsDue, FindRule, CatchUp;
    state, warnings := s, [];
    for k := 0 to |s.recurringRules|
      invariant MaterializeRecurring(s, now, maxTransactions)
             == (var rest := MaterializeFrom(state, s.recurringRules, k, now, maxTransactions);
                 Materialized(rest.state, warnings + rest.warnings))
    {
      var original := s.recurringRules[k];
      var found := FindRule(state.recurringRules, original.id);
      ghost var before := warnings;
      ghost var one := MaterializeRule(state, original.id, now, maxTransactions);
      ghost var rest := MaterializeFrom(one.state, s.recurringRules, k + 1, now, maxTransactions);
      assert before + (WarningsOf(one.warning) + rest.warnings) == (before + WarningsOf(one.warning)) + rest.warnings;
      OneRule(state, original.id, now, maxTransactions);
      if found.None? || !IsDue(state.recurringRules[found.value], state.accounts, now.date) {
        assert before + [] == before;
        continue;
      }
      var rule := state.recurringRules[found.value];
      state, warnings := CatchUpRule(state, rule, now, maxTransactions, warnings);
    }
    assert warnings + [] == warnings;
  }

  lemma {:induction false} OneRule(s: BankState, id: string, now: Instant, maxTransactions: nat)
    ensures var found := FindRule(s.recurringRules, id);
            MaterializeRule(s, id, now, maxTransactions)
            == if found.None? || !IsDue(s.recurringRules[found.value], s.accounts, now.date) then RuleOutcome(s, None)
               else CatchUp(s, s.recurringRules[found.value], now, maxTransactions)
  {
  }

  method CatchUpRule(s: BankState, rule: RecurringRule, now: Instant, maxTransactions: nat, warningsSoFar: seq<Warning>)
    returns (state: BankState, warnings: seq<Warning>)
    ensures var outcome := CatchUp(s, rule, now, maxTransactions);
            state == outcome.state && warnings == warningsSoFar + WarningsOf(outcome.warning)
  {
    hide DueThrough, AppendRow, BalanceOf, MissingDue;
    state, warnings := s, warningsSoFar;
    var schedule := OccurrenceDates(rule.nextOccurrence, rule.anchorDay, now.date, 120);
    if schedule.None? {
      return PauseRule(s, rule.id, Capacity), warnings + [Warning(rule.id, Capacity, None, None)];
    }
    var missing := MissingDue(s.transactions, rule.id, schedule.value.due);
    if |s.transactions| + |missing| > maxTransactions {
      return PauseRule(s, rule.id, Capacity), warnings + [Warning(rule.id, Capacity, None, None)];
    }
    var required := rule.amountMinor * |missing|;
    if !IsSafe(required) {
      return PauseRule(s, rule.id, Overflow), warnings + [Warning(rule.id, Overflow, None, None)];
    }
    var available := BalanceOf(s.transactions, rule.accountId);
    if rule.direction.Expense? && required > available {
      return PauseRule(s, rule.id, InsufficientFunds),
             warnings + [Warning(rule.id, InsufficientFunds, Some(available), Some(required))];
    }
    var candidate := PostEach(s, rule, missing, now);
    if candidate.None? {
      return PauseRule(s, rule.id, Overflow), warnings + [Warning(rule.id, Overflow, None, None)];
    }
    var posted := candidate.value;
    return posted.(recurringRules := WithNext(posted.recurringRules, rule.id, schedule.value.next)), warnings + [];
  }

  method PostEach(s: BankState, rule: RecurringRule, dates: seq<Date>, now: Instant) returns (r: Option<BankState>)
    ensures r == AppendAll(s, rule, dates, now)
  {
    hide AppendOccurrence;
    var candidate := s;
    for k := 0 to |dates|
      invariant AppendAll(s, rule, dates, now) == AppendAll(candidate, rule, dates[k..], now)
    {
      var next := AppendOccurrence(candidate, rule, dates[k], now);
      assert dates[k..][0] == dates[k] && dates[k..][1..] == dates[k + 1..];
      if next.None? {
        return None;
      }
      candidate := next.value;
    }
    return Some(candidate);
  }

  // ---------------------------------------------------------------- creating a rule

  /** A new rule as the user asks for it. The texts arrive normalised: `None` where the normaliser
      refuses them; a note that was not given is `Some("")`. */
  datatype RecurringInput = RecurringInput(
    ruleId: string, accountId: string, direction: Direction, amountInput: string, locale: Locale,
    counterparty: Option<Text>, note: Option<Text>, category: Option<Text>,
    startYear: int, startMonth: int, anchorDay: int)

  function NonEmpty(t: Text): Option<Text> {
    if t == "" then None else Some(t)
  }

  function NewRule(input: RecurringInput, amount: nat, first: Date, next: Date, now: Instant): RecurringRule
    requires input.counterparty.Some? && input.note.Some? && input.category.Some?
  {
    RecurringRule(input.ruleId, input.accountId, input.direction, amount, input.counterparty.value,
                  NonEmpty(input.note.value), input.category.value, input.anchorDay, first, next, RuleActive, None, now)
  }

  predicate StartsLaterThisMonth(first: Date, today: Date) {
    Before(today, first) && MonthIndex(first) == MonthIndex(today)
  }

  function CreateRecurringRule(s: BankState, input: RecurringInput, now: Instant): Outcome {
    if !IsRuleId(input.ruleId) then Refuse(InvalidRuleId)
    else if FindRule(s.recurringRules, input.ruleId).Some? then Refuse(DuplicateRuleId)
    else
      var found := FindAccount(s.accounts, input.accountId);
      if found.None? then Refuse(UnknownAccount)
      else
        var account := s.accounts[found.value];
        if account.status.Closed? then Refuse(AccountClosed)
        else if !account.kind.Checking? then Refuse(CheckingOnly)
        else
          var rate := s.exchangeRates.rates.Of(account.currency);
          match ParseAmountInput(input.amountInput, account.currency, input.locale)
          case None => Refuse(InvalidAmount)
          case Some(amount) =>
            if !WithinCommandUsdLimit(amount, account.currency, rate) then Refuse(AmountTooLarge)
            else if input.counterparty.None? then Refuse(InvalidCounterparty)
            else if input.note.None? then Refuse(InvalidNote)
            else if input.category.None? then Refuse(InvalidCategory)
            else
              match MonthOccurrence(input.startYear, input.startMonth, input.anchorDay)
              case None => Refuse(InvalidDate)
              case Some(first) =>
                if !IsAllowedEffectiveDate(first, now) && !StartsLaterThisMonth(first, now.date) then Refuse(InvalidDate)
                else
                  match DueThrough(first, input.anchorDay, now.date, 120)
                  case None => Refuse(TooManyOccurrences)
                  case Some(schedule) =>
                    Backfill(s, NewRule(input, amount, first, schedule.next, now), schedule.due, account.currency, rate, now)
  }

  function Backfill(s: BankState, rule: RecurringRule, due: seq<Date>, currency: Currency, rate: Rate, now: Instant): Outcome
    requires rule.amountMinor >= 0
  {
    ProductIsNatural(rule.amountMinor, |due|);
    var total := rule.amountMinor * |due|;
    var available := BalanceOf(s.transactions, rule.accountId);
    if !WithinCommandUsdLimit(total, currency, rate) then Refuse(AmountTooLarge)
    else if |s.recurringRules| >= MAX_RECURRING_RULES then Refuse(NoCapacity)
    else if |s.transactions| + |due| > MAX_TRANSACTIONS then Refuse(NoCapacity)
    else if rule.direction.Expense? && !IsSafe(total) then Refuse(BalanceOverflow)
    else if rule.direction.Expense? && total > available then
      Refused(NotEnoughFunds, Some(available), Some(total))
    else match AppendAll(s.(recurringRules := s.recurringRules + [rule]), rule, due, now)
      case None => Refuse(BalanceOverflow)
      case Some(posted) => Done(posted, true, [], None, Some(|due|))
  }
}
