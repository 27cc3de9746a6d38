/** Creating a recurring rule: the rule and all its past occurrences enter the ledger together, and the
    invariant holds. */
module CreationProofs {
  import opened Arithmetic
  import opened Wrappers
  import opened Calendar
  import opened Currency
  import opened Money
  import opened BankTypes
  import opened Ledger
  import opened Interest
  import opened BankValidity
  import opened Posting
  import opened Settlement
  import opened Recurring
  import opened RecurringProofs
  import opened CatchUpProofs
  import opened SavingsProofs
  import opened TransferEffects

  // ---------------------------------------------------------------- a rule without rows

  /** The rule before its first occurrence. */
  function AtStart(r: RecurringRule): RecurringRule {
    r.(nextOccurrence := r.startsOn)
  }

  ghost predicate IsAddableRule(s: BankState, r: RecurringRule, now: Instant) {
    && |s.recurringRules| < MAX_RECURRING_RULES
    && RuleShape(r) && RuleTimes(r, now) && r.nextOccurrence == r.startsOn && r.status.RuleActive?
    && (forall k :: 0 <= k < |s.recurringRules| ==> s.recurringRules[k].id != r.id)
    && r.accountId in AccountIds(s.accounts)
    && (forall j :: 0 <= j < |s.accounts| && s.accounts[j].id == r.accountId ==> IsOpenChecking(s.accounts[j]))
  }

  lemma {:induction false} NewRuleIdIsUnused(rules: seq<RecurringRule>, r: RecurringRule)
    requires forall k :: 0 <= k < |rules| ==> rules[k].id != r.id
    ensures r.id !in RuleIds(rules)
    ensures forall x :: x in RuleIds(rules) ==> x in RuleIds(rules + [r])
  {
    forall x | x in RuleIds(rules)
      ensures x in RuleIds(rules + [r])
    {
      var k :| 0 <= k < |rules| && rules[k].id == x;
      assert (rules + [r])[k].id == x;
    }
  }

  lemma {:induction false} NewRuleUnlinked(txs: seq<Transaction>, rules: seq<RecurringRule>, r: RecurringRule)
    requires RowsLinked(txs, rules) && r.id !in RuleIds(rules)
    requires forall x :: x in RuleIds(rules) ==> x in RuleIds(rules + [r])
    ensures RowsLinked(txs, rules + [r])
    ensures forall i :: 0 <= i < |txs| ==> !IsRowOf(txs[i].row, r.id)
  {
    hide RowMatchesRule, RuleIds;
  }

  lemma {:induction false} NewRuleContinuous(txs: seq<Transaction>, rules: seq<RecurringRule>, r: RecurringRule)
    requires RulesContinuous(txs, rules) && r.nextOccurrence == r.startsOn
    requires forall i :: 0 <= i < |txs| ==> !IsRowOf(txs[i].row, r.id)
    ensures RulesContinuous(txs, rules + [r])
  {
    hide OnAnchorDay, MonthIndex, IsRowOf;
    assert MonthsPosted(txs, r.id) == {};
    var m := MonthIndex(r.startsOn);
    assert Months(m, m) == {};
    hide MonthsPosted, Months;
    forall j | 0 <= j < |rules + [r]|
      ensures RuleContinuous(txs, (rules + [r])[j])
    {
      assert j < |rules| ==> RuleContinuous(txs, rules[j]);
    }
  }

  lemma {:induction false} NewRuleFits(rules: seq<RecurringRule>, r: RecurringRule, accounts: seq<Account>)
    requires RulesFit(rules, accounts) && r.accountId in AccountIds(accounts)
    requires forall j :: 0 <= j < |accounts| && accounts[j].id == r.accountId ==> RuleFits(r, accounts[j])
    ensures RulesFit(rules + [r], accounts)
  {
    hide RuleFits, AccountIds;
  }

  lemma {:induction false} NewRuleValid(rules: seq<RecurringRule>, r: RecurringRule, now: Instant)
    requires RulesValid(rules, now) && |rules| < MAX_RECURRING_RULES && RuleShape(r) && RuleTimes(r, now)
    requires forall k :: 0 <= k < |rules| ==> rules[k].id != r.id
    ensures RulesValid(rules + [r], now)
  {
    hide RuleShape, RuleTimes;
  }

  lemma {:induction false} ActiveRuleFits(r: RecurringRule, a: Account)
    requires r.status.RuleActive? && r.pauseReason.None? && IsOpenChecking(a)
    ensures RuleFits(r, a)
  {
  }

  lemma {:induction false} AddRuleKeepsSound(s: BankState, r: RecurringRule, now: Instant)
    requires Sound(s, now) && IsAddableRule(s, r, now)
    ensures Sound(s.(recurringRules := s.recurringRules + [r]), now)
  {
    assert r.pauseReason.None? by { ShapeReason(r); }
    hide AccountsValid, RowsValid, NextSeqValid, PostedWithin, ClosedAtZero, TransfersPaired, RulesValid, RulesFit,
      RowsLinked, RulesContinuous, CardsValid, ContactsValid, RatesValid, RecentIdsValid, RuleShape, RuleTimes, RuleFits, AccountIds, RuleIds;
    forall j | 0 <= j < |s.accounts| && s.accounts[j].id == r.accountId
      ensures RuleFits(r, s.accounts[j])
    {
      ActiveRuleFits(r, s.accounts[j]);
    }
    NewRuleIdIsUnused(s.recurringRules, r);
    NewRuleUnlinked(s.transactions, s.recurringRules, r);
    NewRuleContinuous(s.transactions, s.recurringRules, r);
    NewRuleFits(s.recurringRules, r, s.accounts);
    NewRuleValid(s.recurringRules, r, now);
  }

  lemma {:induction false} ShapeReason(r: RecurringRule)
    requires RuleShape(r) && r.status.RuleActive?
    ensures r.pauseReason.None?
  {
    hide IsAnchored, MonthIndex, IsRuleId;
  }

  // ---------------------------------------------------------------- the command

  ghost predicate CreationReady(s: BankState, input: RecurringInput, now: Instant, i: nat, amount: nat, first: Date, schedule: Schedule) {
    && IsRuleId(input.ruleId) && FindRule(s.recurringRules, input.ruleId).None?
    && FindAccount(s.accounts, input.accountId) == Some(i) && IsOpenChecking(s.accounts[i])
    && 0 < amount <= MAX_SAFE
    && input.counterparty.Some? && input.note.Some? && input.category.Some?
    && MonthOccurrence(input.startYear, input.startMonth, input.anchorDay) == Some(first)
    && (IsAllowedEffectiveDate(first, now) || StartsLaterThisMonth(first, now.date))
    && DueThrough(first, input.anchorDay, now.date, 120) == Some(schedule)
  }

  lemma {:induction false} CreationParts(s: BankState, input: RecurringInput, now: Instant)
      returns (i: nat, amount: nat, first: Date, schedule: Schedule)
    requires CreateRecurringRule(s, input, now).Done?
    ensures CreationReady(s, input, now, i, amount, first, schedule)
    ensures var a := s.accounts[i];
            CreateRecurringRule(s, input, now)
            == Backfill(s, NewRule(input, amount, first, schedule.next, now), schedule.due, a.currency,
                        s.exchangeRates.rates.Of(a.currency), now)
  {
    hide Backfill, WithinCommandUsdLimit, IsAllowedEffectiveDate, StartsLaterThisMonth, DueThrough, MonthOccurrence, IsRuleId,
      FindRule, NewRule, ParseAmountInput;
    i := FindAccount(s.accounts, input.accountId).value;
    var a := s.accounts[i];
    amount := ParseAmountInput(input.amountInput, a.currency, input.locale).value;
    first := MonthOccurrence(input.startYear, input.startMonth, input.anchorDay).value;
    schedule := DueThrough(first, input.anchorDay, now.date, 120).value;
  }

  lemma {:induction false} BackfillParts(s: BankState, rule: RecurringRule, due: seq<Date>, currency: Currency, rate: Rate, now: Instant)
    requires rule.amountMinor >= 0 && Backfill(s, rule, due, currency, rate, now).Done?
    ensures |s.recurringRules| < MAX_RECURRING_RULES && |s.transactions| + |due| <= MAX_TRANSACTIONS
    ensures rule.direction.Expense? ==> rule.amountMinor * |due| <= BalanceOf(s.transactions, rule.accountId)
    ensures var base := s.(recurringRules := s.recurringRules + [rule]);
            && AppendAll(base, rule, due, now).Some?
            && Backfill(s, rule, due, currency, rate, now)
               == Done(AppendAll(base, rule, due, now).value, true, [], None, Some(|due|))
  {
    hide AppendAll, BalanceOf, WithinCommandUsdLimit;
    ProductIsNatural(rule.amountMinor, |due|);
  }

  lemma {:induction false} StartMonth(first: Date, now: Instant)
    requires IsAllowedEffectiveDate(first, now) || StartsLaterThisMonth(first, now.date)
    ensures MonthIndex(first) <= MonthIndex(now.date)
  {
  }

  lemma {:induction false} OccurrenceFacts(year: int, month: int, anchorDay: int, first: Date)
    requires MonthOccurrence(year, month, anchorDay) == Some(first)
    ensures 1 <= anchorDay <= 31 && IsAnchored(first, anchorDay)
  {
  }

  lemma {:induction false} StartedShape(input: RecurringInput, amount: nat, first: Date, schedule: Schedule, now: Instant)
    requires input.counterparty.Some? && input.note.Some? && input.category.Some?
    requires IsRuleId(input.ruleId) && 0 < amount <= MAX_SAFE
    requires MonthOccurrence(input.startYear, input.startMonth, input.anchorDay) == Some(first)
    requires IsAllowedEffectiveDate(first, now) || StartsLaterThisMonth(first, now.date)
    requires DueThrough(first, input.anchorDay, now.date, 120) == Some(schedule)
    ensures var r := AtStart(NewRule(input, amount, first, schedule.next, now));
            && RuleShape(r) && RuleTimes(r, now) && r.nextOccurrence == r.startsOn && r.status.RuleActive?
            && r.id == input.ruleId && r.accountId == input.accountId && r.nextOccurrence == first && r.anchorDay == input.anchorDay
            && Terms(NewRule(input, amount, first, schedule.next, now)) == Terms(r)
            && NewRule(input, amount, first, schedule.next, now) == r.(nextOccurrence := schedule.next)
            && r.amountMinor == amount && r.direction == input.direction
  {
    StartMonth(first, now);
    OccurrenceFacts(input.startYear, input.startMonth, input.anchorDay, first);
    ThisInstant(now);
    hide IsAllowedEffectiveDate, DueThrough, MonthOccurrence, IsRuleId, MonthIndex, NotAfter, IsAnchored;
  }

  lemma {:induction false} NewRuleAmount(input: RecurringInput, amount: nat, first: Date, next: Date, now: Instant)
    requires input.counterparty.Some? && input.note.Some? && input.category.Some?
    ensures NewRule(input, amount, first, next, now).amountMinor == amount
  {
  }

  lemma {:induction false} StartedIsAddable(s: BankState, input: RecurringInput, now: Instant, i: nat, amount: nat, first: Date, schedule: Schedule)
    requires Sound(s, now) && CreationReady(s, input, now, i, amount, first, schedule)
    requires |s.recurringRules| < MAX_RECURRING_RULES
    ensures IsAddableRule(s, AtStart(NewRule(input, amount, first, schedule.next, now)), now)
  {
    hide Sound, RuleShape, RuleTimes, NewRule, AtStart, IsAllowedEffectiveDate, DueThrough, MonthOccurrence, IsRuleId, StartsLaterThisMonth,
      FindAccount, FindRule, IsAddableRule;
    StartedShape(input, amount, first, schedule, now);
    FindGives(s.accounts, input.accountId, i);
    AddableFrom(s, AtStart(NewRule(input, amount, first, schedule.next, now)), now, i);
  }

  lemma {:induction false} AddableFrom(s: BankState, r: RecurringRule, now: Instant, i: nat)
    requires Sound(s, now) && i < |s.accounts| && s.accounts[i].id == r.accountId && IsOpenChecking(s.accounts[i])
    requires |s.recurringRules| < MAX_RECURRING_RULES && FindRule(s.recurringRules, r.id).None?
    requires RuleShape(r) && RuleTimes(r, now) && r.nextOccurrence == r.startsOn && r.status.RuleActive?
    ensures IsAddableRule(s, r, now)
  {
    hide Sound, RuleShape, RuleTimes, AccountIds, FindRule;
    AccountIsUnique(s, i, now);
    IdInAccountIds(s.accounts, i);
  }

  lemma {:induction false} AddableFacts(s: BankState, r: RecurringRule, now: Instant)
    requires IsAddableRule(s, r, now)
    ensures RuleShape(r)
    ensures forall j :: 0 <= j < |s.accounts| && s.accounts[j].id == r.accountId ==> IsOpenChecking(s.accounts[j])
  {
    hide RuleShape, RuleTimes, AccountIds;
  }

  /** The state that holds the new rule before its first occurrence. */
  function WithRule(s: BankState, r: RecurringRule): BankState {
    s.(recurringRules := s.recurringRules + [r])
  }

  lemma {:induction false} StartedCanPost(s: BankState, r: RecurringRule, schedule: Schedule, now: Instant)
    requires IsAddableRule(s, r, now)
    requires DueThrough(r.nextOccurrence, r.anchorDay, now.date, 120) == Some(schedule)
    requires |s.transactions| + |schedule.due| <= MAX_TRANSACTIONS
    requires r.direction.Expense? ==> r.amountMinor * |schedule.due| <= BalanceOf(s.transactions, r.accountId)
    ensures CanPostAll(WithRule(s, r), |s.recurringRules|, schedule.due, now)
    ensures IsRunOf(r, schedule.due)
    ensures schedule.next == AtMonth(r, MonthIndex(r.nextOccurrence) + |schedule.due|).nextOccurrence
  {
    hide IsAddableRule, RuleShape, DueThrough, IsRunOf, MonthIndex, IsAllowedEffectiveDate, AtMonth, BalanceOf;
    AddableFacts(s, r, now);
    ScheduleIsRun(r, now);
    assert WithRule(s, r).recurringRules[|s.recurringRules|] == r;
  }

  /** What the backfill of a new rule leaves: the run of its past occurrences posted on the old state, and
      the rule behind all others. */
  ghost predicate Created(s: BankState, r: RecurringRule, schedule: Schedule, now: Instant, after: BankState) {
    var base := WithRule(s, r);
    && after.recurringRules == s.recurringRules + [r.(nextOccurrence := schedule.next)]
    && PostedRun(base, |s.recurringRules|, schedule.due, now, after.(recurringRules := base.recurringRules))
  }

  lemma {:induction false} BackfillIsCreated(s: BankState, r: RecurringRule, schedule: Schedule, now: Instant)
    requires Sound(s, now) && IsAddableRule(s, r, now)
    requires DueThrough(r.nextOccurrence, r.anchorDay, now.date, 120) == Some(schedule)
    requires |s.transactions| + |schedule.due| <= MAX_TRANSACTIONS
    requires r.direction.Expense? ==> r.amountMinor * |schedule.due| <= BalanceOf(s.transactions, r.accountId)
    requires var rule := r.(nextOccurrence := schedule.next); AppendAll(WithRule(s, rule), rule, schedule.due, now).Some?
    ensures var rule := r.(nextOccurrence := schedule.next);
            var after := AppendAll(WithRule(s, rule), rule, schedule.due, now).value;
            Created(s, r, schedule, now, after) && Sound(after, now)
  {
    hide Sound, IsAddableRule, DueThrough, AppendAll, PostedRun, CanPostAll, MonthIndex, AtMonth, BalanceOf, RuleShape, WithRule, Created, IsRunOf;
    var n := |s.recurringRules|;
    var base := WithRule(s, r);
    var rule := r.(nextOccurrence := schedule.next);
    AddableFacts(s, r, now);
    RuleAdded(s, r);
    AddRuleKeepsSound(s, r, now);
    StartedCanPost(s, r, schedule, now);
    BackfilledBase(s, r, schedule, now);
    PostAllKeepsSound(base, n, schedule.due, now);
    CreatedFromRun(s, r, schedule, now, AppendAll(base, r, schedule.due, now).value);
  }

  lemma {:induction false} RuleAdded(s: BankState, r: RecurringRule)
    ensures WithRule(s, r) == s.(recurringRules := s.recurringRules + [r])
    ensures WithRule(s, r).recurringRules[|s.recurringRules|] == r
  {
  }

  /** Posting does not look at where the new rule stands. */
  lemma {:induction false} BackfilledBase(s: BankState, r: RecurringRule, schedule: Schedule, now: Instant)
    ensures var rule := r.(nextOccurrence := schedule.next);
            var plain := AppendAll(WithRule(s, r), r, schedule.due, now);
            && (plain.Some? ==> plain.value.recurringRules == WithRule(s, r).recurringRules)
            && AppendAll(WithRule(s, rule), rule, schedule.due, now)
               == if plain.None? then None else Some(plain.value.(recurringRules := s.recurringRules + [rule]))
  {
    var rule := r.(nextOccurrence := schedule.next);
    assert Terms(rule) == Terms(r);
    hide AppendAll, Terms;
    AppendAllIgnoresRules(WithRule(s, r), r, schedule.due, now, rule, s.recurringRules + [rule]);
    assert WithRule(s, r).(recurringRules := s.recurringRules + [rule]) == WithRule(s, rule);
    if AppendAll(WithRule(s, r), r, schedule.due, now).Some? {
      AppendAllKeepsRules(WithRule(s, r), r, schedule.due, now);
    }
  }

  lemma {:induction false} CreatedFromRun(s: BankState, r: RecurringRule, schedule: Schedule, now: Instant, c: BankState)
    requires PostedRun(WithRule(s, r), |s.recurringRules|, schedule.due, now, c)
    requires c.recurringRules == WithRule(s, r).recurringRules
    requires IsRunOf(r, schedule.due)
    requires schedule.next == AtMonth(r, MonthIndex(r.nextOccurrence) + |schedule.due|).nextOccurrence
    ensures var after := c.(recurringRules := s.recurringRules + [r.(nextOccurrence := schedule.next)]);
            Created(s, r, schedule, now, after) && Sound(after, now)
  {
    hide Sound, PostedRun, MonthIndex, AtMonth;
    var n, rule := |s.recurringRules|, r.(nextOccurrence := schedule.next);
    RunIsSound(WithRule(s, r), n, schedule.due, now, c);
    NextIsAtMonth(r, schedule);
    assert WithRule(s, r).recurringRules[n := rule] == s.recurringRules + [rule];
    var after := c.(recurringRules := s.recurringRules + [rule]);
    assert after.(recurringRules := WithRule(s, r).recurringRules) == c;
  }

  lemma {:induction false} NextIsAtMonth(r: RecurringRule, schedule: Schedule)
    requires FIRST_MONTH <= MonthIndex(r.nextOccurrence) + |schedule.due| < MONTH_LIMIT && 1 <= r.anchorDay <= 31
    requires schedule.next == AtMonth(r, MonthIndex(r.nextOccurrence) + |schedule.due|).nextOccurrence
    ensures AtMonth(r, MonthIndex(r.nextOccurrence) + |schedule.due|) == r.(nextOccurrence := schedule.next)
  {
    hide MonthIndex, OccurrenceIn;
  }

  lemma {:induction false} RunIsSound(s: BankState, i: nat, due: seq<Date>, now: Instant, c: BankState)
    requires i < |s.recurringRules| && PostedRun(s, i, due, now, c)
    ensures var r := s.recurringRules[i];
            var m := MonthIndex(r.nextOccurrence) + |due|;
            && FIRST_MONTH <= m < MONTH_LIMIT && 1 <= r.anchorDay <= 31
            && Sound(c.(recurringRules := s.recurringRules[i := AtMonth(r, m)]), now)
  {
    hide Sound, AtMonth, MonthIndex, OccurrenceRow;
  }

  /** A created rule has all its past occurrences in the ledger, one per month, and the state is sound. */
  lemma {:induction false} CreateIsCreated(s: BankState, input: RecurringInput, now: Instant)
      returns (r: RecurringRule, schedule: Schedule)
    requires Sound(s, now) && CreateRecurringRule(s, input, now).Done?
    ensures IsAddableRule(s, r, now) && r.id == input.ruleId
    ensures Created(s, r, schedule, now, CreateRecurringRule(s, input, now).state)
    ensures Sound(CreateRecurringRule(s, input, now).state, now)
    ensures CreateRecurringRule(s, input, now).backfilled == Some(|schedule.due|)
    ensures CreateRecurringRule(s, input, now).applied && CreateRecurringRule(s, input, now).warnings == []
  {
    hide Sound, CreateRecurringRule, Backfill, NewRule, AtStart, RuleShape, RuleTimes, IsAllowedEffectiveDate, DueThrough, MonthOccurrence,
      IsRuleId, StartsLaterThisMonth, FindAccount, FindRule, IsAddableRule, Created, AppendAll, BalanceOf, Terms;
    var i, amount, first;
    i, amount, first, schedule := CreationParts(s, input, now);
    var rule := NewRule(input, amount, first, schedule.next, now);
    var a := s.accounts[i];
    r := AtStart(rule);
    StartedShape(input, amount, first, schedule, now);
    BackfillParts(s, rule, schedule.due, a.currency, s.exchangeRates.rates.Of(a.currency), now);
    StartedIsAddable(s, input, now, i, amount, first, schedule);
    assert WithRule(s, rule) == s.(recurringRules := s.recurringRules + [rule]);
    BackfillIsCreated(s, r, schedule, now);
  }

  // ---------------------------------------------------------------- what stays

  lemma {:induction false} CreatedMoves(s: BankState, r: RecurringRule, schedule: Schedule, now: Instant, after: BankState)
    requires IsAddableRule(s, r, now) && Created(s, r, schedule, now, after)
    ensures Moved(s, after, now) && after.recentTransferIds == s.recentTransferIds
  {
    hide Sound, RuleShape, RuleTimes, AtMonth, MonthIndex, OccurrenceRow, BalanceOf, AccountIds, Identity, Terms, IsPending;
    var c := after.(recurringRules := WithRule(s, r).recurringRules);
    assert Extends(WithRule(s, r), c, |schedule.due|) && SameBalancesBut(WithRule(s, r), c, r.accountId);
    forall j | 0 <= j < |s.accounts|
      ensures KeptAt(s, after, j, now)
    {
    }
  }
}
