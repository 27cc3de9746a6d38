/** What creating a recurring rule comes to, case by case: why it is refused, and the rule and rows it adds. */
module CreationOutcomes {
  import opened Arithmetic
  import opened Wrappers
  import opened Calendar
  import opened Currency
  import opened Money
  import opened BankTypes
  import opened Ledger
  import opened Interest
  import opened BankValidity
  import opened Posting
  import opened Settlement
  import opened Recurring
  import opened RecurringProofs
  import opened CatchUpProofs
  import opened CatchUpTally
  import opened CreationProofs
  import opened CommandTerms
  import opened StandingOutcomes

  /** `rr_` and one to ninety-two letters, digits or `_.:-`. */
  predicate IsNewRuleId(id: string) {
    && 4 <= |id| <= 95 && id[..3] == "rr_"
    && forall i :: 3 <= i < |id| ==>
         || 'a' <= id[i] <= 'z' || 'A' <= id[i] <= 'Z' || '0' <= id[i] <= '9' || id[i] in "_.:-"
  }

  lemma {:induction false} RuleIdSpelled(id: string)
    ensures IsRuleId(id) <==> IsNewRuleId(id)
  {
  }

  predicate IsMonthAndAnchor(input: RecurringInput) {
    1 <= input.startYear <= 9999 && 1 <= input.startMonth <= 12 && 1 <= input.anchorDay <= 31
  }

  /** The anchor day of the first month, or the last day of a shorter month. */
  function FirstDate(input: RecurringInput): (d: Date)
    requires IsMonthAndAnchor(input)
  {
    var length := DaysInMonth(input.startYear, input.startMonth);
    CalendarDate(input.startYear, input.startMonth, if input.anchorDay < length then input.anchorDay else length)
  }

  function SignedFor(direction: Direction, amount: int): int {
    if direction.Income? then amount else -amount
  }

  /** The new rule, active, with the first date that is not due yet as its next occurrence. */
  function RuleOf(input: RecurringInput, amount: nat, next: Date, now: Instant): RecurringRule
    requires IsMonthAndAnchor(input) && input.counterparty.Some? && input.note.Some? && input.category.Some?
  {
    RecurringRule(input.ruleId, input.accountId, input.direction, amount, input.counterparty.value,
                  if input.note.value == "" then None else input.note, input.category.value, input.anchorDay,
                  FirstDate(input), next, RuleActive, None, now)
  }

  function RowFor(r: RecurringRule, date: Date, now: Instant): Draft {
    Draft(r.accountId, SignedFor(r.direction, r.amountMinor), if r.direction.Income? then ManualIncome else ManualExpense,
          Some(r.counterparty), Some(r.category), None, None, r.note, Some(date), Some(r.id),
          Some(OccurrenceKey(r.id, 12 * date.year + date.month - 1)), now)
  }

  /** The state with the rule behind the others and one row for each date at the end of the ledger. */
  ghost predicate AddsRule(s: BankState, after: BankState, r: RecurringRule, due: seq<Date>, now: Instant) {
    && after == s.(transactions := after.transactions, nextSeq := s.nextSeq + |due|, recurringRules := s.recurringRules + [r])
    && |after.transactions| == |s.transactions| + |due| && s.transactions <= after.transactions
    && forall k :: 0 <= k < |due| ==> after.transactions[|s.transactions| + k].row == RowFor(r, due[k], now)
  }

  /** The money side, once the dates are known. */
  ghost predicate BackfillsAs(s: BankState, r: RecurringRule, due: seq<Date>, c: Currency, now: Instant, out: Outcome) {
    var total := r.amountMinor * |due|;
    var balance := BalanceOf(s.transactions, r.accountId);
    if !(total >= 0 && IsAffordable(total, c, s.exchangeRates)) then out == Refuse(AmountTooLarge)
    else if |s.recurringRules| >= 64 then out == Refuse(NoCapacity)
    else if |s.transactions| + |due| > 5_000 then out == Refuse(NoCapacity)
    else if r.direction.Expense? && total > MAX_SAFE then out == Refuse(BalanceOverflow)
    else if r.direction.Expense? && total > balance then out == Refused(NotEnoughFunds, Some(balance), Some(total))
    else if s.nextSeq + |due| > MAX_SAFE || balance + SignedFor(r.direction, total) > MAX_SAFE then out == Refuse(BalanceOverflow)
    else out.Done? && out == Done(out.state, true, [], None, Some(|due|)) && AddsRule(s, out.state, r, due, now)
  }

  ghost predicate CreatesAs(s: BankState, input: RecurringInput, i: nat, now: Instant, out: Outcome)
    requires i < |s.accounts|
  {
    var a := s.accounts[i];
    if a.status.Closed? then out == Refuse(AccountClosed)
    else if a.kind.Savings? then out == Refuse(CheckingOnly)
    else match ParseAmountInput(input.amountInput, a.currency, input.locale)
    case None => out == Refuse(InvalidAmount)
    case Some(amount) =>
      if !IsAffordable(amount, a.currency, s.exchangeRates) then out == Refuse(AmountTooLarge)
      else if input.counterparty.None? then out == Refuse(InvalidCounterparty)
      else if input.note.None? then out == Refuse(InvalidNote)
      else if input.category.None? then out == Refuse(InvalidCategory)
      else if !IsMonthAndAnchor(input) then out == Refuse(InvalidDate)
      else
        var first := FirstDate(input);
        if !(IsRecent(first, now) || (Before(now.date, first) && first.year == now.date.year && first.month == now.date.month))
        then out == Refuse(InvalidDate)
        else match DueThrough(first, input.anchorDay, now.date, 120)
        case None => out == Refuse(TooManyOccurrences)
        case Some(schedule) => BackfillsAs(s, RuleOf(input, amount, schedule.next, now), schedule.due, a.currency, now, out)
  }

  // ---------------------------------------------------------------- the backfill

  lemma {:induction false} RowIs(r: RecurringRule, date: Date, now: Instant)
    ensures OccurrenceRow(r, date, now) == RowFor(r, date, now)
  {
  }

  lemma {:induction false} SameRowFor(r: RecurringRule, next: Date, date: Date, now: Instant)
    ensures RowFor(r.(nextOccurrence := next), date, now) == RowFor(r, date, now)
  {
  }

  lemma {:induction false} CreatedAddsRule(s: BankState, r: RecurringRule, schedule: Schedule, now: Instant, after: BankState)
    requires Created(s, r, schedule, now, after)
    ensures AddsRule(s, after, r.(nextOccurrence := schedule.next), schedule.due, now)
  {
    hide Sound, AtMonth, MonthIndex, OccurrenceRow, BalanceOf, RowFor;
    var rule := r.(nextOccurrence := schedule.next);
    var c := after.(recurringRules := WithRule(s, r).recurringRules);
    assert Extends(WithRule(s, r), c, |schedule.due|);
    forall k | 0 <= k < |schedule.due|
      ensures after.transactions[|s.transactions| + k].row == RowFor(rule, schedule.due[k], now)
    {
      assert c.transactions[|s.transactions| + k].row == OccurrenceRow(r, schedule.due[k], now);
      RowIs(r, schedule.due[k], now);
      SameRowFor(r, schedule.next, schedule.due[k], now);
    }
  }

  /** The rows of a new rule can be posted exactly when sequence and balance have room for all of them. */
  lemma {:induction false} NewRuleRoom(s: BankState, r: RecurringRule, schedule: Schedule, now: Instant)
    requires Sound(s, now) && IsAddableRule(s, r, now)
    requires DueThrough(r.nextOccurrence, r.anchorDay, now.date, 120) == Some(schedule)
    ensures var rule := r.(nextOccurrence := schedule.next);
            AppendAll(WithRule(s, rule), rule, schedule.due, now).Some? <==> HasRoomToPost(s, r, |schedule.due|)
  {
    hide Sound, IsAddableRule, DueThrough, AppendAll, RuleShape, IsRunOf, AreFree, HasRoomToPost, BalanceOf, WithRule, RuleTimes, AccountIds;
    AddableFacts(s, r, now);
    AddRuleKeepsSound(s, r, now);
    RuleAdded(s, r);
    BackfilledBase(s, r, schedule, now);
    ScheduleIsRun(r, now);
    var base := WithRule(s, r);
    RunIsFree(base, |s.recurringRules|, schedule.due, now);
    SequenceInRange(s, now);
    BalanceIsNatural(s, r.accountId, now);
    AmountOf(r);
    PostsIffRoom(base, r, schedule.due, now);
    SameRoom(s, base, r, |schedule.due|);
  }

  lemma {:induction false} AmountOf(r: RecurringRule)
    requires RuleShape(r)
    ensures 0 < r.amountMinor <= MAX_SAFE
  {
    hide IsAnchored, MonthIndex, IsRuleId;
  }

  lemma {:induction false} SameRoom(s: BankState, base: BankState, r: RecurringRule, n: nat)
    requires base.transactions == s.transactions && base.nextSeq == s.nextSeq
    ensures HasRoomToPost(base, r, n) == HasRoomToPost(s, r, n)
  {
    hide BalanceOf;
  }

  lemma {:induction false} RoomInTotal(s: BankState, r: RecurringRule, n: nat, now: Instant)
    requires Sound(s, now) && r.amountMinor > 0
    requires r.direction.Expense? ==> r.amountMinor * n <= BalanceOf(s.transactions, r.accountId)
    ensures HasRoomToPost(s, r, n)
            <==> s.nextSeq + n <= MAX_SAFE
                 && BalanceOf(s.transactions, r.accountId) + SignedFor(r.direction, r.amountMinor * n) <= MAX_SAFE
  {
    hide Sound, BalanceOf;
    BalanceIsNatural(s, r.accountId, now);
    ProductIsNatural(r.amountMinor, n);
    assert Effect(r) * n == SignedFor(r.direction, r.amountMinor * n) by {
      if r.direction.Expense? { assert -r.amountMinor * n == -(r.amountMinor * n); }
    }
  }

  lemma {:induction false} BackfillOutcome(s: BankState, r: RecurringRule, schedule: Schedule, c: Currency, now: Instant)
    requires Sound(s, now) && r.amountMinor > 0
    requires |s.recurringRules| < MAX_RECURRING_RULES ==> IsAddableRule(s, r, now)
    requires DueThrough(r.nextOccurrence, r.anchorDay, now.date, 120) == Some(schedule)
    ensures var rule := r.(nextOccurrence := schedule.next);
            BackfillsAs(s, rule, schedule.due, c, now, Backfill(s, rule, schedule.due, c, s.exchangeRates.rates.Of(c), now))
  {
    hide Sound, IsAddableRule, DueThrough, AppendAll, BalanceOf, Created, AddsRule, HasRoomToPost, WithinCommandUsdLimit, IsAffordable;
    var rule := r.(nextOccurrence := schedule.next);
    var total := r.amountMinor * |schedule.due|;
    ProductIsNatural(r.amountMinor, |schedule.due|);
    LimitIsAffordable(total, c, s.exchangeRates);
    if |s.recurringRules| < MAX_RECURRING_RULES {
      NewRuleRoom(s, r, schedule, now);
      assert WithRule(s, rule) == s.(recurringRules := s.recurringRules + [rule]);
      if r.direction.Expense? ==> total <= BalanceOf(s.transactions, r.accountId) {
        RoomInTotal(s, r, |schedule.due|, now);
        if |s.transactions| + |schedule.due| <= MAX_TRANSACTIONS && AppendAll(WithRule(s, rule), rule, schedule.due, now).Some? {
          BackfillIsCreated(s, r, schedule, now);
          CreatedAddsRule(s, r, schedule, now, AppendAll(WithRule(s, rule), rule, schedule.due, now).value);
        }
      }
    }
  }

  // ---------------------------------------------------------------- the command

  lemma {:induction false} FirstIs(input: RecurringInput)
    ensures MonthOccurrence(input.startYear, input.startMonth, input.anchorDay)
            == if IsMonthAndAnchor(input) then Some(FirstDate(input)) else None
  {
  }

  lemma {:induction false} LaterIs(first: Date, today: Date)
    ensures StartsLaterThisMonth(first, today) <==> Before(today, first) && first.year == today.year && first.month == today.month
  {
  }

  lemma {:induction false} NewRuleIsRuleOf(input: RecurringInput, amount: nat, next: Date, now: Instant)
    requires IsMonthAndAnchor(input) && input.counterparty.Some? && input.note.Some? && input.category.Some?
    ensures NewRule(input, amount, FirstDate(input), next, now) == RuleOf(input, amount, next, now)
    ensures AtStart(RuleOf(input, amount, next, now)).(nextOccurrence := next) == RuleOf(input, amount, next, now)
    ensures var r := AtStart(RuleOf(input, amount, next, now));
            r.nextOccurrence == FirstDate(input) && r.anchorDay == input.anchorDay && r.amountMinor == amount
  {
    hide FirstDate;
  }

  /** The part of the command after its dates are known. */
  lemma {:induction false} StartedOutcome(s: BankState, input: RecurringInput, i: nat, amount: nat, schedule: Schedule, now: Instant)
    requires Sound(s, now) && IsMonthAndAnchor(input)
    requires CreationReady(s, input, now, i, amount, FirstDate(input), schedule)
    ensures var c := s.accounts[i].currency;
            BackfillsAs(s, RuleOf(input, amount, schedule.next, now), schedule.due, c, now,
                        Backfill(s, NewRule(input, amount, FirstDate(input), schedule.next, now), schedule.due, c,
                                 s.exchangeRates.rates.Of(c), now))
  {
    hide Sound, Backfill, BackfillsAs, NewRule, RuleOf, AtStart, FirstDate, IsAddableRule, DueThrough, IsAllowedEffectiveDate,
      StartsLaterThisMonth, IsRuleId, FindRule, FindAccount, MonthOccurrence;
    NewRuleIsRuleOf(input, amount, schedule.next, now);
    var r := AtStart(RuleOf(input, amount, schedule.next, now));
    if |s.recurringRules| < MAX_RECURRING_RULES {
      StartedIsAddable(s, input, now, i, amount, FirstDate(input), schedule);
    }
    BackfillOutcome(s, r, schedule, s.accounts[i].currency, now);
  }

  lemma {:induction false} AmountIsPositive(input: string, c: Currency, locale: Locale)
    ensures ParseAmountInput(input, c, locale).Some? ==> 0 < ParseAmountInput(input, c, locale).value <= MAX_SAFE
  {
    hide ParseDecimalToMinor;
  }

  /** A new rule is refused for its identifier, its account, its amount, its texts, its dates or its money, in
      that order; otherwise it is added with one row for every month that has come. */
  lemma {:induction false} CreationOutcome(s: BankState, input: RecurringInput, now: Instant)
    requires Sound(s, now)
    ensures var out := CreateRecurringRule(s, input, now);
            if !IsNewRuleId(input.ruleId) then out == Refuse(InvalidRuleId)
            else if !NoRule(s, input.ruleId) then out == Refuse(DuplicateRuleId)
            else if NoAccount(s, input.accountId) then out == Refuse(UnknownAccount)
            else forall i: nat :: IsAccount(s, input.accountId, i) ==> CreatesAs(s, input, i, now, out)
  {
    hide Sound, Backfill, BackfillsAs, NewRule, RuleOf, FirstDate, DueThrough, IsAllowedEffectiveDate, StartsLaterThisMonth, IsRuleId,
      IsNewRuleId, FindRule, FindAccount, MonthOccurrence, ParseAmountInput, WithinCommandUsdLimit, IsAffordable, IsRecent, Before;
    RuleIdSpelled(input.ruleId);
    FindsNoAccount(s, input.accountId);
    FirstIs(input);
    var out := CreateRecurringRule(s, input, now);
    if IsRuleId(input.ruleId) && NoRule(s, input.ruleId) && !NoAccount(s, input.accountId) {
      forall i: nat | IsAccount(s, input.accountId, i)
        ensures CreatesAs(s, input, i, now, out)
      {
        FindIsAccount(s, input.accountId, i, now);
        AccountOutcome(s, input, i, now);
      }
    }
  }

  lemma {:induction false} AccountOutcome(s: BankState, input: RecurringInput, i: nat, now: Instant)
    requires Sound(s, now) && IsRuleId(input.ruleId) && NoRule(s, input.ruleId)
    requires FindAccount(s.accounts, input.accountId) == Some(i)
    ensures CreatesAs(s, input, i, now, CreateRecurringRule(s, input, now))
  {
    hide Sound, Backfill, BackfillsAs, NewRule, RuleOf, FirstDate, DueThrough, IsAllowedEffectiveDate, StartsLaterThisMonth, IsRuleId,
      FindRule, FindAccount, MonthOccurrence, ParseAmountInput, WithinCommandUsdLimit, IsAffordable, IsRecent, Before, IsMonthAndAnchor;
    var a := s.accounts[i];
    FirstIs(input);
    AmountIsPositive(input.amountInput, a.currency, input.locale);
    var parsed := ParseAmountInput(input.amountInput, a.currency, input.locale);
    if parsed.Some? {
      LimitIsAffordable(parsed.value, a.currency, s.exchangeRates);
      if IsMonthAndAnchor(input) && input.counterparty.Some? && input.note.Some? && input.category.Some? && IsOpenChecking(a) {
        var first := FirstDate(input);
        AllowedIsRecent(first, now);
        LaterIs(first, now.date);
        var schedule := DueThrough(first, input.anchorDay, now.date, 120);
        if schedule.Some? && (IsAllowedEffectiveDate(first, now) || StartsLaterThisMonth(first, now.date)) {
          StartedOutcome(s, input, i, parsed.value, schedule.value, now);
        }
      }
    }
  }
}
