/** One catch-up pass: every due month or none, soundness, and nothing left due. */
module CatchUpProofs {
  import opened Wrappers
  import opened Calendar
  import opened BankTypes
  import opened Ledger
  import opened Interest
  import opened BankValidity
  import opened Posting
  import opened Recurring
  import opened RecurringProofs

  // ---------------------------------------------------------------- the schedule of a due rule

  lemma {:induction false} ScheduleIsRun(r: RecurringRule, now: Instant)
    requires RuleShape(r) && DueThrough(r.nextOccurrence, r.anchorDay, now.date, 120).Some?
    ensures var schedule := DueThrough(r.nextOccurrence, r.anchorDay, now.date, 120).value;
            && IsRunOf(r, schedule.due)
            && schedule.next == AtMonth(r, MonthIndex(r.nextOccurrence) + |schedule.due|).nextOccurrence
            && Before(now.date, schedule.next)
            && (forall k :: 0 <= k < |schedule.due| ==> IsAllowedEffectiveDate(schedule.due[k], now))
            && (!Before(now.date, r.nextOccurrence) ==> schedule.due != [])
  {
    hide DueThrough, IsAllowedEffectiveDate, OccurrenceIn, MonthIndex, Before, IsAnchored;
    AnchoredIsOccurrence(r.nextOccurrence, r.anchorDay);
    ScheduleIsMonthly(r.nextOccurrence, r.anchorDay, now.date, 120);
    CapKeepsDatesInWindow(r.nextOccurrence, r.anchorDay, now);
    var schedule := DueThrough(r.nextOccurrence, r.anchorDay, now.date, 120).value;
    if schedule.due == [] {
      assert schedule.next == r.nextOccurrence;
    }
  }

  lemma {:induction false} RunMonths(r: RecurringRule, due: seq<Date>)
    requires IsRunOf(r, due)
    ensures forall k :: 0 <= k < |due| ==> MonthIndex(due[k]) >= MonthIndex(r.nextOccurrence)
  {
    forall k | 0 <= k < |due|
      ensures MonthIndex(due[k]) >= MonthIndex(r.nextOccurrence)
    {
      var m := MonthIndex(r.nextOccurrence);
      OccurrenceOrder(m + k, m + k, r.anchorDay);
    }
  }

  /** The filter for months that already have a row never drops anything. */
  lemma {:induction false} NothingIsDropped(s: BankState, i: nat, due: seq<Date>, now: Instant)
    requires Sound(s, now) && i < |s.recurringRules|
    requires forall k :: 0 <= k < |due| ==> MonthIndex(due[k]) >= MonthIndex(s.recurringRules[i].nextOccurrence)
    ensures MissingDue(s.transactions, s.recurringRules[i].id, due) == due
    decreases |due|
  {
    hide Sound, HasKey, MonthIndex;
    if due != [] {
      FutureKeyIsFree(s, i, MonthIndex(due[0]), now);
      NothingIsDropped(s, i, due[1..], now);
    }
  }

  // ---------------------------------------------------------------- all due rows or none

  ghost predicate CaughtUp(s: BankState, i: nat, now: Instant, out: RuleOutcome)
    requires i < |s.recurringRules|
  {
    var r := s.recurringRules[i];
    var schedule := DueThrough(r.nextOccurrence, r.anchorDay, now.date, 120);
    && schedule.Some? && out.warning.None?
    && PostedRun(s, i, schedule.value.due, now, out.state.(recurringRules := s.recurringRules))
    && out.state.recurringRules == s.recurringRules[i := r.(nextOccurrence := schedule.value.next)]
    && schedule.value.due != [] && Before(now.date, schedule.value.next)
    && schedule.value.next == AtMonth(r, MonthIndex(r.nextOccurrence) + |schedule.value.due|).nextOccurrence
  }

  predicate IsCatchUpReason(p: PauseReason) { p.Capacity? || p.Overflow? || p.InsufficientFunds? }

  ghost predicate Paused(s: BankState, i: nat, out: RuleOutcome)
    requires i < |s.recurringRules|
  {
    && out.warning.Some? && out.warning.value.ruleId == s.recurringRules[i].id
    && IsCatchUpReason(out.warning.value.reason)
    && out.state == PauseRule(s, s.recurringRules[i].id, out.warning.value.reason)
  }

  lemma {:induction false} OpenCheckingOf(s: BankState, id: string, now: Instant)
    requires Sound(s, now) && CanPostTo(s.accounts, id)
    ensures forall j :: 0 <= j < |s.accounts| && s.accounts[j].id == id ==> IsOpenChecking(s.accounts[j])
  {
    var found := FindAccount(s.accounts, id).value;
    assert forall j :: 0 <= j < |s.accounts| && s.accounts[j].id == id ==> j == found by { AccountIsUnique(s, found, now); }
  }

  /** A due rule either posts one row for every month due, in order, and moves past them, or it posts
      nothing and is paused with a warning. */
  lemma {:induction false} AllDueOrNone(s: BankState, i: nat, now: Instant, maxTransactions: nat)
    requires Sound(s, now) && i < |s.recurringRules| && maxTransactions <= MAX_TRANSACTIONS
    requires IsDue(s.recurringRules[i], s.accounts, now.date)
    ensures var out := CatchUp(s, s.recurringRules[i], now, maxTransactions);
            || (CaughtUp(s, i, now, out) && |out.state.transactions| <= maxTransactions)
            || Paused(s, i, out)
  {
    hide Sound, DueThrough, RuleShape, MissingDue, PostMissing, CaughtUp, IsDue, MonthIndex, Before, IsRunOf, AtMonth,
      IsAllowedEffectiveDate, FindRule, AccountIds;
    var r := s.recurringRules[i];
    RuleFacts(s, i, now);
    var schedule := DueThrough(r.nextOccurrence, r.anchorDay, now.date, 120);
    if schedule.Some? {
      ScheduleIsRun(r, now);
      RunMonths(r, schedule.value.due);
      NothingIsDropped(s, i, schedule.value.due, now);
      PostedOrPaused(s, i, schedule.value, now, maxTransactions);
    }
  }

  lemma {:induction false} PostedOrPaused(s: BankState, i: nat, schedule: Schedule, now: Instant, maxTransactions: nat)
    requires Sound(s, now) && i < |s.recurringRules| && maxTransactions <= MAX_TRANSACTIONS
    requires IsDue(s.recurringRules[i], s.accounts, now.date) && RuleShape(s.recurringRules[i])
    requires DueThrough(s.recurringRules[i].nextOccurrence, s.recurringRules[i].anchorDay, now.date, 120) == Some(schedule)
    ensures var out := PostMissing(s, s.recurringRules[i], schedule.due, schedule.next, now, maxTransactions);
            || (CaughtUp(s, i, now, out) && |out.state.transactions| <= maxTransactions)
            || Paused(s, i, out)
  {
    var r := s.recurringRules[i];
    hide Sound, PostMissing, RuleShape, CaughtUp, IsDue, DueThrough;
    PostMissingCases(s, i, schedule, now, maxTransactions);
    if !Paused(s, i, PostMissing(s, r, schedule.due, schedule.next, now, maxTransactions)) {
      PostedIsCaughtUp(s, i, schedule, now, maxTransactions);
    }
  }

  ghost predicate HasRoomFor(s: BankState, r: RecurringRule, due: seq<Date>, maxTransactions: nat) {
    && |s.transactions| + |due| <= maxTransactions
    && (r.direction.Expense? ==> BalanceOf(s.transactions, r.accountId) >= r.amountMinor * |due|)
  }

  lemma {:induction false} PostMissingCases(s: BankState, i: nat, schedule: Schedule, now: Instant, maxTransactions: nat)
    requires i < |s.recurringRules|
    ensures var r := s.recurringRules[i];
            var out := PostMissing(s, r, schedule.due, schedule.next, now, maxTransactions);
            || Paused(s, i, out)
            || (&& HasRoomFor(s, r, schedule.due, maxTransactions)
                && AppendAll(s, r, schedule.due, now).Some?
                && out.warning.None?
                && out.state == AppendAll(s, r, schedule.due, now).value
                                 .(recurringRules := WithNext(AppendAll(s, r, schedule.due, now).value.recurringRules, r.id, schedule.next)))
  {
    hide AppendAll, BalanceOf, WithStatus, WithNext;
  }

  lemma {:induction false} RoomIsCanPostAll(s: BankState, i: nat, schedule: Schedule, now: Instant, maxTransactions: nat)
    requires Sound(s, now) && i < |s.recurringRules| && maxTransactions <= MAX_TRANSACTIONS
    requires RuleShape(s.recurringRules[i]) && IsDue(s.recurringRules[i], s.accounts, now.date)
    requires DueThrough(s.recurringRules[i].nextOccurrence, s.recurringRules[i].anchorDay, now.date, 120) == Some(schedule)
    requires HasRoomFor(s, s.recurringRules[i], schedule.due, maxTransactions)
    ensures CanPostAll(s, i, schedule.due, now) && schedule.due != [] && Before(now.date, schedule.next)
    ensures schedule.next == AtMonth(s.recurringRules[i], MonthIndex(s.recurringRules[i].nextOccurrence) + |schedule.due|).nextOccurrence
  {
    hide Sound, RuleShape, DueThrough, IsRunOf, MonthIndex, IsAllowedEffectiveDate, Before, AtMonth, BalanceOf, CanPostTo;
    ScheduleIsRun(s.recurringRules[i], now);
    OpenCheckingOf(s, s.recurringRules[i].accountId, now);
  }

  lemma {:induction false} PostedIsCaughtUp(s: BankState, i: nat, schedule: Schedule, now: Instant, maxTransactions: nat)
    requires Sound(s, now) && i < |s.recurringRules| && maxTransactions <= MAX_TRANSACTIONS
    requires RuleShape(s.recurringRules[i]) && IsDue(s.recurringRules[i], s.accounts, now.date)
    requires DueThrough(s.recurringRules[i].nextOccurrence, s.recurringRules[i].anchorDay, now.date, 120) == Some(schedule)
    requires HasRoomFor(s, s.recurringRules[i], schedule.due, maxTransactions)
    requires AppendAll(s, s.recurringRules[i], schedule.due, now).Some?
    ensures var r := s.recurringRules[i];
            var c := AppendAll(s, r, schedule.due, now).value;
            var out := RuleOutcome(c.(recurringRules := WithNext(c.recurringRules, r.id, schedule.next)), None);
            CaughtUp(s, i, now, out) && |out.state.transactions| <= maxTransactions
  {
    hide Sound, RuleShape, DueThrough, IsDue, PostedRun, AppendAll, CanPostAll, Before, MonthIndex, AtMonth, WithNext, BalanceOf;
    RoomIsCanPostAll(s, i, schedule, now, maxTransactions);
    PostAllKeepsSound(s, i, schedule.due, now);
    RunKeepsRules(s, i, schedule.due, now);
    PostedLength(s, i, schedule.due, now, AppendAll(s, s.recurringRules[i], schedule.due, now).value);
    NextOfRule(s, i, schedule.next, now);
  }

  lemma {:induction false} RunKeepsRules(s: BankState, i: nat, due: seq<Date>, now: Instant)
    requires i < |s.recurringRules| && AppendAll(s, s.recurringRules[i], due, now).Some?
    requires PostedRun(s, i, due, now, AppendAll(s, s.recurringRules[i], due, now).value)
    ensures var c := AppendAll(s, s.recurringRules[i], due, now).value;
            c.recurringRules == s.recurringRules && c.(recurringRules := s.recurringRules) == c
  {
    hide AppendAll, PostedRun;
    AppendAllKeepsRules(s, s.recurringRules[i], due, now);
  }

  lemma {:induction false} PostedLength(s: BankState, i: nat, due: seq<Date>, now: Instant, c: BankState)
    requires i < |s.recurringRules| && PostedRun(s, i, due, now, c)
    ensures |c.transactions| == |s.transactions| + |due|
  {
    hide Sound, OccurrenceRow, AtMonth, MonthIndex;
  }

  lemma {:induction false} NextOfRule(s: BankState, i: nat, next: Date, now: Instant)
    requires Sound(s, now) && i < |s.recurringRules|
    ensures WithNext(s.recurringRules, s.recurringRules[i].id, next)
            == s.recurringRules[i := s.recurringRules[i].(nextOccurrence := next)]
  {
    hide Sound;
    RuleIsUnique(s, i, now);
  }

  // ---------------------------------------------------------------- what one rule's turn keeps

  /** The state after any number of turns: more rows at the end of the ledger, rules with the same terms,
      the savings balances untouched, and everything else the same. */
  ghost predicate CaughtUpFrom(s: BankState, after: BankState) {
    && after == s.(transactions := after.transactions, nextSeq := after.nextSeq, recurringRules := after.recurringRules)
    && s.transactions <= after.transactions
    && after.nextSeq == s.nextSeq + (|after.transactions| - |s.transactions|)
    && SameTerms(s.recurringRules, after.recurringRules)
    && (forall j :: 0 <= j < |s.accounts| && !IsOpenChecking(s.accounts[j])
                    ==> BalanceOf(after.transactions, s.accounts[j].id) == BalanceOf(s.transactions, s.accounts[j].id))
  }

  lemma {:induction false} CaughtUpTwice(a: BankState, b: BankState, c: BankState)
    requires CaughtUpFrom(a, b) && CaughtUpFrom(b, c)
    ensures CaughtUpFrom(a, c)
  {
    hide BalanceOf, Terms;
  }

  lemma {:induction false} CaughtUpNot(s: BankState)
    ensures CaughtUpFrom(s, s)
  {
    hide BalanceOf, Terms;
  }

  lemma {:induction false} PausedKeeps(s: BankState, i: nat, now: Instant, out: RuleOutcome)
    requires Sound(s, now) && i < |s.recurringRules| && Paused(s, i, out)
    ensures Sound(out.state, now) && CaughtUpFrom(s, out.state)
    ensures out.state.transactions == s.transactions
    ensures out.state.recurringRules
            == s.recurringRules[i := s.recurringRules[i].(status := RulePaused, pauseReason := Some(out.warning.value.reason))]
  {
    hide Sound, BalanceOf;
    StatusKeepsSound(s, i, RulePaused, Some(out.warning.value.reason), now);
  }

  lemma {:induction false} CaughtUpKeeps(s: BankState, i: nat, now: Instant, out: RuleOutcome)
    requires Sound(s, now) && i < |s.recurringRules| && CaughtUp(s, i, now, out)
    requires forall j :: 0 <= j < |s.accounts| && s.accounts[j].id == s.recurringRules[i].accountId ==> IsOpenChecking(s.accounts[j])
    ensures Sound(out.state, now) && CaughtUpFrom(s, out.state)
  {
    hide Sound, BalanceOf, MonthIndex, DueThrough, OccurrenceRow, OccurrenceIn, Before;
    var r := s.recurringRules[i];
    var c := out.state.(recurringRules := s.recurringRules);
    var due := DueThrough(r.nextOccurrence, r.anchorDay, now.date, 120).value.due;
    assert PostedRun(s, i, due, now, c);
    assert out.state == c.(recurringRules := out.state.recurringRules);
    assert Terms(r) == Terms(out.state.recurringRules[i]);
  }

  /** One rule's turn keeps the state sound and leaves that rule, and every rule that was not due before,
      not due. */
  lemma {:induction false} TurnKeeps(s: BankState, i: nat, now: Instant, maxTransactions: nat)
    requires Sound(s, now) && i < |s.recurringRules| && maxTransactions <= MAX_TRANSACTIONS
    ensures var out := MaterializeRule(s, s.recurringRules[i].id, now, maxTransactions);
            && Sound(out.state, now) && CaughtUpFrom(s, out.state)
            && (|s.transactions| <= maxTransactions ==> |out.state.transactions| <= maxTransactions)
            && !IsDue(out.state.recurringRules[i], s.accounts, now.date)
            && (forall j :: 0 <= j < |s.recurringRules| && j != i ==> out.state.recurringRules[j] == s.recurringRules[j])
  {
    hide Sound, CatchUp, CaughtUp, Paused, CaughtUpFrom, RuleShape, CanPostTo, FindRule, AccountIds;
    var r := s.recurringRules[i];
    RuleFacts(s, i, now);
    var out := MaterializeRule(s, r.id, now, maxTransactions);
    if IsDue(r, s.accounts, now.date) {
      AllDueOrNone(s, i, now, maxTransactions);
      if Paused(s, i, out) {
        PausedKeeps(s, i, now, out);
      } else {
        OpenCheckingOf(s, r.accountId, now);
        CaughtUpKeeps(s, i, now, out);
        CaughtUpMoves(s, i, now, out);
      }
    } else {
      CaughtUpNot(s);
    }
  }

  lemma {:induction false} CaughtUpMoves(s: BankState, i: nat, now: Instant, out: RuleOutcome)
    requires i < |s.recurringRules| && CaughtUp(s, i, now, out)
    ensures |out.state.recurringRules| == |s.recurringRules|
    ensures Before(now.date, out.state.recurringRules[i].nextOccurrence)
    ensures forall j :: 0 <= j < |s.recurringRules| && j != i ==> out.state.recurringRules[j] == s.recurringRules[j]
  {
    hide PostedRun, DueThrough, AtMonth, Before;
  }

  // ---------------------------------------------------------------- the whole pass

  ghost predicate SameIds(originals: seq<RecurringRule>, rules: seq<RecurringRule>) {
    |originals| == |rules| && forall j :: 0 <= j < |rules| ==> originals[j].id == rules[j].id
  }

  ghost predicate NoneDueBefore(s: BankState, k: nat, today: Date) {
    forall j :: 0 <= j < |s.recurringRules| && j < k ==> !IsDue(s.recurringRules[j], s.accounts, today)
  }

  lemma {:induction false} PassKeeps(s: BankState, originals: seq<RecurringRule>, k: nat, now: Instant, maxTransactions: nat)
    requires Sound(s, now) && k <= |originals| && maxTransactions <= MAX_TRANSACTIONS
    requires SameIds(originals, s.recurringRules) && NoneDueBefore(s, k, now.date)
    ensures var m := MaterializeFrom(s, originals, k, now, maxTransactions);
            && Sound(m.state, now) && CaughtUpFrom(s, m.state)
            && (|s.transactions| <= maxTransactions ==> |m.state.transactions| <= maxTransactions)
            && NoneDueBefore(m.state, |originals|, now.date)
    decreases |originals| - k
  {
    hide Sound, MaterializeRule, CaughtUpFrom, IsDue;
    if k == |originals| {
      CaughtUpNot(s);
    } else {
      var one := MaterializeRule(s, originals[k].id, now, maxTransactions).state;
      TurnKeeps(s, k, now, maxTransactions);
      CaughtUpIds(s, one);
      PassKeeps(one, originals, k + 1, now, maxTransactions);
      CaughtUpTwice(s, one, MaterializeFrom(one, originals, k + 1, now, maxTransactions).state);
    }
  }

  lemma {:induction false} CaughtUpIds(s: BankState, after: BankState)
    requires CaughtUpFrom(s, after)
    ensures SameIds(s.recurringRules, after.recurringRules) && after.accounts == s.accounts
  {
    forall j | 0 <= j < |s.recurringRules|
      ensures s.recurringRules[j].id == after.recurringRules[j].id
    {
      assert Terms(s.recurringRules[j]) == Terms(after.recurringRules[j]);
    }
  }

  /** A pass over the rules keeps a sound state sound, only appends to the ledger, and leaves no rule due. */
  lemma {:induction false} MaterializeKeepsSound(s: BankState, now: Instant, maxTransactions: nat)
    requires Sound(s, now) && maxTransactions <= MAX_TRANSACTIONS
    ensures var m := MaterializeRecurring(s, now, maxTransactions);
            && Sound(m.state, now) && CaughtUpFrom(s, m.state)
            && (|s.transactions| <= maxTransactions ==> |m.state.transactions| <= maxTransactions)
            && NoneDueBefore(m.state, |m.state.recurringRules|, now.date)
  {
    hide Sound, MaterializeFrom, CaughtUpFrom;
    PassKeeps(s, s.recurringRules, 0, now, maxTransactions);
    CaughtUpIds(s, MaterializeRecurring(s, now, maxTransactions).state);
  }

  /** With no rule due a pass changes nothing and warns of nothing. */
  lemma {:induction false} NothingDueNothingDone(s: BankState, k: nat, later: Instant, maxTransactions: nat)
    requires UniqueRuleIds(s.recurringRules) && k <= |s.recurringRules|
    requires NoneDueBefore(s, |s.recurringRules|, later.date)
    ensures MaterializeFrom(s, s.recurringRules, k, later, maxTransactions) == Materialized(s, [])
    decreases |s.recurringRules| - k
  {
    if k < |s.recurringRules| {
      FindRuleIsUnique(s.recurringRules, k);
      hide IsDue, CatchUp;
      NothingDueNothingDone(s, k + 1, later, maxTransactions);
    }
  }

  lemma {:induction false} SameIdsSelf(rules: seq<RecurringRule>)
    ensures SameIds(rules, rules)
  {
  }

  lemma {:induction false} IdAt(originals: seq<RecurringRule>, rules: seq<RecurringRule>, k: nat)
    requires SameIds(originals, rules) && k < |originals|
    ensures |rules| == |originals| && originals[k].id == rules[k].id
  {
  }

  lemma {:induction false} SameIdsTwice(originals: seq<RecurringRule>, s: BankState, after: BankState)
    requires SameIds(originals, s.recurringRules) && CaughtUpFrom(s, after)
    ensures SameIds(originals, after.recurringRules)
  {
    CaughtUpIds(s, after);
  }
}
