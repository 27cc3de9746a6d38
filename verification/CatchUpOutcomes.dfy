/** What catching up comes to for a rule, case by case: the rows that it posts, or the reason for which it is
    paused and warned about. */
module CatchUpOutcomes {
  import opened Arithmetic
  import opened Wrappers
  import opened Calendar
  import opened Currency
  import opened BankTypes
  import opened Ledger
  import opened Interest
  import opened BankValidity
  import opened Posting
  import opened Recurring
  import opened RecurringProofs
  import opened CatchUpProofs
  import opened CatchUpTally
  import opened CommandTerms
  import opened CreationOutcomes

  /** An active rule whose next occurrence has come, on an open checking account. */
  lemma {:induction false} DueExactly(s: BankState, i: nat, now: Instant)
    requires Sound(s, now) && i < |s.recurringRules|
    ensures var r := s.recurringRules[i];
            IsDue(r, s.accounts, now.date)
            <==> r.status.RuleActive? && AtMost(r.nextOccurrence, now.date)
                 && exists j: nat :: IsAccount(s, r.accountId, j) && s.accounts[j].status.Open? && s.accounts[j].kind.Checking?
  {
    hide Sound, FindAccount, Before;
    var id := s.recurringRules[i].accountId;
    FindsNoAccount(s, id);
    var found := FindAccount(s.accounts, id);
    if found.Some? {
      assert IsAccount(s, id, found.value);
      AccountIsUnique(s, found.value, now);
    }
  }

  /** The state with one row for each date at the end of the ledger and the rule moved past them. */
  ghost predicate CatchesUp(s: BankState, after: BankState, i: nat, schedule: Schedule, now: Instant)
    requires i < |s.recurringRules|
  {
    var r, due := s.recurringRules[i], schedule.due;
    && after == s.(transactions := after.transactions, nextSeq := s.nextSeq + |due|,
                   recurringRules := s.recurringRules[i := r.(nextOccurrence := schedule.next)])
    && |after.transactions| == |s.transactions| + |due| && s.transactions <= after.transactions
    && forall k :: 0 <= k < |due| ==> after.transactions[|s.transactions| + k].row == RowFor(r, due[k], now)
  }

  /** The rule is paused for this reason, with that warning, and nothing else changes. */
  ghost predicate StopsFor(s: BankState, i: nat, out: RuleOutcome, reason: PauseReason, available: Option<int>, required: Option<int>)
    requires i < |s.recurringRules|
  {
    var r := s.recurringRules[i];
    && out.state == s.(recurringRules := s.recurringRules[i := r.(status := RulePaused, pauseReason := Some(reason))])
    && out.warning == Some(Warning(r.id, reason, available, required))
  }

  /** Too many dates or rows: capacity. Too large a total, or no room in sequence or balance: overflow. Too little
      money: insufficient funds, with the amounts. Otherwise all dates are posted. */
  ghost predicate TurnsOutAs(s: BankState, i: nat, now: Instant, maxTransactions: nat, out: RuleOutcome)
    requires i < |s.recurringRules|
  {
    var r := s.recurringRules[i];
    var balance := BalanceOf(s.transactions, r.accountId);
    match DueThrough(r.nextOccurrence, r.anchorDay, now.date, 120)
    case None => StopsFor(s, i, out, Capacity, None, None)
    case Some(schedule) =>
      var n, total := |schedule.due|, r.amountMinor * |schedule.due|;
      if |s.transactions| + n > maxTransactions then StopsFor(s, i, out, Capacity, None, None)
      else if total > MAX_SAFE then StopsFor(s, i, out, Overflow, None, None)
      else if r.direction.Expense? && total > balance then StopsFor(s, i, out, InsufficientFunds, Some(balance), Some(total))
      else if s.nextSeq + n > MAX_SAFE || balance + SignedFor(r.direction, total) > MAX_SAFE then StopsFor(s, i, out, Overflow, None, None)
      else out.warning.None? && CatchesUp(s, out.state, i, schedule, now)
  }

  lemma {:induction false} CaughtUpRows(s: BankState, i: nat, schedule: Schedule, now: Instant, out: RuleOutcome)
    requires i < |s.recurringRules| && CaughtUp(s, i, now, out)
    requires DueThrough(s.recurringRules[i].nextOccurrence, s.recurringRules[i].anchorDay, now.date, 120) == Some(schedule)
    ensures out.warning.None? && CatchesUp(s, out.state, i, schedule, now)
  {
    hide Sound, AtMonth, MonthIndex, OccurrenceRow, BalanceOf, RowFor, DueThrough, Before;
    var r, due := s.recurringRules[i], schedule.due;
    var c := out.state.(recurringRules := s.recurringRules);
    assert Extends(s, c, |due|);
    forall k | 0 <= k < |due|
      ensures out.state.transactions[|s.transactions| + k].row == RowFor(r, due[k], now)
    {
      assert c.transactions[|s.transactions| + k].row == OccurrenceRow(r, due[k], now);
      RowIs(r, due[k], now);
    }
  }

  lemma {:induction false} PausedIs(s: BankState, i: nat, reason: PauseReason, now: Instant)
    requires Sound(s, now) && i < |s.recurringRules| && IsCatchUpReason(reason)
    ensures PauseRule(s, s.recurringRules[i].id, reason)
            == s.(recurringRules := s.recurringRules[i := s.recurringRules[i].(status := RulePaused, pauseReason := Some(reason))])
  {
    hide Sound;
    StatusKeepsSound(s, i, RulePaused, Some(reason), now);
  }

  lemma {:induction false} MissingCases(s: BankState, r: RecurringRule, due: seq<Date>, next: Date, now: Instant, maxTransactions: nat)
    ensures var out := PostMissing(s, r, due, next, now, maxTransactions);
            var total, balance := r.amountMinor * |due|, BalanceOf(s.transactions, r.accountId);
            if |s.transactions| + |due| > maxTransactions then out == PausedOutcome(s, r.id, Capacity)
            else if !IsSafe(total) then out == PausedOutcome(s, r.id, Overflow)
            else if r.direction.Expense? && total > balance then
              out == RuleOutcome(PauseRule(s, r.id, InsufficientFunds), Some(Warning(r.id, InsufficientFunds, Some(balance), Some(total))))
            else out.warning.None? || out == PausedOutcome(s, r.id, Overflow)
  {
    hide AppendAll, BalanceOf, WithNext, WithStatus;
  }

  lemma {:induction false} FitsIs(s: BankState, b: Books, r: RecurringRule, n: nat, maxTransactions: nat)
    requires Agrees(b, s) && r.accountId in AccountIds(s.accounts)
    ensures Fits(b, r, n, maxTransactions)
            <==> && |s.transactions| + n <= maxTransactions && s.nextSeq + n <= MAX_SAFE && IsSafe(r.amountMinor * n)
                 && if r.direction.Expense? then r.amountMinor * n <= BalanceOf(s.transactions, r.accountId)
                    else BalanceOf(s.transactions, r.accountId) + r.amountMinor * n <= MAX_SAFE
  {
    hide BalanceOf, AccountIds;
  }

  /** What a due rule's turn comes to. */
  lemma {:induction false} TurnOutcome(s: BankState, i: nat, now: Instant, maxTransactions: nat)
    requires Sound(s, now) && i < |s.recurringRules| && maxTransactions <= MAX_TRANSACTIONS
    requires IsDue(s.recurringRules[i], s.accounts, now.date)
    ensures TurnsOutAs(s, i, now, maxTransactions, MaterializeRule(s, s.recurringRules[i].id, now, maxTransactions))
  {
    hide Sound, DueThrough, RuleShape, PostMissing, IsDue, IsRunOf, Agrees, Fits, CaughtUp, Paused, CatchUp, AccountIds, FindRule,
      BalanceOf, PauseRule, CatchesUp;
    var r := s.recurringRules[i];
    RuleFacts(s, i, now);
    BooksAgree(s);
    var out := CatchUp(s, r, now, maxTransactions);
    DueIsScheduled(s, i, now, maxTransactions);
    AllDueOrNone(s, i, now, maxTransactions);
    PausedIs(s, i, Capacity, now);
    PausedIs(s, i, Overflow, now);
    PausedIs(s, i, InsufficientFunds, now);
    var schedule := DueThrough(r.nextOccurrence, r.anchorDay, now.date, 120);
    if schedule.Some? {
      MissingCases(s, r, schedule.value.due, schedule.value.next, now, maxTransactions);
      PostsIffFits(s, BooksOf(s), i, schedule.value, now, maxTransactions);
      FitsIs(s, BooksOf(s), r, |schedule.value.due|, maxTransactions);
      BalanceIsNatural(s, r.accountId, now);
      ProductIsNatural(r.amountMinor, |schedule.value.due|);
      SequenceInRange(s, now);
      if out.warning.None? {
        NotPaused(s, i, out);
        CaughtUpRows(s, i, schedule.value, now, out);
      }
    } else {
      NoSchedulePauses(s, i, now, maxTransactions);
    }
  }

  lemma {:induction false} NotPaused(s: BankState, i: nat, out: RuleOutcome)
    requires i < |s.recurringRules| && out.warning.None?
    ensures !Paused(s, i, out)
  {
    hide WithStatus;
  }

  lemma {:induction false} NoSchedulePauses(s: BankState, i: nat, now: Instant, maxTransactions: nat)
    requires i < |s.recurringRules|
    requires DueThrough(s.recurringRules[i].nextOccurrence, s.recurringRules[i].anchorDay, now.date, 120).None?
    ensures CatchUp(s, s.recurringRules[i], now, maxTransactions) == PausedOutcome(s, s.recurringRules[i].id, Capacity)
  {
    hide DueThrough, PostMissing, MissingDue;
  }
}
