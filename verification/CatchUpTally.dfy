/** What a pass over the recurring rules adds, computed from balances and schedules alone: the exact
    condition under which a due rule posts, and the number of rows that follow. No ledger is built. */
module CatchUpTally {
  import opened Arithmetic
  import opened Wrappers
  import opened Calendar
  import opened Currency
  import opened BankTypes
  import opened Ledger
  import opened BankValidity
  import opened Posting
  import opened Recurring
  import opened RecurringProofs
  import opened CatchUpProofs

  /** The figures of a ledger that a pass depends on. */
  datatype Books = Books(rows: nat, nextSeq: int, balances: map<string, int>)

  function BalanceIn(b: Books, id: string): int {
    if id in b.balances then b.balances[id] else 0
  }

  function BooksOf(s: BankState): Books {
    Books(|s.transactions|, s.nextSeq, map id | id in AccountIds(s.accounts) :: BalanceOf(s.transactions, id))
  }

  ghost predicate Agrees(b: Books, s: BankState) {
    && b.rows == |s.transactions| && b.nextSeq == s.nextSeq
    && forall id :: id in AccountIds(s.accounts) ==> BalanceIn(b, id) == BalanceOf(s.transactions, id)
  }

  /** What one occurrence of the rule adds to the balance. */
  function Effect(r: RecurringRule): int {
    if r.direction.Expense? then -r.amountMinor else r.amountMinor
  }

  /** So many occurrences fit: the rows, the sequence numbers, and the money. */
  predicate Fits(b: Books, r: RecurringRule, n: nat, maxTransactions: nat) {
    && b.rows + n <= maxTransactions
    && b.nextSeq + n <= MAX_SAFE
    && IsSafe(r.amountMinor * n)
    && if r.direction.Expense? then r.amountMinor * n <= BalanceIn(b, r.accountId)
       else BalanceIn(b, r.accountId) + r.amountMinor * n <= MAX_SAFE
  }

  function TallyRule(b: Books, r: RecurringRule, accounts: seq<Account>, today: Date, maxTransactions: nat): Books {
    if !IsDue(r, accounts, today) then b
    else match DueThrough(r.nextOccurrence, r.anchorDay, today, 120)
      case None => b
      case Some(schedule) =>
        var n := |schedule.due|;
        if !Fits(b, r, n, maxTransactions) then b
        else Books(b.rows + n, b.nextSeq + n, b.balances[r.accountId := BalanceIn(b, r.accountId) + Effect(r) * n])
  }

  function Tally(b: Books, rules: seq<RecurringRule>, accounts: seq<Account>, today: Date, maxTransactions: nat): Books
    decreases |rules|
  {
    if rules == [] then b
    else Tally(TallyRule(b, rules[0], accounts, today, maxTransactions), rules[1..], accounts, today, maxTransactions)
  }

  // ---------------------------------------------------------------- posting a run of dates

  /** The months of the dates grow, and none of them has a row yet. */
  ghost predicate AreFree(txs: seq<Transaction>, ruleId: string, dates: seq<Date>) {
    && (forall k :: 0 <= k < |dates| ==> !HasKey(txs, OccurrenceKey(ruleId, MonthIndex(dates[k]))))
    && (forall j, k :: 0 <= j < k < |dates| ==> MonthIndex(dates[j]) < MonthIndex(dates[k]))
  }

  lemma {:induction false} StillFree(txs: seq<Transaction>, t: Transaction, ruleId: string, dates: seq<Date>)
    requires dates != [] && AreFree(txs, ruleId, dates)
    requires t.row.occurrenceKey == Some(OccurrenceKey(ruleId, MonthIndex(dates[0])))
    ensures AreFree(txs + [t], ruleId, dates[1..])
  {
    hide MonthIndex;
  }

  lemma {:induction false} TimesOneMore(a: int, n: nat)
    requires n > 0
    ensures a * n == a + a * (n - 1)
  {
  }

  /** Between the first and the last of equal steps nothing leaves the safe range. */
  lemma {:induction false} StepsStaySafe(balance: int, a: int, n: nat)
    requires n > 0 && IsSafe(balance) && IsSafe(balance + a * n)
    ensures IsSafe(balance + a)
  {
    if a >= 0 {
      MultiplyKeepsOrder(1, n, a);
    } else {
      MultiplyKeepsOrder(1, n, -a);
      assert n * -a == -(a * n);
    }
  }

  ghost predicate HasRoomToPost(s: BankState, r: RecurringRule, n: nat) {
    s.nextSeq + n <= MAX_SAFE && IsSafe(BalanceOf(s.transactions, r.accountId) + Effect(r) * n)
  }

  lemma {:induction false} OccurrencePosts(s: BankState, r: RecurringRule, date: Date, now: Instant)
    requires !HasKey(s.transactions, OccurrenceKey(r.id, MonthIndex(date))) && 0 < s.nextSeq && 0 < r.amountMinor <= MAX_SAFE
    ensures AppendOccurrence(s, r, date, now) == AppendRow(s, OccurrenceRow(r, date, now))
    ensures OccurrenceRow(r, date, now).accountId == r.accountId && OccurrenceRow(r, date, now).amountMinor == Effect(r)
    ensures OccurrenceRow(r, date, now).occurrenceKey == Some(OccurrenceKey(r.id, MonthIndex(date)))
    ensures AppendRow(s, OccurrenceRow(r, date, now)).Some?
            <==> s.nextSeq < MAX_SAFE && IsSafe(BalanceOf(s.transactions, r.accountId) + Effect(r))
  {
    hide HasKey, BalanceOf, MonthIndex, TxId;
  }

  /** Free dates can be posted exactly when the sequence and the balance have room for all of them. */
  lemma {:induction false} PostsIffRoom(s: BankState, r: RecurringRule, dates: seq<Date>, now: Instant)
    requires 0 < s.nextSeq <= MAX_SAFE && 0 < r.amountMinor <= MAX_SAFE && IsSafe(BalanceOf(s.transactions, r.accountId))
    requires AreFree(s.transactions, r.id, dates)
    ensures AppendAll(s, r, dates, now).Some? <==> HasRoomToPost(s, r, |dates|)
    ensures AppendAll(s, r, dates, now).Some?
            ==> BalanceOf(AppendAll(s, r, dates, now).value.transactions, r.accountId)
                == BalanceOf(s.transactions, r.accountId) + Effect(r) * |dates|
    decreases |dates|
  {
    hide HasKey, BalanceOf, MonthIndex, AppendOccurrence, AppendRow, OccurrenceRow, AreFree, Effect;
    if dates != [] {
      var n, e := |dates|, Effect(r);
      var row := OccurrenceRow(r, dates[0], now);
      FirstIsFree(s.transactions, r.id, dates);
      OccurrencePosts(s, r, dates[0], now);
      TimesOneMore(e, n);
      if AppendRow(s, row).Some? {
        var next := AppendRow(s, row).value;
        AppendKeepsFrame(s, row);
        AppendedParts(s, row);
        StillFree(s.transactions, next.transactions[|s.transactions|], r.id, dates);
        PostsIffRoom(next, r, dates[1..], now);
      } else if HasRoomToPost(s, r, n) {
        StepsStaySafe(BalanceOf(s.transactions, r.accountId), e, n);
      }
    }
  }

  lemma {:induction false} FirstIsFree(txs: seq<Transaction>, ruleId: string, dates: seq<Date>)
    requires dates != [] && AreFree(txs, ruleId, dates)
    ensures !HasKey(txs, OccurrenceKey(ruleId, MonthIndex(dates[0])))
  {
    hide HasKey, MonthIndex;
  }

  // ---------------------------------------------------------------- one rule

  lemma {:induction false} RunIsFree(s: BankState, i: nat, due: seq<Date>, now: Instant)
    requires Sound(s, now) && i < |s.recurringRules| && IsRunOf(s.recurringRules[i], due)
    ensures AreFree(s.transactions, s.recurringRules[i].id, due)
  {
    hide Sound, HasKey, MonthIndex;
    var r := s.recurringRules[i];
    var m := MonthIndex(r.nextOccurrence);
    forall k | 0 <= k < |due|
      ensures MonthIndex(due[k]) == m + k && !HasKey(s.transactions, OccurrenceKey(r.id, MonthIndex(due[k])))
    {
      OccurrenceOrder(m + k, m + k, r.anchorDay);
      FutureKeyIsFree(s, i, m + k, now);
    }
  }

  lemma {:induction false} SequenceInRange(s: BankState, now: Instant)
    requires Sound(s, now)
    ensures 0 < s.nextSeq <= MAX_SAFE
  {
  }

  /** A due rule with this schedule posts when its occurrences fit, and is paused otherwise. */
  lemma {:induction false} PostsIffFits(s: BankState, b: Books, i: nat, schedule: Schedule, now: Instant, maxTransactions: nat)
    requires Sound(s, now) && Agrees(b, s) && i < |s.recurringRules|
    requires RuleShape(s.recurringRules[i]) && IsRunOf(s.recurringRules[i], schedule.due)
    requires s.recurringRules[i].accountId in AccountIds(s.accounts)
    ensures var r := s.recurringRules[i];
            PostMissing(s, r, schedule.due, schedule.next, now, maxTransactions).warning.None?
            <==> Fits(b, r, |schedule.due|, maxTransactions)
    ensures var r := s.recurringRules[i];
            Fits(b, r, |schedule.due|, maxTransactions)
            ==> BalanceOf(PostMissing(s, r, schedule.due, schedule.next, now, maxTransactions).state.transactions, r.accountId)
                == BalanceOf(s.transactions, r.accountId) + Effect(r) * |schedule.due|
  {
    hide Sound, AppendAll, BalanceOf, IsRunOf, AreFree, AccountIds, MonthIndex, WithNext, WithStatus, IsAnchored, IsRuleId;
    var r, n := s.recurringRules[i], |schedule.due|;
    SequenceInRange(s, now);
    BalanceIsNatural(s, r.accountId, now);
    RunIsFree(s, i, schedule.due, now);
    PostsIffRoom(s, r, schedule.due, now);
    ProductIsNatural(r.amountMinor, n);
    assert Effect(r) * n == if r.direction.Expense? then -(r.amountMinor * n) else r.amountMinor * n;
  }

  lemma {:induction false} DueIsScheduled(s: BankState, i: nat, now: Instant, maxTransactions: nat)
    requires Sound(s, now) && i < |s.recurringRules| && IsDue(s.recurringRules[i], s.accounts, now.date)
    requires RuleShape(s.recurringRules[i])
    ensures var r := s.recurringRules[i];
            match DueThrough(r.nextOccurrence, r.anchorDay, now.date, 120)
            case None => CatchUp(s, r, now, maxTransactions).warning.Some?
            case Some(schedule) =>
              && IsRunOf(r, schedule.due)
              && CatchUp(s, r, now, maxTransactions) == PostMissing(s, r, schedule.due, schedule.next, now, maxTransactions)
  {
    hide Sound, DueThrough, RuleShape, MissingDue, PostMissing, IsDue, MonthIndex, Before, IsRunOf, AtMonth,
      IsAllowedEffectiveDate, WithStatus;
    var r := s.recurringRules[i];
    var schedule := DueThrough(r.nextOccurrence, r.anchorDay, now.date, 120);
    if schedule.Some? {
      ScheduleIsRun(r, now);
      RunMonths(r, schedule.value.due);
      NothingIsDropped(s, i, schedule.value.due, now);
    }
  }

  lemma {:induction false} PausedAgrees(b: Books, s: BankState, i: nat, out: RuleOutcome)
    requires Agrees(b, s) && i < |s.recurringRules| && Paused(s, i, out)
    ensures Agrees(b, out.state) && out.warning.Some?
  {
    hide BalanceOf, WithStatus, AccountIds;
  }

  lemma {:induction false} PostedAgrees(b: Books, s: BankState, i: nat, schedule: Schedule, now: Instant, out: RuleOutcome)
    requires Agrees(b, s) && i < |s.recurringRules| && CaughtUp(s, i, now, out)
    requires var r := s.recurringRules[i];
             && DueThrough(r.nextOccurrence, r.anchorDay, now.date, 120) == Some(schedule)
             && r.accountId in AccountIds(s.accounts)
             && BalanceOf(out.state.transactions, r.accountId) == BalanceOf(s.transactions, r.accountId) + Effect(r) * |schedule.due|
    ensures var r, n := s.recurringRules[i], |schedule.due|;
            Agrees(Books(b.rows + n, b.nextSeq + n, b.balances[r.accountId := BalanceIn(b, r.accountId) + Effect(r) * n]), out.state)
    ensures out.warning.None? && out.state.accounts == s.accounts
  {
    hide Sound, BalanceOf, DueThrough, AccountIds, OccurrenceRow, AtMonth, MonthIndex, Before, Effect;
    var r := s.recurringRules[i];
    var c := out.state.(recurringRules := s.recurringRules);
    assert Extends(s, c, |schedule.due|) && SameBalancesBut(s, c, r.accountId);
  }

  lemma {:induction false} TallyIs(b: Books, r: RecurringRule, accounts: seq<Account>, today: Date, maxTransactions: nat)
    ensures TallyRule(b, r, accounts, today, maxTransactions)
            == if !IsDue(r, accounts, today) then b
               else match DueThrough(r.nextOccurrence, r.anchorDay, today, 120)
                 case None => b
                 case Some(schedule) =>
                   var n := |schedule.due|;
                   if !Fits(b, r, n, maxTransactions) then b
                   else Books(b.rows + n, b.nextSeq + n, b.balances[r.accountId := BalanceIn(b, r.accountId) + Effect(r) * n])
  {
    hide IsDue, DueThrough, Fits, Effect, BalanceIn;
  }

  /** One rule's turn does to the ledger what the tally does to its figures. */
  lemma {:induction false} TurnAgrees(s: BankState, b: Books, i: nat, now: Instant, maxTransactions: nat)
    requires Sound(s, now) && Agrees(b, s) && i < |s.recurringRules| && maxTransactions <= MAX_TRANSACTIONS
    ensures Agrees(TallyRule(b, s.recurringRules[i], s.accounts, now.date, maxTransactions),
                   MaterializeRule(s, s.recurringRules[i].id, now, maxTransactions).state)
  {
    hide Sound, DueThrough, RuleShape, PostMissing, IsDue, IsRunOf, Agrees, Fits, CaughtUp, Paused, CatchUp, AccountIds, FindRule,
      BalanceOf, Effect, BalanceIn, TallyRule;
    var r := s.recurringRules[i];
    RuleFacts(s, i, now);
    TallyIs(b, r, s.accounts, now.date, maxTransactions);
    if IsDue(r, s.accounts, now.date) {
      var out := CatchUp(s, r, now, maxTransactions);
      DueIsScheduled(s, i, now, maxTransactions);
      AllDueOrNone(s, i, now, maxTransactions);
      if Paused(s, i, out) {
        PausedAgrees(b, s, i, out);
      }
      var schedule := DueThrough(r.nextOccurrence, r.anchorDay, now.date, 120);
      if schedule.Some? {
        PostsIffFits(s, b, i, schedule.value, now, maxTransactions);
        if CaughtUp(s, i, now, out) && Fits(b, r, |schedule.value.due|, maxTransactions) {
          PostedAgrees(b, s, i, schedule.value, now, out);
        }
        if CaughtUp(s, i, now, out) {
          CaughtUpIsSilent(s, i, now, out);
        }
      } else if CaughtUp(s, i, now, out) {
        CaughtUpIsSilent(s, i, now, out);
      }
    }
  }

  lemma {:induction false} CaughtUpIsSilent(s: BankState, i: nat, now: Instant, out: RuleOutcome)
    requires i < |s.recurringRules| && CaughtUp(s, i, now, out)
    ensures out.warning.None?
  {
    hide PostedRun, DueThrough, AtMonth, Before;
  }

  // ---------------------------------------------------------------- the whole pass

  ghost predicate SameRest(originals: seq<RecurringRule>, rules: seq<RecurringRule>, k: nat) {
    |originals| == |rules| && forall j :: k <= j < |rules| ==> originals[j] == rules[j]
  }

  lemma {:induction false} PassAgrees(s: BankState, b: Books, originals: seq<RecurringRule>, k: nat, now: Instant, maxTransactions: nat)
    requires Sound(s, now) && Agrees(b, s) && k <= |originals| && maxTransactions <= MAX_TRANSACTIONS
    requires SameRest(originals, s.recurringRules, k)
    ensures Agrees(Tally(b, originals[k..], s.accounts, now.date, maxTransactions),
                   MaterializeFrom(s, originals, k, now, maxTransactions).state)
    decreases |originals| - k
  {
    hide Sound, Agrees, MaterializeRule, CaughtUpFrom, IsDue, TallyRule;
    if k < |originals| {
      var one := MaterializeRule(s, originals[k].id, now, maxTransactions).state;
      TurnKeeps(s, k, now, maxTransactions);
      CaughtUpIds(s, one);
      TurnAgrees(s, b, k, now, maxTransactions);
      assert originals[k..][0] == originals[k] && originals[k..][1..] == originals[k + 1..];
      PassAgrees(one, TallyRule(b, originals[k], s.accounts, now.date, maxTransactions), originals, k + 1, now, maxTransactions);
    }
  }

  lemma {:induction false} BooksAgree(s: BankState)
    ensures Agrees(BooksOf(s), s)
  {
    hide BalanceOf, AccountIds;
  }

  /** A pass adds the rows, takes the sequence numbers and leaves the balances that the tally computes from
      the balances before it, the terms of the rules and the calendar. */
  lemma {:induction false} TallyIsExact(s: BankState, now: Instant, maxTransactions: nat)
    requires Sound(s, now) && maxTransactions <= MAX_TRANSACTIONS
    ensures Agrees(Tally(BooksOf(s), s.recurringRules, s.accounts, now.date, maxTransactions),
                   MaterializeRecurring(s, now, maxTransactions).state)
  {
    hide Sound, Agrees, MaterializeFrom, BooksOf, Tally;
    BooksAgree(s);
    assert s.recurringRules[0..] == s.recurringRules;
    PassAgrees(s, BooksOf(s), s.recurringRules, 0, now, maxTransactions);
  }
}
