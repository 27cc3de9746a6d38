/** One rule at a time: changing its status and posting its next occurrences keep the invariant. */
module RecurringProofs {
  import opened Arithmetic
  import opened Wrappers
  import opened Calendar
  import opened Currency
  import opened BankTypes
  import opened Ledger
  import opened BankValidity
  import opened Posting
  import opened Recurring

  // ---------------------------------------------------------------- updating one rule

  /** The terms of a rule never change; only its status and its next occurrence do. */
  function Terms(r: RecurringRule): RecurringRule {
    r.(status := RuleActive, pauseReason := None, nextOccurrence := r.startsOn)
  }

  ghost predicate SameTerms(before: seq<RecurringRule>, after: seq<RecurringRule>) {
    && |before| == |after|
    && forall i :: 0 <= i < |before| ==> Terms(before[i]) == Terms(after[i])
  }

  lemma {:induction false} FindRuleIsUnique(rules: seq<RecurringRule>, i: nat)
    requires UniqueRuleIds(rules) && i < |rules|
    ensures FindRule(rules, rules[i].id) == Some(i)
  {
  }

  lemma {:induction false} TermsKeepLinks(txs: seq<Transaction>, before: seq<RecurringRule>, after: seq<RecurringRule>)
    requires SameTerms(before, after) && RowsLinked(txs, before)
    ensures RowsLinked(txs, after)
  {
    forall i | 0 <= i < |before|
      ensures before[i].id == after[i].id
    {
      assert Terms(before[i]) == Terms(after[i]);
    }
    forall i, j | 0 <= i < |txs| && 0 <= j < |after| && txs[i].row.recurringRuleId == Some(after[j].id)
      ensures RowMatchesRule(txs[i].row, after[j])
    {
      assert Terms(before[j]) == Terms(after[j]);
      assert RowMatchesRule(txs[i].row, before[j]);
    }
  }

  lemma {:induction false} RuleUpdateKeepsRules(rules: seq<RecurringRule>, i: nat, r: RecurringRule, now: Instant)
    requires RulesValid(rules, now) && i < |rules|
    requires Terms(r) == Terms(rules[i]) && RuleShape(r)
    ensures RulesValid(rules[i := r], now)
    ensures SameTerms(rules, rules[i := r])
  {
    hide RuleShape;
    TermsKeepTimes(rules[i], r, now);
    hide RuleTimes;
    assert Terms(r).id == r.id && Terms(rules[i]).id == rules[i].id;
  }

  lemma {:induction false} TermsKeepTimes(a: RecurringRule, b: RecurringRule, now: Instant)
    requires Terms(a) == Terms(b)
    ensures RuleTimes(a, now) == RuleTimes(b, now)
  {
    hide IsAllowedEffectiveDate, DueThrough, MonthIndex;
    assert Terms(a).startsOn == a.startsOn && Terms(b).startsOn == b.startsOn;
    assert Terms(a).anchorDay == a.anchorDay && Terms(b).anchorDay == b.anchorDay;
    assert Terms(a).createdAt == a.createdAt && Terms(b).createdAt == b.createdAt;
  }

  lemma {:induction false} RuleUpdateKeepsFit(rules: seq<RecurringRule>, i: nat, r: RecurringRule, accounts: seq<Account>)
    requires RulesFit(rules, accounts) && i < |rules|
    requires r.accountId == rules[i].accountId
    requires forall j :: 0 <= j < |accounts| && accounts[j].id == r.accountId ==> RuleFits(r, accounts[j])
    ensures RulesFit(rules[i := r], accounts)
  {
    hide RuleFits, AccountIds;
  }

  lemma {:induction false} StatusKeepsContinuous(txs: seq<Transaction>, rules: seq<RecurringRule>, i: nat, r: RecurringRule)
    requires RulesContinuous(txs, rules) && i < |rules|
    requires Terms(r) == Terms(rules[i]) && r.nextOccurrence == rules[i].nextOccurrence
    ensures RulesContinuous(txs, rules[i := r])
  {
    hide OnAnchorDay, MonthsPosted, Months;
    assert Terms(r).id == r.id && Terms(rules[i]).id == rules[i].id;
    assert Terms(r).anchorDay == r.anchorDay && Terms(rules[i]).anchorDay == rules[i].anchorDay;
    assert Terms(r).startsOn == r.startsOn && Terms(rules[i]).startsOn == rules[i].startsOn;
    var after := rules[i := r];
    forall j | 0 <= j < |after|
      ensures RuleContinuous(txs, after[j])
    {
      assert RuleContinuous(txs, rules[j]);
    }
  }

  ghost predicate AccountOpen(accounts: seq<Account>, id: string) {
    forall j :: 0 <= j < |accounts| && accounts[j].id == id ==> accounts[j].status.Open?
  }

  /** A status change that agrees with the account keeps the state sound. */
  lemma {:induction false} StatusKeepsSound(s: BankState, i: nat, status: RuleStatus, reason: Option<PauseReason>, now: Instant)
    requires Sound(s, now) && i < |s.recurringRules|
    requires status.RuleActive? <==> reason.None?
    requires reason != Some(PausedByClosing)
    requires status.RuleActive? ==> AccountOpen(s.accounts, s.recurringRules[i].accountId)
    ensures Sound(s.(recurringRules := WithStatus(s.recurringRules, s.recurringRules[i].id, status, reason)), now)
    ensures WithStatus(s.recurringRules, s.recurringRules[i].id, status, reason)
            == s.recurringRules[i := s.recurringRules[i].(status := status, pauseReason := reason)]
  {
    var rules := s.recurringRules;
    var r := rules[i].(status := status, pauseReason := reason);
    assert UniqueRuleIds(rules) && RuleShape(rules[i]) && RulesFit(rules, s.accounts);
    hide AccountsValid, RowsValid, NextSeqValid, PostedWithin, ClosedAtZero, TransfersPaired, RulesValid,
      RowsLinked, RulesContinuous, CardsValid, ContactsValid, RatesValid, RecentIdsValid, Sound;
    assert WithStatus(rules, rules[i].id, status, reason) == rules[i := r];
    assert RuleShape(r) by { StatusKeepsShape(rules[i], status, reason); }
    hide RuleShape;
    assert forall j :: 0 <= j < |s.accounts| && s.accounts[j].id == r.accountId ==> RuleFits(r, s.accounts[j]) by {
      forall j | 0 <= j < |s.accounts| && s.accounts[j].id == r.accountId
        ensures RuleFits(r, s.accounts[j])
      {
        assert RuleFits(rules[i], s.accounts[j]);
      }
    }
    RulesReplaced(s, i, r, now);
  }

  lemma {:induction false} StatusKeepsShape(r: RecurringRule, status: RuleStatus, reason: Option<PauseReason>)
    requires RuleShape(r) && (status.RuleActive? <==> reason.None?)
    ensures RuleShape(r.(status := status, pauseReason := reason))
  {
    hide IsAnchored, MonthIndex, IsRuleId;
  }

  lemma {:induction false} RulesReplaced(s: BankState, i: nat, r: RecurringRule, now: Instant)
    requires Sound(s, now) && i < |s.recurringRules|
    requires Terms(r) == Terms(s.recurringRules[i]) && RuleShape(r)
    requires r.nextOccurrence == s.recurringRules[i].nextOccurrence
    requires forall j :: 0 <= j < |s.accounts| && s.accounts[j].id == r.accountId ==> RuleFits(r, s.accounts[j])
    ensures Sound(s.(recurringRules := s.recurringRules[i := r]), now)
  {
    hide AccountsValid, RowsValid, NextSeqValid, PostedWithin, ClosedAtZero, TransfersPaired, RulesValid, RulesFit,
      RowsLinked, RulesContinuous, CardsValid, ContactsValid, RatesValid, RecentIdsValid, RuleShape, RuleFits;
    var rules := s.recurringRules;
    assert Terms(r).accountId == r.accountId && Terms(rules[i]).accountId == rules[i].accountId;
    RuleUpdateKeepsRules(rules, i, r, now);
    RuleUpdateKeepsFit(rules, i, r, s.accounts);
    TermsKeepLinks(s.transactions, rules, rules[i := r]);
    StatusKeepsContinuous(s.transactions, rules, i, r);
  }

  // ---------------------------------------------------------------- posting one occurrence

  /** The rows of a rule lie before its next occurrence. */
  lemma {:induction false} RowKeyBelowNext(txs: seq<Transaction>, rules: seq<RecurringRule>, i: nat, k: nat)
    requires RowsLinked(txs, rules) && i < |rules| && RuleContinuous(txs, rules[i]) && k < |txs|
    requires DraftShape(txs[k].row) && txs[k].row.occurrenceKey.Some?
    requires txs[k].row.occurrenceKey.value.ruleId == rules[i].id
    ensures txs[k].row.occurrenceKey.value.month < MonthIndex(rules[i].nextOccurrence)
  {
    KeyHasRule(txs[k].row);
    hide DraftShape, OnAnchorDay, MonthIndex;
    var j :| 0 <= j < |rules| && rules[j].id == txs[k].row.recurringRuleId.value;
    assert RowMatchesRule(txs[k].row, rules[j]);
    assert IsRowOf(txs[k].row, rules[i].id);
    assert MonthIndex(txs[k].row.effectiveDate.value) in MonthsPosted(txs, rules[i].id);
  }

  /** A month from the rule's next occurrence on has no row yet. */
  lemma {:induction false} FutureKeyIsFree(s: BankState, i: nat, month: int, now: Instant)
    requires Sound(s, now) && i < |s.recurringRules|
    requires MonthIndex(s.recurringRules[i].nextOccurrence) <= month
    ensures !HasKey(s.transactions, OccurrenceKey(s.recurringRules[i].id, month))
  {
    var txs, rules := s.transactions, s.recurringRules;
    ShapesOf(s, now);
    assert RowsLinked(txs, rules) && RuleContinuous(txs, rules[i]);
    hide Sound, DraftShape, RowsLinked, RuleContinuous, MonthIndex;
    forall k | 0 <= k < |txs| && txs[k].row.occurrenceKey.Some? && txs[k].row.occurrenceKey.value.ruleId == rules[i].id
      ensures txs[k].row.occurrenceKey.value.month < MonthIndex(rules[i].nextOccurrence)
    {
      RowKeyBelowNext(txs, rules, i, k);
    }
  }

  lemma {:induction false} ShapesOf(s: BankState, now: Instant)
    requires Sound(s, now)
    ensures forall k :: 0 <= k < |s.transactions| ==> DraftShape(s.transactions[k].row)
  {
    hide DraftShape;
    forall k | 0 <= k < |s.transactions|
      ensures DraftShape(s.transactions[k].row)
    {
      assert RowShape(s.transactions[k]);
    }
  }

  lemma {:induction false} KeyHasRule(d: Draft)
    requires DraftShape(d) && d.occurrenceKey.Some?
    ensures d.recurringRuleId.Some?
  {
  }

  /** The date that a rule posts next may be posted now. */
  ghost predicate MayPost(s: BankState, i: nat, now: Instant)
    requires i < |s.recurringRules|
  {
    var r := s.recurringRules[i];
    && |s.transactions| < MAX_TRANSACTIONS
    && IsAllowedEffectiveDate(r.nextOccurrence, now)
    && (forall j :: 0 <= j < |s.accounts| && s.accounts[j].id == r.accountId ==> IsOpenChecking(s.accounts[j]))
    && (r.direction.Expense? ==> BalanceOf(s.transactions, r.accountId) >= r.amountMinor)
    && MonthIndex(r.nextOccurrence) + 1 < MONTH_LIMIT
  }

  lemma {:induction false} OccurrencePostable(s: BankState, i: nat, now: Instant)
    requires Sound(s, now) && i < |s.recurringRules| && MayPost(s, i, now)
    ensures var r := s.recurringRules[i]; Postable(s, OccurrenceRow(r, r.nextOccurrence, now), now)
  {
    var r := s.recurringRules[i];
    var d := OccurrenceRow(r, r.nextOccurrence, now);
    FutureKeyIsFree(s, i, MonthIndex(r.nextOccurrence), now);
    RuleFacts(s, i, now);
    BalanceIsNatural(s, r.accountId, now);
    AccountsCreated(s, now);
    OccurrenceShape(r, r.nextOccurrence, now);
    hide Sound, BalanceOf, IsAllowedEffectiveDate, AccountIds, NotAfter, MonthIndex, RuleShape, DraftShape, DraftTimes, RowFits;
    forall j | 0 <= j < |s.accounts| && s.accounts[j].id == d.accountId
      ensures s.accounts[j].status.Open? && RowFits(d, s.accounts[j], now)
    {
      OccurrenceFits(r, s.accounts[j], now);
    }
  }

  lemma {:induction false} OccurrenceShape(r: RecurringRule, date: Date, now: Instant)
    requires RuleShape(r)
    ensures DraftShape(OccurrenceRow(r, date, now)) && DraftTimes(OccurrenceRow(r, date, now), now)
  {
    hide IsAnchored, IsRuleId, MonthIndex;
    ThisInstant(now);
  }

  lemma {:induction false} OccurrenceFits(r: RecurringRule, a: Account, now: Instant)
    requires IsAllowedEffectiveDate(r.nextOccurrence, now) && IsOpenChecking(a) && NotAfter(a.createdAt, now)
    ensures RowFits(OccurrenceRow(r, r.nextOccurrence, now), a, now)
  {
    AllowedIsNotLater(r.nextOccurrence, now);
  }

  lemma {:induction false} AllowedIsNotLater(d: CalendarDate, now: Instant)
    requires IsAllowedEffectiveDate(d, now)
    ensures AtMost(d, now.date)
  {
  }

  lemma {:induction false} AccountsCreated(s: BankState, now: Instant)
    requires Sound(s, now)
    ensures forall j :: 0 <= j < |s.accounts| ==> NotAfter(s.accounts[j].createdAt, now)
  {
    hide NotAfter;
    forall j | 0 <= j < |s.accounts|
      ensures NotAfter(s.accounts[j].createdAt, now)
    {
      assert AccountTimes(s.accounts[j], now);
    }
  }

  lemma {:induction false} RuleFacts(s: BankState, i: nat, now: Instant)
    requires Sound(s, now) && i < |s.recurringRules|
    ensures RuleShape(s.recurringRules[i])
    ensures s.recurringRules[i].accountId in AccountIds(s.accounts)
    ensures FindRule(s.recurringRules, s.recurringRules[i].id) == Some(i)
    ensures 0 < s.recurringRules[i].amountMinor <= MAX_SAFE
  {
    FindRuleIsUnique(s.recurringRules, i);
  }

  function Advanced(r: RecurringRule): RecurringRule
    requires RuleShape(r) && MonthIndex(r.nextOccurrence) + 1 < MONTH_LIMIT
  {
    AnchoredIsOccurrence(r.nextOccurrence, r.anchorDay);
    r.(nextOccurrence := OccurrenceIn(MonthIndex(r.nextOccurrence) + 1, r.anchorDay))
  }

  lemma {:induction false} AdvanceKeepsShape(r: RecurringRule)
    requires RuleShape(r) && MonthIndex(r.nextOccurrence) + 1 < MONTH_LIMIT
    ensures RuleShape(Advanced(r)) && Terms(Advanced(r)) == Terms(r)
    ensures MonthIndex(Advanced(r).nextOccurrence) == MonthIndex(r.nextOccurrence) + 1
  {
    hide IsRuleId;
    AnchoredIsOccurrence(r.nextOccurrence, r.anchorDay);
    var m := MonthIndex(r.nextOccurrence) + 1;
    OccurrenceOrder(m, m, r.anchorDay);
  }

  /** Posting the next occurrence and advancing the rule in one step keeps its months continuous. */
  lemma {:induction false} AdvanceKeepsContinuous(txs: seq<Transaction>, rules: seq<RecurringRule>, i: nat, t: Transaction, now: Instant)
    requires RulesContinuous(txs, rules) && UniqueRuleIds(rules) && i < |rules|
    requires RuleShape(rules[i]) && MonthIndex(rules[i].nextOccurrence) + 1 < MONTH_LIMIT
    requires t.row.recurringRuleId == Some(rules[i].id) && t.row.effectiveDate == Some(rules[i].nextOccurrence)
    ensures RulesContinuous(txs + [t], rules[i := Advanced(rules[i])])
  {
    var r := rules[i];
    var m := MonthIndex(r.nextOccurrence);
    AdvanceKeepsShape(r);
    assert OnAnchorDay(r.nextOccurrence, r.anchorDay) && MonthIndex(r.startsOn) <= m by {
      AnchoredIsOccurrence(r.nextOccurrence, r.anchorDay);
    }
    NextMonthAdded(MonthIndex(r.startsOn), m);
    hide MonthsPosted, Months, MonthIndex, RuleShape, OnAnchorDay;
    var after := rules[i := Advanced(r)];
    forall j | 0 <= j < |after|
      ensures RuleContinuous(txs + [t], after[j])
    {
      assert RuleContinuous(txs, rules[j]);
      MonthsAfterAppend(txs, t, rules[j].id);
    }
  }

  lemma {:induction false} NextMonthAdded(first: int, m: int)
    requires first <= m
    ensures Months(first, m + 1) == Months(first, m) + {m}
  {
  }

  function AfterPosting(s: BankState, i: nat, now: Instant): BankState
    requires i < |s.recurringRules| && RuleShape(s.recurringRules[i])
    requires MonthIndex(s.recurringRules[i].nextOccurrence) + 1 < MONTH_LIMIT
    requires AppendRow(s, OccurrenceRow(s.recurringRules[i], s.recurringRules[i].nextOccurrence, now)).Some?
  {
    var r := s.recurringRules[i];
    AppendRow(s, OccurrenceRow(r, r.nextOccurrence, now)).value.(recurringRules := s.recurringRules[i := Advanced(r)])
  }

  lemma {:induction false} PostOccurrenceKeepsSound(s: BankState, i: nat, now: Instant)
    requires Sound(s, now) && i < |s.recurringRules| && MayPost(s, i, now)
    requires RuleShape(s.recurringRules[i])
    requires AppendRow(s, OccurrenceRow(s.recurringRules[i], s.recurringRules[i].nextOccurrence, now)).Some?
    ensures Sound(AfterPosting(s, i, now), now)
  {
    var r := s.recurringRules[i];
    var d := OccurrenceRow(r, r.nextOccurrence, now);
    OccurrencePostable(s, i, now);
    hide Sound, Postable, RuleShape, AppendRow, Advanced, Stamped, LedgerSound, RulesSound, MonthIndex, IsAllowedEffectiveDate, BalanceOf;
    var after := AfterPosting(s, i, now);
    AppendedParts(s, d);
    PostKeepsLedger(s, d, now);
    assert LedgerSound(after, now) by { LedgerIgnoresRules(AppendRow(s, d).value, s.recurringRules[i := Advanced(r)], now); }
    var t := Stamped(s.transactions, s.nextSeq, d);
    StampedRow(s.transactions, s.nextSeq, d);
    RulesAfterPosting(s, i, t, now);
    assert RulesSound(after, now) by { RulesIgnoreSeq(s, after, now, s.transactions + [t], s.recurringRules[i := Advanced(r)]); }
    SoundFromParts(s, after, now);
  }

  lemma {:induction false} LedgerIgnoresRules(s: BankState, rules: seq<RecurringRule>, now: Instant)
    ensures LedgerSound(s.(recurringRules := rules), now) == LedgerSound(s, now)
  {
    hide RowsValid, NextSeqValid, PostedWithin, ClosedAtZero, TransfersPaired;
  }

  lemma {:induction false} RulesIgnoreSeq(s: BankState, after: BankState, now: Instant, txs: seq<Transaction>, rules: seq<RecurringRule>)
    requires RulesSound(s.(transactions := txs, recurringRules := rules), now)
    requires after.transactions == txs && after.recurringRules == rules && after.accounts == s.accounts
    ensures RulesSound(after, now)
  {
    hide RulesValid, RulesFit, RowsLinked, RulesContinuous;
  }

  lemma {:induction false} RulesAfterPosting(s: BankState, i: nat, t: Transaction, now: Instant)
    requires Sound(s, now) && i < |s.recurringRules| && RuleShape(s.recurringRules[i])
    requires MonthIndex(s.recurringRules[i].nextOccurrence) + 1 < MONTH_LIMIT
    requires t.row == OccurrenceRow(s.recurringRules[i], s.recurringRules[i].nextOccurrence, now)
    ensures RulesSound(s.(transactions := s.transactions + [t],
                          recurringRules := s.recurringRules[i := Advanced(s.recurringRules[i])]), now)
  {
    hide Sound, RulesValid, RulesFit, RowsLinked, RulesContinuous, RuleShape, Advanced, OccurrenceRow, MonthIndex, UniqueRuleIds, Terms, SameTerms;
    var rules, txs := s.recurringRules, s.transactions;
    var a := Advanced(rules[i]);
    PartsOfSound(s, now);
    UniqueRules(s, now);
    AdvanceKeepsShape(rules[i]);
    RuleUpdateKeepsRules(rules, i, a, now);
    AdvancedFits(s, i, now);
    NewRowLinked(s, i, t, now);
    TermsKeepLinks(txs + [t], rules, rules[i := a]);
    OccurrenceNames(rules[i], rules[i].nextOccurrence, now);
    AdvanceKeepsContinuous(txs, rules, i, t, now);
  }

  lemma {:induction false} OccurrenceNames(r: RecurringRule, date: Date, now: Instant)
    ensures OccurrenceRow(r, date, now).recurringRuleId == Some(r.id)
    ensures OccurrenceRow(r, date, now).effectiveDate == Some(date)
    ensures RowMatchesRule(OccurrenceRow(r, date, now), r)
  {
  }

  lemma {:induction false} AdvancedFits(s: BankState, i: nat, now: Instant)
    requires Sound(s, now) && i < |s.recurringRules| && RuleShape(s.recurringRules[i])
    requires MonthIndex(s.recurringRules[i].nextOccurrence) + 1 < MONTH_LIMIT
    ensures RulesFit(s.recurringRules[i := Advanced(s.recurringRules[i])], s.accounts)
  {
    var r := s.recurringRules[i];
    var a := Advanced(r);
    AdvancedFields(r);
    RuleFitsAccounts(s, i, now);
    PartsOfSound(s, now);
    hide Sound, RulesValid, RulesFit, RowsLinked, RulesContinuous, RuleShape, Advanced, RuleFits, MonthIndex;
    forall j | 0 <= j < |s.accounts| && s.accounts[j].id == a.accountId
      ensures RuleFits(a, s.accounts[j])
    {
      FitsIgnoresNext(r, a, s.accounts[j]);
    }
    RuleUpdateKeepsFit(s.recurringRules, i, a, s.accounts);
  }

  lemma {:induction false} NewRowLinked(s: BankState, i: nat, t: Transaction, now: Instant)
    requires Sound(s, now) && i < |s.recurringRules|
    requires t.row == OccurrenceRow(s.recurringRules[i], s.recurringRules[i].nextOccurrence, now)
    ensures RowsLinked(s.transactions + [t], s.recurringRules)
  {
    hide Sound, RulesValid, RulesFit, RowsLinked, RulesContinuous, RowMatchesRule, RuleIds, OccurrenceRow, AccountsValid, RowsValid;
    var rules := s.recurringRules;
    RuleIdIsKnown(rules, i);
    RuleIsUnique(s, i, now);
    PartsOfSound(s, now);
    OccurrenceNames(rules[i], rules[i].nextOccurrence, now);
    PostKeepsLinks(s.transactions, t, rules);
  }

  lemma {:induction false} RuleIdIsKnown(rules: seq<RecurringRule>, i: nat)
    requires i < |rules|
    ensures rules[i].id in RuleIds(rules)
  {
  }

  lemma {:induction false} RuleIsUnique(s: BankState, i: nat, now: Instant)
    requires Sound(s, now) && i < |s.recurringRules|
    ensures forall j :: 0 <= j < |s.recurringRules| && s.recurringRules[j].id == s.recurringRules[i].id ==> j == i
  {
  }

  lemma {:induction false} UniqueRules(s: BankState, now: Instant)
    requires Sound(s, now)
    ensures UniqueRuleIds(s.recurringRules)
  {
  }

  lemma {:induction false} RuleFitsAccounts(s: BankState, i: nat, now: Instant)
    requires Sound(s, now) && i < |s.recurringRules|
    ensures forall j :: 0 <= j < |s.accounts| && s.accounts[j].id == s.recurringRules[i].accountId
                        ==> RuleFits(s.recurringRules[i], s.accounts[j])
  {
    hide RuleFits;
  }

  lemma {:induction false} AdvancedFields(r: RecurringRule)
    requires RuleShape(r) && MonthIndex(r.nextOccurrence) + 1 < MONTH_LIMIT
    ensures var a := Advanced(r); a.accountId == r.accountId && a.status == r.status && a.pauseReason == r.pauseReason
  {
  }

  lemma {:induction false} FitsIgnoresNext(r: RecurringRule, b: RecurringRule, a: Account)
    requires b.status == r.status && b.pauseReason == r.pauseReason
    ensures RuleFits(b, a) == RuleFits(r, a)
  {
  }

  // ---------------------------------------------------------------- posting a whole schedule

  lemma {:induction false} AppendKeepsFrame(s: BankState, d: Draft)
    requires AppendRow(s, d).Some?
    ensures var c := AppendRow(s, d).value;
            && Extends(s, c, 1)
            && c.transactions[|s.transactions|].row == d
            && (forall a: string :: a != d.accountId ==> BalanceOf(c.transactions, a) == BalanceOf(s.transactions, a))
            && BalanceOf(c.transactions, d.accountId) == BalanceOf(s.transactions, d.accountId) + d.amountMinor
  {
    AppendedParts(s, d);
    var t := Stamped(s.transactions, s.nextSeq, d);
    forall a: string
      ensures BalanceOf(s.transactions + [t], a)
           == if t.row.accountId == a then t.balanceAfterMinor else BalanceOf(s.transactions, a)
    {
      BalanceAfterAppend(s.transactions, t, a);
    }
    hide BalanceOf, AppendRow;
  }

  /** `c` is `s` with `n` more ledger rows. */
  ghost predicate Extends(s: BankState, c: BankState, n: nat) {
    && c == s.(transactions := c.transactions, nextSeq := c.nextSeq)
    && |c.transactions| == |s.transactions| + n && s.transactions <= c.transactions
    && c.nextSeq == s.nextSeq + n
  }

  lemma {:induction false} ExtendsTwice(a: BankState, b: BankState, c: BankState, m: nat, n: nat)
    requires Extends(a, b, m) && Extends(b, c, n)
    ensures Extends(a, c, m + n)
  {
  }

  /** Posting reads a rule's terms only, and the list of rules not at all. */
  lemma {:induction false} AppendAllIgnoresRules(s: BankState, r: RecurringRule, dates: seq<Date>, now: Instant,
                                                 b: RecurringRule, rules: seq<RecurringRule>)
    requires Terms(r) == Terms(b)
    ensures var plain := AppendAll(s, r, dates, now);
            AppendAll(s.(recurringRules := rules), b, dates, now)
            == if plain.None? then None else Some(plain.value.(recurringRules := rules))
    decreases |dates|
  {
    if dates != [] {
      SameRow(r, b, dates[0], now);
      hide OccurrenceRow, HasKey, MonthIndex, BalanceOf;
      var next := AppendOccurrence(s, r, dates[0], now);
      assert AppendOccurrence(s.(recurringRules := rules), b, dates[0], now)
          == if next.None? then None else Some(next.value.(recurringRules := rules));
      if next.Some? {
        AppendAllIgnoresRules(next.value, r, dates[1..], now, b, rules);
      }
    }
  }

  lemma {:induction false} SameRow(r: RecurringRule, b: RecurringRule, date: Date, now: Instant)
    requires Terms(r) == Terms(b)
    ensures OccurrenceRow(b, date, now) == OccurrenceRow(r, date, now) && b.id == r.id
  {
    assert Terms(r).id == r.id && Terms(b).id == b.id;
    assert Terms(r).accountId == r.accountId && Terms(b).accountId == b.accountId;
    assert Terms(r).amountMinor == r.amountMinor && Terms(b).amountMinor == b.amountMinor;
    assert Terms(r).direction == r.direction && Terms(b).direction == b.direction;
    assert Terms(r).counterparty == r.counterparty && Terms(b).counterparty == b.counterparty;
    assert Terms(r).category == r.category && Terms(b).category == b.category;
    assert Terms(r).note == r.note && Terms(b).note == b.note;
  }

  /** The dates are the rule's next occurrences, month by month. */
  ghost predicate IsRunOf(r: RecurringRule, due: seq<Date>) {
    var m := MonthIndex(r.nextOccurrence);
    && FIRST_MONTH <= m && m + |due| < MONTH_LIMIT && 1 <= r.anchorDay <= 31
    && r.nextOccurrence == OccurrenceIn(m, r.anchorDay)
    && forall k :: 0 <= k < |due| ==> due[k] == OccurrenceIn(m + k, r.anchorDay)
  }

  function AtMonth(r: RecurringRule, m: int): RecurringRule
    requires FIRST_MONTH <= m < MONTH_LIMIT && 1 <= r.anchorDay <= 31
  {
    r.(nextOccurrence := OccurrenceIn(m, r.anchorDay))
  }

  ghost predicate CanPostAll(s: BankState, i: nat, due: seq<Date>, now: Instant)
    requires i < |s.recurringRules|
  {
    var r := s.recurringRules[i];
    && IsRunOf(r, due)
    && (forall k :: 0 <= k < |due| ==> IsAllowedEffectiveDate(due[k], now))
    && (forall j :: 0 <= j < |s.accounts| && s.accounts[j].id == r.accountId ==> IsOpenChecking(s.accounts[j]))
    && |s.transactions| + |due| <= MAX_TRANSACTIONS
    && (r.direction.Expense? ==> BalanceOf(s.transactions, r.accountId) >= r.amountMinor * |due|)
  }

  lemma {:induction false} RunStep(r: RecurringRule, due: seq<Date>)
    requires RuleShape(r) && IsRunOf(r, due) && due != []
    ensures due[0] == r.nextOccurrence && MonthIndex(r.nextOccurrence) + 1 < MONTH_LIMIT
    ensures IsRunOf(Advanced(r), due[1..])
    ensures MonthIndex(Advanced(r).nextOccurrence) == MonthIndex(r.nextOccurrence) + 1
    ensures Terms(Advanced(r)) == Terms(r)
  {
    AdvanceKeepsShape(r);
    hide MonthIndex, OccurrenceIn, RuleShape;
    var m := MonthIndex(r.nextOccurrence);
    assert due[0] == OccurrenceIn(m + 0, r.anchorDay);
    forall k | 0 <= k < |due| - 1
      ensures due[1..][k] == OccurrenceIn(m + 1 + k, r.anchorDay)
    {
      assert due[k + 1] == OccurrenceIn(m + (k + 1), r.anchorDay);
    }
  }

  /** `c` is `s` with exactly one new row for each date, in order, and stays sound once the rule moves past
      those dates. */
  ghost predicate PostedRun(s: BankState, i: nat, due: seq<Date>, now: Instant, c: BankState)
    requires i < |s.recurringRules|
  {
    var r := s.recurringRules[i];
    var m := MonthIndex(r.nextOccurrence) + |due|;
    && FIRST_MONTH <= m < MONTH_LIMIT && 1 <= r.anchorDay <= 31
    && Sound(c.(recurringRules := s.recurringRules[i := AtMonth(r, m)]), now)
    && Extends(s, c, |due|)
    && (forall k :: 0 <= k < |due| ==> c.transactions[|s.transactions| + k].row == OccurrenceRow(r, due[k], now))
    && SameBalancesBut(s, c, r.accountId)
  }

  ghost predicate SameBalancesBut(s: BankState, c: BankState, accountId: string) {
    forall a: string :: a != accountId ==> BalanceOf(c.transactions, a) == BalanceOf(s.transactions, a)
  }

  lemma {:induction false} PostAllKeepsSound(s: BankState, i: nat, due: seq<Date>, now: Instant)
    requires Sound(s, now) && i < |s.recurringRules| && RuleShape(s.recurringRules[i])
    requires CanPostAll(s, i, due, now)
    requires AppendAll(s, s.recurringRules[i], due, now).Some?
    ensures PostedRun(s, i, due, now, AppendAll(s, s.recurringRules[i], due, now).value)
    decreases |due|
  {
    hide Sound, RuleShape, BalanceOf, CanPostAll, IsRunOf, AppendRow, MonthIndex, Advanced, OccurrenceRow, OccurrenceIn,
      PostedRun, Extends, AppendOccurrence;
    var r := s.recurringRules[i];
    if due == [] {
      NothingPosted(s, i, now);
    } else {
      var s1 := FirstPosting(s, i, due, now);
      FirstPostingLeavesRoom(s, i, due, now);
      var after := AfterPosting(s, i, now);
      AfterPostingRule(s, i, now);
      AppendAllIgnoresRules(s1, r, due[1..], now, after.recurringRules[i], after.recurringRules);
      PostAllKeepsSound(after, i, due[1..], now);
      AppendAllKeepsRules(s1, r, due[1..], now);
      RunExtended(s, i, due, now, s1, AppendAll(s1, r, due[1..], now).value);
    }
  }

  lemma {:induction false} AfterPostingRule(s: BankState, i: nat, now: Instant)
    requires i < |s.recurringRules| && RuleShape(s.recurringRules[i])
    requires MonthIndex(s.recurringRules[i].nextOccurrence) + 1 < MONTH_LIMIT
    requires AppendRow(s, OccurrenceRow(s.recurringRules[i], s.recurringRules[i].nextOccurrence, now)).Some?
    ensures var after := AfterPosting(s, i, now);
            && after == AppendRow(s, OccurrenceRow(s.recurringRules[i], s.recurringRules[i].nextOccurrence, now)).value
                          .(recurringRules := after.recurringRules)
            && |after.recurringRules| == |s.recurringRules|
            && Terms(after.recurringRules[i]) == Terms(s.recurringRules[i])
  {
    AdvanceKeepsShape(s.recurringRules[i]);
    hide RuleShape, MonthIndex, AppendRow, Advanced;
  }

  lemma {:induction false} NothingPosted(s: BankState, i: nat, now: Instant)
    requires Sound(s, now) && i < |s.recurringRules| && RuleShape(s.recurringRules[i])
    requires CanPostAll(s, i, [], now)
    ensures PostedRun(s, i, [], now, s)
  {
    hide Sound, RuleShape, BalanceOf, IsAllowedEffectiveDate;
    var r := s.recurringRules[i];
    assert s.recurringRules[i := AtMonth(r, MonthIndex(r.nextOccurrence))] == s.recurringRules;
  }

  lemma {:induction false} AppendAllKeepsRules(s: BankState, r: RecurringRule, dates: seq<Date>, now: Instant)
    requires AppendAll(s, r, dates, now).Some?
    ensures AppendAll(s, r, dates, now).value.recurringRules == s.recurringRules
    decreases |dates|
  {
    hide OccurrenceRow, HasKey, MonthIndex, BalanceOf;
    if dates != [] {
      AppendAllKeepsRules(AppendOccurrence(s, r, dates[0], now).value, r, dates[1..], now);
    }
  }

  lemma {:induction false} RunExtended(s: BankState, i: nat, due: seq<Date>, now: Instant, s1: BankState, c: BankState)
    requires i < |s.recurringRules| && RuleShape(s.recurringRules[i]) && due != []
    requires due[0] == s.recurringRules[i].nextOccurrence
    requires MonthIndex(s.recurringRules[i].nextOccurrence) + 1 < MONTH_LIMIT
    requires AppendRow(s, OccurrenceRow(s.recurringRules[i], due[0], now)) == Some(s1)
    requires PostedRun(AfterPosting(s, i, now), i, due[1..], now, c.(recurringRules := AfterPosting(s, i, now).recurringRules))
    requires c.recurringRules == s1.recurringRules
    ensures PostedRun(s, i, due, now, c)
  {
    var r := s.recurringRules[i];
    AppendKeepsFrame(s, OccurrenceRow(r, due[0], now));
    AdvanceKeepsShape(r);
    AdvancedTerms(r);
    assert OccurrenceRow(r, due[0], now).accountId == r.accountId;
    hide Sound, RuleShape, BalanceOf, MonthIndex, AppendRow, OccurrenceIn, PostedRun, Advanced, OccurrenceRow, Extends, AtMonth;
    assert Extends(s, s1, 1) && SameBalancesBut(s, s1, r.accountId);
    hide SameBalancesBut;
    AdvancedAtMonths(r);
    RunPrepended(s, i, due, now, s1, Advanced(r), c);
  }

  lemma {:induction false} AdvancedAtMonths(r: RecurringRule)
    requires RuleShape(r) && MonthIndex(r.nextOccurrence) + 1 < MONTH_LIMIT
    ensures forall m {:trigger AtMonth(r, m)} :: FIRST_MONTH <= m < MONTH_LIMIT ==> AtMonth(Advanced(r), m) == AtMonth(r, m)
  {
    forall m | FIRST_MONTH <= m < MONTH_LIMIT
      ensures AtMonth(Advanced(r), m) == AtMonth(r, m)
    {
      AdvancedAtMonth(r, m);
    }
  }

  lemma {:induction false} RunPrepended(s: BankState, i: nat, due: seq<Date>, now: Instant, s1: BankState, b: RecurringRule, c: BankState)
    requires i < |s.recurringRules| && due != []
    requires var r := s.recurringRules[i];
             && 1 <= r.anchorDay <= 31 && b.anchorDay == r.anchorDay && b.accountId == r.accountId
             && Terms(b) == Terms(r) && MonthIndex(b.nextOccurrence) == MonthIndex(r.nextOccurrence) + 1
             && (forall m {:trigger AtMonth(r, m)} :: FIRST_MONTH <= m < MONTH_LIMIT ==> AtMonth(b, m) == AtMonth(r, m))
             && Extends(s, s1, 1) && s1.transactions[|s.transactions|].row == OccurrenceRow(r, due[0], now)
             && SameBalancesBut(s, s1, r.accountId)
    requires c.recurringRules == s1.recurringRules
    requires var after := s1.(recurringRules := s.recurringRules[i := b]);
             PostedRun(after, i, due[1..], now, c.(recurringRules := after.recurringRules))
    ensures PostedRun(s, i, due, now, c)
  {
    hide Sound, BalanceOf, MonthIndex, OccurrenceIn, OccurrenceRow, AtMonth;
    var rules := s.recurringRules;
    var r := rules[i];
    var after := s1.(recurringRules := rules[i := b]);
    var m := MonthIndex(r.nextOccurrence) + |due|;
    assert rules[i := b][i := AtMonth(b, m)] == rules[i := AtMonth(r, m)];
    assert Extends(s1, c, |due| - 1);
    RestPosted(s, s1, c, r, b, due, now);
  }

  lemma {:induction false} AdvancedAtMonth(r: RecurringRule, m: int)
    requires RuleShape(r) && MonthIndex(r.nextOccurrence) + 1 < MONTH_LIMIT
    requires FIRST_MONTH <= m < MONTH_LIMIT
    ensures AtMonth(Advanced(r), m) == AtMonth(r, m)
  {
    hide OccurrenceIn;
  }

  /** The first posting of a run appends one row: its key is free and the account takes it. */
  lemma {:induction false} FirstPosting(s: BankState, i: nat, due: seq<Date>, now: Instant) returns (s1: BankState)
    requires Sound(s, now) && i < |s.recurringRules| && RuleShape(s.recurringRules[i])
    requires CanPostAll(s, i, due, now) && due != []
    requires AppendAll(s, s.recurringRules[i], due, now).Some?
    ensures AppendRow(s, OccurrenceRow(s.recurringRules[i], due[0], now)) == Some(s1)
    ensures AppendAll(s, s.recurringRules[i], due, now) == AppendAll(s1, s.recurringRules[i], due[1..], now)
    ensures due[0] == s.recurringRules[i].nextOccurrence
    ensures MonthIndex(s.recurringRules[i].nextOccurrence) + 1 < MONTH_LIMIT
    ensures Sound(AfterPosting(s, i, now), now)
  {
    var r := s.recurringRules[i];
    RunStep(r, due);
    FutureKeyIsFree(s, i, MonthIndex(r.nextOccurrence), now);
    assert AppendOccurrence(s, r, due[0], now) == AppendRow(s, OccurrenceRow(r, due[0], now));
    s1 := AppendRow(s, OccurrenceRow(r, due[0], now)).value;
    assert MayPost(s, i, now) by { RunMayPost(s, i, due, now); }
    PostOccurrenceKeepsSound(s, i, now);
  }

  lemma {:induction false} RunMayPost(s: BankState, i: nat, due: seq<Date>, now: Instant)
    requires i < |s.recurringRules| && RuleShape(s.recurringRules[i])
    requires CanPostAll(s, i, due, now) && due != []
    ensures MayPost(s, i, now)
  {
    var r := s.recurringRules[i];
    RunStep(r, due);
    assert 0 < r.amountMinor;
    MultiplyKeepsOrder(1, |due|, r.amountMinor);
    hide BalanceOf, IsAllowedEffectiveDate, MonthIndex, RuleShape, IsRunOf;
  }

  lemma {:induction false} FirstPostingLeavesRoom(s: BankState, i: nat, due: seq<Date>, now: Instant)
    requires i < |s.recurringRules| && RuleShape(s.recurringRules[i])
    requires CanPostAll(s, i, due, now) && due != []
    requires MonthIndex(s.recurringRules[i].nextOccurrence) + 1 < MONTH_LIMIT
    requires due[0] == s.recurringRules[i].nextOccurrence
    requires AppendRow(s, OccurrenceRow(s.recurringRules[i], due[0], now)).Some?
    ensures RuleShape(AfterPosting(s, i, now).recurringRules[i])
    ensures CanPostAll(AfterPosting(s, i, now), i, due[1..], now)
  {
    var r := s.recurringRules[i];
    var d := OccurrenceRow(r, due[0], now);
    AppendKeepsFrame(s, d);
    RunStep(r, due);
    AdvanceKeepsShape(r);
    AdvancedTerms(r);
    assert d.accountId == r.accountId && (r.direction.Expense? ==> d.amountMinor == -r.amountMinor);
    assert r.amountMinor * |due| == r.amountMinor * (|due| - 1) + r.amountMinor;
    hide BalanceOf, IsAllowedEffectiveDate, MonthIndex, RuleShape, IsRunOf, Advanced, AppendRow, OccurrenceRow;
    var after := AfterPosting(s, i, now);
    assert after.recurringRules[i] == Advanced(r);
    forall k | 0 <= k < |due[1..]|
      ensures IsAllowedEffectiveDate(due[1..][k], now)
    {
      assert IsAllowedEffectiveDate(due[k + 1], now);
    }
  }

  lemma {:induction false} AdvancedTerms(r: RecurringRule)
    requires RuleShape(r) && MonthIndex(r.nextOccurrence) + 1 < MONTH_LIMIT
    ensures var a := Advanced(r);
            a.accountId == r.accountId && a.direction == r.direction && a.amountMinor == r.amountMinor
  {
    hide OccurrenceIn;
  }

  lemma {:induction false} RestPosted(s: BankState, s1: BankState, c: BankState, r: RecurringRule, b: RecurringRule, due: seq<Date>, now: Instant)
    requires due != [] && Terms(b) == Terms(r)
    requires Extends(s, s1, 1) && s1.transactions[|s.transactions|].row == OccurrenceRow(r, due[0], now)
    requires Extends(s1, c, |due| - 1)
    requires forall k :: 0 <= k < |due| - 1 ==> c.transactions[|s1.transactions| + k].row == OccurrenceRow(b, due[1..][k], now)
    ensures Extends(s, c, |due|)
    ensures forall k :: 0 <= k < |due| ==> c.transactions[|s.transactions| + k].row == OccurrenceRow(r, due[k], now)
  {
    ExtendsTwice(s, s1, c, 1, |due| - 1);
    forall k | 0 <= k < |due|
      ensures c.transactions[|s.transactions| + k].row == OccurrenceRow(r, due[k], now)
    {
      if k == 0 {
        assert c.transactions[|s.transactions|] == s1.transactions[|s.transactions|];
      } else {
        SameRow(r, b, due[k], now);
        assert due[1..][k - 1] == due[k];
        assert c.transactions[|s1.transactions| + (k - 1)].row == OccurrenceRow(b, due[1..][k - 1], now);
      }
    }
  }
}
