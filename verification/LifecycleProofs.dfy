/** The account lifecycle keeps the invariant, restoring undoes closing, and the two cases in which a
    command leaves a state that the invariant refuses. */
module LifecycleProofs {
  import opened Wrappers
  import opened Calendar
  import opened Currency
  import opened BankTypes
  import opened Ledger
  import opened Interest
  import opened BankValidity
  import opened Posting
  import opened Settlement
  import opened RecurringProofs
  import opened SavingsProofs
  import opened TransferProofs
  import opened TransferEffects
  import opened AccountLifecycle

  // ---------------------------------------------------------------- changing accounts, cards and rules together

  /** Rules with the same terms and the same next occurrence. */
  ghost predicate SameSchedules(before: seq<RecurringRule>, after: seq<RecurringRule>) {
    && SameTerms(before, after)
    && forall i :: 0 <= i < |before| ==> before[i].nextOccurrence == after[i].nextOccurrence
  }

  lemma {:induction false} SchedulesKeepContinuous(txs: seq<Transaction>, before: seq<RecurringRule>, after: seq<RecurringRule>)
    requires SameSchedules(before, after) && RulesContinuous(txs, before)
    ensures RulesContinuous(txs, after)
  {
    hide OnAnchorDay, MonthsPosted, Months, MonthIndex;
    forall j | 0 <= j < |after|
      ensures RuleContinuous(txs, after[j])
    {
      assert RuleContinuous(txs, before[j]);
      assert Terms(before[j]) == Terms(after[j]);
      TermsFields(before[j], after[j]);
    }
  }

  lemma {:induction false} TermsFields(a: RecurringRule, b: RecurringRule)
    requires Terms(a) == Terms(b)
    ensures a.id == b.id && a.anchorDay == b.anchorDay && a.startsOn == b.startsOn && a.accountId == b.accountId
  {
    assert Terms(a).id == a.id && Terms(b).id == b.id;
    assert Terms(a).anchorDay == a.anchorDay && Terms(b).anchorDay == b.anchorDay;
    assert Terms(a).startsOn == a.startsOn && Terms(b).startsOn == b.startsOn;
    assert Terms(a).accountId == a.accountId && Terms(b).accountId == b.accountId;
  }

  lemma {:induction false} SchedulesKeepValid(before: seq<RecurringRule>, after: seq<RecurringRule>, now: Instant)
    requires SameSchedules(before, after) && RulesValid(before, now)
    requires forall i :: 0 <= i < |after| ==> (after[i].status.RuleActive? <==> after[i].pauseReason.None?)
    ensures RulesValid(after, now)
  {
    hide RuleShape, RuleTimes;
    forall i | 0 <= i < |after|
      ensures RuleShape(after[i]) && RuleTimes(after[i], now) && after[i].id == before[i].id
    {
      assert Terms(before[i]) == Terms(after[i]);
      TermsFields(before[i], after[i]);
      TermsKeepTimes(before[i], after[i], now);
      SameScheduleShape(before[i], after[i]);
    }
  }

  lemma {:induction false} SameScheduleShape(a: RecurringRule, b: RecurringRule)
    requires RuleShape(a) && Terms(a) == Terms(b) && a.nextOccurrence == b.nextOccurrence
    requires b.status.RuleActive? <==> b.pauseReason.None?
    ensures RuleShape(b)
  {
    hide IsAnchored, MonthIndex, IsRuleId;
    TermsFields(a, b);
    assert Terms(a).amountMinor == a.amountMinor && Terms(b).amountMinor == b.amountMinor;
  }

  /** What a change of standing has to establish for the whole state to stay sound. */
  ghost predicate StandingChanged(s: BankState, after: BankState, now: Instant) {
    && after == s.(accounts := after.accounts, cards := after.cards, recurringRules := after.recurringRules)
    && SameIdentity(s.accounts, after.accounts)
    && AccountsValid(after.accounts, s.demoBaseCurrency, now)
    && PostedWithin(s.transactions, after.accounts, now)
    && ClosedAtZero(s.transactions, after.accounts)
    && SameSchedules(s.recurringRules, after.recurringRules)
    && RulesValid(after.recurringRules, now)
    && RulesFit(after.recurringRules, after.accounts)
    && CardsValid(after.cards, after.accounts)
  }

  lemma {:induction false} StandingChangeKeepsSound(s: BankState, after: BankState, now: Instant)
    requires Sound(s, now) && StandingChanged(s, after, now)
    ensures Sound(after, now)
  {
    hide AccountsValid, RowsValid, NextSeqValid, PostedWithin, ClosedAtZero, TransfersPaired, RulesValid, RulesFit,
      RowsLinked, RulesContinuous, CardsValid, ContactsValid, RatesValid, RecentIdsValid, SameIdentity, SameTerms;
    assert SameTerms(s.recurringRules, after.recurringRules);
    IdentityKeepsPairs(s.transactions, s.accounts, after.accounts);
    TermsKeepLinks(s.transactions, s.recurringRules, after.recurringRules);
    SchedulesKeepContinuous(s.transactions, s.recurringRules, after.recurringRules);
  }

  // ---------------------------------------------------------------- closing

  lemma {:induction false} OpenElsewhere(accounts: seq<Account>, i: nat) returns (k: nat)
    requires i < |accounts| && CountOpen(accounts) > 1
    ensures k < |accounts| && k != i && accounts[k].status.Open?
    decreases |accounts|
  {
    if i == 0 {
      k := SomeOpen(accounts[1..]);
      k := k + 1;
    } else if accounts[0].status.Open? {
      k := 0;
    } else {
      k := OpenElsewhere(accounts[1..], i - 1);
      k := k + 1;
    }
  }

  lemma {:induction false} SomeOpen(accounts: seq<Account>) returns (k: nat)
    requires CountOpen(accounts) > 0
    ensures k < |accounts| && accounts[k].status.Open?
    decreases |accounts|
  {
    if accounts[0].status.Open? {
      k := 0;
    } else {
      k := SomeOpen(accounts[1..]);
      k := k + 1;
    }
  }

  lemma {:induction false} ClosedShape(a: Account, now: Instant)
    requires AccountShape(a) && AccountTimes(a, now)
    ensures AccountShape(ClosedNow(a, now)) && AccountTimes(ClosedNow(a, now), now)
  {
    hide EpochDay, IsNormalisedNumber;
    LaterInstantLaterDay(a.createdAt, now);
  }

  lemma {:induction false} CloseKeepsIdentity(accounts: seq<Account>, id: string, now: Instant)
    ensures SameIdentity(accounts, CloseIn(accounts, id, now))
  {
  }

  lemma {:induction false} CloseKeepsAccounts(accounts: seq<Account>, i: nat, base: Currency, now: Instant)
    requires AccountsValid(accounts, base, now) && i < |accounts| && CountOpen(accounts) > 1
    ensures AccountsValid(CloseIn(accounts, accounts[i].id, now), base, now)
  {
    hide AccountShape, AccountTimes, CanonicalRoles, CountOpen;
    var after := CloseIn(accounts, accounts[i].id, now);
    CloseKeepsIdentity(accounts, accounts[i].id, now);
    IdentityKeepsRoles(accounts, after, base);
    IdentityKeepsUnique(accounts, after);
    forall k | 0 <= k < |after|
      ensures AccountShape(after[k]) && AccountTimes(after[k], now)
    {
      ClosedShape(accounts[k], now);
    }
    var k := OpenElsewhere(accounts, i);
    assert after[k].status.Open?;
  }

  lemma {:induction false} CloseKeepsWithin(txs: seq<Transaction>, accounts: seq<Account>, id: string, now: Instant)
    requires PostedWithin(txs, accounts, now)
    requires forall k :: 0 <= k < |txs| ==> NotAfter(txs[k].row.createdAt, now)
    ensures PostedWithin(txs, CloseIn(accounts, id, now), now)
  {
    hide NotAfter, IsAllowedEffectiveDate;
    var after := CloseIn(accounts, id, now);
    CloseKeepsIdentity(accounts, id, now);
    IdentityKeepsIds(accounts, after);
    forall k, j | 0 <= k < |txs| && 0 <= j < |after| && txs[k].row.accountId == after[j].id
      ensures RowFits(txs[k].row, after[j], now)
    {
      assert RowFits(txs[k].row, accounts[j], now);
    }
  }

  lemma {:induction false} CloseKeepsClosed(txs: seq<Transaction>, accounts: seq<Account>, id: string, now: Instant)
    requires ClosedAtZero(txs, accounts) && HasRow(txs, id) && BalanceOf(txs, id) == 0
    ensures ClosedAtZero(txs, CloseIn(accounts, id, now))
  {
    hide HasRow, BalanceOf;
  }

  lemma {:induction false} CloseKeepsCards(cards: seq<Card>, accounts: seq<Account>, id: string, now: Instant)
    requires CardsValid(cards, accounts)
    ensures CardsValid(FreezeCards(cards, id), CloseIn(accounts, id, now))
  {
    var after := CloseIn(accounts, id, now);
    CloseKeepsIdentity(accounts, id, now);
    IdentityKeepsIds(accounts, after);
    hide AccountIds;
    forall k, j | 0 <= k < |cards| && 0 <= j < |accounts| && cards[k].accountId == accounts[j].id
      ensures CardFits(FreezeCards(cards, id)[k], after[j])
    {
      assert CardFits(cards[k], accounts[j]);
    }
  }

  lemma {:induction false} CloseKeepsFit(rules: seq<RecurringRule>, accounts: seq<Account>, id: string, now: Instant)
    requires RulesFit(rules, accounts)
    ensures RulesFit(PauseRules(rules, id), CloseIn(accounts, id, now))
  {
    var after := CloseIn(accounts, id, now);
    CloseKeepsIdentity(accounts, id, now);
    IdentityKeepsIds(accounts, after);
    hide AccountIds;
    forall k, j | 0 <= k < |rules| && 0 <= j < |accounts| && rules[k].accountId == accounts[j].id
      ensures RuleFits(PauseRules(rules, id)[k], after[j])
    {
      assert RuleFits(rules[k], accounts[j]);
    }
  }

  lemma {:induction false} PauseKeepsSchedules(rules: seq<RecurringRule>, id: string, now: Instant)
    requires RulesValid(rules, now)
    ensures SameSchedules(rules, PauseRules(rules, id)) && RulesValid(PauseRules(rules, id), now)
  {
    hide RuleTimes;
    var after := PauseRules(rules, id);
    forall i | 0 <= i < |rules|
      ensures Terms(rules[i]) == Terms(after[i]) && rules[i].nextOccurrence == after[i].nextOccurrence
      ensures after[i].status.RuleActive? <==> after[i].pauseReason.None?
    {
      assert RuleShape(rules[i]);
    }
    hide RuleShape, Terms;
    SchedulesKeepValid(rules, after, now);
  }

  lemma {:induction false} RowTimes(s: BankState, now: Instant)
    requires Sound(s, now)
    ensures forall k :: 0 <= k < |s.transactions| ==> NotAfter(s.transactions[k].row.createdAt, now)
  {
    hide NotAfter;
    forall k | 0 <= k < |s.transactions|
      ensures NotAfter(s.transactions[k].row.createdAt, now)
    {
      assert DraftTimes(s.transactions[k].row, now);
    }
  }

  /** Shutting an empty account that has a ledger row. */
  lemma {:induction false} ShutKeepsSound(s: BankState, i: nat, now: Instant)
    requires Sound(s, now) && i < |s.accounts| && CountOpen(s.accounts) > 1
    requires HasRow(s.transactions, s.accounts[i].id) && BalanceOf(s.transactions, s.accounts[i].id) == 0
    ensures Sound(Shut(s, s.accounts[i].id, now), now)
  {
    RowTimes(s, now);
    hide AccountsValid, RowsValid, NextSeqValid, PostedWithin, ClosedAtZero, TransfersPaired, RulesValid, RulesFit,
      RowsLinked, RulesContinuous, CardsValid, ContactsValid, RatesValid, RecentIdsValid, SameIdentity, SameSchedules,
      CountOpen, BalanceOf, HasRow, NotAfter, CloseIn, FreezeCards, PauseRules;
    var id := s.accounts[i].id;
    CloseKeepsIdentity(s.accounts, id, now);
    CloseKeepsAccounts(s.accounts, i, s.demoBaseCurrency, now);
    CloseKeepsWithin(s.transactions, s.accounts, id, now);
    CloseKeepsClosed(s.transactions, s.accounts, id, now);
    CloseKeepsCards(s.cards, s.accounts, id, now);
    CloseKeepsFit(s.recurringRules, s.accounts, id, now);
    PauseKeepsSchedules(s.recurringRules, id, now);
    assert StandingChanged(s, Shut(s, id, now), now);
    hide Sound, StandingChanged;
    StandingChangeKeepsSound(s, Shut(s, id, now), now);
  }

  lemma {:induction false} CloseParts(s: BankState, id: string, now: Instant) returns (i: nat, settled: BankState)
    requires CloseAccount(s, id, now).Done? && CloseAccount(s, id, now).applied
    ensures FindAccount(s.accounts, id) == Some(i) && s.accounts[i].status.Open?
    ensures SettleAccount(s, id, now) == Some(settled)
    ensures BalanceOf(settled.transactions, id) == 0 && CountOpen(settled.accounts) > 1
    ensures CloseAccount(s, id, now) == Ok(Shut(settled, id, now), true)
  {
    hide SettleAccount, BalanceOf, CountOpen, Shut;
    i := FindAccount(s.accounts, id).value;
    settled := SettleAccount(s, id, now).value;
  }

  /** Closing never appends a row: interest on a savings account would leave it with a balance. */
  lemma {:induction false} CloseAppendsNothing(s: BankState, id: string, now: Instant)
    requires Sound(s, now) && CloseAccount(s, id, now).Done?
    ensures CloseAccount(s, id, now).state.transactions == s.transactions
    ensures CloseAccount(s, id, now).applied ==> BalanceOf(s.transactions, id) == 0
  {
    hide Sound, CloseAccount, SettleAccount, BalanceOf, CountOpen, Shut, FindAccount;
    if CloseAccount(s, id, now).applied {
      var i, settled := CloseParts(s, id, now);
      FindGives(s.accounts, id, i);
      SettledBalance(s, i, now);
      BalanceIsNatural(s, id, now);
      NoInterestNoRow(s, i, settled, now);
      ShutKeepsRows(settled, id, now);
    } else {
      CloseNothing(s, id, now);
    }
  }

  lemma {:induction false} ShutKeepsRows(s: BankState, id: string, now: Instant)
    ensures Shut(s, id, now).transactions == s.transactions && Shut(s, id, now).nextSeq == s.nextSeq
  {
  }

  lemma {:induction false} CloseNothing(s: BankState, id: string, now: Instant)
    requires CloseAccount(s, id, now).Done? && !CloseAccount(s, id, now).applied
    ensures CloseAccount(s, id, now).state == s
  {
    hide SettleAccount, BalanceOf, CountOpen, Shut;
  }

  lemma {:induction false} NoInterestNoRow(s: BankState, i: nat, settled: BankState, now: Instant)
    requires i < |s.accounts| && FindAccount(s.accounts, s.accounts[i].id) == Some(i)
    requires SettleAccount(s, s.accounts[i].id, now) == Some(settled)
    requires PendingInterest(s, s.accounts[i], now) == 0
    ensures settled.transactions == s.transactions && settled.nextSeq == s.nextSeq
  {
    hide BalanceOf, AccruedInterest, ElapsedDays, FindAccount;
  }

  /** Closing an open account leaves a state that the invariant accepts exactly when the account has a
      ledger row; an account without one is empty but its closing is refused by the invariant. */
  lemma {:induction false} CloseIsSoundIffRow(s: BankState, id: string, now: Instant)
    requires Sound(s, now) && CloseAccount(s, id, now).Done? && CloseAccount(s, id, now).applied
    ensures Sound(CloseAccount(s, id, now).state, now) <==> HasRow(s.transactions, id)
  {
    hide Sound, CloseAccount, SettleAccount, BalanceOf, CountOpen, Shut, FindAccount, SettledFrom, HasRow;
    var i, settled := CloseParts(s, id, now);
    FindGives(s.accounts, id, i);
    CloseAppendsNothing(s, id, now);
    ShutKeepsRows(settled, id, now);
    SettleAccountFrame(s, id, now);
    SettledFromAccounts(s, settled, i);
    IdentityIds(settled.accounts[i], s.accounts[i]);
    RowsWithinLimit(s, now);
    SettleAccountKeepsSound(s, id, now);
    if HasRow(s.transactions, id) {
      ShutKeepsSound(settled, i, now);
    } else if Sound(Shut(settled, id, now), now) {
      ShutNeedsRow(settled, i, now);
    }
  }

  lemma {:induction false} ShutNeedsRow(s: BankState, i: nat, now: Instant)
    requires i < |s.accounts| && Sound(Shut(s, s.accounts[i].id, now), now)
    ensures HasRow(s.transactions, s.accounts[i].id)
  {
    var after := Shut(s, s.accounts[i].id, now);
    assert ClosedAtZero(after.transactions, after.accounts);
    assert after.accounts[i].status.Closed?;
  }

  // ---------------------------------------------------------------- restoring

  lemma {:induction false} ReopenedShape(a: Account, now: Instant)
    requires AccountShape(a) && AccountTimes(a, now)
    ensures AccountShape(ReopenedNow(a, now)) && AccountTimes(ReopenedNow(a, now), now)
  {
    hide EpochDay, IsNormalisedNumber;
    LaterInstantLaterDay(a.createdAt, now);
  }

  lemma {:induction false} ReopenKeepsIdentity(accounts: seq<Account>, id: string, now: Instant)
    ensures SameIdentity(accounts, ReopenIn(accounts, id, now))
  {
  }

  lemma {:induction false} ReopenKeepsAccounts(accounts: seq<Account>, i: nat, base: Currency, now: Instant)
    requires AccountsValid(accounts, base, now) && i < |accounts|
    requires accounts[i].kind.Checking? ==> !HasOtherOpenChecking(accounts, accounts[i].id, accounts[i].currency)
    ensures AccountsValid(ReopenIn(accounts, accounts[i].id, now), base, now)
  {
    hide AccountShape, AccountTimes, CanonicalRoles;
    var after := ReopenIn(accounts, accounts[i].id, now);
    ReopenKeepsIdentity(accounts, accounts[i].id, now);
    IdentityKeepsRoles(accounts, after, base);
    IdentityKeepsUnique(accounts, after);
    forall k | 0 <= k < |after|
      ensures AccountShape(after[k]) && AccountTimes(after[k], now)
    {
      ReopenedShape(accounts[k], now);
    }
    assert after[i].status.Open?;
  }

  lemma {:induction false} ReopenKeepsWithin(txs: seq<Transaction>, accounts: seq<Account>, id: string, now: Instant)
    requires PostedWithin(txs, accounts, now)
    ensures PostedWithin(txs, ReopenIn(accounts, id, now), now)
  {
    hide NotAfter, IsAllowedEffectiveDate;
    var after := ReopenIn(accounts, id, now);
    ReopenKeepsIdentity(accounts, id, now);
    IdentityKeepsIds(accounts, after);
    forall k, j | 0 <= k < |txs| && 0 <= j < |after| && txs[k].row.accountId == after[j].id
      ensures RowFits(txs[k].row, after[j], now)
    {
      assert RowFits(txs[k].row, accounts[j], now);
    }
  }

  lemma {:induction false} ReopenKeepsClosed(txs: seq<Transaction>, accounts: seq<Account>, id: string, now: Instant)
    requires ClosedAtZero(txs, accounts)
    ensures ClosedAtZero(txs, ReopenIn(accounts, id, now))
  {
    hide HasRow, BalanceOf;
  }

  lemma {:induction false} ReopenKeepsCards(cards: seq<Card>, accounts: seq<Account>, id: string, now: Instant)
    requires CardsValid(cards, accounts)
    ensures CardsValid(UnfreezeCards(cards, id), ReopenIn(accounts, id, now))
  {
    var after := ReopenIn(accounts, id, now);
    ReopenKeepsIdentity(accounts, id, now);
    IdentityKeepsIds(accounts, after);
    hide AccountIds;
    forall k, j | 0 <= k < |cards| && 0 <= j < |accounts| && cards[k].accountId == accounts[j].id
      ensures CardFits(UnfreezeCards(cards, id)[k], after[j])
    {
      assert CardFits(cards[k], accounts[j]);
    }
  }

  lemma {:induction false} ReopenKeepsFit(rules: seq<RecurringRule>, accounts: seq<Account>, id: string, now: Instant)
    requires RulesFit(rules, accounts)
    ensures RulesFit(UnpauseRules(rules, id), ReopenIn(accounts, id, now))
  {
    var after := ReopenIn(accounts, id, now);
    ReopenKeepsIdentity(accounts, id, now);
    IdentityKeepsIds(accounts, after);
    hide AccountIds;
    forall k, j | 0 <= k < |rules| && 0 <= j < |accounts| && rules[k].accountId == accounts[j].id
      ensures RuleFits(UnpauseRules(rules, id)[k], after[j])
    {
      assert RuleFits(rules[k], accounts[j]);
    }
  }

  lemma {:induction false} UnpauseKeepsSchedules(rules: seq<RecurringRule>, id: string, now: Instant)
    requires RulesValid(rules, now)
    ensures SameSchedules(rules, UnpauseRules(rules, id)) && RulesValid(UnpauseRules(rules, id), now)
  {
    hide RuleTimes;
    var after := UnpauseRules(rules, id);
    forall i | 0 <= i < |rules|
      ensures Terms(rules[i]) == Terms(after[i]) && rules[i].nextOccurrence == after[i].nextOccurrence
      ensures after[i].status.RuleActive? <==> after[i].pauseReason.None?
    {
      assert RuleShape(rules[i]);
    }
    hide RuleShape, Terms;
    SchedulesKeepValid(rules, after, now);
  }

  lemma {:induction false} RestoreParts(s: BankState, id: string, now: Instant) returns (i: nat)
    requires RestoreAccount(s, id, now).Done? && RestoreAccount(s, id, now).applied
    ensures FindAccount(s.accounts, id) == Some(i) && s.accounts[i].id == id
    ensures s.accounts[i].kind.Checking? ==> !HasOtherOpenChecking(s.accounts, id, s.accounts[i].currency)
    ensures RestoreAccount(s, id, now) == Ok(Reopen(s, id, now), true)
  {
    hide Reopen, HasOtherOpenChecking;
    i := FindAccount(s.accounts, id).value;
  }

  lemma {:induction false} ReopenKeepsSound(s: BankState, i: nat, now: Instant)
    requires Sound(s, now) && i < |s.accounts|
    requires s.accounts[i].kind.Checking? ==> !HasOtherOpenChecking(s.accounts, s.accounts[i].id, s.accounts[i].currency)
    ensures Sound(Reopen(s, s.accounts[i].id, now), now)
  {
    hide AccountsValid, RowsValid, NextSeqValid, PostedWithin, ClosedAtZero, TransfersPaired, RulesValid, RulesFit,
      RowsLinked, RulesContinuous, CardsValid, ContactsValid, RatesValid, RecentIdsValid, SameIdentity, SameSchedules,
      HasOtherOpenChecking, ReopenIn, UnfreezeCards, UnpauseRules;
    var id := s.accounts[i].id;
    ReopenKeepsIdentity(s.accounts, id, now);
    ReopenKeepsAccounts(s.accounts, i, s.demoBaseCurrency, now);
    ReopenKeepsWithin(s.transactions, s.accounts, id, now);
    ReopenKeepsClosed(s.transactions, s.accounts, id, now);
    ReopenKeepsCards(s.cards, s.accounts, id, now);
    ReopenKeepsFit(s.recurringRules, s.accounts, id, now);
    UnpauseKeepsSchedules(s.recurringRules, id, now);
    assert StandingChanged(s, Reopen(s, id, now), now);
    hide Sound, StandingChanged;
    StandingChangeKeepsSound(s, Reopen(s, id, now), now);
  }

  lemma {:induction false} RestoreNothing(s: BankState, id: string, now: Instant)
    requires RestoreAccount(s, id, now).Done? && !RestoreAccount(s, id, now).applied
    ensures RestoreAccount(s, id, now).state == s
  {
    hide Reopen, HasOtherOpenChecking;
  }

  /** Restoring an account keeps the whole invariant. */
  lemma {:induction false} RestoreKeepsSound(s: BankState, id: string, now: Instant)
    requires Sound(s, now) && RestoreAccount(s, id, now).Done?
    ensures Sound(RestoreAccount(s, id, now).state, now)
  {
    hide Sound, RestoreAccount, HasOtherOpenChecking, Reopen, FindAccount;
    if RestoreAccount(s, id, now).applied {
      var i := RestoreParts(s, id, now);
      ReopenKeepsSound(s, i, now);
    } else {
      RestoreNothing(s, id, now);
    }
  }

  // ---------------------------------------------------------------- restoring undoes closing

  lemma {:induction false} AccountsRestored(accounts: seq<Account>, i: nat, id: string, now: Instant, later: Instant)
    requires UniqueAccountIds(accounts) && i < |accounts| && accounts[i].id == id
    requires accounts[i].status.Open? && accounts[i].closedAt.None?
    ensures ReopenIn(CloseIn(accounts, id, now), id, later)
         == if accounts[i].kind.Savings? then WithAnchor(accounts, id, later) else accounts
  {
    forall k | 0 <= k < |accounts| && accounts[k].id == id
      ensures k == i
    {
    }
    assert ReopenedNow(ClosedNow(accounts[i], now), later)
        == if accounts[i].kind.Savings? then accounts[i].(accrualAnchor := Some(later)) else accounts[i];
  }

  /** No card or rule of an open account was stopped by a closing. */
  ghost predicate NothingStopped(s: BankState, id: string) {
    && (forall k :: 0 <= k < |s.cards| && s.cards[k].accountId == id ==>
          s.cards[k].freezeReason != Some(FrozenByClosing) && (s.cards[k].status.CardActive? ==> s.cards[k].freezeReason.None?))
    && (forall k :: 0 <= k < |s.recurringRules| && s.recurringRules[k].accountId == id ==>
          && s.recurringRules[k].pauseReason != Some(PausedByClosing)
          && (s.recurringRules[k].status.RuleActive? <==> s.recurringRules[k].pauseReason.None?))
  }

  lemma {:induction false} OpenStopsNothing(s: BankState, i: nat, now: Instant)
    requires Sound(s, now) && i < |s.accounts| && s.accounts[i].status.Open?
    ensures NothingStopped(s, s.accounts[i].id)
    ensures s.accounts[i].closedAt.None? && UniqueAccountIds(s.accounts)
  {
    hide CanonicalRoles, RowsValid, NextSeqValid, PostedWithin, ClosedAtZero, TransfersPaired, RowsLinked, RulesContinuous;
    assert AccountShape(s.accounts[i]);
    forall k | 0 <= k < |s.cards| && s.cards[k].accountId == s.accounts[i].id
      ensures s.cards[k].freezeReason != Some(FrozenByClosing)
    {
      assert CardFits(s.cards[k], s.accounts[i]);
    }
    forall k | 0 <= k < |s.recurringRules| && s.recurringRules[k].accountId == s.accounts[i].id
      ensures s.recurringRules[k].pauseReason != Some(PausedByClosing)
      ensures s.recurringRules[k].status.RuleActive? <==> s.recurringRules[k].pauseReason.None?
    {
      assert RuleFits(s.recurringRules[k], s.accounts[i]) && RuleShape(s.recurringRules[k]);
    }
  }

  lemma {:induction false} StoppedAndStarted(s: BankState, id: string)
    requires NothingStopped(s, id)
    ensures UnfreezeCards(FreezeCards(s.cards, id), id) == s.cards
    ensures UnpauseRules(PauseRules(s.recurringRules, id), id) == s.recurringRules
  {
  }

  lemma {:induction false} ReopenUndoesShut(s: BankState, i: nat, now: Instant, later: Instant)
    requires Sound(s, now) && i < |s.accounts| && s.accounts[i].status.Open?
    ensures var a := s.accounts[i];
            Reopen(Shut(s, a.id, now), a.id, later)
            == if a.kind.Savings? then s.(accounts := WithAnchor(s.accounts, a.id, later)) else s
  {
    hide Sound, NothingStopped, UniqueAccountIds, CloseIn, ReopenIn, FreezeCards, UnfreezeCards, PauseRules, UnpauseRules, WithAnchor;
    OpenStopsNothing(s, i, now);
    StoppedAndStarted(s, s.accounts[i].id);
    AccountsRestored(s.accounts, i, s.accounts[i].id, now, later);
  }

  lemma {:induction false} FindAfterClosing(accounts: seq<Account>, id: string, now: Instant, i: nat)
    requires FindAccount(accounts, id) == Some(i)
    ensures FindAccount(CloseIn(accounts, id, now), id) == Some(i)
    decreases |accounts|
  {
    if accounts[0].id != id {
      assert CloseIn(accounts, id, now)[1..] == CloseIn(accounts[1..], id, now);
      FindAfterClosing(accounts[1..], id, now, i - 1);
    }
  }

  lemma {:induction false} CurrencyStaysFree(accounts: seq<Account>, i: nat, now: Instant)
    requires UniqueCheckingCurrencies(accounts) && i < |accounts| && IsOpenChecking(accounts[i])
    ensures !HasOtherOpenChecking(CloseIn(accounts, accounts[i].id, now), accounts[i].id, accounts[i].currency)
  {
    forall k | 0 <= k < |accounts| && accounts[k].id != accounts[i].id && IsOpenChecking(accounts[k])
      ensures accounts[k].currency != accounts[i].currency
    {
    }
  }

  lemma {:induction false} CheckingCurrencies(s: BankState, now: Instant)
    requires Sound(s, now)
    ensures UniqueCheckingCurrencies(s.accounts)
  {
  }

  lemma {:induction false} RestoreAfterShut(s: BankState, i: nat, now: Instant, later: Instant)
    requires Sound(s, now) && i < |s.accounts| && s.accounts[i].status.Open?
    requires FindAccount(s.accounts, s.accounts[i].id) == Some(i)
    ensures var id := s.accounts[i].id;
            RestoreAccount(Shut(s, id, now), id, later) == Ok(Reopen(Shut(s, id, now), id, later), true)
  {
    hide Sound, UniqueCheckingCurrencies, HasOtherOpenChecking, Reopen, FindAccount, FreezeCards, PauseRules;
    FindAfterClosing(s.accounts, s.accounts[i].id, now, i);
    if s.accounts[i].kind.Checking? {
      CheckingCurrencies(s, now);
      CurrencyStaysFree(s.accounts, i, now);
    }
  }

  /** Restoring an account straight after closing it gives back the original state exactly, except that a
      savings account accrues from the restoration on. */
  lemma {:induction false} RestoreUndoesClose(s: BankState, id: string, now: Instant, later: Instant)
    requires Sound(s, now) && CloseAccount(s, id, now).Done? && CloseAccount(s, id, now).applied
    ensures var i := FindAccount(s.accounts, id).value;
            RestoreAccount(CloseAccount(s, id, now).state, id, later)
            == Ok(if s.accounts[i].kind.Savings? then s.(accounts := WithAnchor(s.accounts, id, later)) else s, true)
  {
    hide Sound, CloseAccount, RestoreAccount, SettleAccount, BalanceOf, CountOpen, Shut, Reopen, FindAccount, SettledFrom;
    var i, settled := CloseParts(s, id, now);
    FindGives(s.accounts, id, i);
    CloseAppendsNothing(s, id, now);
    ShutKeepsRows(settled, id, now);
    SettleAccountFrame(s, id, now);
    SettledFromAccounts(s, settled, i);
    IdentityIds(settled.accounts[i], s.accounts[i]);
    RowsWithinLimit(s, now);
    SettleAccountKeepsSound(s, id, now);
    SequenceStarted(settled, now);
    FindIsUnique(settled.accounts, i);
    RestoreAfterShut(settled, i, now, later);
    ReopenUndoesShut(settled, i, now, later);
    SettledAtMostAnchor(s, i, settled, now, later);
  }

  /** A settlement that posts nothing differs from its start by the anchor of a savings account only. */
  lemma {:induction false} SettledAtMostAnchor(s: BankState, i: nat, settled: BankState, now: Instant, later: Instant)
    requires i < |s.accounts| && FindAccount(s.accounts, s.accounts[i].id) == Some(i)
    requires SettleAccount(s, s.accounts[i].id, now) == Some(settled)
    requires settled.transactions == s.transactions
    ensures settled.accounts[i].kind == s.accounts[i].kind
    ensures s.accounts[i].kind.Checking? ==> settled == s
    ensures settled.(accounts := WithAnchor(settled.accounts, s.accounts[i].id, later))
         == s.(accounts := WithAnchor(s.accounts, s.accounts[i].id, later))
  {
    var id := s.accounts[i].id;
    hide BalanceOf, AccruedInterest, ElapsedDays, FindAccount;
    assert settled.accounts == s.accounts || settled.accounts == WithAnchor(s.accounts, id, now);
    assert WithAnchor(settled.accounts, id, later) == WithAnchor(s.accounts, id, later);
    assert settled == s.(accounts := settled.accounts);
  }
}
