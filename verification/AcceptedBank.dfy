/** What the parser's acceptance of a state promises to a reader, in plain terms. */
module AcceptedBank {
  import opened Wrappers
  import opened Calendar
  import opened Currency
  import opened Money
  import opened BankTypes
  import opened Ledger
  import opened BankValidity

  /** A is not later than b. */
  predicate Earlier(a: Instant, b: Instant) {
    || a.date.year < b.date.year
    || (a.date.year == b.date.year && a.date.month < b.date.month)
    || (a.date.year == b.date.year && a.date.month == b.date.month && a.date.day < b.date.day)
    || (a.date == b.date && a.ms <= b.ms)
  }

  ghost predicate OneWithRole(accounts: seq<Account>, role: AccountRole) {
    exists i: nat :: i < |accounts| && accounts[i].role == role && forall k :: 0 <= k < |accounts| && accounts[k].role == role ==> k == i
  }

  /** Accounts: at most 24, each with an identifier of its own, one for each fixed role, at least one open, no two
      open checking accounts in one currency; closed ones with a time of closing, savings ones with a rate of at
      most a hundred per cent and an anchor; no time in the future. */
  lemma {:induction false} AcceptedAccounts(s: BankState, now: Instant)
    requires Sound(s, now)
    ensures 1 <= |s.accounts| <= 24
    ensures forall i, j :: 0 <= i < j < |s.accounts| ==>
              && s.accounts[i].id != s.accounts[j].id
              && !(s.accounts[i].status.Open? && s.accounts[j].status.Open? && s.accounts[i].kind.Checking? && s.accounts[j].kind.Checking?
                   && s.accounts[i].currency == s.accounts[j].currency)
    ensures exists i :: 0 <= i < |s.accounts| && s.accounts[i].status.Open?
    ensures OneWithRole(s.accounts, PrimaryChecking) && OneWithRole(s.accounts, PrimarySavings)
    ensures OneWithRole(s.accounts, Companion1) && OneWithRole(s.accounts, Companion2)
    ensures forall i :: 0 <= i < |s.accounts| ==>
              var a := s.accounts[i];
              && Earlier(a.createdAt, now)
              && (a.status.Closed? <==> a.closedAt.Some?)
              && (a.closedAt.Some? ==> Earlier(a.createdAt, a.closedAt.value) && Earlier(a.closedAt.value, now))
              && (a.kind.Savings? <==> a.apy.Some?) && (a.kind.Savings? <==> a.accrualAnchor.Some?) && (a.kind.Savings? <==> a.role.PrimarySavings?)
              && (a.apy.Some? ==> 0.0 <= a.apy.value <= 1.0)
              && (a.accrualAnchor.Some? ==> Earlier(a.accrualAnchor.value, now))
              && (a.accrualAnchor.Some? && a.closedAt.Some? ==> Earlier(a.accrualAnchor.value, a.closedAt.value))
  {
    hide RowsValid, NextSeqValid, PostedWithin, ClosedAtZero, TransfersPaired, RulesValid, RulesFit, RowsLinked, RulesContinuous,
      CardsValid, ContactsValid, RatesValid, RecentIdsValid, IsNormalisedNumber, EpochDay;
    assert AccountsValid(s.accounts, s.demoBaseCurrency, now);
    hide Sound;
    RolesHeld(s.accounts, s.demoBaseCurrency);
    hide CanonicalRoles;
    forall i | 0 <= i < |s.accounts|
      ensures AccountShape(s.accounts[i]) && AccountTimes(s.accounts[i], now)
    {
    }
  }

  lemma {:induction false} RolesHeld(accounts: seq<Account>, base: Currency)
    requires CanonicalRoles(accounts, base)
    ensures OneWithRole(accounts, PrimaryChecking) && OneWithRole(accounts, PrimarySavings)
    ensures OneWithRole(accounts, Companion1) && OneWithRole(accounts, Companion2)
    ensures forall i :: 0 <= i < |accounts| ==> (accounts[i].role.PrimarySavings? <==> accounts[i].kind.Savings?)
  {
    var a :| OnlyAccountOf(accounts, PrimaryChecking, base, a);
    var b :| OnlyAccountOf(accounts, PrimarySavings, base, b);
    var c :| OnlyAccountOf(accounts, Companion1, CompanionCurrencies(base).0, c);
    var d :| OnlyAccountOf(accounts, Companion2, CompanionCurrencies(base).1, d);
  }

  /** Rows: at most 5000, numbered in increasing order and named after their numbers, the next number behind the
      last; every balance the sum of the account's amounts so far and not negative; no row in the future. */
  lemma {:induction false} AcceptedRows(s: BankState, now: Instant, i: nat)
    requires Sound(s, now) && i < |s.transactions|
    ensures |s.transactions| <= 5_000 && s.nextSeq == s.transactions[|s.transactions| - 1].seqNo + 1 <= MAX_SAFE
    ensures var t := s.transactions[i];
            && 0 < t.seqNo && t.id == "tx_" + Show(t.seqNo)
            && (i > 0 ==> s.transactions[i - 1].seqNo < t.seqNo)
            && 0 <= t.balanceAfterMinor <= MAX_SAFE
            && t.balanceAfterMinor == SumOf(s.transactions[..i + 1], t.row.accountId)
            && Earlier(t.row.createdAt, now)
  {
    hide AccountsValid, PostedWithin, ClosedAtZero, TransfersPaired, RulesValid, RulesFit, RowsLinked, RulesContinuous,
      CardsValid, ContactsValid, RatesValid, RecentIdsValid, DraftShape, SumOf, Show, UniqueKeys;
    assert RowShape(s.transactions[i]) && DraftTimes(s.transactions[i].row, now);
    assert RowConsistent(s.transactions, i);
  }

  /** Rows and accounts: every row belongs to an account, is not older than it and not younger than its closing;
      a row entered by hand is on a checking account and dated at most ten years back; a closed account is empty. */
  lemma {:induction false} AcceptedPostings(s: BankState, now: Instant, i: nat)
    requires Sound(s, now) && i < |s.transactions|
    ensures var d := s.transactions[i].row;
            exists j: nat ::
              && j < |s.accounts| && s.accounts[j].id == d.accountId
              && Earlier(s.accounts[j].createdAt, d.createdAt)
              && (s.accounts[j].status.Closed? ==> s.accounts[j].closedAt.Some? && Earlier(d.createdAt, s.accounts[j].closedAt.value)
                                                   && BalanceOf(s.transactions, d.accountId) == 0)
              && (d.kind.ManualIncome? || d.kind.ManualExpense? ==>
                    && s.accounts[j].kind.Checking? && d.effectiveDate.Some?
                    && AtMost(d.effectiveDate.value, d.createdAt.date)
                    && AtMost(d.createdAt.date, CalendarDate(d.effectiveDate.value.year + 10, d.effectiveDate.value.month, d.effectiveDate.value.day)))
  {
    hide AccountsValid, RowsValid, NextSeqValid, TransfersPaired, RulesValid, RulesFit, RowsLinked, RulesContinuous,
      CardsValid, ContactsValid, RatesValid, RecentIdsValid, BalanceOf, HasRow, IsAllowedEffectiveDate;
    var d := s.transactions[i].row;
    assert d.accountId in AccountIds(s.accounts);
    var j :| 0 <= j < |s.accounts| && s.accounts[j].id == d.accountId;
    assert RowFits(d, s.accounts[j], now);
    if d.effectiveDate.Some? {
      AllowedIsTenYears(d.effectiveDate.value, d.createdAt);
    }
  }

  /** Rules, cards and contacts: limited in number, each with an identifier of its own; a rule charges or credits a
      checking account, an open one while it is active; a card of a closed account is frozen. */
  lemma {:induction false} AcceptedRules(s: BankState, now: Instant)
    requires Sound(s, now)
    ensures |s.recurringRules| <= 64 && |s.cards| <= 64 && |s.contacts| <= 256 && |s.recentTransferIds| <= 50
    ensures forall i, j :: 0 <= i < j < |s.recurringRules| ==> s.recurringRules[i].id != s.recurringRules[j].id
    ensures forall i, j :: 0 <= i < j < |s.cards| ==> s.cards[i].id != s.cards[j].id
    ensures forall i, j :: 0 <= i < j < |s.contacts| ==> s.contacts[i].id != s.contacts[j].id
    ensures forall i, j :: 0 <= i < j < |s.recentTransferIds| ==> s.recentTransferIds[i] != s.recentTransferIds[j]
    ensures forall i, j :: 0 <= i < |s.recurringRules| && 0 <= j < |s.accounts| && s.recurringRules[i].accountId == s.accounts[j].id ==>
              && s.accounts[j].kind.Checking?
              && (s.recurringRules[i].status.RuleActive? ==> s.accounts[j].status.Open? && s.recurringRules[i].pauseReason.None?)
              && 0 < s.recurringRules[i].amountMinor <= MAX_SAFE && 1 <= s.recurringRules[i].anchorDay <= 31
              && Earlier(s.recurringRules[i].createdAt, now)
    ensures forall i, j :: 0 <= i < |s.cards| && 0 <= j < |s.accounts| && s.cards[i].accountId == s.accounts[j].id ==>
              && (s.accounts[j].status.Closed? ==> s.cards[i].status.CardFrozen?)
              && (s.cards[i].freezeReason == Some(FrozenByClosing) ==> s.accounts[j].status.Closed?)
    ensures forall i :: 0 <= i < |s.contacts| && s.contacts[i].lastTransferAt.Some? ==> Earlier(s.contacts[i].lastTransferAt.value, now)
    ensures s.exchangeRates.rates.usd == Decimal(1, 0) && Earlier(s.exchangeRates.fetchedAt, now) && AtMost(s.exchangeRates.asOf, now.date)
  {
    hide AccountsValid, RowsValid, NextSeqValid, TransfersPaired, RowsLinked, RulesContinuous, ClosedAtZero, PostedWithin,
      BalanceOf, HasRow, IsAnchored, MonthIndex, IsRuleId, IsStartBounded, IsClientTransferId, AccountIds, EpochDay;
    forall i | 0 <= i < |s.recurringRules|
      ensures RuleShape(s.recurringRules[i]) && RuleTimes(s.recurringRules[i], now)
    {
    }
    forall i, j | 0 <= i < |s.recurringRules| && 0 <= j < |s.accounts| && s.recurringRules[i].accountId == s.accounts[j].id
      ensures RuleFits(s.recurringRules[i], s.accounts[j])
    {
    }
    forall i, j | 0 <= i < |s.cards| && 0 <= j < |s.accounts| && s.cards[i].accountId == s.accounts[j].id
      ensures CardFits(s.cards[i], s.accounts[j])
    {
    }
  }

  // ---------------------------------------------------------------- the parts that stand alone, exactly

  /** Cards: at most 64, each with an identifier of its own and on an account of the bank; an active one has no
      reason to be frozen, one of a closed account is frozen, and only that account's closing is such a reason. */
  lemma {:induction false} CardsExactly(cards: seq<Card>, accounts: seq<Account>)
    ensures CardsValid(cards, accounts)
            <==> && |cards| <= 64
                 && (forall i, j :: 0 <= i < j < |cards| ==> cards[i].id != cards[j].id)
                 && (forall i :: 0 <= i < |cards| ==>
                       && (cards[i].status.CardActive? ==> cards[i].freezeReason.None?)
                       && (exists j :: 0 <= j < |accounts| && accounts[j].id == cards[i].accountId))
                 && (forall i, j :: 0 <= i < |cards| && 0 <= j < |accounts| && accounts[j].id == cards[i].accountId ==>
                       && (accounts[j].status.Closed? ==> cards[i].status.CardFrozen?)
                       && (cards[i].freezeReason == Some(FrozenByClosing) ==> accounts[j].status.Closed?))
  {
    assert forall id :: id in AccountIds(accounts) <==> exists j :: 0 <= j < |accounts| && accounts[j].id == id;
    hide AccountIds;
    if CardsValid(cards, accounts) {
      forall i, j | 0 <= i < |cards| && 0 <= j < |accounts| && accounts[j].id == cards[i].accountId
        ensures CardFits(cards[i], accounts[j])
      {
      }
    }
  }

  /** Contacts: at most 256, each with an identifier of its own and no transfer in the future. */
  lemma {:induction false} ContactsExactly(contacts: seq<Contact>, now: Instant)
    ensures ContactsValid(contacts, now)
            <==> && |contacts| <= 256
                 && (forall i, j :: 0 <= i < j < |contacts| ==> contacts[i].id != contacts[j].id)
                 && (forall i :: 0 <= i < |contacts| && contacts[i].lastTransferAt.Some? ==> Earlier(contacts[i].lastTransferAt.value, now))
  {
  }

  /** Remembered identifiers: at most 50, all different, each `ct_` with one to ninety-six characters behind it. */
  lemma {:induction false} RecentsExactly(ids: seq<string>)
    ensures RecentIdsValid(ids)
            <==> && |ids| <= 50
                 && (forall i, j :: 0 <= i < j < |ids| ==> ids[i] != ids[j])
                 && (forall i :: 0 <= i < |ids| ==>
                       && 4 <= |ids[i]| <= 99 && ids[i][..3] == "ct_"
                       && forall k :: 3 <= k < |ids[i]| ==> IsWordChar(ids[i][k]))
  {
  }

  /** Rates: one dollar is one dollar; not from the future, and fetched at most seven days after their date. */
  lemma {:induction false} RatesExactly(x: ExchangeRates, now: Instant)
    ensures RatesValid(x, now)
            <==> && x.rates.usd == Decimal(1, 0)
                 && AtMost(x.asOf, now.date) && Earlier(x.fetchedAt, now)
                 && exists n: nat :: n <= 7 && DaysLater(x.asOf, n) == Some(x.fetchedAt.date)
  {
    hide EpochDay, DaysLater, Before;
    var lag := EpochDay(x.fetchedAt.date) - EpochDay(x.asOf);
    forall n: nat
      ensures DaysLater(x.asOf, n) == Some(x.fetchedAt.date) <==> lag == n
    {
      DayNumbersCountDays(x.asOf, x.fetchedAt.date, n);
    }
    if 0 <= lag {
      assert DaysLater(x.asOf, lag) == Some(x.fetchedAt.date);
    }
    EarlierIs(x.fetchedAt, now);
  }

  lemma {:induction false} EarlierIs(a: Instant, b: Instant)
    ensures Earlier(a, b) <==> NotAfter(a, b)
  {
  }

  /** The sequence goes on after the last row, within the safe integers. */
  lemma {:induction false} SequenceExactly(txs: seq<Transaction>, nextSeq: int)
    ensures NextSeqValid(txs, nextSeq)
            <==> 0 < nextSeq <= MAX_SAFE && if txs == [] then nextSeq == 1 else nextSeq - 1 == txs[|txs| - 1].seqNo
  {
  }

  // ---------------------------------------------------------------- one account, one row, one rule, exactly

  /** An account by itself: its times in order, a closing time exactly when closed, rate and anchor exactly when it
      saves, a rate of at most a hundred per cent, a number without superfluous spaces. */
  lemma {:induction false} AccountExactly(a: Account, now: Instant)
    ensures AccountShape(a) && AccountTimes(a, now)
            <==> && Earlier(a.createdAt, now)
                 && (a.status.Closed? <==> a.closedAt.Some?)
                 && (a.closedAt.Some? ==> Earlier(a.createdAt, a.closedAt.value) && Earlier(a.closedAt.value, now))
                 && (a.kind.Savings? <==> a.apy.Some?) && (a.kind.Savings? <==> a.accrualAnchor.Some?)
                 && (a.apy.Some? ==> 0.0 <= a.apy.value <= 1.0)
                 && (a.accrualAnchor.Some? ==>
                       && AtMost(a.createdAt.date, a.accrualAnchor.value.date) && Earlier(a.accrualAnchor.value, now)
                       && (a.closedAt.Some? ==> Earlier(a.accrualAnchor.value, a.closedAt.value)))
                 && 1 <= |a.number| <= 40 && a.number[0] != ' ' && a.number[|a.number| - 1] != ' '
                 && (forall i :: 0 < i < |a.number| ==> !(a.number[i - 1] == ' ' && a.number[i] == ' '))
  {
    if a.accrualAnchor.Some? {
      EpochDayIsCalendarOrder(a.createdAt.date, a.accrualAnchor.value.date);
      EpochDayIsCalendarOrder(a.accrualAnchor.value.date, a.createdAt.date);
    }
    hide EpochDay;
  }

  /** A row by itself: numbered and named after its number, amounts within the safe integers, a key exactly with a
      rule and then with a date, a sign that fits its kind, a group exactly on a leg of an own transfer, and an
      exchange only there and not from its future. */
  lemma {:induction false} RowExactly(t: Transaction, now: Instant)
    ensures RowShape(t) && DraftTimes(t.row, now)
            <==> var d := t.row;
                 && 0 < t.seqNo <= MAX_SAFE && t.id == "tx_" + Show(t.seqNo)
                 && 0 <= t.balanceAfterMinor <= MAX_SAFE && -MAX_SAFE <= d.amountMinor <= MAX_SAFE
                 && (d.recurringRuleId.Some? <==> d.occurrenceKey.Some?) && (d.occurrenceKey.Some? ==> d.effectiveDate.Some?)
                 && (match d.kind
                     case ManualIncome => d.amountMinor > 0
                     case ManualExpense => d.amountMinor < 0
                     case BalanceAdjustment => d.amountMinor != 0
                     case _ => true)
                 && (d.kind.TransferOwnOut? || d.kind.TransferOwnIn? <==> d.transferGroupId.Some?)
                 && Earlier(d.createdAt, now)
                 && (d.fxSnapshot.Some? ==>
                       && (d.kind.TransferOwnOut? || d.kind.TransferOwnIn?) && FxSnapshotValid(d.fxSnapshot.value)
                       && AtMost(d.fxSnapshot.value.asOf, d.createdAt.date) && Earlier(d.fxSnapshot.value.fetchedAt, d.createdAt))
  {
    hide FxSnapshotValid, Show;
  }

  /** A row on its account: within its lifetime; one entered by hand on a checking account with a recent date that
      has come; a correction of savings dated on its day. */
  lemma {:induction false} PostingExactly(d: Draft, a: Account, now: Instant)
    ensures RowFits(d, a, now)
            <==> && Earlier(a.createdAt, d.createdAt)
                 && (a.status.Closed? ==> a.closedAt.Some? && Earlier(d.createdAt, a.closedAt.value))
                 && (d.kind.BalanceAdjustment? && a.kind.Savings? ==> d.effectiveDate == Some(d.createdAt.date))
                 && (d.kind.ManualIncome? || d.kind.ManualExpense? ==>
                       && a.kind.Checking? && d.effectiveDate.Some?
                       && AtMost(d.effectiveDate.value, d.createdAt.date) && AtMost(d.effectiveDate.value, now.date)
                       && AtMost(d.createdAt.date, CalendarDate(d.effectiveDate.value.year + 10, d.effectiveDate.value.month, d.effectiveDate.value.day)))
  {
    if d.effectiveDate.Some? {
      AllowedIsTenYears(d.effectiveDate.value, d.createdAt);
    }
    hide IsAllowedEffectiveDate;
  }

  /** The date is the anchor day of its month, or the last day of a shorter month. */
  predicate IsOnAnchor(d: Date, anchorDay: int) {
    && d.year >= 1 && 1 <= anchorDay <= 31
    && d.day == (if anchorDay < DaysInMonth(d.year, d.month) then anchorDay else DaysInMonth(d.year, d.month))
  }

  lemma {:induction false} AnchoredExactly(d: Date, anchorDay: int)
    ensures IsAnchored(d, anchorDay) <==> IsOnAnchor(d, anchorDay)
  {
  }

  /** A rule by itself: a positive safe amount, both dates on its anchor day and in order, a reason exactly when it
      is paused, started in a month that has come, within ten years before its creation or later in that month,
      with at most 120 dates due then. */
  lemma {:induction false} RuleExactly(r: RecurringRule, now: Instant)
    ensures RuleShape(r) && RuleTimes(r, now)
            <==> && 0 < r.amountMinor <= MAX_SAFE && IsRuleId(r.id)
                 && IsOnAnchor(r.startsOn, r.anchorDay) && IsOnAnchor(r.nextOccurrence, r.anchorDay)
                 && 12 * r.startsOn.year + r.startsOn.month <= 12 * r.nextOccurrence.year + r.nextOccurrence.month
                 && (r.status.RulePaused? <==> r.pauseReason.Some?)
                 && Earlier(r.createdAt, now)
                 && 12 * r.startsOn.year + r.startsOn.month <= 12 * now.date.year + now.date.month
                 && (|| (AtMost(r.startsOn, r.createdAt.date)
                         && AtMost(r.createdAt.date, CalendarDate(r.startsOn.year + 10, r.startsOn.month, r.startsOn.day)))
                     || (Before(r.createdAt.date, r.startsOn)
                         && r.startsOn.year == r.createdAt.date.year && r.startsOn.month == r.createdAt.date.month))
                 && DueThrough(r.startsOn, r.anchorDay, r.createdAt.date, 120).Some?
  {
    AnchoredExactly(r.startsOn, r.anchorDay);
    AnchoredExactly(r.nextOccurrence, r.anchorDay);
    AllowedIsTenYears(r.startsOn, r.createdAt);
    EarlierIs(r.createdAt, now);
    assert IsOnAnchor(r.startsOn, r.anchorDay) ==> 1 <= r.anchorDay <= 31;
    hide IsAnchored, IsOnAnchor, IsAllowedEffectiveDate, DueThrough, IsRuleId, Earlier, NotAfter;
  }
}
