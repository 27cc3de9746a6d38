/** What interest settlement does to a sound state: at most one row, a fixed point within one UTC day,
    and the exact condition under which it has room. */
module Settlement {
  import opened Wrappers
  import opened Calendar
  import opened Currency
  import opened BankTypes
  import opened Ledger
  import opened Interest
  import opened BankValidity
  import opened Posting

  // ---------------------------------------------------------------- what account updates leave alone

  function Identity(a: Account): Account {
    a.(status := Open, closedAt := None, accrualAnchor := None)
  }

  ghost predicate SameIdentity(before: seq<Account>, after: seq<Account>) {
    && |before| == |after|
    && forall i :: 0 <= i < |before| ==> Identity(before[i]) == Identity(after[i])
  }

  ghost predicate SameStanding(before: seq<Account>, after: seq<Account>) {
    && SameIdentity(before, after)
    && forall i :: 0 <= i < |before| ==> before[i].status == after[i].status && before[i].closedAt == after[i].closedAt
  }

  lemma {:induction false} IdentityKeepsIds(before: seq<Account>, after: seq<Account>)
    requires SameIdentity(before, after)
    ensures AccountIds(before) == AccountIds(after)
  {
    forall i | 0 <= i < |before|
      ensures before[i].id == after[i].id
    {
      assert Identity(before[i]) == Identity(after[i]);
    }
  }

  lemma {:induction false} IdentityKeepsPairs(txs: seq<Transaction>, before: seq<Account>, after: seq<Account>)
    requires SameIdentity(before, after) && TransfersPaired(txs, before)
    ensures TransfersPaired(txs, after)
  {
    forall i | 0 <= i < |txs|
      ensures LegPaired(txs, after, i)
    {
      assert LegPaired(txs, before, i);
      if txs[i].row.kind.TransferOwnOut? {
        IdentityKeepsPair(txs[i], txs[i + 1], before, after);
      }
      if txs[i].row.kind.TransferOwnIn? {
        IdentityKeepsPair(txs[i - 1], txs[i], before, after);
      }
    }
  }

  lemma {:induction false} IdentityKeepsPair(o: Transaction, n: Transaction, before: seq<Account>, after: seq<Account>)
    requires SameIdentity(before, after) && PairValid(o, n, before)
    ensures PairValid(o, n, after)
  {
    hide LegsAgree, IsNumberedGroup, GroupId;
    forall j, k | 0 <= j < |after| && 0 <= k < |after| && after[j].id == o.row.accountId && after[k].id == n.row.accountId
      ensures LegsAgree(o.row, n.row, after[j].currency, after[k].currency)
    {
      assert Identity(before[j]) == Identity(after[j]) && Identity(before[k]) == Identity(after[k]);
      assert LegsAgree(o.row, n.row, before[j].currency, before[k].currency);
    }
  }

  lemma {:induction false} StandingKeepsWithin(txs: seq<Transaction>, before: seq<Account>, after: seq<Account>, now: Instant)
    requires SameStanding(before, after) && PostedWithin(txs, before, now)
    ensures PostedWithin(txs, after, now)
  {
    IdentityKeepsIds(before, after);
    forall i, j | 0 <= i < |txs| && 0 <= j < |after| && txs[i].row.accountId == after[j].id
      ensures RowFits(txs[i].row, after[j], now)
    {
      assert Identity(before[j]) == Identity(after[j]);
      StandingKeepsRow(txs[i].row, before[j], after[j], now);
    }
  }

  lemma {:induction false} StandingKeepsRow(d: Draft, a: Account, b: Account, now: Instant)
    requires Identity(a) == Identity(b) && a.status == b.status && a.closedAt == b.closedAt
    ensures RowFits(d, a, now) == RowFits(d, b, now)
  {
    hide IsAllowedEffectiveDate;
    assert a.kind == b.kind && a.createdAt == b.createdAt by {
      assert Identity(a).kind == a.kind && Identity(b).kind == b.kind;
      assert Identity(a).createdAt == a.createdAt && Identity(b).createdAt == b.createdAt;
    }
  }

  lemma {:induction false} StandingKeepsClosed(txs: seq<Transaction>, before: seq<Account>, after: seq<Account>)
    requires SameStanding(before, after) && ClosedAtZero(txs, before)
    ensures ClosedAtZero(txs, after)
  {
    hide HasRow, BalanceOf;
    forall j | 0 <= j < |after| && after[j].status.Closed?
      ensures HasRow(txs, after[j].id) && BalanceOf(txs, after[j].id) == 0
    {
      assert Identity(before[j]) == Identity(after[j]);
    }
  }

  lemma {:induction false} StandingKeepsRules(rules: seq<RecurringRule>, before: seq<Account>, after: seq<Account>)
    requires SameStanding(before, after) && RulesFit(rules, before)
    ensures RulesFit(rules, after)
  {
    IdentityKeepsIds(before, after);
    forall i, j | 0 <= i < |rules| && 0 <= j < |after| && rules[i].accountId == after[j].id
      ensures RuleFits(rules[i], after[j])
    {
      assert Identity(before[j]) == Identity(after[j]);
      assert RuleFits(rules[i], before[j]);
    }
  }

  lemma {:induction false} StandingKeepsCards(cards: seq<Card>, before: seq<Account>, after: seq<Account>)
    requires SameStanding(before, after) && CardsValid(cards, before)
    ensures CardsValid(cards, after)
  {
    IdentityKeepsIds(before, after);
    forall i, j | 0 <= i < |cards| && 0 <= j < |after| && cards[i].accountId == after[j].id
      ensures CardFits(cards[i], after[j])
    {
      assert Identity(before[j]) == Identity(after[j]);
      assert CardFits(cards[i], before[j]);
    }
  }

  /** The parts of `AccountsValid` that no account update touches. */
  lemma {:induction false} IdentityKeepsRoles(before: seq<Account>, after: seq<Account>, base: Currency)
    requires SameIdentity(before, after) && CanonicalRoles(before, base)
    ensures CanonicalRoles(after, base)
  {
    forall i | 0 <= i < |before|
      ensures before[i].role == after[i].role && before[i].kind == after[i].kind && before[i].currency == after[i].currency
    {
      assert Identity(before[i]) == Identity(after[i]);
    }
    forall role: AccountRole, c: Currency, i: nat | OnlyAccountOf(before, role, c, i)
      ensures OnlyAccountOf(after, role, c, i)
    {
    }
  }

  lemma {:induction false} IdentityKeepsUnique(before: seq<Account>, after: seq<Account>)
    requires SameIdentity(before, after) && UniqueAccountIds(before)
    ensures UniqueAccountIds(after)
  {
    forall i, j | 0 <= i < j < |after|
      ensures after[i].id != after[j].id
    {
      assert Identity(before[i]) == Identity(after[i]) && Identity(before[j]) == Identity(after[j]);
    }
  }

  // ---------------------------------------------------------------- moving the anchor

  lemma {:induction false} LaterInstantLaterDay(a: Instant, b: Instant)
    requires NotAfter(a, b)
    ensures EpochDay(a.date) <= EpochDay(b.date)
  {
    hide EpochDay, Before;
    EpochDayIsCalendarOrder(a.date, b.date);
    assert Before(a.date, b.date) || a.date == b.date by { NotAfterDates(a, b); }
  }

  lemma {:induction false} NotAfterDates(a: Instant, b: Instant)
    requires NotAfter(a, b)
    ensures Before(a.date, b.date) || a.date == b.date
  {
  }

  lemma {:induction false} AnchorKeepsStanding(accounts: seq<Account>, id: string, now: Instant)
    ensures SameStanding(accounts, WithAnchor(accounts, id, now))
  {
  }

  lemma {:induction false} AnchorKeepsShape(a: Account, now: Instant)
    requires AccountShape(a) && AccountTimes(a, now) && a.kind.Savings? && a.status.Open?
    ensures AccountShape(a.(accrualAnchor := Some(now))) && AccountTimes(a.(accrualAnchor := Some(now)), now)
  {
    hide EpochDay, IsNormalisedNumber;
    LaterInstantLaterDay(a.createdAt, now);
  }

  lemma {:induction false} AnchorKeepsAccounts(accounts: seq<Account>, id: string, base: Currency, now: Instant)
    requires AccountsValid(accounts, base, now)
    requires forall i :: 0 <= i < |accounts| && accounts[i].id == id ==> accounts[i].kind.Savings? && accounts[i].status.Open?
    ensures AccountsValid(WithAnchor(accounts, id, now), base, now)
  {
    hide AccountShape, AccountTimes, CanonicalRoles, UniqueAccountIds;
    var after := WithAnchor(accounts, id, now);
    AnchorKeepsStanding(accounts, id, now);
    IdentityKeepsRoles(accounts, after, base);
    IdentityKeepsUnique(accounts, after);
    forall i | 0 <= i < |after|
      ensures AccountShape(after[i]) && AccountTimes(after[i], now)
    {
      if accounts[i].id == id {
        AnchorKeepsShape(accounts[i], now);
      }
    }
    var k :| 0 <= k < |accounts| && accounts[k].status.Open?;
    assert after[k].status.Open?;
  }

  lemma {:induction false} AnchorKeepsSound(s: BankState, id: string, now: Instant)
    requires Sound(s, now)
    requires forall i :: 0 <= i < |s.accounts| && s.accounts[i].id == id
                         ==> s.accounts[i].kind.Savings? && s.accounts[i].status.Open?
    ensures Sound(s.(accounts := WithAnchor(s.accounts, id, now)), now)
  {
    hide AccountsValid, RowsValid, NextSeqValid, PostedWithin, ClosedAtZero, TransfersPaired, RulesValid, RulesFit,
      RowsLinked, RulesContinuous, CardsValid, ContactsValid, RatesValid, RecentIdsValid, SameStanding;
    var after := WithAnchor(s.accounts, id, now);
    AnchorKeepsStanding(s.accounts, id, now);
    StandingIsIdentity(s.accounts, after);
    AnchorKeepsAccounts(s.accounts, id, s.demoBaseCurrency, now);
    StandingKeepsWithin(s.transactions, s.accounts, after, now);
    StandingKeepsClosed(s.transactions, s.accounts, after);
    IdentityKeepsPairs(s.transactions, s.accounts, after);
    StandingKeepsRules(s.recurringRules, s.accounts, after);
    StandingKeepsCards(s.cards, s.accounts, after);
  }

  lemma {:induction false} StandingIsIdentity(before: seq<Account>, after: seq<Account>)
    requires SameStanding(before, after)
    ensures SameIdentity(before, after)
  {
  }

  // ---------------------------------------------------------------- settling one account

  lemma {:induction false} FindIsUnique(accounts: seq<Account>, i: nat)
    requires UniqueAccountIds(accounts) && i < |accounts|
    ensures FindAccount(accounts, accounts[i].id) == Some(i)
  {
  }

  lemma {:induction false} IdInAccountIds(accounts: seq<Account>, i: nat)
    requires i < |accounts|
    ensures accounts[i].id in AccountIds(accounts)
  {
  }

  /** The interest row that settling this account would post, or zero. */
  function DueInterest(a: Account, balance: int, now: Instant): int {
    if EarnsInterest(a) && ElapsedDays(a.accrualAnchor.value, now) > 0
    then AccruedInterest(balance, a.apy.value, a.accrualAnchor.value, now) else 0
  }

  lemma {:induction false} InterestRowPostable(s: BankState, i: nat, now: Instant)
    requires Sound(s, now) && |s.transactions| < MAX_TRANSACTIONS
    requires i < |s.accounts|
    requires var a := s.accounts[i];
             var due := DueInterest(a, BalanceOf(s.transactions, a.id), now);
             due > 0 && IsSafe(due)
    ensures var a := s.accounts[i];
            Postable(s, InterestRow(a.id, DueInterest(a, BalanceOf(s.transactions, a.id), now), now), now)
  {
    hide RowsValid, PostedWithin, ClosedAtZero, TransfersPaired, RulesValid, RulesFit, RowsLinked, RulesContinuous,
      CardsValid, CanonicalRoles, UniqueCheckingCurrencies, BalanceOf, Power, EpochDay, RoundHalfUp;
    IdInAccountIds(s.accounts, i);
    var a := s.accounts[i];
    assert AccountShape(a) && AccountTimes(a, now);
  }

  lemma {:induction false} SettleAccountKeepsSound(s: BankState, id: string, now: Instant)
    requires Sound(s, now)
    requires SettleAccount(s, id, now).Some?
    requires |SettleAccount(s, id, now).value.transactions| <= MAX_TRANSACTIONS
    ensures Sound(SettleAccount(s, id, now).value, now)
  {
    hide Sound, AccruedInterest, BalanceOf, ElapsedDays;
    var found := FindAccount(s.accounts, id);
    if found.Some? && EarnsInterest(s.accounts[found.value])
       && ElapsedDays(s.accounts[found.value].accrualAnchor.value, now) > 0 {
      var i := found.value;
      var due := DueInterest(s.accounts[i], BalanceOf(s.transactions, id), now);
      assert IsOpenSavings(s.accounts, id) by { EarnerIsOpenSavings(s, i, now); }
      if due <= 0 {
        AnchorKeepsSound(s, id, now);
      } else {
        var row := InterestRow(id, due, now);
        InterestRowPostable(s, i, now);
        PostKeepsSound(s, row, now);
        AnchorKeepsSound(AppendRow(s, row).value, id, now);
      }
    }
  }

  ghost predicate IsOpenSavings(accounts: seq<Account>, id: string) {
    forall i :: 0 <= i < |accounts| && accounts[i].id == id ==> accounts[i].kind.Savings? && accounts[i].status.Open?
  }

  lemma {:induction false} EarnerIsOpenSavings(s: BankState, i: nat, now: Instant)
    requires Sound(s, now) && i < |s.accounts| && EarnsInterest(s.accounts[i])
    ensures IsOpenSavings(s.accounts, s.accounts[i].id)
  {
  }

  // ---------------------------------------------------------------- settling the whole batch

  /** The roles admit exactly one savings account. */
  lemma {:induction false} OneSavingsAccount(accounts: seq<Account>, base: Currency) returns (j: nat)
    requires CanonicalRoles(accounts, base)
    ensures j < |accounts| && IsOnlySavings(accounts, j)
  {
    j :| OnlyAccountOf(accounts, PrimarySavings, base, j);
  }

  ghost predicate IsOnlySavings(accounts: seq<Account>, j: nat) {
    && j < |accounts|
    && forall k :: 0 <= k < |accounts| ==> (accounts[k].kind.Savings? <==> k == j)
  }

  lemma {:induction false} NoSavingsNoIds(accounts: seq<Account>)
    requires forall k :: 0 <= k < |accounts| ==> !accounts[k].kind.Savings?
    ensures SavingsIds(accounts) == []
  {
    if accounts != [] {
      NoSavingsNoIds(accounts[1..]);
    }
  }

  lemma {:induction false} SavingsIdsOfOne(accounts: seq<Account>, j: nat)
    requires IsOnlySavings(accounts, j)
    ensures SavingsIds(accounts) == if accounts[j].status.Open? then [accounts[j].id] else []
    decreases j
  {
    if j == 0 {
      NoSavingsNoIds(accounts[1..]);
      assert [accounts[0].id] + [] == [accounts[0].id];
    } else {
      SavingsIdsOfOne(accounts[1..], j - 1);
    }
  }

  /** Settling a sound state settles its one savings account. */
  lemma {:induction false} SettleAllIsOne(s: BankState, j: nat, now: Instant)
    requires IsOnlySavings(s.accounts, j)
    ensures SettleAll(s, now) == if s.accounts[j].status.Open? then SettleAccount(s, s.accounts[j].id, now) else Some(s)
  {
    hide SettleAccount;
    SavingsIdsOfOne(s.accounts, j);
    if s.accounts[j].status.Open? {
      var r := SettleAccount(s, s.accounts[j].id, now);
      if r.Some? {
        assert [s.accounts[j].id][1..] == [];
        assert SettleEach(r.value, [], now) == r;
      }
    }
  }

  /** What settlement changes: accrual anchors, and at most one row at the end of the ledger. */
  ghost predicate SettledFrom(s: BankState, after: BankState) {
    && after == s.(accounts := after.accounts, transactions := after.transactions, nextSeq := after.nextSeq)
    && SameStanding(s.accounts, after.accounts)
    && s.transactions <= after.transactions
    && |after.transactions| <= |s.transactions| + 1
    && after.nextSeq == s.nextSeq + (|after.transactions| - |s.transactions|)
  }

  lemma {:induction false} SettledFromSelf(s: BankState)
    ensures SettledFrom(s, s)
  {
  }

  lemma {:induction false} SettleAccountFrame(s: BankState, id: string, now: Instant)
    requires SettleAccount(s, id, now).Some?
    ensures SettledFrom(s, SettleAccount(s, id, now).value)
  {
    hide AccruedInterest, BalanceOf, ElapsedDays, EarnsInterest, TxId, SameStanding, FindAccount;
    AnchorKeepsStanding(s.accounts, id, now);
    SettledFromSelf(s);
  }

  lemma {:induction false} SettleAllFrame(s: BankState, now: Instant)
    requires Sound(s, now) && SettleAll(s, now).Some?
    ensures SettledFrom(s, SettleAll(s, now).value)
  {
    var j := SavingsOf(s, now);
    hide Sound, SettleAll, SettleAccount, SettledFrom;
    SettleAllIsOne(s, j, now);
    if s.accounts[j].status.Open? {
      SettleAccountFrame(s, s.accounts[j].id, now);
    } else {
      SettledFromSelf(s);
    }
  }

  lemma {:induction false} SavingsOf(s: BankState, now: Instant) returns (j: nat)
    requires Sound(s, now)
    ensures IsOnlySavings(s.accounts, j)
    ensures FindAccount(s.accounts, s.accounts[j].id) == Some(j)
  {
    j := OneSavingsAccount(s.accounts, s.demoBaseCurrency);
    FindIsUnique(s.accounts, j);
  }

  lemma {:induction false} SettleAllKeepsSound(s: BankState, now: Instant)
    requires Sound(s, now) && SettleAll(s, now).Some?
    requires |SettleAll(s, now).value.transactions| <= MAX_TRANSACTIONS
    ensures Sound(SettleAll(s, now).value, now)
  {
    var j := SavingsOf(s, now);
    hide Sound, SettleAll, SettleAccount;
    SettleAllIsOne(s, j, now);
    if s.accounts[j].status.Open? {
      SettleAccountKeepsSound(s, s.accounts[j].id, now);
    }
  }

  /** Room for the settlement of one savings account with this balance. */
  predicate HasRoom(a: Account, balance: int, nextSeq: int, now: Instant) {
    var due := DueInterest(a, balance, now);
    due > 0 ==> IsSafe(due) && IsSafe(balance + due) && 0 < nextSeq < MAX_SAFE
  }

  /** Settlement fails only for lack of room: an interest amount or balance beyond the safe integers, or
      an exhausted sequence. */
  lemma {:induction false} SettleNeedsRoom(s: BankState, j: nat, now: Instant)
    requires IsOnlySavings(s.accounts, j) && FindAccount(s.accounts, s.accounts[j].id) == Some(j)
    ensures SettleAll(s, now).Some?
            <==> HasRoom(s.accounts[j], BalanceOf(s.transactions, s.accounts[j].id), s.nextSeq, now)
  {
    hide AccruedInterest, BalanceOf, ElapsedDays, SettleAll, TxId;
    SettleAllIsOne(s, j, now);
  }

  /** After one settlement every later one on the same UTC day changes nothing. */
  lemma {:induction false} SettledIsFixed(s: BankState, now: Instant, later: Instant)
    requires Sound(s, now) && SettleAll(s, now).Some?
    requires later.date == now.date
    ensures SettleAll(SettleAll(s, now).value, later) == SettleAll(s, now)
    ensures NoInterestDue(SettleAll(s, now).value, later)
  {
    var j := SavingsOf(s, now);
    hide Sound, SettleAll, SettleAccount, IsPending, NoInterestDue;
    var after := SettleAll(s, now).value;
    SettleAllIsOne(s, j, now);
    if s.accounts[j].status.Open? {
      SettleAccountFrame(s, s.accounts[j].id, now);
      SettledAccount(s, j, now, later);
    }
    StandingKeepsSavings(s.accounts, after.accounts, j);
    NothingDue(after, j, later);
    SettleAllIsOne(after, j, later);
  }

  lemma {:induction false} StandingKeepsSavings(before: seq<Account>, after: seq<Account>, j: nat)
    requires IsOnlySavings(before, j)
    requires SameStanding(before, after) || before == after
    ensures IsOnlySavings(after, j)
  {
    forall k | 0 <= k < |before|
      ensures before[k].kind == after[k].kind
    {
      if SameStanding(before, after) {
        assert Identity(before[k]) == Identity(after[k]);
      }
    }
  }

  /** No savings account would receive an interest row now. */
  predicate NoInterestDue(s: BankState, now: Instant) {
    forall k :: 0 <= k < |s.accounts|
                ==> DueInterest(s.accounts[k], BalanceOf(s.transactions, s.accounts[k].id), now) <= 0
  }

  predicate IsPending(a: Account, now: Instant) {
    EarnsInterest(a) && ElapsedDays(a.accrualAnchor.value, now) > 0
  }

  /** A pending account is anchored at now; any other settlement leaves the state as it is. */
  lemma {:induction false} SettleAccountCases(s: BankState, j: nat, now: Instant)
    requires j < |s.accounts| && FindAccount(s.accounts, s.accounts[j].id) == Some(j)
    ensures var after := SettleAccount(s, s.accounts[j].id, now);
            if IsPending(s.accounts[j], now)
            then after.Some? ==> after.value.accounts == WithAnchor(s.accounts, s.accounts[j].id, now)
            else after == Some(s)
  {
    hide BalanceOf, AccruedInterest, ElapsedDays, AppendRow, EarnsInterest, FindAccount;
    var a := s.accounts[j];
    AppendKeepsAccounts(s, InterestRow(a.id, DueInterest(a, BalanceOf(s.transactions, a.id), now), now));
  }

  lemma {:induction false} NotPendingIsSettled(s: BankState, j: nat, later: Instant)
    requires j < |s.accounts| && FindAccount(s.accounts, s.accounts[j].id) == Some(j)
    requires !IsPending(s.accounts[j], later)
    ensures SettleAccount(s, s.accounts[j].id, later) == Some(s)
  {
    hide SettleAccount;
    SettleAccountCases(s, j, later);
  }

  lemma {:induction false} NotPendingNextTime(a: Account, now: Instant, later: Instant)
    requires later.date == now.date
    ensures !IsPending(a.(accrualAnchor := Some(now)), later)
    ensures !IsPending(a, now) ==> !IsPending(a, later)
  {
    hide EpochDay;
  }

  lemma {:induction false} SettledAccount(s: BankState, j: nat, now: Instant, later: Instant)
    requires IsOnlySavings(s.accounts, j) && FindAccount(s.accounts, s.accounts[j].id) == Some(j)
    requires s.accounts[j].status.Open? && later.date == now.date
    requires SettleAccount(s, s.accounts[j].id, now).Some?
    ensures var after := SettleAccount(s, s.accounts[j].id, now).value;
            && |after.accounts| == |s.accounts|
            && after.accounts[j].status.Open?
            && !IsPending(after.accounts[j], later)
            && SettleAccount(after, after.accounts[j].id, later) == Some(after)
  {
    hide SettleAccount, FindAccount, IsPending;
    var a := s.accounts[j];
    var after := SettleAccount(s, a.id, now).value;
    SettleAccountCases(s, j, now);
    NotPendingNextTime(a, now, later);
    AnchoredFind(s.accounts, a.id, now, j);
    NotPendingIsSettled(after, j, later);
  }

  lemma {:induction false} NothingDue(s: BankState, j: nat, now: Instant)
    requires j < |s.accounts| && (s.accounts[j].status.Open? ==> !IsPending(s.accounts[j], now))
    requires forall k :: 0 <= k < |s.accounts| && k != j ==> !s.accounts[k].kind.Savings?
    ensures NoInterestDue(s, now)
  {
    hide BalanceOf, AccruedInterest, ElapsedDays;
  }

  lemma {:induction false} AppendKeepsAccounts(s: BankState, d: Draft)
    ensures AppendRow(s, d).Some? ==> AppendRow(s, d).value.accounts == s.accounts
  {
  }

  lemma {:induction false} AnchoredFind(accounts: seq<Account>, id: string, now: Instant, j: nat)
    requires FindAccount(accounts, id) == Some(j)
    ensures FindAccount(WithAnchor(accounts, id, now), id) == Some(j)
    decreases |accounts|
  {
    var after := WithAnchor(accounts, id, now);
    if accounts[0].id != id {
      assert after[1..] == WithAnchor(accounts[1..], id, now);
      AnchoredFind(accounts[1..], id, now, j - 1);
    }
  }

  lemma {:induction false} FindGives(accounts: seq<Account>, id: string, i: nat)
    requires FindAccount(accounts, id) == Some(i)
    ensures i < |accounts| && accounts[i].id == id
  {
  }
}
