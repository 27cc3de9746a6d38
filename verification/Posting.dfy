/** Appending a row keeps the invariant: the facts about single rows and transfer pairs that every
    command shares. */
module Posting {
  import opened Wrappers
  import opened Calendar
  import opened Currency
  import opened Money
  import opened BankTypes
  import opened Ledger
  import opened BankValidity

  function Stamped(txs: seq<Transaction>, nextSeq: nat, d: Draft): Transaction {
    Transaction(TxId(nextSeq), nextSeq, BalanceOf(txs, d.accountId) + d.amountMinor, d)
  }

  ghost predicate FreshKey(txs: seq<Transaction>, d: Draft) {
    d.occurrenceKey.Some? ==> forall i :: 0 <= i < |txs| ==> txs[i].row.occurrenceKey != d.occurrenceKey
  }

  lemma {:induction false} PostKeepsRows(txs: seq<Transaction>, nextSeq: nat, d: Draft, now: Instant)
    requires RowsValid(txs, now) && NextSeqValid(txs, nextSeq)
    requires |txs| < MAX_TRANSACTIONS && nextSeq < MAX_SAFE
    requires DraftShape(d) && DraftTimes(d, now) && FreshKey(txs, d)
    requires 0 <= BalanceOf(txs, d.accountId) + d.amountMinor <= MAX_SAFE
    ensures var all := txs + [Stamped(txs, nextSeq, d)];
            RowsValid(all, now) && NextSeqValid(all, nextSeq + 1)
  {
    hide DraftShape, DraftTimes, TxId, BalanceOf, LedgerConsistent;
    var t := Stamped(txs, nextSeq, d);
    assert IsSafe(d.amountMinor) by { assert RowAmountSafe(d) by { SafeAmount(d); } }
    if txs != [] {
      assert RowShape(txs[|txs| - 1]);
    }
    ConsistentAppend(txs, t);
    var all := txs + [t];
    forall i | 0 <= i < |all|
      ensures RowShape(all[i]) && DraftTimes(all[i].row, now)
    {
      assert all[i] == if i < |txs| then txs[i] else t;
    }
  }

  predicate RowAmountSafe(d: Draft) { IsSafe(d.amountMinor) }

  lemma {:induction false} SafeAmount(d: Draft)
    requires DraftShape(d)
    ensures RowAmountSafe(d)
  {
  }

  lemma {:induction false} PostKeepsWithin(txs: seq<Transaction>, t: Transaction, accounts: seq<Account>, now: Instant)
    requires PostedWithin(txs, accounts, now)
    requires t.row.accountId in AccountIds(accounts)
    requires forall j :: 0 <= j < |accounts| && accounts[j].id == t.row.accountId ==> RowFits(t.row, accounts[j], now)
    ensures PostedWithin(txs + [t], accounts, now)
  {
    hide RowFits, AccountIds;
  }

  lemma {:induction false} PostKeepsClosed(txs: seq<Transaction>, t: Transaction, accounts: seq<Account>)
    requires ClosedAtZero(txs, accounts)
    requires forall j :: 0 <= j < |accounts| && accounts[j].id == t.row.accountId ==> accounts[j].status.Open?
    ensures ClosedAtZero(txs + [t], accounts)
  {
    hide BalanceOf, HasRow;
    var all := txs + [t];
    forall j | 0 <= j < |accounts| && accounts[j].status.Closed?
      ensures HasRow(all, accounts[j].id) && BalanceOf(all, accounts[j].id) == 0
    {
      BalanceAfterAppend(txs, t, accounts[j].id);
      RowRemains(txs, t, accounts[j].id);
    }
  }

  lemma {:induction false} RowRemains(txs: seq<Transaction>, t: Transaction, accountId: string)
    requires HasRow(txs, accountId)
    ensures HasRow(txs + [t], accountId)
  {
    var i :| 0 <= i < |txs| && txs[i].row.accountId == accountId;
    assert (txs + [t])[i] == txs[i];
  }

  lemma {:induction false} PostKeepsPairs(txs: seq<Transaction>, t: Transaction, accounts: seq<Account>)
    requires TransfersPaired(txs, accounts)
    requires !IsOwnTransfer(t.row.kind)
    ensures TransfersPaired(txs + [t], accounts)
  {
    hide PairValid;
    var all := txs + [t];
    forall i | 0 <= i < |all|
      ensures LegPaired(all, accounts, i)
    {
      if i < |txs| {
        assert LegPaired(txs, accounts, i);
      }
    }
  }

  lemma {:induction false} PairKeepsPairs(txs: seq<Transaction>, o: Transaction, n: Transaction, accounts: seq<Account>)
    requires TransfersPaired(txs, accounts)
    requires PairValid(o, n, accounts)
    requires forall i :: 0 <= i < |txs| ==> txs[i].row.transferGroupId != o.row.transferGroupId
    ensures TransfersPaired(txs + [o] + [n], accounts)
  {
    assert o.row.kind.TransferOwnOut? && n.row.kind.TransferOwnIn?;
    hide PairValid;
    var all := txs + [o] + [n];
    forall i | 0 <= i < |all|
      ensures LegPaired(all, accounts, i)
    {
      if i < |txs| {
        assert LegPaired(txs, accounts, i);
      }
    }
  }

  /** The group identifier of a new transfer is not taken: an older `grp_` identifier with digits only
      names the sequence number of its own outgoing leg. */
  lemma {:induction false} NewGroupIsFresh(txs: seq<Transaction>, nextSeq: nat, accounts: seq<Account>, now: Instant)
    requires RowsValid(txs, now) && NextSeqValid(txs, nextSeq) && TransfersPaired(txs, accounts)
    ensures IsNumberedGroup(GroupId(nextSeq))
    ensures forall i :: 0 <= i < |txs| ==> txs[i].row.transferGroupId != Some(GroupId(nextSeq))
  {
    GroupIdIsNumbered(nextSeq);
    hide GroupId, IsNumberedGroup, LedgerConsistent, UniqueKeys;
    forall i | 0 <= i < |txs| && txs[i].row.transferGroupId == Some(GroupId(nextSeq))
      ensures false
    {
      assert RowShape(txs[i]) && LegPaired(txs, accounts, i);
      var o := if txs[i].row.kind.TransferOwnOut? then i else i - 1;
      assert PairValid(txs[o], txs[o + 1], accounts);
      GroupIdNames(txs[o].seqNo, nextSeq);
      SeqBelowLast(txs, o);
    }
  }

  lemma {:induction false} GroupIdIsNumbered(n: nat)
    ensures IsNumberedGroup(GroupId(n))
  {
    assert GroupId(n)[4..] == Show(n);
  }

  lemma {:induction false} GroupIdNames(m: nat, n: nat)
    requires GroupId(m) == GroupId(n)
    ensures m == n
  {
    assert GroupId(m)[4..] == Show(m) && GroupId(n)[4..] == Show(n);
    ShowIsInjective(m, n);
  }

  lemma {:induction false} SeqBelowLast(txs: seq<Transaction>, i: nat)
    requires LedgerConsistent(txs) && i < |txs|
    ensures txs[i].seqNo <= txs[|txs| - 1].seqNo
    decreases |txs| - i
  {
    if i + 1 < |txs| {
      assert RowConsistent(txs, i + 1);
      SeqBelowLast(txs, i + 1);
    }
  }

  lemma {:induction false} PostKeepsLinks(txs: seq<Transaction>, t: Transaction, rules: seq<RecurringRule>)
    requires RowsLinked(txs, rules)
    requires t.row.recurringRuleId.Some? ==> t.row.recurringRuleId.value in RuleIds(rules)
    requires forall j :: 0 <= j < |rules| && t.row.recurringRuleId == Some(rules[j].id) ==> RowMatchesRule(t.row, rules[j])
    ensures RowsLinked(txs + [t], rules)
  {
    hide RowMatchesRule, RuleIds;
  }

  lemma {:induction false} MonthsAfterAppend(txs: seq<Transaction>, t: Transaction, ruleId: string)
    ensures MonthsPosted(txs + [t], ruleId)
         == MonthsPosted(txs, ruleId)
            + if IsRowOf(t.row, ruleId) then {MonthIndex(t.row.effectiveDate.value)} else {}
  {
    hide MonthIndex;
    var all := txs + [t];
    forall m | m in MonthsPosted(txs, ruleId)
      ensures m in MonthsPosted(all, ruleId)
    {
      var i :| 0 <= i < |txs| && IsRowOf(txs[i].row, ruleId) && MonthIndex(txs[i].row.effectiveDate.value) == m;
      assert all[i] == txs[i];
    }
    assert all[|txs|] == t;
  }

  lemma {:induction false} PostKeepsContinuous(txs: seq<Transaction>, t: Transaction, rules: seq<RecurringRule>)
    requires RulesContinuous(txs, rules)
    requires t.row.recurringRuleId.None?
    ensures RulesContinuous(txs + [t], rules)
  {
    hide MonthsPosted, Months, OnAnchorDay;
    forall j | 0 <= j < |rules|
      ensures RuleContinuous(txs + [t], rules[j])
    {
      assert RuleContinuous(txs, rules[j]);
      MonthsAfterAppend(txs, t, rules[j].id);
    }
  }

  // ---------------------------------------------------------------- one row on a state

  /** A row that an open account may take now. */
  ghost predicate Postable(s: BankState, d: Draft, now: Instant) {
    && d.createdAt == now
    && |s.transactions| < MAX_TRANSACTIONS
    && DraftShape(d) && DraftTimes(d, now) && FreshKey(s.transactions, d)
    && d.accountId in AccountIds(s.accounts)
    && (forall j :: 0 <= j < |s.accounts| && s.accounts[j].id == d.accountId
                    ==> s.accounts[j].status.Open? && RowFits(d, s.accounts[j], now))
    && BalanceOf(s.transactions, d.accountId) + d.amountMinor >= 0
  }

  /** A row that is no transfer leg keeps everything but the ties to the recurring rules. */
  lemma {:induction false} PostKeepsLedger(s: BankState, d: Draft, now: Instant)
    requires Sound(s, now) && Postable(s, d, now) && !IsOwnTransfer(d.kind)
    requires AppendRow(s, d).Some?
    ensures LedgerSound(AppendRow(s, d).value, now)
  {
    hide AccountsValid, RowsValid, NextSeqValid, PostedWithin, ClosedAtZero, TransfersPaired, RulesValid, RulesFit,
      RowsLinked, RulesContinuous, CardsValid, ContactsValid, RatesValid, RecentIdsValid,
      DraftShape, DraftTimes, FreshKey, RowFits, AccountIds, BalanceOf, TxId;
    var t := Stamped(s.transactions, s.nextSeq, d);
    PostKeepsRows(s.transactions, s.nextSeq, d, now);
    PostKeepsWithin(s.transactions, t, s.accounts, now);
    PostKeepsClosed(s.transactions, t, s.accounts);
    PostKeepsPairs(s.transactions, t, s.accounts);
  }

  ghost predicate LedgerSound(s: BankState, now: Instant) {
    && RowsValid(s.transactions, now)
    && NextSeqValid(s.transactions, s.nextSeq)
    && PostedWithin(s.transactions, s.accounts, now)
    && ClosedAtZero(s.transactions, s.accounts)
    && TransfersPaired(s.transactions, s.accounts)
  }

  ghost predicate RulesSound(s: BankState, now: Instant) {
    && RulesValid(s.recurringRules, now)
    && RulesFit(s.recurringRules, s.accounts)
    && RowsLinked(s.transactions, s.recurringRules)
    && RulesContinuous(s.transactions, s.recurringRules)
  }

  lemma {:induction false} PartsOfSound(s: BankState, now: Instant)
    requires Sound(s, now)
    ensures LedgerSound(s, now) && RulesSound(s, now)
  {
    hide AccountsValid, RowsValid, NextSeqValid, PostedWithin, ClosedAtZero, TransfersPaired, RulesValid, RulesFit,
      RowsLinked, RulesContinuous, CardsValid, ContactsValid, RatesValid, RecentIdsValid;
  }

  /** Ledger and rules may change together as long as the rest of the state does not. */
  lemma {:induction false} SoundFromParts(s: BankState, after: BankState, now: Instant)
    requires Sound(s, now)
    requires after == s.(transactions := after.transactions, nextSeq := after.nextSeq, recurringRules := after.recurringRules)
    requires LedgerSound(after, now) && RulesSound(after, now)
    ensures Sound(after, now)
  {
    hide AccountsValid, RowsValid, NextSeqValid, PostedWithin, ClosedAtZero, TransfersPaired, RulesValid, RulesFit,
      RowsLinked, RulesContinuous, CardsValid, ContactsValid, RatesValid, RecentIdsValid;
    assert after.accounts == s.accounts && after.cards == s.cards;
  }

  lemma {:induction false} AppendedParts(s: BankState, d: Draft)
    requires AppendRow(s, d).Some?
    ensures s.nextSeq > 0
    ensures AppendRow(s, d).value
            == s.(transactions := s.transactions + [Stamped(s.transactions, s.nextSeq, d)], nextSeq := s.nextSeq + 1)
  {
    hide BalanceOf, TxId;
  }

  lemma {:induction false} PostKeepsSound(s: BankState, d: Draft, now: Instant)
    requires Sound(s, now) && Postable(s, d, now)
    requires !IsOwnTransfer(d.kind) && d.recurringRuleId.None?
    requires AppendRow(s, d).Some?
    ensures Sound(AppendRow(s, d).value, now)
  {
    hide AccountsValid, RowsValid, NextSeqValid, PostedWithin, ClosedAtZero, TransfersPaired, RulesValid, RulesFit,
      RowsLinked, RulesContinuous, CardsValid, ContactsValid, RatesValid, RecentIdsValid, AppendRow, Stamped, LedgerSound, Postable;
    AppendedParts(s, d);
    var t := Stamped(s.transactions, s.nextSeq, d);
    assert t.row == d by { StampedRow(s.transactions, s.nextSeq, d); }
    PostKeepsLedger(s, d, now);
    PostKeepsLinks(s.transactions, t, s.recurringRules);
    PostKeepsContinuous(s.transactions, t, s.recurringRules);
    SoundFromParts(s, AppendRow(s, d).value, now);
  }

  lemma {:induction false} StampedRow(txs: seq<Transaction>, nextSeq: nat, d: Draft)
    ensures Stamped(txs, nextSeq, d).row == d
  {
  }

  // ---------------------------------------------------------------- balances of a sound state

  lemma {:induction false} BalanceIsNatural(s: BankState, accountId: string, now: Instant)
    requires Sound(s, now)
    ensures 0 <= BalanceOf(s.transactions, accountId) <= MAX_SAFE
  {
    var txs := s.transactions;
    assert forall k :: 0 <= k < |txs| ==> 0 <= txs[k].balanceAfterMinor <= MAX_SAFE by {
      forall k | 0 <= k < |txs|
        ensures 0 <= txs[k].balanceAfterMinor <= MAX_SAFE
      {
        assert RowShape(txs[k]);
      }
    }
    hide Sound;
    SnapshotIsNatural(txs, accountId);
  }

  lemma {:induction false} SnapshotIsNatural(txs: seq<Transaction>, accountId: string)
    requires forall k :: 0 <= k < |txs| ==> 0 <= txs[k].balanceAfterMinor <= MAX_SAFE
    ensures 0 <= BalanceOf(txs, accountId) <= MAX_SAFE
  {
    if txs != [] && txs[|txs| - 1].row.accountId != accountId {
      SnapshotIsNatural(txs[..|txs| - 1], accountId);
    }
  }

  lemma {:induction false} AccountIsUnique(s: BankState, i: nat, now: Instant)
    requires Sound(s, now) && i < |s.accounts|
    ensures forall j :: 0 <= j < |s.accounts| && s.accounts[j].id == s.accounts[i].id ==> j == i
  {
  }

  lemma {:induction false} RowsWithinLimit(s: BankState, now: Instant)
    requires Sound(s, now)
    ensures |s.transactions| <= MAX_TRANSACTIONS
  {
  }

  lemma {:induction false} ThisInstant(now: Instant)
    ensures NotAfter(now, now)
  {
  }
}
