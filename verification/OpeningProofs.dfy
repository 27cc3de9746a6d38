/** Opening an account, and what every lifecycle command leaves alone. */
module OpeningProofs {
  import opened Wrappers
  import opened Calendar
  import opened Currency
  import opened BankTypes
  import opened Ledger
  import opened Interest
  import opened BankValidity
  import opened Posting
  import opened Settlement
  import opened RecurringProofs
  import opened SavingsProofs
  import opened TransferProofs
  import opened TransferEffects
  import opened AccountLifecycle
  import opened LifecycleProofs

  // ---------------------------------------------------------------- one more account

  lemma {:induction false} NewIdIsUnused(accounts: seq<Account>, a: Account)
    requires forall j :: 0 <= j < |accounts| ==> accounts[j].id != a.id
    ensures a.id !in AccountIds(accounts)
    ensures AccountIds(accounts + [a]) == AccountIds(accounts) + {a.id}
  {
    var all := accounts + [a];
    forall x | x in AccountIds(accounts)
      ensures x in AccountIds(all)
    {
      var j :| 0 <= j < |accounts| && accounts[j].id == x;
      assert all[j].id == x;
    }
    assert all[|accounts|] == a;
  }

  /** The new account is an open checking account outside the four fixed roles. */
  ghost predicate IsAddable(accounts: seq<Account>, a: Account, now: Instant) {
    && |accounts| < MAX_ACCOUNTS
    && a.kind.Checking? && a.role.Custom? && a.status.Open?
    && AccountShape(a) && AccountTimes(a, now)
    && (forall j :: 0 <= j < |accounts| ==> accounts[j].id != a.id)
    && (forall j :: 0 <= j < |accounts| && IsOpenChecking(accounts[j]) ==> accounts[j].currency != a.currency)
  }

  lemma {:induction false} OnlyAccountRemains(accounts: seq<Account>, a: Account, role: AccountRole, c: Currency)
    requires a.role != role && exists i :: OnlyAccountOf(accounts, role, c, i)
    ensures exists i :: OnlyAccountOf(accounts + [a], role, c, i)
  {
    var i :| OnlyAccountOf(accounts, role, c, i);
    assert OnlyAccountOf(accounts + [a], role, c, i);
  }

  lemma {:induction false} AddKeepsRoles(accounts: seq<Account>, a: Account, base: Currency)
    requires CanonicalRoles(accounts, base) && a.role.Custom? && a.kind.Checking?
    ensures CanonicalRoles(accounts + [a], base)
  {
    OnlyAccountRemains(accounts, a, PrimaryChecking, base);
    OnlyAccountRemains(accounts, a, PrimarySavings, base);
    OnlyAccountRemains(accounts, a, Companion1, CompanionCurrencies(base).0);
    OnlyAccountRemains(accounts, a, Companion2, CompanionCurrencies(base).1);
    hide OnlyAccountOf, CompanionCurrencies;
  }

  lemma {:induction false} AddKeepsAccounts(accounts: seq<Account>, a: Account, base: Currency, now: Instant)
    requires AccountsValid(accounts, base, now) && IsAddable(accounts, a, now)
    ensures AccountsValid(accounts + [a], base, now)
  {
    hide AccountShape, AccountTimes, CanonicalRoles;
    AddKeepsRoles(accounts, a, base);
    assert (accounts + [a])[|accounts|] == a;
  }

  lemma {:induction false} AddKeepsWithin(txs: seq<Transaction>, accounts: seq<Account>, a: Account, now: Instant)
    requires PostedWithin(txs, accounts, now) && a.id !in AccountIds(accounts)
    requires AccountIds(accounts + [a]) == AccountIds(accounts) + {a.id}
    ensures PostedWithin(txs, accounts + [a], now)
  {
    hide RowFits, AccountIds;
  }

  lemma {:induction false} AddKeepsClosed(txs: seq<Transaction>, accounts: seq<Account>, a: Account)
    requires ClosedAtZero(txs, accounts) && a.status.Open?
    ensures ClosedAtZero(txs, accounts + [a])
  {
    hide HasRow, BalanceOf;
  }

  lemma {:induction false} AddKeepsPair(o: Transaction, n: Transaction, accounts: seq<Account>, a: Account)
    requires PairValid(o, n, accounts) && o.row.accountId != a.id && n.row.accountId != a.id
    ensures PairValid(o, n, accounts + [a])
  {
    hide LegsAgree, IsNumberedGroup, GroupId;
  }

  lemma {:induction false} AddKeepsPairs(txs: seq<Transaction>, accounts: seq<Account>, a: Account)
    requires TransfersPaired(txs, accounts)
    requires forall i :: 0 <= i < |txs| ==> txs[i].row.accountId != a.id
    ensures TransfersPaired(txs, accounts + [a])
  {
    hide PairValid;
    forall i | 0 <= i < |txs|
      ensures LegPaired(txs, accounts + [a], i)
    {
      assert LegPaired(txs, accounts, i);
      if txs[i].row.kind.TransferOwnOut? {
        AddKeepsPair(txs[i], txs[i + 1], accounts, a);
      }
      if txs[i].row.kind.TransferOwnIn? {
        AddKeepsPair(txs[i - 1], txs[i], accounts, a);
      }
    }
  }

  lemma {:induction false} AddKeepsFit(rules: seq<RecurringRule>, accounts: seq<Account>, a: Account)
    requires RulesFit(rules, accounts) && a.id !in AccountIds(accounts)
    requires AccountIds(accounts + [a]) == AccountIds(accounts) + {a.id}
    ensures RulesFit(rules, accounts + [a])
  {
    hide RuleFits, AccountIds;
  }

  lemma {:induction false} AddKeepsCards(cards: seq<Card>, accounts: seq<Account>, a: Account)
    requires CardsValid(cards, accounts) && a.id !in AccountIds(accounts)
    requires AccountIds(accounts + [a]) == AccountIds(accounts) + {a.id}
    ensures CardsValid(cards, accounts + [a])
  {
    hide CardFits, AccountIds;
  }

  lemma {:induction false} RowsKnown(s: BankState, a: Account, now: Instant)
    requires Sound(s, now) && a.id !in AccountIds(s.accounts)
    ensures forall i :: 0 <= i < |s.transactions| ==> s.transactions[i].row.accountId != a.id
  {
    hide AccountIds;
  }

  lemma {:induction false} AddKeepsSound(s: BankState, a: Account, now: Instant)
    requires Sound(s, now) && IsAddable(s.accounts, a, now)
    ensures Sound(s.(accounts := s.accounts + [a]), now)
  {
    NewIdIsUnused(s.accounts, a);
    hide AccountIds, AccountShape, AccountTimes;
    RowsKnown(s, a, now);
    hide AccountsValid, RowsValid, NextSeqValid, PostedWithin, ClosedAtZero, TransfersPaired, RulesValid, RulesFit,
      RowsLinked, RulesContinuous, CardsValid, ContactsValid, RatesValid, RecentIdsValid;
    AddKeepsAccounts(s.accounts, a, s.demoBaseCurrency, now);
    AddKeepsWithin(s.transactions, s.accounts, a, now);
    AddKeepsClosed(s.transactions, s.accounts, a);
    AddKeepsPairs(s.transactions, s.accounts, a);
    AddKeepsFit(s.recurringRules, s.accounts, a);
    AddKeepsCards(s.cards, s.accounts, a);
  }

  // ---------------------------------------------------------------- the opening command

  lemma {:induction false} AddParts(s: BankState, input: AddInput, now: Instant) returns (enlarged: BankState)
    requires AddAccount(s, input, now).Done?
    ensures input.name.Some? && IsAccountNumber(input.number)
    ensures |s.accounts| < MAX_ACCOUNTS && |s.transactions| < MAX_TRANSACTIONS
    ensures !IsTaken(s.accounts, input.accountId, input.number) && !HasOpenChecking(s.accounts, input.currency)
    ensures enlarged == s.(accounts := s.accounts + [NewAccount(input, now)])
    ensures AppendRow(enlarged, OpeningRow(input.accountId, now)).Some?
    ensures AddAccount(s, input, now) == Ok(AppendRow(enlarged, OpeningRow(input.accountId, now)).value, true)
  {
    hide AppendRow, IsTaken, HasOpenChecking, IsAccountNumber, IsAccountId, NewAccount, OpeningRow;
    enlarged := s.(accounts := s.accounts + [NewAccount(input, now)]);
  }

  lemma {:induction false} NewAccountShape(input: AddInput, now: Instant)
    requires input.name.Some?
    ensures var a := NewAccount(input, now);
            && (AccountShape(a) <==> IsNormalisedNumber(input.number)) && AccountTimes(a, now)
            && a.id == input.accountId && a.kind.Checking? && a.role.Custom? && a.status.Open? && a.currency == input.currency
  {
    hide IsNormalisedNumber;
    ThisInstant(now);
  }

  lemma {:induction false} NewIsAddable(s: BankState, input: AddInput, now: Instant)
    requires AddAccount(s, input, now).Done? && input.name.Some? && IsNormalisedNumber(input.number)
    ensures IsAddable(s.accounts, NewAccount(input, now), now)
  {
    var enlarged := AddParts(s, input, now);
    NewAccountShape(input, now);
    hide AddAccount, NewAccount, AccountShape, AccountTimes, IsNormalisedNumber, IsAccountNumber, AppendRow, OpeningRow;
  }

  lemma {:induction false} OpeningShape(accountId: string, now: Instant)
    ensures var d := OpeningRow(accountId, now);
            && DraftShape(d) && DraftTimes(d, now) && d.createdAt == now && d.accountId == accountId && d.amountMinor == 0
            && !IsOwnTransfer(d.kind) && d.recurringRuleId.None? && d.occurrenceKey.None?
  {
    ThisInstant(now);
  }

  lemma {:induction false} OpeningPostable(s: BankState, i: nat, now: Instant)
    requires Sound(s, now) && i < |s.accounts| && s.accounts[i].status.Open? && |s.transactions| < MAX_TRANSACTIONS
    ensures Postable(s, OpeningRow(s.accounts[i].id, now), now)
  {
    hide Sound, BalanceOf, NotAfter, OpeningRow, DraftShape, DraftTimes, RowFits;
    OpeningFits(s, i, now);
    AccountIsUnique(s, i, now);
    IdInAccountIds(s.accounts, i);
    hide AccountIds;
    OpeningShape(s.accounts[i].id, now);
    BalanceIsNatural(s, s.accounts[i].id, now);
  }

  lemma {:induction false} OpeningFits(s: BankState, i: nat, now: Instant)
    requires Sound(s, now) && i < |s.accounts| && s.accounts[i].status.Open?
    ensures RowFits(OpeningRow(s.accounts[i].id, now), s.accounts[i], now)
  {
    hide Sound, NotAfter;
    AccountFacts(s, i, now);
  }

  lemma {:induction false} AddKeeps(s: BankState, input: AddInput, now: Instant)
    requires Sound(s, now) && AddAccount(s, input, now).Done? && IsNormalisedNumber(input.number)
    ensures Sound(AddAccount(s, input, now).state, now)
  {
    hide Sound, AddAccount, IsNormalisedNumber, IsAccountNumber, IsTaken, HasOpenChecking, NewAccount, AppendRow, Postable, IsAddable, OpeningRow;
    var enlarged := AddParts(s, input, now);
    var a := NewAccount(input, now);
    NewIsAddable(s, input, now);
    NewAccountShape(input, now);
    AddKeepsSound(s, a, now);
    assert enlarged.accounts[|s.accounts|] == a;
    OpeningPostable(enlarged, |s.accounts|, now);
    OpeningShape(input.accountId, now);
    PostKeepsSound(enlarged, OpeningRow(input.accountId, now), now);
  }

  lemma {:induction false} ShapeOf(s: BankState, i: nat, now: Instant)
    requires Sound(s, now) && i < |s.accounts|
    ensures AccountShape(s.accounts[i])
  {
  }

  /** The number pattern lets spaces through that the invariant refuses: opening an account succeeds, and
      the new state is accepted exactly when its number has no leading, trailing or doubled space. */
  lemma {:induction false} AddIsSoundIffNormalised(s: BankState, input: AddInput, now: Instant)
    requires Sound(s, now) && AddAccount(s, input, now).Done?
    ensures Sound(AddAccount(s, input, now).state, now) <==> IsNormalisedNumber(input.number)
  {
    hide Sound, AddAccount, IsNormalisedNumber, IsAccountNumber, IsTaken, HasOpenChecking, NewAccount, AppendRow, AccountShape, OpeningRow;
    if IsNormalisedNumber(input.number) {
      AddKeeps(s, input, now);
    } else if Sound(AddAccount(s, input, now).state, now) {
      var enlarged := AddParts(s, input, now);
      AppendKeepsAccounts(enlarged, OpeningRow(input.accountId, now));
      assert enlarged.accounts[|s.accounts|] == NewAccount(input, now);
      ShapeOf(AddAccount(s, input, now).state, |s.accounts|, now);
      NewAccountShape(input, now);
    }
  }

  // ---------------------------------------------------------------- what stays

  lemma {:induction false} NewAccountMoves(s: BankState, a: Account, now: Instant)
    ensures Moved(s, s.(accounts := s.accounts + [a]), now)
  {
    hide IsPending, BalanceOf, Identity, Terms;
  }

  lemma {:induction false} AddMoves(s: BankState, input: AddInput, now: Instant)
    requires Sound(s, now) && AddAccount(s, input, now).Done?
    ensures Moved(s, AddAccount(s, input, now).state, now)
    ensures AddAccount(s, input, now).state.recentTransferIds == s.recentTransferIds
  {
    hide Sound, AddAccount, IsAccountNumber, IsTaken, HasOpenChecking, NewAccount, AppendRow, Moved, OpeningRow, NothingPending;
    var enlarged := AddParts(s, input, now);
    var row := OpeningRow(input.accountId, now);
    NewAccountMoves(s, NewAccount(input, now), now);
    OpenedNotPending(s, input, now);
    OpeningShape(input.accountId, now);
    PostedOnSettled(enlarged, row, now);
    AppendedParts(enlarged, row);
    var after := AppendRow(enlarged, row).value;
    MovedIs(enlarged, after, now);
    MovedTwice(s, enlarged, after, now);
  }

  lemma {:induction false} OpenedNotPending(s: BankState, input: AddInput, now: Instant)
    requires input.name.Some? && !IsTaken(s.accounts, input.accountId, input.number)
    ensures NothingPending(s.accounts + [NewAccount(input, now)], input.accountId, now)
  {
    hide ElapsedDays;
  }

  lemma {:induction false} ShutMoves(s: BankState, id: string, now: Instant)
    requires NothingPending(s.accounts, id, now)
    ensures Moved(s, Shut(s, id, now), now)
  {
    hide BalanceOf, ElapsedDays;
  }

  lemma {:induction false} ReopenMoves(s: BankState, i: nat, id: string, now: Instant)
    requires FindAccount(s.accounts, id) == Some(i) && UniqueAccountIds(s.accounts)
    ensures Moved(s, Reopen(s, id, now), now)
  {
    hide BalanceOf, EpochDay, FindAccount;
    assert EpochDay(now.date) - EpochDay(now.date) == 0;
  }

  lemma {:induction false} CloseMoves(s: BankState, id: string, now: Instant)
    requires Sound(s, now) && CloseAccount(s, id, now).Done?
    ensures Moved(s, CloseAccount(s, id, now).state, now)
    ensures CloseAccount(s, id, now).state.recentTransferIds == s.recentTransferIds
  {
    hide Sound, CloseAccount, SettleAccount, BalanceOf, CountOpen, FindAccount, Moved, NothingPending, SameStanding, UniqueAccountIds;
    if CloseAccount(s, id, now).applied {
      var i, settled := CloseParts(s, id, now);
      SequenceStarted(s, now);
      SettleMoves(s, id, now);
      SettleAccountFrame(s, id, now);
      ShutMoves(settled, id, now);
      MovedTwice(s, settled, Shut(settled, id, now), now);
    } else {
      CloseNothing(s, id, now);
      NothingMoved(s, now);
    }
  }

  lemma {:induction false} RestoreMoves(s: BankState, id: string, now: Instant)
    requires Sound(s, now) && RestoreAccount(s, id, now).Done?
    ensures Moved(s, RestoreAccount(s, id, now).state, now)
    ensures RestoreAccount(s, id, now).state.recentTransferIds == s.recentTransferIds
  {
    hide Sound, RestoreAccount, FindAccount, Moved, HasOtherOpenChecking, UniqueAccountIds;
    if RestoreAccount(s, id, now).applied {
      var i := RestoreParts(s, id, now);
      SequenceStarted(s, now);
      ReopenMoves(s, i, id, now);
    } else {
      RestoreNothing(s, id, now);
      NothingMoved(s, now);
    }
  }
}
