/** Why a state stays acceptable to the last check of the invariant, which settles interest on a copy:
    no command changes a savings account that still has interest pending. */
module SavingsProofs {
  import opened Wrappers
  import opened Calendar
  import opened Currency
  import opened BankTypes
  import opened Ledger
  import opened Interest
  import opened BankValidity
  import opened Posting
  import opened Settlement

  ghost predicate KeptAt(s: BankState, after: BankState, j: nat, now: Instant)
    requires j < |s.accounts| && j < |after.accounts|
  {
    && after.accounts[j].kind == s.accounts[j].kind
    && after.accounts[j].id == s.accounts[j].id
    && (s.accounts[j].kind.Savings? ==>
          || !IsPending(after.accounts[j], now)
          || (&& after.accounts[j] == s.accounts[j]
              && BalanceOf(after.transactions, s.accounts[j].id) == BalanceOf(s.transactions, s.accounts[j].id)))
  }

  /** Every savings account has nothing pending afterwards, or it is exactly what it was. */
  ghost predicate SavingsKept(s: BankState, after: BankState, now: Instant) {
    && |s.accounts| <= |after.accounts|
    && forall j :: 0 <= j < |s.accounts| ==> KeptAt(s, after, j, now)
  }

  lemma {:induction false} SavingsKeptTwice(a: BankState, b: BankState, c: BankState, now: Instant)
    requires SavingsKept(a, b, now) && SavingsKept(b, c, now)
    ensures SavingsKept(a, c, now)
  {
    hide IsPending, BalanceOf;
    forall j | 0 <= j < |a.accounts|
      ensures KeptAt(a, c, j, now)
    {
      assert KeptAt(a, b, j, now) && KeptAt(b, c, j, now);
    }
  }

  lemma {:induction false} SavingsUntouched(s: BankState, after: BankState, now: Instant)
    requires after.accounts == s.accounts && after.transactions == s.transactions
    ensures SavingsKept(s, after, now)
  {
    hide IsPending, BalanceOf;
  }

  /** A row on an account that is no savings account, or has nothing pending. */
  lemma {:induction false} AppendKeepsSavings(s: BankState, d: Draft, now: Instant)
    requires AppendRow(s, d).Some?
    requires forall j :: 0 <= j < |s.accounts| && s.accounts[j].id == d.accountId && s.accounts[j].kind.Savings?
                         ==> !IsPending(s.accounts[j], now)
    ensures SavingsKept(s, AppendRow(s, d).value, now)
  {
    AppendedParts(s, d);
    hide IsPending, BalanceOf, AppendRow;
    var t := Stamped(s.transactions, s.nextSeq, d);
    forall j | 0 <= j < |s.accounts|
      ensures BalanceOf(s.transactions + [t], s.accounts[j].id)
           == if d.accountId == s.accounts[j].id then t.balanceAfterMinor else BalanceOf(s.transactions, s.accounts[j].id)
    {
      BalanceAfterAppend(s.transactions, t, s.accounts[j].id);
    }
  }

  ghost predicate NothingPending(accounts: seq<Account>, id: string, now: Instant) {
    forall j :: 0 <= j < |accounts| && accounts[j].id == id ==> !IsPending(accounts[j], now)
  }

  lemma {:induction false} AnchoredIsNotPending(accounts: seq<Account>, id: string, now: Instant)
    ensures NothingPending(WithAnchor(accounts, id, now), id, now)
  {
    hide EpochDay;
    assert EpochDay(now.date) - EpochDay(now.date) == 0;
  }

  /** Settling one account leaves nothing pending on it and no other account changed. */
  lemma {:induction false} SettleKeepsSavings(s: BankState, id: string, now: Instant)
    requires UniqueAccountIds(s.accounts) && SettleAccount(s, id, now).Some?
    ensures SavingsKept(s, SettleAccount(s, id, now).value, now)
    ensures NothingPending(SettleAccount(s, id, now).value.accounts, id, now)
  {
    hide AccruedInterest, BalanceOf, ElapsedDays, SettleAccount, IsPending, UniqueAccountIds, NothingPending, SavingsKept;
    var found := FindAccount(s.accounts, id);
    if found.None? {
      assert SettleAccount(s, id, now) == Some(s) by { UnknownIsSettled(s, id, now); }
      UnknownNotPending(s.accounts, id, now);
      SavingsUntouched(s, s, now);
    } else {
      SettleAccountCases(s, found.value, now);
      if IsPending(s.accounts[found.value], now) {
        AnchoredIsNotPending(s.accounts, id, now);
        PendingSettled(s, id, now);
      } else {
        OnlyOneOfId(s.accounts, found.value, now);
        SavingsUntouched(s, s, now);
      }
    }
  }

  lemma {:induction false} UnknownIsSettled(s: BankState, id: string, now: Instant)
    requires FindAccount(s.accounts, id).None?
    ensures SettleAccount(s, id, now) == Some(s)
  {
  }

  lemma {:induction false} UnknownNotPending(accounts: seq<Account>, id: string, now: Instant)
    requires FindAccount(accounts, id).None?
    ensures NothingPending(accounts, id, now)
  {
    hide IsPending;
  }

  lemma {:induction false} OnlyOneOfId(accounts: seq<Account>, i: nat, now: Instant)
    requires UniqueAccountIds(accounts) && i < |accounts| && !IsPending(accounts[i], now)
    ensures NothingPending(accounts, accounts[i].id, now)
  {
    hide IsPending;
  }

  /** Interest is posted to the account that is settled and to no other. */
  lemma {:induction false} SettleKeepsOtherBalances(s: BankState, id: string, other: string, now: Instant)
    requires SettleAccount(s, id, now).Some? && other != id
    ensures BalanceOf(SettleAccount(s, id, now).value.transactions, other) == BalanceOf(s.transactions, other)
  {
    hide AccruedInterest, BalanceOf, ElapsedDays, EarnsInterest, FindAccount, TxId;
    var after := SettleAccount(s, id, now).value;
    if after.transactions != s.transactions {
      BalanceAfterAppend(s.transactions, after.transactions[|s.transactions|], other);
    }
  }

  lemma {:induction false} PendingSettled(s: BankState, id: string, now: Instant)
    requires SettleAccount(s, id, now).Some?
    requires SettleAccount(s, id, now).value.accounts == WithAnchor(s.accounts, id, now)
    ensures SavingsKept(s, SettleAccount(s, id, now).value, now)
  {
    hide BalanceOf, SettleAccount, IsPending;
    AnchoredIsNotPending(s.accounts, id, now);
    var after := SettleAccount(s, id, now).value;
    forall j | 0 <= j < |s.accounts|
      ensures KeptAt(s, after, j, now)
    {
      if s.accounts[j].id != id {
        SettleKeepsOtherBalances(s, id, s.accounts[j].id, now);
      }
    }
  }

  // ---------------------------------------------------------------- the last check

  lemma {:induction false} SavingsDue(s: BankState, j: nat, now: Instant)
    requires IsOnlySavings(s.accounts, j)
    ensures NoInterestDue(s, now) <==> DueInterest(s.accounts[j], BalanceOf(s.transactions, s.accounts[j].id), now) <= 0
  {
    hide BalanceOf, AccruedInterest, ElapsedDays;
  }

  /** Settling a whole state posts one row when interest is due. */
  lemma {:induction false} SettlementRows(s: BankState, j: nat, now: Instant)
    requires IsOnlySavings(s.accounts, j) && FindAccount(s.accounts, s.accounts[j].id) == Some(j)
    requires SettleAll(s, now).Some?
    ensures |SettleAll(s, now).value.transactions|
         == |s.transactions| + if DueInterest(s.accounts[j], BalanceOf(s.transactions, s.accounts[j].id), now) > 0 then 1 else 0
  {
    hide AccruedInterest, BalanceOf, ElapsedDays, SettleAll, TxId, FindAccount;
    SettleAllIsOne(s, j, now);
  }

  lemma {:induction false} DueIsPending(a: Account, balance: int, now: Instant)
    requires DueInterest(a, balance, now) > 0
    ensures IsPending(a, now)
  {
  }

  lemma {:induction false} RoomLater(a: Account, balance: int, nextSeq: int, later: int, now: Instant)
    requires HasRoom(a, balance, nextSeq, now) && 0 < nextSeq <= later
    ensures HasRoom(a, balance, later, now) <==> DueInterest(a, balance, now) <= 0 || later < MAX_SAFE
  {
    hide DueInterest;
  }

  lemma {:induction false} RoomKept(s: BankState, after: BankState, j: nat, now: Instant)
    requires j < |s.accounts| && j < |after.accounts| && KeptAt(s, after, j, now) && s.accounts[j].kind.Savings?
    requires 0 < s.nextSeq <= after.nextSeq
    requires HasRoom(s.accounts[j], BalanceOf(s.transactions, s.accounts[j].id), s.nextSeq, now)
    ensures var a, balance := after.accounts[j], BalanceOf(after.transactions, after.accounts[j].id);
            HasRoom(a, balance, after.nextSeq, now) <==> DueInterest(a, balance, now) <= 0 || after.nextSeq < MAX_SAFE
  {
    hide IsPending, BalanceOf, DueInterest, HasRoom;
    var a, balance := after.accounts[j], BalanceOf(after.transactions, after.accounts[j].id);
    if IsPending(a, now) {
      RoomLater(a, balance, s.nextSeq, after.nextSeq, now);
    } else {
      assert DueInterest(a, balance, now) <= 0 by { if DueInterest(a, balance, now) > 0 { DueIsPending(a, balance, now); } }
      NothingNeedsRoom(a, balance, after.nextSeq, now);
    }
  }

  lemma {:induction false} NothingNeedsRoom(a: Account, balance: int, nextSeq: int, now: Instant)
    requires DueInterest(a, balance, now) <= 0
    ensures HasRoom(a, balance, nextSeq, now)
  {
    hide DueInterest;
  }

  /** The new state passes the last check too, unless interest is still pending and the sequence has
      just been exhausted. */
  lemma {:induction false} ValidUnlessExhausted(s: BankState, after: BankState, now: Instant)
    requires Valid(s, now) && Sound(after, now) && SavingsKept(s, after, now) && s.nextSeq <= after.nextSeq
    ensures Valid(after, now) <==> NoInterestDue(after, now) || after.nextSeq < MAX_SAFE
  {
    var j := SavingsOf(s, now);
    var k := SavingsOf(after, now);
    assert KeptAt(s, after, j, now);
    hide Sound, SettleAll, IsPending, BalanceOf, NoInterestDue, DueInterest, FindAccount, HasRoom;
    assert j == k by { hide KeptAt; SameSavings(s, after, j, k, now); }
    SettleNeedsRoom(s, j, now);
    SettleNeedsRoom(after, j, now);
    SavingsDue(after, j, now);
    SequenceStarted(s, now);
    RoomKept(s, after, j, now);
  }

  lemma {:induction false} SameSavings(s: BankState, after: BankState, j: nat, k: nat, now: Instant)
    requires IsOnlySavings(s.accounts, j) && IsOnlySavings(after.accounts, k)
    requires |s.accounts| <= |after.accounts| && KeptAt(s, after, j, now)
    ensures j == k
  {
    hide IsPending, BalanceOf;
  }

  lemma {:induction false} SequenceStarted(s: BankState, now: Instant)
    requires Sound(s, now)
    ensures s.nextSeq > 0 && UniqueAccountIds(s.accounts)
  {
  }
}
