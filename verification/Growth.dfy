/** What no command ever takes back: ledger rows, accounts, rules, the sequence, and who owns the bank. */
module Growth {
  import opened BankTypes
  import opened Ledger
  import opened Settlement
  import opened RecurringProofs
  import opened CatchUpProofs

  ghost predicate AccountsKept(before: seq<Account>, after: seq<Account>) {
    |before| <= |after| && forall i :: 0 <= i < |before| ==> Identity(before[i]) == Identity(after[i])
  }

  ghost predicate RulesKept(before: seq<RecurringRule>, after: seq<RecurringRule>) {
    |before| <= |after| && forall i :: 0 <= i < |before| ==> Terms(before[i]) == Terms(after[i])
  }

  /** The old ledger is a prefix of the new one and the sequence counts its rows; accounts keep their
      identity and rules their terms; the owner, the fixture currency and the rates are the same. */
  ghost predicate Grown(s: BankState, after: BankState) {
    && s.transactions <= after.transactions
    && after.nextSeq == s.nextSeq + (|after.transactions| - |s.transactions|)
    && AccountsKept(s.accounts, after.accounts)
    && RulesKept(s.recurringRules, after.recurringRules)
    && after.profile.telegramId == s.profile.telegramId
    && after.demoBaseCurrency == s.demoBaseCurrency
    && after.exchangeRates == s.exchangeRates
  }

  lemma {:induction false} GrownTwice(a: BankState, b: BankState, c: BankState)
    requires Grown(a, b) && Grown(b, c)
    ensures Grown(a, c)
  {
    hide Identity, Terms;
  }

  lemma {:induction false} GrownNot(s: BankState)
    ensures Grown(s, s)
  {
    hide Identity, Terms;
  }

  lemma {:induction false} SettledGrown(s: BankState, after: BankState)
    requires SettledFrom(s, after)
    ensures Grown(s, after)
  {
    hide Identity, Terms;
  }

  lemma {:induction false} ExtendedGrown(s: BankState, after: BankState, n: nat)
    requires Extends(s, after, n)
    ensures Grown(s, after)
  {
    hide Identity, Terms;
  }

  lemma {:induction false} CaughtUpGrown(s: BankState, after: BankState)
    requires CaughtUpFrom(s, after)
    ensures Grown(s, after)
  {
    hide Identity, Terms, BalanceOf;
  }
}
