/** The terms in which the outcome of a command is stated, apart from the functions that compute it: accounts by
    identifier, the age of a date, the worth of an amount, and the row that a command posts. */
module CommandTerms {
  import opened Wrappers
  import opened Calendar
  import opened Currency
  import opened CurrencyProofs
  import opened Money
  import opened BankTypes
  import opened Ledger
  import opened Interest
  import opened BankValidity
  import opened Posting
  import opened Settlement

  /** The account with this identifier stands at position `i`. */
  predicate IsAccount(s: BankState, id: string, i: nat) {
    i < |s.accounts| && s.accounts[i].id == id
  }

  predicate NoAccount(s: BankState, id: string) {
    forall i :: 0 <= i < |s.accounts| ==> s.accounts[i].id != id
  }

  /** The date has come, and not longer than ten years ago. */
  predicate IsRecent(d: CalendarDate, now: Instant) {
    IsIsoDate(d) && AtMost(d, now.date) && AtMost(now.date, CalendarDate(d.year + 10, d.month, d.day))
  }

  function RateFor(x: ExchangeRates, c: Currency): Rate {
    match c
    case USD => x.rates.usd
    case EUR => x.rates.eur
    case RUB => x.rates.rub
    case KZT => x.rates.kzt
    case THB => x.rates.thb
    case VND => x.rates.vnd
    case IDR => x.rates.idr
    case GEL => x.rates.gel
  }

  /** Worth at most a hundred thousand dollars. */
  predicate IsAffordable(amount: nat, c: Currency, x: ExchangeRates) {
    Major(amount, c) <= 100_000.0 * RateValue(RateFor(x, c))
  }

  /** The next row of the ledger, with its identifier, sequence number and balance. */
  function NextRow(s: BankState, row: Draft): Transaction
    requires s.nextSeq >= 0
  {
    Transaction("tx_" + Show(s.nextSeq), s.nextSeq, BalanceOf(s.transactions, row.accountId) + row.amountMinor, row)
  }

  /** The state with that one row at the end and nothing else changed. */
  function WithRow(s: BankState, row: Draft): BankState
    requires s.nextSeq >= 0
  {
    s.(transactions := s.transactions + [NextRow(s, row)], nextSeq := s.nextSeq + 1)
  }

  /** A sequence number is left, and amount and balance stay safe integers. */
  predicate HasRoomForRow(s: BankState, accountId: string, amount: int) {
    && 0 < s.nextSeq < MAX_SAFE && IsSafe(amount)
    && IsSafe(BalanceOf(s.transactions, accountId) + amount)
  }

  // ---------------------------------------------------------------- the terms and the functions

  lemma {:induction false} FindIsAccount(s: BankState, id: string, i: nat, now: Instant)
    requires Sound(s, now) && IsAccount(s, id, i)
    ensures FindAccount(s.accounts, id) == Some(i)
  {
    FindIsUnique(s.accounts, i);
  }

  lemma {:induction false} FindsNoAccount(s: BankState, id: string)
    ensures FindAccount(s.accounts, id).None? <==> NoAccount(s, id)
  {
    if FindAccount(s.accounts, id).None? {
      forall i | 0 <= i < |s.accounts|
        ensures s.accounts[i].id != id
      {
        assert s.accounts[i] in s.accounts;
      }
    }
  }

  lemma {:induction false} AllowedIsRecent(d: CalendarDate, now: Instant)
    ensures IsAllowedEffectiveDate(d, now) <==> IsRecent(d, now)
  {
    AllowedIsTenYears(d, now);
    hide IsAllowedEffectiveDate, IsIsoDate;
  }

  lemma {:induction false} LimitIsAffordable(amount: nat, c: Currency, x: ExchangeRates)
    ensures x.rates.Of(c) == RateFor(x, c)
    ensures WithinCommandUsdLimit(amount, c, x.rates.Of(c)) <==> IsAffordable(amount, c, x)
  {
    LimitIsHundredThousandDollars(amount, c, x.rates.Of(c));
    hide WithinCommandUsdLimit, Major, RateValue;
  }

  /** Appending fails exactly without room; otherwise it adds that one row. */
  lemma {:induction false} AppendIsNextRow(s: BankState, row: Draft)
    ensures AppendRow(s, row).Some? <==> HasRoomForRow(s, row.accountId, row.amountMinor)
    ensures AppendRow(s, row).Some? ==> s.nextSeq > 0 && AppendRow(s, row).value == WithRow(s, row)
  {
    hide BalanceOf, Show;
  }
}
