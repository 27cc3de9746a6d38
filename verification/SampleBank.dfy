/** One concrete bank. The invariant accepts it, and it shows where a successful command leaves a state
    that the invariant refuses. */
module SampleBank {
  import opened Wrappers
  import opened Calendar
  import opened Currency
  import opened BankTypes
  import opened Ledger
  import opened Interest
  import opened BankValidity
  import opened Settlement
  import opened AccountLifecycle
  import opened LifecycleProofs
  import opened OpeningProofs
  import opened BankCommands
  import opened CommandProofs
  import opened Preservation

  const DAY0: Instant := UtcInstant(CalendarDate(2026, 1, 10), 0)
  const DAY1: Instant := UtcInstant(CalendarDate(2026, 1, 11), 0)

  const MAIN := Account("acc_1", Checking, PrimaryChecking, Open, None, "Main", USD, "US00000001", None, None, DAY0)
  const VAULT := Account("acc_2", Savings, PrimarySavings, Open, None, "Vault", USD, "US00000002", Some(1.0), Some(DAY0), DAY0)
  const EURO := Account("acc_3", Checking, Companion1, Open, None, "Euro", EUR, "DE00000003", None, None, DAY0)
  const TENGE := Account("acc_4", Checking, Companion2, Open, None, "Tenge", KZT, "KZ00000004", None, None, DAY0)

  const RENT := RecurringRule("rr_1", "acc_1", Expense, 50_000, "Rent", None, "home", 15, CalendarDate(2026, 1, 15),
                              CalendarDate(2026, 1, 15), RuleActive, None, DAY0)

  const FIRST_SEQ := MAX_SAFE - 2

  /** A million cents of savings, in the last row but one that the sequence has room for. */
  const SEED_ROW := Transaction(TxId(FIRST_SEQ), FIRST_SEQ, 1_000_000,
    Draft("acc_2", 1_000_000, Seed, Some("Seed"), None, None, None, None, None, None, None, DAY0))

  const RATES := ExchangeRates(CalendarDate(2026, 1, 10), DAY0, Fallback, RateTable(ONE, ONE, ONE, ONE, ONE, ONE, ONE, ONE))

  const BANK := BankState(USD, USD, RATES, [MAIN, VAULT, EURO, TENGE], [SEED_ROW], [], [], Profile("Ann", None),
                          MAX_SAFE - 1, [], [RENT])

  lemma {:induction false} SampleNumbers()
    ensures AccountShape(MAIN) && AccountShape(VAULT) && AccountShape(EURO) && AccountShape(TENGE)
  {
    hide EpochDay;
    assert IsNormalisedNumber(MAIN.number) && IsNormalisedNumber(VAULT.number);
    assert IsNormalisedNumber(EURO.number) && IsNormalisedNumber(TENGE.number);
  }

  lemma {:induction false} SampleIds()
    ensures UniqueAccountIds(BANK.accounts)
  {
    var a := BANK.accounts;
    assert a[0].id[4] == '1' && a[1].id[4] == '2' && a[2].id[4] == '3' && a[3].id[4] == '4';
  }

  lemma {:induction false} SampleCurrencies()
    ensures UniqueCheckingCurrencies(BANK.accounts)
  {
    var a := BANK.accounts;
    forall i, j | 0 <= i < j < |a| && IsOpenChecking(a[i]) && IsOpenChecking(a[j])
      ensures a[i].currency != a[j].currency
    {
      assert a[i] == MAIN || a[i] == EURO;
      assert a[j] == EURO || a[j] == TENGE;
    }
  }

  lemma {:induction false} SampleRoles()
    ensures CanonicalRoles(BANK.accounts, USD)
  {
    var a := BANK.accounts;
    assert OnlyAccountOf(a, PrimaryChecking, USD, 0) && OnlyAccountOf(a, PrimarySavings, USD, 1);
    assert OnlyAccountOf(a, Companion1, CompanionCurrencies(USD).0, 2);
    assert OnlyAccountOf(a, Companion2, CompanionCurrencies(USD).1, 3);
  }

  lemma {:induction false} SampleAccounts()
    ensures AccountsValid(BANK.accounts, USD, DAY1)
  {
    SampleNumbers();
    SampleRoles();
    SampleIds();
    SampleCurrencies();
    hide AccountShape, CanonicalRoles, UniqueCheckingCurrencies, UniqueAccountIds;
    assert BANK.accounts[0].status.Open?;
  }

  lemma {:induction false} SampleRows()
    ensures RowsValid(BANK.transactions, DAY1) && NextSeqValid(BANK.transactions, BANK.nextSeq)
    ensures ClosedAtZero(BANK.transactions, BANK.accounts) && TransfersPaired(BANK.transactions, BANK.accounts)
  {
    var txs := BANK.transactions;
    assert txs[..1] == [SEED_ROW] && txs[..0] == [];
    assert SumOf([SEED_ROW], "acc_2") == 1_000_000 by { assert [SEED_ROW][..0] == []; }
    assert RowConsistent(txs, 0);
  }

  lemma {:induction false} SampleWithin()
    ensures PostedWithin(BANK.transactions, BANK.accounts, DAY1)
  {
    assert BANK.accounts[1].id == "acc_2";
  }

  lemma {:induction false} SampleSchedule()
    ensures RuleShape(RENT) && RuleTimes(RENT, DAY1)
  {
    assert IsRuleId(RENT.id);
    assert MonthOccurrence(2026, 1, 15) == Some(RENT.startsOn);
    assert DueThrough(RENT.startsOn, 15, DAY0.date, 120) == Some(Schedule([], RENT.startsOn));
  }

  lemma {:induction false} SampleRules()
    ensures RulesValid(BANK.recurringRules, DAY1) && RulesFit(BANK.recurringRules, BANK.accounts)
    ensures RowsLinked(BANK.transactions, BANK.recurringRules) && RulesContinuous(BANK.transactions, BANK.recurringRules)
  {
    SampleSchedule();
    hide RuleShape, RuleTimes;
    var a := BANK.accounts;
    assert a[0].id[4] == '1' && a[1].id[4] == '2' && a[2].id[4] == '3' && a[3].id[4] == '4';
    assert MonthsPosted(BANK.transactions, RENT.id) == {};
    assert Months(MonthIndex(RENT.startsOn), MonthIndex(RENT.nextOccurrence)) == {};
  }

  lemma {:induction false} SampleRates()
    ensures RatesValid(RATES, DAY1) && ContactsValid(BANK.contacts, DAY1) && RecentIdsValid(BANK.recentTransferIds)
    ensures CardsValid(BANK.cards, BANK.accounts)
  {
  }

  /** The invariant is not vacuous. */
  lemma {:induction false} SampleIsSound()
    ensures Sound(BANK, DAY1)
  {
    hide AccountsValid, RowsValid, NextSeqValid, PostedWithin, ClosedAtZero, TransfersPaired, RulesValid, RulesFit,
      RowsLinked, RulesContinuous, CardsValid, ContactsValid, RatesValid, RecentIdsValid;
    SampleAccounts();
    SampleRows();
    SampleWithin();
    SampleRules();
    SampleRates();
  }

  /** Interest for the day that has passed is pending, and the sequence has room for its row. */
  lemma {:induction false} SampleIsValid()
    ensures Valid(BANK, DAY1)
    ensures SavingsIndex() && DueInterest(VAULT, 1_000_000, DAY1) > 0
    ensures BalanceOf(BANK.transactions, "acc_2") == 1_000_000
  {
    SampleIsSound();
    hide Sound;
    SampleDue();
    SampleBalance();
    assert SavingsIndex();
    SettleNeedsRoom(BANK, 1, DAY1);
  }

  /** The savings account stands at position 1. */
  ghost predicate SavingsIndex() {
    IsOnlySavings(BANK.accounts, 1) && FindAccount(BANK.accounts, "acc_2") == Some(1)
  }

  lemma {:induction false} SampleBalance()
    ensures BalanceOf(BANK.transactions, "acc_2") == 1_000_000 && BalanceOf(BANK.transactions, "acc_3") == 0
    ensures BalanceOf(BANK.transactions, "acc_1") == 0
    ensures SavingsIndex()
  {
    var a := BANK.accounts;
    assert a[0].id[4] == '1' && a[1].id[4] == '2' && a[2].id[4] == '3' && a[3].id[4] == '4';
    assert BANK.transactions[..0] == [];
    assert a[1..][0] == VAULT;
  }

  lemma {:induction false} SampleDue()
    ensures 0 < DueInterest(VAULT, 1_000_000, DAY1) <= 10_000
  {
    assert ElapsedDays(DAY0, DAY1) == 1 by {
      assert DaysBeforeMonth(2026, 1) == 0;
    }
    assert Power(1.0 + 1.0 / 365.0, 1) == 1.0 + 1.0 / 365.0 by { assert Power(1.0 + 1.0 / 365.0, 0) == 1.0; }
    var x := 1_000_000.0 * (1.0 / 365.0);
    assert 2739.0 < x < 2740.0;
    assert 2739 <= (x + 0.5).Floor <= 2741;
  }

  // ---------------------------------------------------------------- refused by the invariant

  /** An empty account that never had a row can be closed, but not into an accepted state. */
  lemma {:induction false} ClosingWithoutRowIsRefused()
    ensures var out := CloseAccount(BANK, "acc_3", DAY1);
            out.Done? && out.applied && !Sound(out.state, DAY1)
  {
    SampleIsSound();
    hide Sound;
    SampleBalance();
    var a := BANK.accounts;
    assert a[0].id[4] == '1' && a[1].id[4] == '2' && a[2].id[4] == '3' && a[3].id[4] == '4';
    assert a[1..][1..][0] == EURO;
    assert FindAccount(a, "acc_3") == Some(2);
    assert CountOpen(a[3..]) == 1;
    assert a[2..][1..] == a[3..];
    assert a[1..][1..] == a[2..];
    assert CountOpen(a[2..]) == 2 && CountOpen(a[1..]) == 3;
    CloseIsSoundIffRow(BANK, "acc_3", DAY1);
  }

  lemma {:induction false} SampleOpens(number: string)
    requires IsAccountNumber(number) && number != MAIN.number && number != VAULT.number && number != EURO.number && number != TENGE.number
    ensures var input := AddInput("acc_5", GEL, Some("Lari"), number);
            AddAccount(BANK, input, DAY1).Done?
  {
    hide IsAccountNumber;
    SampleBalance();
    var a := BANK.accounts;
    assert a[0].id[4] == '1' && a[1].id[4] == '2' && a[2].id[4] == '3' && a[3].id[4] == '4' && "acc_5"[4] == '5';
    assert IsAccountId("acc_5");
    hide IsAccountId;
    assert !IsTaken(a, "acc_5", number);
    hide IsTaken;
    assert BalanceOf(BANK.transactions, "acc_5") == 0 by { assert BANK.transactions[..0] == []; }
    hide BalanceOf, TxId;
  }

  /** A number with a leading space passes the pattern of the command and fails the invariant. */
  lemma {:induction false} SpacedNumberIsRefused()
    ensures var out := AddAccount(BANK, AddInput("acc_5", GEL, Some("Lari"), " 123456789"), DAY1);
            out.Done? && !Sound(out.state, DAY1)
  {
    var number := " 123456789";
    assert number[0] == ' ' && MAIN.number[0] == 'U' && VAULT.number[0] == 'U' && EURO.number[0] == 'D' && TENGE.number[0] == 'K';
    SampleOpens(number);
    SampleIsSound();
    hide Sound, AddAccount;
    AddIsSoundIffNormalised(BANK, AddInput("acc_5", GEL, Some("Lari"), number), DAY1);
  }

  /** Opening an account does not settle the savings account, and it takes one sequence number. */
  lemma {:induction false} OpeningUsesUp(s: BankState, input: AddInput, now: Instant)
    requires Valid(s, now) && AddAccount(s, input, now).Done? && IsNormalisedNumber(input.number)
    requires s.nextSeq + 1 == MAX_SAFE && !NoInterestDue(s, now)
    ensures !LeavesRoom(s, OpenAccount(input), now)
    ensures Sound(AddAccount(s, input, now).state, now) && !Valid(AddAccount(s, input, now).state, now)
  {
    hide Valid, Sound, AddAccount, IsNormalisedNumber, NoInterestDue, ApplyBankCommand, IsAcceptable;
    OpeningIs(s, input, now);
    ValidIsSound(s, now);
    CommandKeepsSound(s, OpenAccount(input), now);
    CommandKeepsValid(s, OpenAccount(input), now);
  }

  lemma {:induction false} OpeningIs(s: BankState, input: AddInput, now: Instant)
    ensures ApplyBankCommand(s, OpenAccount(input), now) == AddAccount(s, input, now)
    ensures IsAcceptable(s, OpenAccount(input)) == IsNormalisedNumber(input.number)
  {
    hide AddAccount, IsNormalisedNumber;
  }

  /** With interest pending, a command that takes the last sequence number leaves a state in which that
      interest cannot be posted any more. */
  lemma {:induction false} UsedUpSequenceIsRefused()
    ensures var input := AddInput("acc_5", GEL, Some("Lari"), "GE00000005");
            var out := AddAccount(BANK, input, DAY1);
            && Valid(BANK, DAY1) && !LeavesRoom(BANK, OpenAccount(input), DAY1)
            && out.Done? && Sound(out.state, DAY1) && !Valid(out.state, DAY1)
  {
    hide Valid, Sound, AddAccount, BalanceOf, DueInterest, NoInterestDue, SavingsIndex, LeavesRoom;
    var number := "GE00000005";
    var input := AddInput("acc_5", GEL, Some("Lari"), number);
    assert number[0] == 'G' && MAIN.number[0] == 'U' && VAULT.number[0] == 'U' && EURO.number[0] == 'D' && TENGE.number[0] == 'K';
    assert IsNormalisedNumber(number);
    hide IsNormalisedNumber;
    SampleOpens(number);
    SampleIsValid();
    VaultIsDue(BANK);
    OpeningUsesUp(BANK, input, DAY1);
  }

  lemma {:induction false} VaultIsDue(s: BankState)
    requires 1 < |s.accounts| && s.accounts[1] == VAULT && BalanceOf(s.transactions, VAULT.id) == 1_000_000
    requires DueInterest(VAULT, 1_000_000, DAY1) > 0
    ensures !NoInterestDue(s, DAY1)
  {
    hide DueInterest, BalanceOf;
  }
}
