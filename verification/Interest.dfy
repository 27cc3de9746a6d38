/** Savings interest: `src/domain/interest.ts`, over exact real arithmetic. */
module Interest {
  import opened Wrappers
  import opened Calendar
  import opened BankTypes
  import opened Ledger

  function Power(base: real, n: nat): real {
    if n == 0 then 1.0 else base * Power(base, n - 1)
  }

  /** `Math.round`: the nearest integer, ties upwards. */
  function RoundHalfUp(x: real): int {
    (x + 0.5).Floor
  }

  function ElapsedDays(anchor: Instant, now: Instant): int {
    EpochDay(now.date) - EpochDay(anchor.date)
  }

  /** What the principal earns in so many days of daily compounding. */
  function CompoundGrowth(principal: int, apy: real, days: nat): real {
    principal as real * (Power(1.0 + apy / 365.0, days) - 1.0)
  }

  function AccruedInterest(principal: int, apy: real, anchor: Instant, now: Instant): int {
    var days := ElapsedDays(anchor, now);
    if days <= 0 || principal <= 0 then 0
    else RoundHalfUp(CompoundGrowth(principal, apy, days))
  }

  /** The balance that grows day by day: every day earns the daily rate on what the day before left. */
  function DailyBalance(principal: int, apy: real, days: nat): real {
    if days == 0 then principal as real
    else
      var yesterday := DailyBalance(principal, apy, days - 1);
      yesterday + yesterday * (apy / 365.0)
  }

  lemma {:induction false} DailyIsCompound(principal: int, apy: real, days: nat)
    ensures DailyBalance(principal, apy, days) == principal as real * Power(1.0 + apy / 365.0, days)
  {
    if days > 0 {
      var base := 1.0 + apy / 365.0;
      DailyIsCompound(principal, apy, days - 1);
      TimesBase(principal as real, base, Power(base, days - 1));
      OneMoreDay(DailyBalance(principal, apy, days - 1), apy / 365.0);
    }
  }

  lemma {:induction false} TimesBase(p: real, base: real, power: real)
    ensures p * (base * power) == (p * power) * base
  {
  }

  lemma {:induction false} OneMoreDay(x: real, rate: real)
    ensures x * (1.0 + rate) == x + x * rate
  {
  }

  /** The closed form agrees with compounding day by day over the calendar: the interest is what the daily
      balance has gained in the days from the anchor to now, rounded to the nearest minor unit, ties upwards;
      nothing on a balance that is not positive, and nothing within a day. */
  lemma {:induction false} InterestIsNearest(principal: int, apy: real, anchor: Instant, now: Instant, days: nat)
    requires DaysLater(anchor.date, days) == Some(now.date)
    ensures var interest := AccruedInterest(principal, apy, anchor, now);
            if principal > 0 && days > 0
            then interest as real - 0.5 <= DailyBalance(principal, apy, days) - principal as real < interest as real + 0.5
            else interest == 0
  {
    DayNumbersCountDays(anchor.date, now.date, days);
    hide CompoundGrowth, DailyBalance, EpochDay, RoundHalfUp, DaysLater;
    GrowthIsGain(principal, apy, days);
    NearestInteger(CompoundGrowth(principal, apy, days));
  }

  /** A clock behind the anchor yields nothing. */
  lemma {:induction false} NoInterestBackwards(principal: int, apy: real, anchor: Instant, now: Instant)
    requires Before(now.date, anchor.date)
    ensures AccruedInterest(principal, apy, anchor, now) == 0
  {
    EpochDayIsCalendarOrder(now.date, anchor.date);
    hide EpochDay, Before;
  }

  lemma {:induction false} NearestInteger(x: real)
    ensures RoundHalfUp(x) as real - 0.5 <= x < RoundHalfUp(x) as real + 0.5
  {
  }

  lemma {:induction false} GrowthIsGain(principal: int, apy: real, days: nat)
    ensures CompoundGrowth(principal, apy, days) == DailyBalance(principal, apy, days) - principal as real
  {
    hide Power, DailyBalance;
    DailyIsCompound(principal, apy, days);
    OneLess(principal as real, Power(1.0 + apy / 365.0, days));
  }

  lemma {:induction false} OneLess(p: real, power: real)
    ensures p * (power - 1.0) == p * power - p
  {
  }

  lemma {:induction false} PowerGrows(base: real, m: nat, n: nat)
    requires base >= 1.0 && m <= n
    ensures 1.0 <= Power(base, m) <= Power(base, n)
    decreases n
  {
    if n > 0 {
      PowerGrows(base, if m < n then m else m - 1, n - 1);
      Scaled(1.0, base, Power(base, n - 1));
    }
  }

  lemma {:induction false} Scaled(a: real, b: real, k: real)
    requires a <= b && k >= 0.0
    ensures a * k <= b * k
  {
  }

  lemma {:induction false} GrowthGrows(principal: int, apy: real, days: nat, more: nat)
    requires principal > 0 && 0.0 <= apy && days <= more
    ensures 0.0 <= CompoundGrowth(principal, apy, days) <= CompoundGrowth(principal, apy, more)
  {
    var base := 1.0 + apy / 365.0;
    PowerGrows(base, days, more);
    hide Power;
    GrowthOrder(principal as real, Power(base, days) - 1.0, Power(base, more) - 1.0);
  }

  lemma {:induction false} GrowthOrder(p: real, a: real, b: real)
    requires 0.0 <= a <= b && p >= 0.0
    ensures 0.0 <= p * a <= p * b
  {
  }

  /** Waiting longer never yields less, and nothing is ever charged. */
  lemma {:induction false} InterestGrows(principal: int, apy: real, anchor: Instant, now: Instant, later: Instant)
    requires 0.0 <= apy && ElapsedDays(anchor, now) <= ElapsedDays(anchor, later)
    ensures 0 <= AccruedInterest(principal, apy, anchor, now) <= AccruedInterest(principal, apy, anchor, later)
  {
    hide CompoundGrowth, ElapsedDays;
    var days, more := ElapsedDays(anchor, now), ElapsedDays(anchor, later);
    if more > 0 && principal > 0 {
      GrowthGrows(principal, apy, if days > 0 then days else 0, more);
    }
  }

  // ---------------------------------------------------------------- accounts by identifier

  /** The position of the first account with this identifier. */
  function FindAccount(accounts: seq<Account>, id: string): (r: Option<nat>)
    ensures r.Some? ==> r.value < |accounts| && accounts[r.value].id == id
    ensures r.None? ==> forall a :: a in accounts ==> a.id != id
  {
    if accounts == [] then None
    else if accounts[0].id == id then Some(0)
    else match FindAccount(accounts[1..], id)
      case None => None
      case Some(i) => Some(i + 1)
  }

  /** `accounts.map(a => a.id === id ? f(a) : a)` for a change of the accrual anchor. */
  function WithAnchor(accounts: seq<Account>, id: string, anchor: Instant): (r: seq<Account>)
    ensures |r| == |accounts|
    ensures forall i :: 0 <= i < |r| ==>
              r[i] == if accounts[i].id == id then accounts[i].(accrualAnchor := Some(anchor)) else accounts[i]
  {
    seq(|accounts|, i requires 0 <= i < |accounts| =>
      if accounts[i].id == id then accounts[i].(accrualAnchor := Some(anchor)) else accounts[i])
  }

  // ---------------------------------------------------------------- settlement

  predicate EarnsInterest(a: Account) {
    && a.status.Open? && a.kind.Savings?
    && a.apy.Some? && a.apy.value != 0.0
    && a.accrualAnchor.Some?
  }

  function InterestRow(accountId: string, amount: int, now: Instant): Draft {
    Draft(accountId, amount, Interest, Some("Проценты по счёту"), Some("interest"),
          None, None, None, None, None, None, now)
  }

  /** One row for the whole missed period, and the anchor moves to now; nothing within one UTC day. */
  function SettleAccount(s: BankState, accountId: string, now: Instant): Option<BankState> {
    match FindAccount(s.accounts, accountId)
    case None => Some(s)
    case Some(i) =>
      var a := s.accounts[i];
      if !EarnsInterest(a) || ElapsedDays(a.accrualAnchor.value, now) <= 0 then Some(s)
      else
        var amount := AccruedInterest(BalanceOf(s.transactions, accountId), a.apy.value, a.accrualAnchor.value, now);
        if amount <= 0 then Some(s.(accounts := WithAnchor(s.accounts, accountId, now)))
        else match AppendRow(s, InterestRow(accountId, amount, now))
          case None => None
          case Some(posted) => Some(posted.(accounts := WithAnchor(posted.accounts, accountId, now)))
  }

  function SavingsIds(accounts: seq<Account>): seq<string> {
    if accounts == [] then []
    else if accounts[0].kind.Savings? && accounts[0].status.Open? then [accounts[0].id] + SavingsIds(accounts[1..])
    else SavingsIds(accounts[1..])
  }

  function SettleEach(s: BankState, ids: seq<string>, now: Instant): Option<BankState>
    decreases |ids|
  {
    if ids == [] then Some(s)
    else match SettleAccount(s, ids[0], now)
      case None => None
      case Some(next) => SettleEach(next, ids[1..], now)
  }

  function SettleAll(s: BankState, now: Instant): Option<BankState> {
    SettleEach(s, SavingsIds(s.accounts), now)
  }

  datatype Settlement = Settlement(state: BankState, applied: bool, capacityReached: bool)

  /** The whole batch or nothing. */
  function SettleWithinLimit(s: BankState, now: Instant, maxTransactions: nat): Option<Settlement> {
    match SettleAll(s, now)
    case None => None
    case Some(settled) =>
      if |settled.transactions| > maxTransactions then Some(Settlement(s, false, true))
      else Some(Settlement(settled, settled != s, false))
  }
}
