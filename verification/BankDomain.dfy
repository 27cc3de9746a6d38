/** Everything that time alone does to a bank: `bot/bank-domain.ts`, and the client's mirror of it in
    `src/store/bankStore.ts`. */
module BankDomain {
  import opened Wrappers
  import opened Calendar
  import opened BankTypes
  import opened Interest
  import opened BankValidity
  import opened Recurring

  /** When the interest does not fit, recurring rows may not take the remaining slots either. */
  function RoomForRecurring(s: BankState, settlement: Settlement): nat {
    if settlement.capacityReached then |s.transactions| else MAX_TRANSACTIONS
  }

  /** Interest first, then the recurring rules; `None` is the range error of the settlement. */
  function MaterializeBankState(s: BankState, now: Instant): Option<Materialized> {
    match SettleWithinLimit(s, now, MAX_TRANSACTIONS)
    case None => None
    case Some(settlement) =>
      Some(MaterializeRecurring(settlement.state, now, RoomForRecurring(s, settlement)))
  }

  function OpenCheckingIds(accounts: seq<Account>): set<string> {
    set i | 0 <= i < |accounts| && IsOpenChecking(accounts[i]) :: accounts[i].id
  }

  predicate WantsOccurrence(r: RecurringRule, ids: set<string>, today: Date) {
    r.status.RuleActive? && r.accountId in ids && AtMost(r.nextOccurrence, today)
  }

  /** Whether the client asks the server to settle. A settlement that fails on the copy counts as none. */
  predicate NeedsServerMaterialization(s: BankState, now: Instant) {
    var settlement := SettleWithinLimit(s, now, MAX_TRANSACTIONS);
    && settlement.Some?
    && !settlement.value.capacityReached
    && (|| settlement.value.applied
        || exists i :: 0 <= i < |s.recurringRules| && WantsOccurrence(s.recurringRules[i], OpenCheckingIds(s.accounts), now.date))
  }
}
