/** One command on the server: `bot/bank-service.ts`. The ledger is brought up to date first and the command
    applied to the result; a command that is refused leaves the stored state exactly as it was. */
module BankService {
  import opened Wrappers
  import opened Calendar
  import Currency
  import opened BankTypes
  import opened BankValidity
  import opened Recurring
  import opened BankCommands
  import opened BankDomain

  const MAX_WARNINGS := 64
  const MAX_BACKFILLED := 120

  // ---------------------------------------------------------------- warnings of two passes

  function KeyOf(w: Warning): (string, PauseReason) { (w.ruleId, w.reason) }

  /** The warnings in order, each rule and reason only once. */
  function Merged(warnings: seq<Warning>, seen: set<(string, PauseReason)>): seq<Warning>
    decreases |warnings|
  {
    if warnings == [] then []
    else if KeyOf(warnings[0]) in seen then Merged(warnings[1..], seen)
    else [warnings[0]] + Merged(warnings[1..], seen + {KeyOf(warnings[0])})
  }

  method MergeWarnings(first: seq<Warning>, second: seq<Warning>) returns (merged: seq<Warning>)
    ensures merged == Merged(first + second, {})
  {
    merged := [];
    var keys: set<(string, PauseReason)> := {};
    var all := first + second;
    for k := 0 to |all|
      invariant Merged(all, {}) == merged + Merged(all[k..], keys)
    {
      var warning := all[k];
      assert all[k..][0] == warning && all[k..][1..] == all[k + 1..];
      if KeyOf(warning) in keys {
        continue;
      }
      assert merged + ([warning] + Merged(all[k + 1..], keys + {KeyOf(warning)}))
          == (merged + [warning]) + Merged(all[k + 1..], keys + {KeyOf(warning)});
      keys := keys + {KeyOf(warning)};
      merged := merged + [warning];
    }
    assert all[|all|..] == [];
    assert merged + [] == merged;
  }

  // ---------------------------------------------------------------- the stored outcome

  datatype Failure = Failure(error: BankError, available: Option<int>, required: Option<int>) | InvalidCommand

  datatype StoredOutcome = StoredOutcome(
    applied: bool, warnings: seq<Warning>, incoming: Option<int>, backfilled: Option<nat>, failure: Option<Failure>)

  predicate IsAmount(amount: Option<int>) {
    amount.None? || 0 <= amount.value <= Currency.MAX_SAFE
  }

  function FailureOf(error: BankError, available: Option<int>, required: Option<int>): Failure {
    if IsAmount(available) && IsAmount(required) then Failure(error, available, required) else InvalidCommand
  }

  /** What the service accepts as an outcome before it stores it. */
  predicate IsStorable(o: StoredOutcome) {
    && |o.warnings| <= MAX_WARNINGS
    && (o.incoming.Some? ==> 0 < o.incoming.value <= Currency.MAX_SAFE)
    && (o.backfilled.Some? ==> o.backfilled.value <= MAX_BACKFILLED)
  }

  datatype Transition = Transition(state: BankState, outcome: StoredOutcome)

  /** The transition inside the transaction; `None` is an exception, which rolls the transaction back. */
  ghost function CommandTransition(s: BankState, c: BankCommand, now: Instant): Option<Transition> {
    if !Valid(s, now) then None // the stored state fails validation
    else
      match MaterializeBankState(s, now)
      case None => None
      case Some(due) =>
        if |due.warnings| > MAX_WARNINGS || !Valid(due.state, now) then None
        else
          match ApplyBankCommand(due.state, c, now)
          case Refused(error, available, required) =>
            Some(Transition(s, StoredOutcome(false, [], None, None, Some(FailureOf(error, available, required)))))
          case Done(state, applied, warnings, incoming, backfilled) =>
            var outcome := StoredOutcome(applied, Merged(due.warnings + warnings, {}), incoming, backfilled, None);
            if !Valid(state, now) || !IsStorable(outcome) then None
            else Some(Transition(state, outcome))
  }

  /** Bringing the stored state up to date when it is read. */
  ghost function BootstrapTransition(s: BankState, now: Instant): Option<Materialized> {
    if !Valid(s, now) then None
    else
      match MaterializeBankState(s, now)
      case None => None
      case Some(due) =>
        if |due.warnings| > MAX_WARNINGS || !Valid(due.state, now) then None else Some(due)
  }
}
