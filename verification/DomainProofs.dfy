/** Materialisation keeps the invariant without conditions, is idempotent within one day, and is exactly
    what the client foresees. */
module DomainProofs {
  import opened Wrappers
  import opened Calendar
  import opened BankTypes
  import opened Ledger
  import opened Interest
  import opened BankValidity
  import opened Posting
  import opened Settlement
  import opened Recurring
  import opened RecurringProofs
  import opened CatchUpProofs
  import opened SavingsProofs
  import opened TransferEffects
  import opened BankCommands
  import opened CommandProofs
  import opened BankDomain

  // ---------------------------------------------------------------- settlement of a whole state

  ghost predicate NonePending(accounts: seq<Account>, now: Instant) {
    forall k :: 0 <= k < |accounts| && accounts[k].status.Open? ==> !IsPending(accounts[k], now)
  }

  lemma {:induction false} NonePendingSettles(s: BankState, now: Instant, later: Instant)
    requires Sound(s, now) && NonePending(s.accounts, later)
    ensures SettleAll(s, later) == Some(s)
  {
    var j := SavingsOf(s, now);
    hide Sound, SettleAll, SettleAccount, IsPending, FindAccount;
    SettleAllIsOne(s, j, later);
    if s.accounts[j].status.Open? {
      NotPendingIsSettled(s, j, later);
    }
  }

  lemma {:induction false} SettledNonePending(s: BankState, now: Instant, later: Instant)
    requires Sound(s, now) && SettleAll(s, now).Some? && later.date == now.date
    ensures NonePending(SettleAll(s, now).value.accounts, later)
  {
    var j := SavingsOf(s, now);
    hide Sound, SettleAll, SettleAccount, FindAccount, IsPending;
    var after := SettleAll(s, now).value;
    SettleAllIsOne(s, j, now);
    if s.accounts[j].status.Open? {
      SettleAccountFrame(s, s.accounts[j].id, now);
      SettledAccount(s, j, now, later);
    }
    StandingKeepsSavings(s.accounts, after.accounts, j);
    OnlySavingsPend(after.accounts, j, later);
  }

  lemma {:induction false} OnlySavingsPend(accounts: seq<Account>, j: nat, now: Instant)
    requires IsOnlySavings(accounts, j) && (accounts[j].status.Open? ==> !IsPending(accounts[j], now))
    ensures NonePending(accounts, now)
  {
    hide ElapsedDays;
  }

  /** A settlement that changes anything moves an anchor. */
  lemma {:induction false} SettlementMovesAnchor(s: BankState, now: Instant)
    requires Sound(s, now) && SettleAll(s, now).Some? && SettleAll(s, now).value != s
    ensures SettleAll(s, now).value.accounts != s.accounts
  {
    var j := SavingsOf(s, now);
    hide Sound, SettleAll, SettleAccount, FindAccount, IsPending;
    SettleAllIsOne(s, j, now);
    SettleAccountCases(s, j, now);
    if IsPending(s.accounts[j], now) {
      PendingAnchorIsOld(s.accounts[j], now);
    }
  }

  lemma {:induction false} PendingAnchorIsOld(a: Account, now: Instant)
    requires IsPending(a, now)
    ensures a.accrualAnchor != Some(now)
  {
    hide EpochDay;
  }

  // ---------------------------------------------------------------- the two cases of a materialisation

  /** The parts of a materialisation: the state the rules start from, and their room. */
  ghost predicate IsMaterialization(s: BankState, now: Instant, start: BankState, room: nat, m: Materialized) {
    && MaterializeBankState(s, now) == Some(m)
    && m == MaterializeRecurring(start, now, room)
    && SettleAll(s, now).Some?
    && if |SettleAll(s, now).value.transactions| > MAX_TRANSACTIONS
       then start == s && room == |s.transactions|
       else start == SettleAll(s, now).value && room == MAX_TRANSACTIONS
  }

  lemma {:induction false} MaterializationParts(s: BankState, now: Instant) returns (start: BankState, room: nat, m: Materialized)
    requires Valid(s, now)
    ensures IsMaterialization(s, now, start, room, m)
    ensures Sound(start, now) && room <= MAX_TRANSACTIONS && |start.transactions| <= MAX_TRANSACTIONS
  {
    hide Sound, SettleAll, MaterializeRecurring;
    RowsWithinLimit(s, now);
    var settled := SettleAll(s, now).value;
    if |settled.transactions| > MAX_TRANSACTIONS {
      start, room := s, |s.transactions|;
    } else {
      SettleAllKeepsSound(s, now);
      start, room := settled, MAX_TRANSACTIONS;
    }
    m := MaterializeRecurring(start, now, room);
  }

  /** The deferred case: the ledger is full and stays as it is. */
  lemma {:induction false} DeferredIsFull(s: BankState, now: Instant)
    requires Sound(s, now) && SettleAll(s, now).Some? && |SettleAll(s, now).value.transactions| > MAX_TRANSACTIONS
    ensures |s.transactions| == MAX_TRANSACTIONS
  {
    hide Sound, SettleAll, SameStanding;
    RowsWithinLimit(s, now);
    SettleAllFrame(s, now);
  }

  /** A due rule paused for lack of capacity; any other rule as it is. */
  function PausedIfDue(r: RecurringRule, accounts: seq<Account>, today: Date): RecurringRule {
    if IsDue(r, accounts, today) then r.(status := RulePaused, pauseReason := Some(Capacity)) else r
  }

  function DueWarnings(rules: seq<RecurringRule>, accounts: seq<Account>, today: Date): seq<Warning>
    decreases |rules|
  {
    if rules == [] then []
    else
      (if IsDue(rules[0], accounts, today) then [Warning(rules[0].id, Capacity, None, None)] else [])
      + DueWarnings(rules[1..], accounts, today)
  }

  /** With a full ledger a due rule is paused for lack of capacity, whatever it would have posted. */
  lemma {:induction false} FullTurn(s: BankState, i: nat, now: Instant)
    requires Sound(s, now) && i < |s.recurringRules|
    ensures var r := s.recurringRules[i];
            var out := MaterializeRule(s, r.id, now, |s.transactions|);
            && out.state == s.(recurringRules := s.recurringRules[i := PausedIfDue(r, s.accounts, now.date)])
            && out.warning == if IsDue(r, s.accounts, now.date) then Some(Warning(r.id, Capacity, None, None)) else None
  {
    hide Sound, DueThrough, RuleShape, IsDue, FindRule, AccountIds, BalanceOf, MissingDue, AppendAll, WithNext;
    var r := s.recurringRules[i];
    RuleFacts(s, i, now);
    if IsDue(r, s.accounts, now.date) {
      var schedule := DueThrough(r.nextOccurrence, r.anchorDay, now.date, 120);
      if schedule.Some? {
        DueHasMonths(s, i, schedule.value, now);
      }
      CapacityIsPaused(s, i, now);
    } else {
      assert s.recurringRules[i := r] == s.recurringRules;
    }
  }

  lemma {:induction false} DueHasMonths(s: BankState, i: nat, schedule: Schedule, now: Instant)
    requires Sound(s, now) && i < |s.recurringRules| && RuleShape(s.recurringRules[i])
    requires IsDue(s.recurringRules[i], s.accounts, now.date)
    requires DueThrough(s.recurringRules[i].nextOccurrence, s.recurringRules[i].anchorDay, now.date, 120) == Some(schedule)
    ensures MissingDue(s.transactions, s.recurringRules[i].id, schedule.due) == schedule.due && schedule.due != []
  {
    hide Sound, DueThrough, RuleShape, CanPostTo, MonthIndex, Before, IsRunOf, AtMonth, IsAllowedEffectiveDate, MissingDue;
    ScheduleIsRun(s.recurringRules[i], now);
    RunMonths(s.recurringRules[i], schedule.due);
    NothingIsDropped(s, i, schedule.due, now);
  }

  lemma {:induction false} CapacityIsPaused(s: BankState, i: nat, now: Instant)
    requires Sound(s, now) && i < |s.recurringRules|
    ensures PauseRule(s, s.recurringRules[i].id, Capacity)
            == s.(recurringRules := s.recurringRules[i := s.recurringRules[i].(status := RulePaused, pauseReason := Some(Capacity))])
  {
    hide Sound;
    StatusKeepsSound(s, i, RulePaused, Some(Capacity), now);
  }

  /** `rules` from position `k` on, with the due ones paused. */
  ghost predicate PausedFrom(before: seq<RecurringRule>, after: seq<RecurringRule>, k: nat, accounts: seq<Account>, today: Date) {
    && |after| == |before|
    && forall j :: 0 <= j < |before| ==> after[j] == if j < k then before[j] else PausedIfDue(before[j], accounts, today)
  }

  lemma {:induction false} FullPass(s: BankState, originals: seq<RecurringRule>, k: nat, now: Instant)
    requires Sound(s, now) && k <= |originals| == |s.recurringRules|
    requires forall j :: k <= j < |originals| ==> originals[j] == s.recurringRules[j]
    ensures var m := MaterializeFrom(s, originals, k, now, |s.transactions|);
            && m.state == s.(recurringRules := m.state.recurringRules)
            && PausedFrom(s.recurringRules, m.state.recurringRules, k, s.accounts, now.date)
            && m.warnings == DueWarnings(originals[k..], s.accounts, now.date)
    decreases |originals| - k
  {
    hide Sound, MaterializeRule, IsDue, CaughtUpFrom;
    if k < |originals| {
      var room := |s.transactions|;
      var one := MaterializeRule(s, originals[k].id, now, room).state;
      FullTurn(s, k, now);
      RowsWithinLimit(s, now);
      TurnKeeps(s, k, now, room);
      FullPass(one, originals, k + 1, now);
      assert originals[k..][0] == originals[k] && originals[k..][1..] == originals[k + 1..];
    }
  }

  /** When the interest does not fit any more, materialisation adds no row and moves no anchor: it pauses
      exactly the rules that are due, with one warning for each, and leaves everything else as it is. */
  lemma {:induction false} DeferredAddsNothing(s: BankState, now: Instant)
    requires Sound(s, now) && SettleAll(s, now).Some? && |SettleAll(s, now).value.transactions| > MAX_TRANSACTIONS
    ensures MaterializeBankState(s, now).Some?
    ensures var m := MaterializeBankState(s, now).value;
            && m.state == s.(recurringRules := m.state.recurringRules)
            && PausedFrom(s.recurringRules, m.state.recurringRules, 0, s.accounts, now.date)
            && m.warnings == DueWarnings(s.recurringRules, s.accounts, now.date)
  {
    hide Sound, SettleAll, MaterializeFrom, PausedFrom;
    assert s.recurringRules[0..] == s.recurringRules;
    FullPass(s, s.recurringRules, 0, now);
  }

  // ---------------------------------------------------------------- validity

  lemma {:induction false} SameBooksSameRoom(s: BankState, after: BankState, now: Instant)
    requires Sound(s, now) && Sound(after, now)
    requires after.transactions == s.transactions && after.accounts == s.accounts && after.nextSeq == s.nextSeq
    ensures SettleAll(after, now).Some? == SettleAll(s, now).Some?
  {
    var j := SavingsOf(s, now);
    hide Sound, SettleAll, FindAccount, HasRoom, BalanceOf;
    SettleNeedsRoom(s, j, now);
    SettleNeedsRoom(after, j, now);
  }

  /** Materialising an accepted state leads to an accepted state, whatever is due and however full the
      ledger is. */
  lemma {:induction false} MaterializeKeepsValid(s: BankState, now: Instant)
    requires Valid(s, now)
    ensures MaterializeBankState(s, now).Some?
    ensures var m := MaterializeBankState(s, now).value;
            Valid(m.state, now) && NoneDueBefore(m.state, |m.state.recurringRules|, now.date)
  {
    hide Valid, Sound, SettleAll, MaterializeBankState, MaterializeRecurring, NoneDueBefore, CaughtUpFrom, NonePending;
    ValidIsSound(s, now);
    var start, room, m := MaterializationParts(s, now);
    MaterializeKeepsSound(start, now, room);
    if |SettleAll(s, now).value.transactions| > MAX_TRANSACTIONS {
      DeferredAddsNothing(s, now);
      SameBooksSameRoom(s, m.state, now);
    } else {
      SettledNonePending(s, now, now);
      CaughtUpIds(start, m.state);
      NonePendingSettles(m.state, now, now);
    }
    ValidFrom(m.state, now);
  }

  lemma {:induction false} ValidFrom(s: BankState, now: Instant)
    requires Sound(s, now) && SettleAll(s, now).Some?
    ensures Valid(s, now)
  {
    hide Sound, SettleAll;
  }

  /** It only appends to the ledger. */
  lemma {:induction false} MaterializeMoves(s: BankState, now: Instant)
    requires Valid(s, now)
    ensures MaterializeBankState(s, now).Some?
    ensures var after := MaterializeBankState(s, now).value.state;
            Moved(s, after, now) && after.recentTransferIds == s.recentTransferIds
  {
    hide Valid, Sound, SettleAll, MaterializeBankState, MaterializeRecurring, NoneDueBefore, CaughtUpFrom, Moved, SameStanding;
    ValidIsSound(s, now);
    var start, room, m := MaterializationParts(s, now);
    MaterializeKeepsSound(start, now, room);
    CaughtUpMoved(start, m.state, now);
    if |SettleAll(s, now).value.transactions| <= MAX_TRANSACTIONS {
      SettleAllMoves(s, now);
      SettleAllFrame(s, now);
      MovedTwice(s, start, m.state, now);
    }
  }

  // ---------------------------------------------------------------- idempotence

  lemma {:induction false} SameDaySameDue(a: Account, balance: int, now: Instant, later: Instant)
    requires later.date == now.date
    ensures DueInterest(a, balance, later) == DueInterest(a, balance, now)
  {
    hide EpochDay, Power;
  }

  /** A batch that does not fit does not fit later that day either. */
  lemma {:induction false} DeferredAgain(s: BankState, after: BankState, now: Instant, later: Instant)
    requires Sound(s, now) && Sound(after, now) && later.date == now.date
    requires after.transactions == s.transactions && after.accounts == s.accounts && after.nextSeq == s.nextSeq
    requires SettleAll(s, now).Some?
    ensures SettleAll(after, later).Some?
    ensures |SettleAll(after, later).value.transactions| == |SettleAll(s, now).value.transactions|
  {
    var j := SavingsOf(s, now);
    hide Sound, SettleAll, FindAccount, HasRoom, BalanceOf, DueInterest;
    var a, balance := s.accounts[j], BalanceOf(s.transactions, s.accounts[j].id);
    SameDaySameDue(a, balance, now, later);
    SettleNeedsRoom(s, j, now);
    SettleNeedsRoom(after, j, later);
    assert HasRoom(a, balance, s.nextSeq, later) == HasRoom(a, balance, s.nextSeq, now) by { SameRoomLater(a, balance, s.nextSeq, now, later); }
    SettlementRows(s, j, now);
    SettlementRows(after, j, later);
  }

  lemma {:induction false} SameRoomLater(a: Account, balance: int, nextSeq: int, now: Instant, later: Instant)
    requires later.date == now.date
    ensures HasRoom(a, balance, nextSeq, later) == HasRoom(a, balance, nextSeq, now)
  {
    hide DueInterest;
    SameDaySameDue(a, balance, now, later);
  }

  lemma {:induction false} NothingDueAgain(s: BankState, now: Instant, later: Instant, room: nat)
    requires Sound(s, now) && later.date == now.date && NoneDueBefore(s, |s.recurringRules|, now.date)
    ensures MaterializeRecurring(s, later, room) == Materialized(s, [])
  {
    hide Sound, NoneDueBefore, MaterializeFrom, UniqueRuleIds;
    UniqueRules(s, now);
    NothingDueNothingDone(s, 0, later, room);
  }

  /** A second materialisation on the same UTC day changes nothing and warns of nothing, also when the
      first one had to put the interest off. */
  lemma {:induction false} MaterializeTwice(s: BankState, now: Instant, later: Instant)
    requires Valid(s, now) && later.date == now.date
    ensures MaterializeBankState(s, now).Some?
    ensures var m := MaterializeBankState(s, now).value;
            MaterializeBankState(m.state, later) == Some(Materialized(m.state, []))
  {
    hide Valid, Sound, SettleAll, MaterializeBankState, MaterializeRecurring, NoneDueBefore, CaughtUpFrom, NonePending;
    ValidIsSound(s, now);
    var start, room, m := MaterializationParts(s, now);
    MaterializeKeepsSound(start, now, room);
    RowsWithinLimit(m.state, now);
    if |SettleAll(s, now).value.transactions| > MAX_TRANSACTIONS {
      DeferredAddsNothing(s, now);
      DeferredAgain(s, m.state, now, later);
    } else {
      SettledNonePending(s, now, later);
      CaughtUpIds(start, m.state);
      NonePendingSettles(m.state, now, later);
    }
    NothingDueAgain(m.state, now, later, |m.state.transactions|);
    NothingDueAgain(m.state, now, later, MAX_TRANSACTIONS);
    Again(m.state, later);
  }

  lemma {:induction false} Again(s: BankState, now: Instant)
    requires SettleAll(s, now).Some?
    requires |SettleAll(s, now).value.transactions| > MAX_TRANSACTIONS || SettleAll(s, now) == Some(s)
    requires MaterializeRecurring(s, now, |s.transactions|) == Materialized(s, [])
    requires MaterializeRecurring(s, now, MAX_TRANSACTIONS) == Materialized(s, [])
    ensures MaterializeBankState(s, now) == Some(Materialized(s, []))
  {
    hide SettleAll, MaterializeRecurring;
  }

  // ---------------------------------------------------------------- what the client foresees

  lemma {:induction false} WantsIsDue(s: BankState, i: nat, now: Instant)
    requires Sound(s, now) && i < |s.recurringRules|
    ensures WantsOccurrence(s.recurringRules[i], OpenCheckingIds(s.accounts), now.date) <==> IsDue(s.recurringRules[i], s.accounts, now.date)
  {
    hide Sound, Before;
    var id := s.recurringRules[i].accountId;
    var found := FindAccount(s.accounts, id);
    if found.Some? {
      AccountIsUnique(s, found.value, now);
    }
  }

  ghost predicate SomeWants(s: BankState, today: Date) {
    exists i :: 0 <= i < |s.recurringRules| && WantsOccurrence(s.recurringRules[i], OpenCheckingIds(s.accounts), today)
  }

  lemma {:induction false} WantsIsSomeDue(s: BankState, now: Instant)
    requires Sound(s, now)
    ensures SomeWants(s, now.date) <==> !NoneDueBefore(s, |s.recurringRules|, now.date)
  {
    hide Sound, WantsOccurrence, IsDue, OpenCheckingIds;
    forall i | 0 <= i < |s.recurringRules|
      ensures WantsOccurrence(s.recurringRules[i], OpenCheckingIds(s.accounts), now.date) <==> IsDue(s.recurringRules[i], s.accounts, now.date)
    {
      WantsIsDue(s, i, now);
    }
  }

  lemma {:induction false} NeedsCases(s: BankState, now: Instant)
    requires SettleAll(s, now).Some?
    ensures NeedsServerMaterialization(s, now)
            <==> |SettleAll(s, now).value.transactions| <= MAX_TRANSACTIONS && (SettleAll(s, now).value != s || SomeWants(s, now.date))
  {
    hide SettleAll, OpenCheckingIds, WantsOccurrence;
  }

  /** When the interest does not fit, the server refuses a settlement. */
  lemma {:induction false} DeferredRefuses(s: BankState, now: Instant)
    requires Valid(s, now) && |SettleAll(s, now).value.transactions| > MAX_TRANSACTIONS
    ensures MaterializeBankState(s, now).Some? && SettleInterest(MaterializeBankState(s, now).value.state, now).Refused?
  {
    hide Valid, Sound, SettleAll, MaterializeBankState, MaterializeRecurring, NoneDueBefore, CaughtUpFrom, PausedFrom;
    ValidIsSound(s, now);
    var start, room, m := MaterializationParts(s, now);
    MaterializeKeepsSound(start, now, room);
    DeferredAddsNothing(s, now);
    DeferredAgain(s, m.state, now, now);
  }

  /** When the interest fits, the settle command finds everything done and answers with the materialised
      state. */
  lemma {:induction false} FittingAnswers(s: BankState, settled: BankState, now: Instant) returns (m: Materialized)
    requires Valid(s, now) && SettleAll(s, now) == Some(settled) && |settled.transactions| <= MAX_TRANSACTIONS
    ensures m == MaterializeRecurring(settled, now, MAX_TRANSACTIONS)
    ensures MaterializeBankState(s, now) == Some(m) && SettleInterest(m.state, now) == Ok(m.state, false)
    ensures m.state.accounts == settled.accounts && NoneDueBefore(m.state, |m.state.recurringRules|, now.date)
  {
    hide Valid, Sound, SettleAll, MaterializeBankState, MaterializeRecurring, NoneDueBefore, CaughtUpFrom, NonePending;
    var start, room;
    start, room, m := MaterializationParts(s, now);
    MaterializeKeepsSound(start, now, room);
    RowsWithinLimit(m.state, now);
    ValidIsSound(s, now);
    SettledNonePending(s, now, now);
    CaughtUpIds(start, m.state);
    NonePendingSettles(m.state, now, now);
  }

  lemma {:induction false} FittingAdvances(s: BankState, settled: BankState, now: Instant)
    requires Valid(s, now) && SettleAll(s, now) == Some(settled) && |settled.transactions| <= MAX_TRANSACTIONS
    ensures MaterializeBankState(s, now).Some?
    ensures MaterializeBankState(s, now).value.state != s <==> settled != s || SomeWants(s, now.date)
  {
    hide Valid, Sound, SettleAll, MaterializeBankState, MaterializeRecurring, NoneDueBefore, SomeWants;
    var m := FittingAnswers(s, settled, now);
    ValidIsSound(s, now);
    if settled != s {
      SettlementMovesAnchor(s, now);
    } else {
      WantsIsSomeDue(s, now);
      if !SomeWants(s, now.date) {
        NothingDueAgain(s, now, now, MAX_TRANSACTIONS);
      }
    }
  }
}
