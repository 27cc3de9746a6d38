/** The warnings of a catch-up: at most one for each rule, always with a rule of the state behind it, and
    never more than fit, also when a resumed rule is caught up a second time in one command. */
module WarningProofs {
  import opened Wrappers
  import opened Calendar
  import opened Currency
  import opened BankTypes
  import opened Ledger
  import opened Interest
  import opened BankValidity
  import opened Posting
  import opened Settlement
  import opened Recurring
  import opened RecurringProofs
  import opened CatchUpProofs
  import opened BankCommands
  import opened BankDomain
  import opened DomainProofs
  import opened BankService
  import opened CommandProofs

  // ---------------------------------------------------------------- well-formed warnings

  predicate IsMoney(amount: Option<int>) {
    amount.Some? && 0 <= amount.value <= MAX_SAFE
  }

  /** What the message about a warning needs: a rule of the state, and for missing funds both amounts. */
  predicate IsWarningOf(rules: seq<RecurringRule>, w: Warning) {
    && w.ruleId in RuleIds(rules)
    && IsCatchUpReason(w.reason)
    && (w.reason.InsufficientFunds? ==> IsMoney(w.available) && IsMoney(w.required))
  }

  lemma {:induction false} CatchUpWarning(s: BankState, r: RecurringRule, now: Instant, maxTransactions: nat)
    requires 0 <= BalanceOf(s.transactions, r.accountId) <= MAX_SAFE && r.amountMinor > 0
    requires r.id in RuleIds(s.recurringRules)
    ensures var w := CatchUp(s, r, now, maxTransactions).warning;
            w.Some? ==> w.value.ruleId == r.id && IsWarningOf(s.recurringRules, w.value)
  {
    hide DueThrough, AppendAll, BalanceOf, MissingDue, WithNext, RuleIds;
  }

  lemma {:induction false} TurnWarning(s: BankState, i: nat, now: Instant, maxTransactions: nat)
    requires Sound(s, now) && i < |s.recurringRules|
    ensures var w := MaterializeRule(s, s.recurringRules[i].id, now, maxTransactions).warning;
            w.Some? ==> w.value.ruleId == s.recurringRules[i].id && IsWarningOf(s.recurringRules, w.value)
  {
    hide Sound, CatchUp, IsDue, IsWarningOf, RuleShape, FindRule, AccountIds, BalanceOf;
    RuleFacts(s, i, now);
    BalanceIsNatural(s, s.recurringRules[i].accountId, now);
    assert s.recurringRules[i].id in RuleIds(s.recurringRules);
    CatchUpWarning(s, s.recurringRules[i], now, maxTransactions);
  }

  lemma {:induction false} SameIdsSameWarnings(before: seq<RecurringRule>, after: seq<RecurringRule>, w: Warning)
    requires SameIds(before, after) && IsWarningOf(before, w)
    ensures IsWarningOf(after, w)
  {
    var k :| 0 <= k < |before| && before[k].id == w.ruleId;
    assert after[k].id == w.ruleId;
  }

  /** Each rule warns at most once in a pass. */
  lemma {:induction false} PassWarnings(s: BankState, originals: seq<RecurringRule>, k: nat, now: Instant, maxTransactions: nat)
    requires Sound(s, now) && k <= |originals| && maxTransactions <= MAX_TRANSACTIONS && SameIds(originals, s.recurringRules)
    ensures var ws := MaterializeFrom(s, originals, k, now, maxTransactions).warnings;
            && |ws| <= |originals| - k
            && forall w :: w in ws ==> IsWarningOf(originals, w)
    decreases |originals| - k
  {
    hide Sound, MaterializeRule, CaughtUpFrom, IsDue, IsWarningOf, SameIds;
    if k < |originals| {
      var one := MaterializeRule(s, originals[k].id, now, maxTransactions);
      IdAt(originals, s.recurringRules, k);
      TurnKeeps(s, k, now, maxTransactions);
      SameIdsTwice(originals, s, one.state);
      PassWarnings(one.state, originals, k + 1, now, maxTransactions);
      TurnWarning(s, k, now, maxTransactions);
      if one.warning.Some? {
        SameIdsFlip(originals, s.recurringRules);
        SameIdsSameWarnings(s.recurringRules, originals, one.warning.value);
      }
    }
  }

  lemma {:induction false} SameIdsFlip(a: seq<RecurringRule>, b: seq<RecurringRule>)
    requires SameIds(a, b)
    ensures SameIds(b, a)
  {
  }

  // ---------------------------------------------------------------- when every rule warns

  /** Catching up reads the ledger and the terms of the rule, not the list of rules. */
  lemma {:induction false} CatchUpReads(s: BankState, r: RecurringRule, rules: seq<RecurringRule>, q: RecurringRule,
                                        now: Instant, maxTransactions: nat)
    requires Terms(q) == Terms(r) && q.nextOccurrence == r.nextOccurrence
    ensures CatchUp(s.(recurringRules := rules), q, now, maxTransactions).warning == CatchUp(s, r, now, maxTransactions).warning
  {
    TermsRead(r, q);
    hide DueThrough, AppendAll, BalanceOf, MissingDue, WithNext, Terms;
    var schedule := DueThrough(r.nextOccurrence, r.anchorDay, now.date, 120);
    if schedule.Some? {
      AppendAllIgnoresRules(s, r, MissingDue(s.transactions, r.id, schedule.value.due), now, q, rules);
    }
  }

  lemma {:induction false} TermsRead(a: RecurringRule, b: RecurringRule)
    requires Terms(a) == Terms(b)
    ensures a.id == b.id && a.anchorDay == b.anchorDay && a.amountMinor == b.amountMinor
    ensures a.accountId == b.accountId && a.direction == b.direction
  {
    assert Terms(a).id == a.id && Terms(b).id == b.id;
    assert Terms(a).anchorDay == a.anchorDay && Terms(b).anchorDay == b.anchorDay;
    assert Terms(a).amountMinor == a.amountMinor && Terms(b).amountMinor == b.amountMinor;
    assert Terms(a).accountId == a.accountId && Terms(b).accountId == b.accountId;
    assert Terms(a).direction == a.direction && Terms(b).direction == b.direction;
  }

  /** A turn that warns was due, is what catching up gives, and posts nothing. */
  lemma {:induction false} WarnedTurn(s: BankState, i: nat, now: Instant, maxTransactions: nat)
    requires Sound(s, now) && i < |s.recurringRules| && maxTransactions <= MAX_TRANSACTIONS
    requires MaterializeRule(s, s.recurringRules[i].id, now, maxTransactions).warning.Some?
    ensures var one := MaterializeRule(s, s.recurringRules[i].id, now, maxTransactions);
            && one == CatchUp(s, s.recurringRules[i], now, maxTransactions)
            && IsDue(s.recurringRules[i], s.accounts, now.date)
            && one.state == s.(recurringRules := one.state.recurringRules)
            && |one.state.recurringRules| == |s.recurringRules|
            && Terms(one.state.recurringRules[i]) == Terms(s.recurringRules[i])
            && one.state.recurringRules[i].nextOccurrence == s.recurringRules[i].nextOccurrence
            && (forall j :: 0 <= j < |s.recurringRules| && j != i ==> one.state.recurringRules[j] == s.recurringRules[j])
  {
    hide Sound, CatchUp, IsDue, RuleShape, FindRule, AccountIds, PostedRun, DueThrough;
    RuleFacts(s, i, now);
    AllDueOrNone(s, i, now, maxTransactions);
    RuleIsUnique(s, i, now);
  }

  /** All rules from position `k` on warned: each warning is what catching up on the first state gives, and
      nothing was posted. */
  ghost predicate AllWarned(s: BankState, k: nat, now: Instant, maxTransactions: nat, m: Materialized) {
    && k <= |s.recurringRules| && |m.warnings| == |s.recurringRules| - k
    && m.state == s.(recurringRules := m.state.recurringRules)
    && |m.state.recurringRules| == |s.recurringRules|
    && (forall i :: 0 <= i < |s.recurringRules| ==>
          && Terms(m.state.recurringRules[i]) == Terms(s.recurringRules[i])
          && m.state.recurringRules[i].nextOccurrence == s.recurringRules[i].nextOccurrence)
    && (forall i {:trigger s.recurringRules[i]} :: k <= i < |s.recurringRules| ==>
          && IsDue(s.recurringRules[i], s.accounts, now.date)
          && CatchUp(s, s.recurringRules[i], now, maxTransactions).warning == Some(m.warnings[i - k]))
  }

  lemma {:induction false} FullPass(s: BankState, originals: seq<RecurringRule>, k: nat, now: Instant, maxTransactions: nat)
    requires Sound(s, now) && k <= |originals| && maxTransactions <= MAX_TRANSACTIONS && SameIds(originals, s.recurringRules)
    requires |MaterializeFrom(s, originals, k, now, maxTransactions).warnings| == |originals| - k
    ensures AllWarned(s, k, now, maxTransactions, MaterializeFrom(s, originals, k, now, maxTransactions))
    decreases |originals| - k
  {
    hide Sound, MaterializeRule, CaughtUpFrom, IsDue, SameIds, CatchUp, Terms, AllWarned, IsWarningOf;
    SameIdsLength(originals, s.recurringRules);
    if k == |originals| {
      NobodyWarned(s, k, now, maxTransactions);
    } else {
      IdAt(originals, s.recurringRules, k);
      var one := MaterializeRule(s, originals[k].id, now, maxTransactions);
      TurnKeeps(s, k, now, maxTransactions);
      SameIdsTwice(originals, s, one.state);
      PassWarnings(one.state, originals, k + 1, now, maxTransactions);
      WarnedTurn(s, k, now, maxTransactions);
      var rest := MaterializeFrom(one.state, originals, k + 1, now, maxTransactions);
      FullPass(one.state, originals, k + 1, now, maxTransactions);
      OneMoreWarned(s, k, now, maxTransactions, one, rest);
    }
  }

  lemma {:induction false} SameIdsLength(a: seq<RecurringRule>, b: seq<RecurringRule>)
    requires SameIds(a, b)
    ensures |a| == |b|
  {
  }

  lemma {:induction false} NobodyWarned(s: BankState, k: nat, now: Instant, maxTransactions: nat)
    requires k == |s.recurringRules|
    ensures AllWarned(s, k, now, maxTransactions, Materialized(s, []))
  {
    hide IsDue, CatchUp, Terms;
  }

  lemma {:induction false} OneMoreWarned(s: BankState, k: nat, now: Instant, maxTransactions: nat, one: RuleOutcome, rest: Materialized)
    requires k < |s.recurringRules| && one == CatchUp(s, s.recurringRules[k], now, maxTransactions) && one.warning.Some?
    requires IsDue(s.recurringRules[k], s.accounts, now.date)
    requires one.state == s.(recurringRules := one.state.recurringRules) && |one.state.recurringRules| == |s.recurringRules|
    requires Terms(one.state.recurringRules[k]) == Terms(s.recurringRules[k])
    requires one.state.recurringRules[k].nextOccurrence == s.recurringRules[k].nextOccurrence
    requires forall j :: 0 <= j < |s.recurringRules| && j != k ==> one.state.recurringRules[j] == s.recurringRules[j]
    requires AllWarned(one.state, k + 1, now, maxTransactions, rest)
    ensures AllWarned(s, k, now, maxTransactions, Materialized(rest.state, WarningsOf(one.warning) + rest.warnings))
  {
    hide IsDue, CatchUp, Terms;
    var ws := WarningsOf(one.warning) + rest.warnings;
    forall i | k <= i < |s.recurringRules|
      ensures IsDue(s.recurringRules[i], s.accounts, now.date)
      ensures CatchUp(s, s.recurringRules[i], now, maxTransactions).warning == Some(ws[i - k])
    {
      if i > k {
        assert one.state.recurringRules[i] == s.recurringRules[i];
        CatchUpReads(s, s.recurringRules[i], one.state.recurringRules, one.state.recurringRules[i], now, maxTransactions);
        assert ws[i - k] == rest.warnings[i - k - 1];
      }
    }
  }

  // ---------------------------------------------------------------- a resumed rule

  lemma {:induction false} RestNotDue(s: BankState, originals: seq<RecurringRule>, k: nat, now: Instant, maxTransactions: nat)
    requires UniqueRuleIds(s.recurringRules) && SameIds(originals, s.recurringRules) && k <= |originals|
    requires forall j :: k <= j < |s.recurringRules| ==> !IsDue(s.recurringRules[j], s.accounts, now.date)
    ensures MaterializeFrom(s, originals, k, now, maxTransactions) == Materialized(s, [])
    decreases |originals| - k
  {
    hide IsDue, CatchUp;
    if k < |originals| {
      FindRuleIsUnique(s.recurringRules, k);
      RestNotDue(s, originals, k + 1, now, maxTransactions);
    }
  }

  /** When at most one rule is due, only that rule can warn. */
  lemma {:induction false} OnlyDueWarns(s: BankState, originals: seq<RecurringRule>, k: nat, i: nat, now: Instant)
    requires Sound(s, now) && SameIds(originals, s.recurringRules) && k <= i < |originals|
    requires forall j :: 0 <= j < |s.recurringRules| && j != i ==> !IsDue(s.recurringRules[j], s.accounts, now.date)
    ensures MaterializeFrom(s, originals, k, now, MAX_TRANSACTIONS).warnings
         == WarningsOf(MaterializeRule(s, originals[i].id, now, MAX_TRANSACTIONS).warning)
    decreases i - k
  {
    hide Sound, IsDue, CatchUp, CaughtUpFrom, SameIds, UniqueRuleIds, FindRule, MaterializeRule;
    SameIdsLength(originals, s.recurringRules);
    IdAt(originals, s.recurringRules, k);
    var one := MaterializeRule(s, originals[k].id, now, MAX_TRANSACTIONS);
    if k < i {
      NotDueNoTurn(s, k, now);
      OnlyDueWarns(s, originals, k + 1, i, now);
    } else {
      TurnKeeps(s, k, now, MAX_TRANSACTIONS);
      CaughtUpIds(s, one.state);
      SameIdsTwice(originals, s, one.state);
      SameIdsLength(originals, one.state.recurringRules);
      UniqueRules(one.state, now);
      RestNotDue(one.state, originals, k + 1, now, MAX_TRANSACTIONS);
    }
  }

  lemma {:induction false} NotDueNoTurn(s: BankState, k: nat, now: Instant)
    requires Sound(s, now) && k < |s.recurringRules| && !IsDue(s.recurringRules[k], s.accounts, now.date)
    ensures MaterializeRule(s, s.recurringRules[k].id, now, MAX_TRANSACTIONS) == RuleOutcome(s, None)
  {
    hide Sound, IsDue, CatchUp, RuleShape, FindRule, AccountIds;
    RuleFacts(s, k, now);
  }

  /** A rule that is resumed right after a catch-up is the only one that can be due. */
  lemma {:induction false} ResumeWarnings(s: BankState, id: string, now: Instant) returns (i: nat)
    requires Sound(s, now) && NoneDueBefore(s, |s.recurringRules|, now.date)
    requires Resume(s, id, now).Done? && Resume(s, id, now).applied
    ensures i < |s.recurringRules| && s.recurringRules[i].id == id
    ensures Resumed(s, id) == s.(recurringRules := s.recurringRules[i := s.recurringRules[i].(status := RuleActive, pauseReason := None)])
    ensures Sound(Resumed(s, id), now)
    ensures Resume(s, id, now).warnings == WarningsOf(MaterializeRule(Resumed(s, id), id, now, MAX_TRANSACTIONS).warning)
  {
    hide Sound, WithStatus, Resume, AccountOpen, MaterializeRule, IsDue;
    var j;
    i, j := ResumeParts(s, id, now);
    OpenAccountOf(s, j, now);
    StatusKeepsSound(s, i, RuleActive, None, now);
    var resumed := Resumed(s, id);
    SameIdsSelf(resumed.recurringRules);
    OnlyDueWarns(resumed, resumed.recurringRules, 0, i, now);
  }

  // ---------------------------------------------------------------- merging

  lemma {:induction false} MergedIsShorter(ws: seq<Warning>, seen: set<(string, PauseReason)>)
    ensures |Merged(ws, seen)| <= |ws|
    decreases |ws|
  {
    if ws != [] {
      MergedIsShorter(ws[1..], seen);
      MergedIsShorter(ws[1..], seen + {KeyOf(ws[0])});
    }
  }

  lemma {:induction false} MergedAreNew(ws: seq<Warning>, seen: set<(string, PauseReason)>)
    ensures forall w :: w in Merged(ws, seen) ==> w in ws && KeyOf(w) !in seen
    decreases |ws|
  {
    hide KeyOf;
    if ws != [] {
      MergedAreNew(ws[1..], if KeyOf(ws[0]) in seen then seen else seen + {KeyOf(ws[0])});
    }
  }

  ghost predicate DistinctKeys(ws: seq<Warning>) {
    forall i, j :: 0 <= i < j < |ws| ==> KeyOf(ws[i]) != KeyOf(ws[j])
  }

  lemma {:induction false} MergedAreDistinct(ws: seq<Warning>, seen: set<(string, PauseReason)>)
    ensures DistinctKeys(Merged(ws, seen))
    decreases |ws|
  {
    hide KeyOf;
    if ws != [] {
      var next := if KeyOf(ws[0]) in seen then seen else seen + {KeyOf(ws[0])};
      MergedAreDistinct(ws[1..], next);
      MergedAreNew(ws[1..], next);
    }
  }

  lemma {:induction false} MergedCovers(ws: seq<Warning>, seen: set<(string, PauseReason)>, i: nat) returns (v: Warning)
    requires i < |ws| && KeyOf(ws[i]) !in seen
    ensures v in Merged(ws, seen) && KeyOf(v) == KeyOf(ws[i])
    decreases |ws|
  {
    hide KeyOf;
    if KeyOf(ws[0]) == KeyOf(ws[i]) {
      v := ws[0];
    } else {
      v := MergedCovers(ws[1..], if KeyOf(ws[0]) in seen then seen else seen + {KeyOf(ws[0])}, i - 1);
    }
  }

  /** The first warning of its rule and reason. */
  ghost predicate IsFirst(all: seq<Warning>, i: nat)
    requires i < |all|
  {
    forall j :: 0 <= j < i ==> KeyOf(all[j]) != KeyOf(all[i])
  }

  /** A warning is kept when it is the first one of its rule and reason. */
  lemma {:induction false} FirstIsKept(all: seq<Warning>, seen: set<(string, PauseReason)>, i: nat)
    requires i < |all| && IsFirst(all, i) && KeyOf(all[i]) !in seen
    ensures all[i] in Merged(all, seen)
    decreases |all|
  {
    hide KeyOf;
    if i > 0 {
      var more := if KeyOf(all[0]) in seen then seen else seen + {KeyOf(all[0])};
      assert IsFirst(all[1..], i - 1) by {
        forall j | 0 <= j < i - 1
          ensures KeyOf(all[1..][j]) != KeyOf(all[1..][i - 1])
        {
          assert all[1..][j] == all[j + 1];
        }
      }
      FirstIsKept(all[1..], more, i - 1);
    }
  }

  /** Merging keeps each rule and reason exactly once: no two merged warnings share both, each of them was
      given, and every given warning has its rule and reason in the result. */
  lemma {:induction false} MergedOnce(first: seq<Warning>, second: seq<Warning>)
    ensures var merged := Merged(first + second, {});
            && DistinctKeys(merged)
            && (forall w :: w in merged ==> w in first || w in second)
            && (forall w :: w in first || w in second ==> exists v :: v in merged && KeyOf(v) == KeyOf(w))
  {
    hide KeyOf, Merged;
    var all := first + second;
    MergedAreDistinct(all, {});
    MergedAreNew(all, {});
    forall w | w in first || w in second
      ensures exists v :: v in Merged(all, {}) && KeyOf(v) == KeyOf(w)
    {
      assert w in all;
      var i :| 0 <= i < |all| && all[i] == w;
      var v := MergedCovers(all, {}, i);
    }
  }

  /** A last warning that repeats an earlier one adds nothing. */
  lemma {:induction false} RepeatedWarning(ws: seq<Warning>, w: Warning, seen: set<(string, PauseReason)>)
    requires KeyOf(w) in seen || exists i :: 0 <= i < |ws| && KeyOf(ws[i]) == KeyOf(w)
    ensures |Merged(ws + [w], seen)| <= |ws|
    decreases |ws|
  {
    hide KeyOf;
    if ws == [] {
      assert [] + [w] == [w] && [w][1..] == [];
    } else {
      assert (ws + [w])[1..] == ws[1..] + [w] && (ws + [w])[0] == ws[0];
      var next := if KeyOf(ws[0]) in seen then seen else seen + {KeyOf(ws[0])};
      if KeyOf(w) !in next {
        var i :| 0 <= i < |ws| && KeyOf(ws[i]) == KeyOf(w);
        assert i > 0 && ws[1..][i - 1] == ws[i];
      }
      RepeatedWarning(ws[1..], w, next);
    }
  }

  // ---------------------------------------------------------------- the merged list always fits

  lemma {:induction false} RuleCount(s: BankState, now: Instant)
    requires Sound(s, now)
    ensures |s.recurringRules| <= MAX_RECURRING_RULES
  {
  }

  /** A materialisation warns at most once for each rule, and always about a rule of the state. */
  lemma {:induction false} MaterializationWarnings(s: BankState, now: Instant)
    requires Valid(s, now)
    ensures MaterializeBankState(s, now).Some?
    ensures var m := MaterializeBankState(s, now).value;
            |m.warnings| <= |s.recurringRules| <= MAX_RECURRING_RULES && forall w :: w in m.warnings ==> IsWarningOf(m.state.recurringRules, w)
  {
    hide Valid, Sound, SettleAll, MaterializeBankState, MaterializeFrom, NoneDueBefore, CaughtUpFrom, IsWarningOf, SameIds, SameStanding;
    ValidIsSound(s, now);
    var start, room, m := MaterializationParts(s, now);
    StartRules(s, start, room, m, now);
    RuleCount(s, now);
    SameIdsSelf(start.recurringRules);
    PassWarnings(start, start.recurringRules, 0, now, room);
    MaterializeKeepsSound(start, now, room);
    CaughtUpIds(start, m.state);
    forall w | w in m.warnings
      ensures IsWarningOf(m.state.recurringRules, w)
    {
      SameIdsSameWarnings(start.recurringRules, m.state.recurringRules, w);
    }
  }

  lemma {:induction false} StartRules(s: BankState, start: BankState, room: nat, m: Materialized, now: Instant)
    requires Sound(s, now) && IsMaterialization(s, now, start, room, m)
    ensures start.recurringRules == s.recurringRules
  {
    hide Sound, SettleAll, MaterializeBankState, MaterializeRecurring, SameStanding;
    SettleAllFrame(s, now);
  }

  /** With all 64 rules warned nothing was posted, so the room for a second pass is the same. */
  lemma {:induction false} FullRoom(s: BankState, start: BankState, room: nat, m: Materialized, now: Instant)
    requires Sound(s, now) && IsMaterialization(s, now, start, room, m)
    ensures room == MAX_TRANSACTIONS
  {
    hide Sound, SettleAll, MaterializeBankState, MaterializeRecurring;
    if |SettleAll(s, now).value.transactions| > MAX_TRANSACTIONS {
      DeferredIsFull(s, now);
    }
  }

  /** When every rule has warned, resuming one of them repeats its warning. */
  lemma {:induction false} ResumedRepeats(start: BankState, m: Materialized, i: nat, now: Instant)
    requires AllWarned(start, 0, now, MAX_TRANSACTIONS, m) && i < |start.recurringRules|
    requires UniqueRuleIds(m.state.recurringRules)
    ensures var id := m.state.recurringRules[i].id;
            var r := m.state.recurringRules[i].(status := RuleActive, pauseReason := None);
            var resumed := m.state.(recurringRules := m.state.recurringRules[i := r]);
            MaterializeRule(resumed, id, now, MAX_TRANSACTIONS).warning == Some(m.warnings[i])
  {
    hide CatchUp, Terms, FindRule;
    var r := m.state.recurringRules[i].(status := RuleActive, pauseReason := None);
    var rules := m.state.recurringRules[i := r];
    var first := start.recurringRules[i];
    assert Terms(r) == Terms(first) && r.nextOccurrence == first.nextOccurrence by { StatusIsNoTerm(m.state.recurringRules[i]); }
    assert IsDue(first, start.accounts, now.date) && CatchUp(start, first, now, MAX_TRANSACTIONS).warning == Some(m.warnings[i]);
    CatchUpReads(start, first, rules, r, now, MAX_TRANSACTIONS);
    assert m.state.(recurringRules := rules) == start.(recurringRules := rules);
    TermsRead(r, first);
    assert IsDue(r, start.accounts, now.date);
    UniqueAfterUpdate(m.state.recurringRules, i, r);
    FindRuleIsUnique(rules, i);
  }

  lemma {:induction false} UniqueAfterUpdate(rules: seq<RecurringRule>, i: nat, r: RecurringRule)
    requires UniqueRuleIds(rules) && i < |rules| && r.id == rules[i].id
    ensures UniqueRuleIds(rules[i := r])
  {
  }

  lemma {:induction false} StatusIsNoTerm(r: RecurringRule)
    ensures Terms(r.(status := RuleActive, pauseReason := None)) == Terms(r)
  {
  }

  /** Materialising and then resuming a rule never produces more than 64 merged warnings, although one rule
      can warn twice with different reasons. */
  lemma {:induction false} MergedWarningsFit(s: BankState, id: string, now: Instant)
    requires Valid(s, now)
    ensures MaterializeBankState(s, now).Some?
    ensures var m := MaterializeBankState(s, now).value;
            var out := Resume(m.state, id, now);
            out.Done? ==> |Merged(m.warnings + out.warnings, {})| <= MAX_WARNINGS
  {
    hide Valid, Sound, SettleAll, MaterializeBankState, NoneDueBefore, Resume, IsWarningOf, Merged, Resumed, MaterializeRule;
    MaterializationWarnings(s, now);
    MaterializeKeepsValid(s, now);
    var m := MaterializeBankState(s, now).value;
    ValidIsSound(m.state, now);
    var out := Resume(m.state, id, now);
    if out.Done? {
      MergedIsShorter(m.warnings + out.warnings, {});
      if out.applied {
        var i := ResumeWarnings(m.state, id, now);
        if |m.warnings| == MAX_RECURRING_RULES && out.warnings != [] {
          RepeatsWarning(s, m, i, now);
          assert out.warnings == [m.warnings[i]];
          RepeatedWarning(m.warnings, m.warnings[i], {});
        }
      } else {
        ResumeSilent(m.state, id, now);
      }
    }
  }

  lemma {:induction false} ResumeSilent(s: BankState, id: string, now: Instant)
    requires Resume(s, id, now).Done? && !Resume(s, id, now).applied
    ensures Resume(s, id, now).warnings == []
  {
    hide MaterializeRecurring, Resumed;
  }

  lemma {:induction false} RepeatsWarning(s: BankState, m: Materialized, i: nat, now: Instant)
    requires Valid(s, now) && MaterializeBankState(s, now) == Some(m) && i < |m.state.recurringRules|
    requires |m.warnings| == MAX_RECURRING_RULES
    ensures i < |m.warnings|
    ensures var id := m.state.recurringRules[i].id;
            var r := m.state.recurringRules[i].(status := RuleActive, pauseReason := None);
            MaterializeRule(m.state.(recurringRules := m.state.recurringRules[i := r]), id, now, MAX_TRANSACTIONS).warning == Some(m.warnings[i])
  {
    hide Valid, Sound, SettleAll, MaterializeBankState, MaterializeFrom, NoneDueBefore, IsWarningOf, SameIds, AllWarned, UniqueRuleIds, MaterializeRule;
    ValidIsSound(s, now);
    MaterializationWarnings(s, now);
    MaterializeKeepsValid(s, now);
    ValidIsSound(m.state, now);
    var start, room, n := MaterializationParts(s, now);
    StartRules(s, start, room, m, now);
    FullRoom(s, start, room, m, now);
    SameIdsSelf(start.recurringRules);
    FullPass(start, start.recurringRules, 0, now, room);
    UniqueRules(m.state, now);
    WarnedLength(start, m, now);
    ResumedRepeats(start, m, i, now);
  }

  lemma {:induction false} WarnedLength(start: BankState, m: Materialized, now: Instant)
    requires AllWarned(start, 0, now, MAX_TRANSACTIONS, m)
    ensures |m.state.recurringRules| == |start.recurringRules| == |m.warnings|
  {
  }
}
