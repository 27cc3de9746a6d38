/** The loops with which `parseBankState` checks recurring rules, `src/domain/bankState.ts`, and that they
    decide the closed forms that the invariant is stated with. */
module OccurrenceCheck {
  import opened Wrappers
  import opened Calendar
  import opened BankTypes
  import opened BankValidity

  // ---------------------------------------------------------------- counting the rows of a rule

  function RowsOf(txs: seq<Transaction>, ruleId: string): seq<Transaction> {
    if txs == [] then []
    else RowsOf(txs[..|txs| - 1], ruleId)
         + if txs[|txs| - 1].row.recurringRuleId == Some(ruleId) then [txs[|txs| - 1]] else []
  }

  /** Rows of the rule have a date and carry the key of its month; no two rows have the same key. */
  ghost predicate RowsKeyed(txs: seq<Transaction>, ruleId: string) {
    && UniqueKeys(txs)
    && forall i :: 0 <= i < |txs| && txs[i].row.recurringRuleId == Some(ruleId) ==>
         && txs[i].row.effectiveDate.Some?
         && txs[i].row.occurrenceKey == Some(OccurrenceKey(ruleId, MonthIndex(txs[i].row.effectiveDate.value)))
  }

  lemma {:induction false} PrefixKeyed(txs: seq<Transaction>, ruleId: string, n: nat)
    requires RowsKeyed(txs, ruleId) && n <= |txs|
    ensures RowsKeyed(txs[..n], ruleId)
  {
    hide MonthIndex;
  }

  lemma {:induction false} MonthsOfPrefix(txs: seq<Transaction>, ruleId: string)
    requires txs != []
    ensures var last := txs[|txs| - 1].row;
            MonthsPosted(txs, ruleId)
            == MonthsPosted(txs[..|txs| - 1], ruleId) + if IsRowOf(last, ruleId) then {MonthIndex(last.effectiveDate.value)} else {}
  {
    hide MonthIndex;
    var before := txs[..|txs| - 1];
    forall m | m in MonthsPosted(before, ruleId)
      ensures m in MonthsPosted(txs, ruleId)
    {
      var i :| 0 <= i < |before| && IsRowOf(before[i].row, ruleId) && MonthIndex(before[i].row.effectiveDate.value) == m;
      assert txs[i] == before[i];
    }
    forall m | m in MonthsPosted(txs, ruleId)
      ensures m in MonthsPosted(before, ruleId)
              || (IsRowOf(txs[|txs| - 1].row, ruleId) && m == MonthIndex(txs[|txs| - 1].row.effectiveDate.value))
    {
      var i :| 0 <= i < |txs| && IsRowOf(txs[i].row, ruleId) && MonthIndex(txs[i].row.effectiveDate.value) == m;
      if i < |txs| - 1 {
        assert before[i] == txs[i];
      }
    }
  }

  /** With unique keys a rule has as many rows as months. */
  lemma {:induction false} RowsAreMonths(txs: seq<Transaction>, ruleId: string)
    requires RowsKeyed(txs, ruleId)
    ensures |RowsOf(txs, ruleId)| == |MonthsPosted(txs, ruleId)|
    decreases |txs|
  {
    hide MonthIndex, MonthsPosted;
    if txs == [] {
      assert MonthsPosted(txs, ruleId) == {} by { NoRowsNoMonths(ruleId); }
    } else {
      var before, last := txs[..|txs| - 1], txs[|txs| - 1].row;
      PrefixKeyed(txs, ruleId, |txs| - 1);
      RowsAreMonths(before, ruleId);
      MonthsOfPrefix(txs, ruleId);
      if last.recurringRuleId == Some(ruleId) {
        LastMonthIsNew(txs, ruleId);
      }
    }
  }

  lemma {:induction false} NoRowsNoMonths(ruleId: string)
    ensures MonthsPosted([], ruleId) == {}
  {
  }

  lemma {:induction false} LastMonthIsNew(txs: seq<Transaction>, ruleId: string)
    requires RowsKeyed(txs, ruleId) && txs != [] && txs[|txs| - 1].row.recurringRuleId == Some(ruleId)
    ensures txs[|txs| - 1].row.effectiveDate.Some?
    ensures MonthIndex(txs[|txs| - 1].row.effectiveDate.value) !in MonthsPosted(txs[..|txs| - 1], ruleId)
  {
    hide MonthIndex;
    var before, n := txs[..|txs| - 1], |txs| - 1;
    var m := MonthIndex(txs[n].row.effectiveDate.value);
    forall i | 0 <= i < |before| && IsRowOf(before[i].row, ruleId)
      ensures MonthIndex(before[i].row.effectiveDate.value) != m
    {
      assert txs[i] == before[i] && txs[i].row.occurrenceKey != txs[n].row.occurrenceKey;
    }
  }

  lemma {:induction false} MonthCount(first: int, next: int)
    requires first <= next
    ensures |Months(first, next)| == next - first
    decreases next - first
  {
    if first < next {
      MonthCount(first, next - 1);
      assert Months(first, next) == Months(first, next - 1) + {next - 1};
    } else {
      assert Months(first, next) == {};
    }
  }

  lemma {:induction false} SubsetOfSameSize(a: set<int>, b: set<int>)
    requires a <= b && |a| == |b|
    ensures a == b
  {
    assert b == a + (b - a);
    assert |b| == |a| + |b - a|;
  }

  // ---------------------------------------------------------------- one rule

  /** The row found under a month's key, if there is one. */
  ghost predicate Indexed(txs: seq<Transaction>, ruleId: string, byMonth: map<int, Date>) {
    && (forall i :: 0 <= i < |txs| && IsRowOf(txs[i].row, ruleId) ==>
          MonthIndex(txs[i].row.effectiveDate.value) in byMonth
          && byMonth[MonthIndex(txs[i].row.effectiveDate.value)] == txs[i].row.effectiveDate.value)
    && (forall m :: m in byMonth ==> m in MonthsPosted(txs, ruleId) && MonthIndex(byMonth[m]) == m)
  }

  /** The months from the start up to `m` have their rows on the anchor day. */
  ghost predicate CheckedUpTo(r: RecurringRule, byMonth: map<int, Date>, m: int) {
    && FIRST_MONTH <= MonthIndex(r.startsOn) && m < MONTH_LIMIT && 1 <= r.anchorDay <= 31
    && forall k :: MonthIndex(r.startsOn) <= k < m ==> k in byMonth && byMonth[k] == OccurrenceIn(k, r.anchorDay)
  }

  lemma {:induction false} CheckedIsContinuous(txs: seq<Transaction>, r: RecurringRule, byMonth: map<int, Date>)
    requires RowsKeyed(txs, r.id) && RuleShape(r) && Indexed(txs, r.id, byMonth)
    requires CheckedUpTo(r, byMonth, MonthIndex(r.nextOccurrence))
    requires |RowsOf(txs, r.id)| == MonthIndex(r.nextOccurrence) - MonthIndex(r.startsOn)
    ensures RuleContinuous(txs, r)
  {
    var first, next := MonthIndex(r.startsOn), MonthIndex(r.nextOccurrence);
    hide MonthIndex, OccurrenceIn, RowsOf;
    RowsAreMonths(txs, r.id);
    MonthCount(first, next);
    hide MonthsPosted;
    forall m | m in Months(first, next)
      ensures m in MonthsPosted(txs, r.id)
    {
    }
    SubsetOfSameSize(Months(first, next), MonthsPosted(txs, r.id));
    forall i | 0 <= i < |txs| && IsRowOf(txs[i].row, r.id)
      ensures OnAnchorDay(txs[i].row.effectiveDate.value, r.anchorDay)
    {
      RowMonthPosted(txs, r.id, i);
    }
  }

  lemma {:induction false} RowMonthPosted(txs: seq<Transaction>, ruleId: string, i: nat)
    requires i < |txs| && IsRowOf(txs[i].row, ruleId)
    ensures MonthIndex(txs[i].row.effectiveDate.value) in MonthsPosted(txs, ruleId)
  {
    hide MonthIndex;
  }

  lemma {:induction false} ContinuousIsChecked(txs: seq<Transaction>, r: RecurringRule, byMonth: map<int, Date>, m: int)
    requires RowsKeyed(txs, r.id) && RuleContinuous(txs, r) && Indexed(txs, r.id, byMonth)
    requires MonthIndex(r.startsOn) <= m < MonthIndex(r.nextOccurrence)
    ensures m in byMonth && OnAnchorDay(byMonth[m], r.anchorDay) && MonthIndex(byMonth[m]) == m
  {
    hide MonthIndex, OnAnchorDay;
    assert IsFrom(MonthIndex(r.startsOn), m);
    assert m in MonthsPosted(txs, r.id);
    var i :| 0 <= i < |txs| && IsRowOf(txs[i].row, r.id) && MonthIndex(txs[i].row.effectiveDate.value) == m;
  }

  lemma {:induction false} ContinuousCount(txs: seq<Transaction>, r: RecurringRule)
    requires RowsKeyed(txs, r.id) && RuleContinuous(txs, r) && MonthIndex(r.startsOn) <= MonthIndex(r.nextOccurrence)
    ensures |RowsOf(txs, r.id)| == MonthIndex(r.nextOccurrence) - MonthIndex(r.startsOn)
    ensures |RowsOf(txs, r.id)| <= |txs|
  {
    hide MonthIndex, OnAnchorDay;
    RowsAreMonths(txs, r.id);
    MonthCount(MonthIndex(r.startsOn), MonthIndex(r.nextOccurrence));
    FewerRows(txs, r.id);
  }

  lemma {:induction false} FewerRows(txs: seq<Transaction>, ruleId: string)
    ensures |RowsOf(txs, ruleId)| <= |txs|
    decreases |txs|
  {
    if txs != [] {
      FewerRows(txs[..|txs| - 1], ruleId);
    }
  }

  lemma {:induction false} RowSkipped(txs: seq<Transaction>, ruleId: string, byMonth: map<int, Date>)
    requires txs != [] && txs[|txs| - 1].row.recurringRuleId != Some(ruleId)
    requires Indexed(txs[..|txs| - 1], ruleId, byMonth)
    ensures Indexed(txs, ruleId, byMonth)
  {
    MonthsOfPrefix(txs, ruleId);
    hide MonthIndex, MonthsPosted;
    var before := txs[..|txs| - 1];
    forall i | 0 <= i < |txs| && IsRowOf(txs[i].row, ruleId)
      ensures MonthIndex(txs[i].row.effectiveDate.value) in byMonth
      ensures byMonth[MonthIndex(txs[i].row.effectiveDate.value)] == txs[i].row.effectiveDate.value
    {
      assert before[i] == txs[i];
    }
  }

  lemma {:induction false} RowIndexed(txs: seq<Transaction>, ruleId: string, byMonth: map<int, Date>)
    requires RowsKeyed(txs, ruleId) && txs != [] && txs[|txs| - 1].row.recurringRuleId == Some(ruleId)
    requires Indexed(txs[..|txs| - 1], ruleId, byMonth)
    ensures txs[|txs| - 1].row.effectiveDate.Some?
    ensures var d := txs[|txs| - 1].row.effectiveDate.value; Indexed(txs, ruleId, byMonth[MonthIndex(d) := d])
  {
    MonthsOfPrefix(txs, ruleId);
    LastMonthIsNew(txs, ruleId);
    hide MonthIndex;
    var before, d := txs[..|txs| - 1], txs[|txs| - 1].row.effectiveDate.value;
    var after := byMonth[MonthIndex(d) := d];
    forall i | 0 <= i < |txs| && IsRowOf(txs[i].row, ruleId)
      ensures MonthIndex(txs[i].row.effectiveDate.value) in after
      ensures after[MonthIndex(txs[i].row.effectiveDate.value)] == txs[i].row.effectiveDate.value
    {
      if i < |txs| - 1 {
        assert before[i] == txs[i];
        RowMonthPosted(before, ruleId, i);
      }
    }
  }

  /** Collects the rule's rows and indexes them by the month of their key. */
  method IndexRows(txs: seq<Transaction>, ruleId: string) returns (count: nat, byMonth: map<int, Date>)
    requires RowsKeyed(txs, ruleId)
    ensures count == |RowsOf(txs, ruleId)|
    ensures Indexed(txs, ruleId, byMonth)
  {
    hide MonthIndex, Indexed, RowsKeyed;
    count, byMonth := 0, map[];
    NothingIndexed(ruleId);
    for k := 0 to |txs|
      invariant count == |RowsOf(txs[..k], ruleId)|
      invariant Indexed(txs[..k], ruleId, byMonth)
    {
      var row := txs[k].row;
      assert txs[..k + 1][..k] == txs[..k];
      PrefixKeyed(txs, ruleId, k + 1);
      if row.recurringRuleId == Some(ruleId) {
        RowIndexed(txs[..k + 1], ruleId, byMonth);
        count := count + 1;
        byMonth := byMonth[MonthIndex(row.effectiveDate.value) := row.effectiveDate.value];
      } else {
        RowSkipped(txs[..k + 1], ruleId, byMonth);
      }
    }
    assert txs[..|txs|] == txs;
  }

  lemma {:induction false} NothingIndexed(ruleId: string)
    ensures Indexed([], ruleId, map[])
  {
  }

  lemma {:induction false} NextCursor(r: RecurringRule, m: int)
    requires FIRST_MONTH <= m && m + 1 < MONTH_LIMIT && 1 <= r.anchorDay <= 31
    ensures NextMonthOccurrence(OccurrenceIn(m, r.anchorDay), r.anchorDay) == Some(OccurrenceIn(m + 1, r.anchorDay))
    ensures MonthIndex(OccurrenceIn(m, r.anchorDay)) == m
  {
    OccurrenceOrder(m, m, r.anchorDay);
    hide OccurrenceIn;
    NextIsFollowingMonth(OccurrenceIn(m, r.anchorDay), r.anchorDay);
  }

  lemma {:induction false} CursorOrder(r: RecurringRule, m: int)
    requires RuleShape(r) && MonthIndex(r.startsOn) <= m <= MonthIndex(r.nextOccurrence)
    ensures FIRST_MONTH <= m < MONTH_LIMIT && 1 <= r.anchorDay <= 31
    ensures Before(OccurrenceIn(m, r.anchorDay), r.nextOccurrence) <==> m < MonthIndex(r.nextOccurrence)
    ensures m == MonthIndex(r.nextOccurrence) ==> OccurrenceIn(m, r.anchorDay) == r.nextOccurrence
    ensures r.startsOn == OccurrenceIn(MonthIndex(r.startsOn), r.anchorDay)
    ensures MonthIndex(OccurrenceIn(m, r.anchorDay)) == m
  {
    AnchoredIsOccurrence(r.startsOn, r.anchorDay);
    AnchoredIsOccurrence(r.nextOccurrence, r.anchorDay);
    OccurrenceOrder(m, MonthIndex(r.nextOccurrence), r.anchorDay);
  }

  /** One rule's part of `hasContinuousRecurringOccurrences`: walking from the start of the rule to its next
      occurrence, each month must have its row. */
  method IsRuleContinuous(txs: seq<Transaction>, r: RecurringRule) returns (ok: bool)
    requires RowsKeyed(txs, r.id) && RuleShape(r)
    ensures ok <==> RuleContinuous(txs, r)
  {
    hide MonthIndex, OccurrenceIn, RuleShape, RuleContinuous, RowsOf, Before, NextMonthOccurrence, MonthOccurrence, Indexed, RowsKeyed;
    var count, byMonth := IndexRows(txs, r.id);
    var expected := 0;
    var cursor := r.startsOn;
    ghost var first := MonthIndex(r.startsOn);
    MonthsInOrder(r);
    CursorOrder(r, first);
    while Before(cursor, r.nextOccurrence)
      invariant first + expected <= MonthIndex(r.nextOccurrence)
      invariant FIRST_MONTH <= first + expected < MONTH_LIMIT && 1 <= r.anchorDay <= 31
      invariant cursor == OccurrenceIn(first + expected, r.anchorDay)
      invariant Before(cursor, r.nextOccurrence) <==> first + expected < MonthIndex(r.nextOccurrence)
      invariant CheckedUpTo(r, byMonth, first + expected)
      decreases MonthIndex(r.nextOccurrence) - first - expected
    {
      CursorOrder(r, first + expected);
      CursorOrder(r, first + expected + 1);
      NextCursor(r, first + expected);
      if expected >= |txs| {
        if RuleContinuous(txs, r) { ContinuousCount(txs, r); }
        return false;
      }
      if MonthIndex(cursor) !in byMonth || byMonth[MonthIndex(cursor)] != cursor {
        if RuleContinuous(txs, r) {
          ContinuousIsChecked(txs, r, byMonth, first + expected);
          AnchorDayIs(byMonth[first + expected], r.anchorDay);
        }
        return false;
      }
      expected := expected + 1;
      var next := NextMonthOccurrence(cursor, r.anchorDay);
      if next.None? {
        return false;
      }
      cursor := next.value;
    }
    CursorOrder(r, first + expected);
    ok := cursor == r.nextOccurrence && count == expected;
    if ok {
      CheckedIsContinuous(txs, r, byMonth);
    } else if RuleContinuous(txs, r) {
      ContinuousCount(txs, r);
    }
  }

  lemma {:induction false} MonthsInOrder(r: RecurringRule)
    requires RuleShape(r)
    ensures MonthIndex(r.startsOn) <= MonthIndex(r.nextOccurrence)
  {
    hide MonthIndex;
  }

  lemma {:induction false} AnchorDayIs(d: Date, anchorDay: int)
    requires OnAnchorDay(d, anchorDay)
    ensures FIRST_MONTH <= MonthIndex(d) < MONTH_LIMIT && 1 <= anchorDay <= 31 && d == OccurrenceIn(MonthIndex(d), anchorDay)
  {
  }

  // ---------------------------------------------------------------- the start of a rule

  /** `isRecurringStartBounded`: at most 120 occurrences up to the day of creation. */
  method IsRecurringStartBounded(r: RecurringRule) returns (ok: bool)
    ensures ok <==> IsStartBounded(r)
  {
    hide MonthOccurrence, NextMonthOccurrence, IsAllowedEffectiveDate, MonthIndex, Before;
    var created := r.createdAt.date;
    if !IsAllowedEffectiveDate(r.startsOn, r.createdAt)
       && !(Before(created, r.startsOn) && MonthIndex(r.startsOn) == MonthIndex(created)) {
      return false;
    }
    var cursor := r.startsOn;
    var initial := 0;
    while !Before(created, cursor)
      invariant initial <= 120
      invariant DueThrough(r.startsOn, r.anchorDay, created, 120).Some? <==> DueThrough(cursor, r.anchorDay, created, 120 - initial).Some?
      decreases 120 - initial
    {
      initial := initial + 1;
      if initial > 120 {
        return false;
      }
      var next := NextMonthOccurrence(cursor, r.anchorDay);
      if next.None? {
        return false;
      }
      cursor := next.value;
    }
    return true;
  }
}
