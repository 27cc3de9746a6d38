/** What the commands on rules, accounts, cards and settings come to, case by case. */
module StandingOutcomes {
  import opened Wrappers
  import opened Calendar
  import opened Currency
  import opened Money
  import opened BankTypes
  import opened Ledger
  import opened Interest
  import opened BankValidity
  import opened Posting
  import opened Settlement
  import opened Recurring
  import opened RecurringProofs
  import opened AccountLifecycle
  import opened BankCommands
  import opened CommandTerms

  // ---------------------------------------------------------------- rules

  predicate IsRule(s: BankState, id: string, i: nat) {
    i < |s.recurringRules| && s.recurringRules[i].id == id
  }

  predicate NoRule(s: BankState, id: string) {
    forall i :: 0 <= i < |s.recurringRules| ==> s.recurringRules[i].id != id
  }

  lemma {:induction false} FindIsRule(s: BankState, id: string, i: nat, now: Instant)
    requires Sound(s, now) && IsRule(s, id, i)
    ensures FindRule(s.recurringRules, id) == Some(i)
    ensures forall status, reason :: WithStatus(s.recurringRules, id, status, reason)
                                     == s.recurringRules[i := s.recurringRules[i].(status := status, pauseReason := reason)]
  {
    hide Sound;
    UniqueRules(s, now);
    RuleIsUnique(s, i, now);
    FindRuleIsUnique(s.recurringRules, i);
  }

  /** Pausing marks that one rule as paused by hand, also when it was paused for another reason. */
  lemma {:induction false} PauseOutcome(s: BankState, id: string, now: Instant)
    requires Sound(s, now)
    ensures NoRule(s, id) ==> Pause(s, id) == Refuse(UnknownRule)
    ensures forall i: nat :: IsRule(s, id, i) ==>
              var r := s.recurringRules[i];
              Pause(s, id) == if r.status.RulePaused? && r.pauseReason == Some(ManualPause) then Done(s, false, [], None, None)
                              else Done(s.(recurringRules := s.recurringRules[i := r.(status := RulePaused, pauseReason := Some(ManualPause))]),
                                        true, [], None, None)
  {
    hide Sound, FindRule, WithStatus;
    forall i: nat | IsRule(s, id, i)
      ensures FindRule(s.recurringRules, id) == Some(i)
      ensures WithStatus(s.recurringRules, id, RulePaused, Some(ManualPause))
              == s.recurringRules[i := s.recurringRules[i].(status := RulePaused, pauseReason := Some(ManualPause))]
    {
      FindIsRule(s, id, i, now);
    }
  }

  /** Resuming makes a paused rule of an open account active, with no reason left, and catches up at once. */
  ghost predicate ResumesAs(s: BankState, i: nat, j: nat, now: Instant, out: Outcome)
    requires i < |s.recurringRules| && j < |s.accounts|
  {
    var r := s.recurringRules[i];
    if s.accounts[j].status.Closed? then out == Refuse(AccountClosed)
    else if r.status.RuleActive? then out == Done(s, false, [], None, None)
    else
      var active := s.(recurringRules := s.recurringRules[i := r.(status := RuleActive, pauseReason := None)]);
      var m := MaterializeRecurring(active, now, 5_000);
      out == Done(m.state, true, m.warnings, None, None)
  }

  lemma {:induction false} ResumeOutcome(s: BankState, id: string, now: Instant)
    requires Sound(s, now)
    ensures NoRule(s, id) ==> Resume(s, id, now) == Refuse(UnknownRule)
    ensures forall i: nat, j: nat :: IsRule(s, id, i) && IsAccount(s, s.recurringRules[i].accountId, j)
                                     ==> ResumesAs(s, i, j, now, Resume(s, id, now))
  {
    hide Sound, FindRule, FindAccount, WithStatus, MaterializeRecurring;
    forall i: nat, j: nat | IsRule(s, id, i) && IsAccount(s, s.recurringRules[i].accountId, j)
      ensures ResumesAs(s, i, j, now, Resume(s, id, now))
    {
      FindIsRule(s, id, i, now);
      FindIsAccount(s, s.recurringRules[i].accountId, j, now);
    }
  }

  // ---------------------------------------------------------------- opening

  /** `acc_` and one to ninety-one letters, digits or `_.:-`. */
  predicate IsNewAccountId(id: string) {
    && 5 <= |id| <= 95 && id[..4] == "acc_"
    && forall i :: 4 <= i < |id| ==>
         || 'a' <= id[i] <= 'z' || 'A' <= id[i] <= 'Z' || '0' <= id[i] <= '9' || id[i] in "_.:-"
  }

  /** Ten to thirty-four capital letters, digits and spaces. */
  predicate IsNumberForm(number: string) {
    && 10 <= |number| <= 34
    && forall i :: 0 <= i < |number| ==> 'A' <= number[i] <= 'Z' || '0' <= number[i] <= '9' || number[i] == ' '
  }

  ghost predicate OpensAs(s: BankState, input: AddInput, now: Instant, out: Outcome)
    requires 0 <= s.nextSeq
  {
    if !IsNewAccountId(input.accountId) || input.name.None? || !IsNumberForm(input.number) then out == Refuse(InvalidAccount)
    else if exists k :: 0 <= k < |s.accounts| && (s.accounts[k].id == input.accountId || s.accounts[k].number == input.number)
    then out == Refuse(DuplicateAccount)
    else if exists k :: 0 <= k < |s.accounts| && s.accounts[k].status.Open? && s.accounts[k].kind.Checking? && s.accounts[k].currency == input.currency
    then out == Refuse(DuplicateCurrency)
    else if |s.accounts| >= 24 || |s.transactions| >= 5_000 then out == Refuse(NoCapacity)
    else if s.nextSeq >= MAX_SAFE then out == Refuse(BalanceOverflow)
    else
      var account := Account(input.accountId, Checking, Custom, Open, None, input.name.value, input.currency, input.number, None, None, now);
      var row := Draft(input.accountId, 0, Seed, Some("Account opened"), Some("other"), None, None, None, Some(now.date), None, None, now);
      && 0 <= s.nextSeq
      && out == Done(WithRow(s.(accounts := s.accounts + [account]), row), true, [], None, None)
  }

  lemma {:induction false} OpeningIdSpelled(id: string)
    ensures IsAccountId(id) <==> IsNewAccountId(id)
  {
  }

  lemma {:induction false} OpeningOutcome(s: BankState, input: AddInput, now: Instant)
    requires Sound(s, now)
    ensures 0 < s.nextSeq && OpensAs(s, input, now, AddAccount(s, input, now))
  {
    hide Sound, AppendRow, BalanceOf, Show, WithRow, HasRoomForRow, IsAccountId, IsNewAccountId;
    PositiveSequence(s, now);
    OpeningIdSpelled(input.accountId);
    if input.name.Some? {
      var enlarged := s.(accounts := s.accounts + [NewAccount(input, now)]);
      var row := OpeningRow(input.accountId, now);
      AppendIsNextRow(enlarged, row);
      RoomForNothing(s, enlarged, input.accountId, now);
    }
  }

  lemma {:induction false} PositiveSequence(s: BankState, now: Instant)
    requires Sound(s, now)
    ensures 0 < s.nextSeq <= MAX_SAFE
  {
  }

  lemma {:induction false} RoomForNothing(s: BankState, enlarged: BankState, id: string, now: Instant)
    requires Sound(s, now) && enlarged == s.(accounts := enlarged.accounts)
    ensures HasRoomForRow(enlarged, id, 0) <==> s.nextSeq < MAX_SAFE
  {
    hide Sound, BalanceOf;
    PositiveSequence(s, now);
    BalanceIsNatural(s, id, now);
  }

  // ---------------------------------------------------------------- closing and restoring

  lemma {:induction false} SomeOpen(accounts: seq<Account>, i: nat)
    requires i < |accounts| && accounts[i].status.Open?
    ensures CountOpen(accounts) >= 1
    ensures CountOpen(accounts) <= 1 <==> forall k :: 0 <= k < |accounts| && k != i ==> accounts[k].status.Closed?
    decreases |accounts|
  {
    if i > 0 {
      SomeOpen(accounts[1..], i - 1);
      assert forall k :: 0 < k < |accounts| ==> accounts[k] == accounts[1..][k - 1];
      if accounts[0].status.Closed? {
        assert forall k :: 0 <= k < |accounts| - 1 && k != i - 1 ==> accounts[1..][k] == accounts[k + 1];
      }
    } else {
      NoneOpen(accounts[1..]);
      assert forall k :: 0 < k < |accounts| ==> accounts[k] == accounts[1..][k - 1];
      assert forall k :: 0 <= k < |accounts| - 1 ==> accounts[1..][k] == accounts[k + 1];
    }
  }

  lemma {:induction false} NoneOpen(accounts: seq<Account>)
    ensures CountOpen(accounts) == 0 <==> forall k :: 0 <= k < |accounts| ==> accounts[k].status.Closed?
  {
    if accounts != [] {
      NoneOpen(accounts[1..]);
      assert forall k :: 0 < k < |accounts| ==> accounts[k] == accounts[1..][k - 1];
      assert forall k :: 0 <= k < |accounts| - 1 ==> accounts[1..][k] == accounts[k + 1];
    }
  }

  /** The account is closed now, its active cards are frozen and its active rules paused on that account; all
      other accounts, cards and rules, and everything else, are as before. */
  ghost predicate IsShut(s: BankState, after: BankState, i: nat, now: Instant)
    requires i < |s.accounts|
  {
    var a := s.accounts[i];
    && after == s.(accounts := after.accounts, cards := after.cards, recurringRules := after.recurringRules)
    && after.accounts == s.accounts[i := a.(status := Closed, closedAt := Some(now),
                                            accrualAnchor := if a.kind.Savings? then Some(now) else a.accrualAnchor)]
    && |after.cards| == |s.cards|
    && (forall k :: 0 <= k < |s.cards| ==>
          after.cards[k] == if s.cards[k].accountId == a.id && s.cards[k].status.CardActive?
                            then s.cards[k].(status := CardFrozen, freezeReason := Some(FrozenByClosing)) else s.cards[k])
    && |after.recurringRules| == |s.recurringRules|
    && (forall k :: 0 <= k < |s.recurringRules| ==>
          after.recurringRules[k]
          == if s.recurringRules[k].accountId == a.id && s.recurringRules[k].status.RuleActive?
             then s.recurringRules[k].(status := RulePaused, pauseReason := Some(PausedByClosing)) else s.recurringRules[k])
  }

  ghost predicate ClosesAs(s: BankState, i: nat, now: Instant, out: Outcome)
    requires i < |s.accounts|
  {
    var id := s.accounts[i].id;
    if s.accounts[i].status.Closed? then out == Done(s, false, [], None, None)
    else match SettleAccount(s, id, now)
    case None => out == Refuse(BalanceOverflow)
    case Some(settled) =>
      if BalanceOf(settled.transactions, id) != 0 then out == Refuse(NonZeroBalance)
      else if forall k :: 0 <= k < |s.accounts| && k != i ==> s.accounts[k].status.Closed? then out == Refuse(LastActiveAccount)
      else
        && out.Done? && out == Done(out.state, true, [], None, None)
        && i < |settled.accounts| && IsShut(settled, out.state, i, now)
  }

  lemma {:induction false} SettledStanding(s: BankState, i: nat, now: Instant)
    requires Sound(s, now) && i < |s.accounts| && SettleAccount(s, s.accounts[i].id, now).Some?
    ensures var settled := SettleAccount(s, s.accounts[i].id, now).value;
            && |settled.accounts| == |s.accounts|
            && (forall k :: 0 <= k < |s.accounts| ==> settled.accounts[k].status == s.accounts[k].status && settled.accounts[k].id == s.accounts[k].id)
  {
    hide Sound, SettleAccount;
    SettleAccountFrame(s, s.accounts[i].id, now);
    var settled := SettleAccount(s, s.accounts[i].id, now).value;
    forall k | 0 <= k < |s.accounts|
      ensures settled.accounts[k].id == s.accounts[k].id
    {
      assert Identity(s.accounts[k]) == Identity(settled.accounts[k]);
    }
  }

  lemma {:induction false} ShutIs(settled: BankState, i: nat, now: Instant)
    requires i < |settled.accounts|
    requires forall k :: 0 <= k < |settled.accounts| && settled.accounts[k].id == settled.accounts[i].id ==> k == i
    ensures IsShut(settled, Shut(settled, settled.accounts[i].id, now), i, now)
  {
  }

  /** Closing settles first, refuses an account with money and the last open one, and shuts the account. */
  lemma {:induction false} ClosingOutcome(s: BankState, id: string, now: Instant)
    requires Sound(s, now)
    ensures NoAccount(s, id) ==> CloseAccount(s, id, now) == Refuse(UnknownAccount)
    ensures forall i: nat :: IsAccount(s, id, i) ==> ClosesAs(s, i, now, CloseAccount(s, id, now))
  {
    hide Sound, FindAccount, SettleAccount, BalanceOf, CountOpen, Shut, IsShut;
    FindsNoAccount(s, id);
    forall i: nat | IsAccount(s, id, i)
      ensures ClosesAs(s, i, now, CloseAccount(s, id, now))
    {
      FindIsAccount(s, id, i, now);
      if s.accounts[i].status.Open? && SettleAccount(s, id, now).Some? {
        var settled := SettleAccount(s, id, now).value;
        SettledStanding(s, i, now);
        AccountIsUnique(s, i, now);
        SomeOpen(settled.accounts, i);
        ShutIs(settled, i, now);
      }
    }
  }

  /** The account is open again, what its closing stopped goes on, and its accrual starts now. */
  ghost predicate IsReopened(s: BankState, after: BankState, i: nat, now: Instant)
    requires i < |s.accounts|
  {
    var a := s.accounts[i];
    && after == s.(accounts := after.accounts, cards := after.cards, recurringRules := after.recurringRules)
    && after.accounts == s.accounts[i := a.(status := Open, closedAt := None,
                                            accrualAnchor := if a.kind.Savings? then Some(now) else a.accrualAnchor)]
    && |after.cards| == |s.cards|
    && (forall k :: 0 <= k < |s.cards| ==>
          after.cards[k] == if s.cards[k].accountId == a.id && s.cards[k].freezeReason == Some(FrozenByClosing)
                            then s.cards[k].(status := CardActive, freezeReason := None) else s.cards[k])
    && |after.recurringRules| == |s.recurringRules|
    && (forall k :: 0 <= k < |s.recurringRules| ==>
          after.recurringRules[k]
          == if s.recurringRules[k].accountId == a.id && s.recurringRules[k].pauseReason == Some(PausedByClosing)
             then s.recurringRules[k].(status := RuleActive, pauseReason := None) else s.recurringRules[k])
  }

  ghost predicate RestoresAs(s: BankState, i: nat, now: Instant, out: Outcome)
    requires i < |s.accounts|
  {
    var a := s.accounts[i];
    if a.status.Open? then out == Done(s, false, [], None, None)
    else if a.kind.Checking? && exists k :: 0 <= k < |s.accounts| && s.accounts[k].status.Open? && s.accounts[k].kind.Checking?
                                            && s.accounts[k].currency == a.currency
    then out == Refuse(DuplicateCurrency)
    else out.Done? && out == Done(out.state, true, [], None, None) && IsReopened(s, out.state, i, now)
  }

  lemma {:induction false} RestoringOutcome(s: BankState, id: string, now: Instant)
    requires Sound(s, now)
    ensures NoAccount(s, id) ==> RestoreAccount(s, id, now) == Refuse(UnknownAccount)
    ensures forall i: nat :: IsAccount(s, id, i) ==> RestoresAs(s, i, now, RestoreAccount(s, id, now))
  {
    hide Sound, FindAccount;
    FindsNoAccount(s, id);
    forall i: nat | IsAccount(s, id, i)
      ensures RestoresAs(s, i, now, RestoreAccount(s, id, now))
    {
      FindIsAccount(s, id, i, now);
      AccountIsUnique(s, i, now);
      ReopenIs(s, i, now);
      hide Reopen, IsReopened;
      var a := s.accounts[i];
      if a.status.Closed? {
        assert HasOtherOpenChecking(s.accounts, id, a.currency)
            <==> exists k :: 0 <= k < |s.accounts| && s.accounts[k].status.Open? && s.accounts[k].kind.Checking? && s.accounts[k].currency == a.currency;
      }
    }
  }

  lemma {:induction false} ReopenIs(s: BankState, i: nat, now: Instant)
    requires i < |s.accounts|
    requires forall k :: 0 <= k < |s.accounts| && s.accounts[k].id == s.accounts[i].id ==> k == i
    ensures IsReopened(s, Reopen(s, s.accounts[i].id, now), i, now)
  {
  }

  // ---------------------------------------------------------------- cards and settings

  predicate IsCard(s: BankState, id: string, k: nat) {
    k < |s.cards| && s.cards[k].id == id
  }

  lemma {:induction false} FindIsCard(s: BankState, id: string, k: nat, frozen: bool, now: Instant)
    requires Sound(s, now) && IsCard(s, id, k)
    ensures FindCard(s.cards, id) == Some(k)
    ensures WithCard(s.cards, id, frozen) == s.cards[k := Switched(s.cards[k], frozen)]
  {
    hide Sound;
    CardsDistinct(s, now);
    CardMissing(s.cards, id);
  }

  lemma {:induction false} CardsDistinct(s: BankState, now: Instant)
    requires Sound(s, now)
    ensures forall i, j :: 0 <= i < j < |s.cards| ==> s.cards[i].id != s.cards[j].id
  {
  }

  lemma {:induction false} CardMissing(cards: seq<Card>, id: string)
    ensures FindCard(cards, id).None? ==> forall k :: 0 <= k < |cards| ==> cards[k].id != id
  {
    if cards != [] {
      CardMissing(cards[1..], id);
      assert forall k :: 0 < k < |cards| ==> cards[k] == cards[1..][k - 1];
    }
  }

  lemma {:induction false} FoundCard(s: BankState, id: string)
    ensures FindCard(s.cards, id).Some? ==> IsCard(s, id, FindCard(s.cards, id).value)
  {
  }

  /** A card that is frozen is frozen by hand afterwards, one that is unfrozen is active without a reason, which
      its account must be open for; no other card changes. */
  ghost predicate SwitchesAs(s: BankState, k: nat, frozen: bool, out: Outcome)
    requires k < |s.cards|
  {
    var card := s.cards[k];
    if !frozen && !(exists j: nat :: IsAccount(s, card.accountId, j) && s.accounts[j].status.Open?) then out == Refuse(AccountClosed)
    else if card.status.CardFrozen? == frozen then out == Done(s, false, [], None, None)
    else
      var switched := if frozen then card.(status := CardFrozen, freezeReason := Some(ManualFreeze))
                      else card.(status := CardActive, freezeReason := None);
      out == Done(s.(cards := s.cards[k := switched]), true, [], None, None)
  }

  lemma {:induction false} SwitchingOutcome(s: BankState, id: string, frozen: bool, now: Instant)
    requires Sound(s, now)
    ensures (forall k: nat :: !IsCard(s, id, k)) ==> FreezeCard(s, id, frozen) == Refuse(UnknownCard)
    ensures forall k: nat :: IsCard(s, id, k) ==> SwitchesAs(s, k, frozen, FreezeCard(s, id, frozen))
  {
    hide Sound, FindCard, FindAccount, WithCard;
    FoundCard(s, id);
    forall k: nat | IsCard(s, id, k)
      ensures SwitchesAs(s, k, frozen, FreezeCard(s, id, frozen))
    {
      FindIsCard(s, id, k, frozen, now);
      var owner := s.cards[k].accountId;
      FindsNoAccount(s, owner);
      var found := FindAccount(s.accounts, owner);
      if found.Some? {
        assert IsAccount(s, owner, found.value);
        AccountIsUnique(s, found.value, now);
      }
    }
  }

  /** The settings change alone, and count as applied exactly when they change. */
  lemma {:induction false} SettingsOutcome(s: BankState, currency: Currency, name: Option<Text>, now: Instant)
    ensures ApplyBankCommand(s, SetPrimaryCurrency(currency), now)
            == Done(s.(primaryCurrency := currency), s.primaryCurrency != currency, [], None, None)
    ensures ApplyBankCommand(s, SetDisplayName(name), now)
            == if name.None? then Refuse(InvalidDisplayName)
               else Done(s.(profile := Profile(name.value, s.profile.telegramId)), s.profile.displayName != name.value, [], None, None)
  {
  }

  /** Settling settles the savings account if it is open, and nothing is kept when its row does not fit. */
  ghost predicate SettlesAllAs(s: BankState, j: nat, now: Instant, out: Outcome)
    requires j < |s.accounts|
  {
    if s.accounts[j].status.Closed? then out == Done(s, false, [], None, None)
    else match SettleAccount(s, s.accounts[j].id, now)
    case None => out == Refuse(BalanceOverflow)
    case Some(settled) =>
      if |settled.transactions| > 5_000 then out == Refuse(NoCapacity)
      else out == Done(settled, settled != s, [], None, None)
  }

  lemma {:induction false} SettlingOutcome(s: BankState, now: Instant)
    requires Sound(s, now)
    ensures exists j: nat :: j < |s.accounts| && s.accounts[j].kind.Savings? && SettlesAllAs(s, j, now, SettleInterest(s, now))
  {
    hide Sound, SettleAll, SettleAccount, SettlesAllAs;
    var j := SavingsOf(s, now);
    SettlesOne(s, j, now);
  }

  lemma {:induction false} SettlesOne(s: BankState, j: nat, now: Instant)
    requires Sound(s, now) && IsOnlySavings(s.accounts, j)
    ensures SettlesAllAs(s, j, now, SettleInterest(s, now))
  {
    hide Sound, SettleAll, SettleAccount;
    RowsWithinLimit(s, now);
    SettleAllIsOne(s, j, now);
  }
}
