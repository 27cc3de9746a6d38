/** What settling, recording, adjusting and transferring come to, case by case: why they are refused, and exactly
    which rows they write. */
module EntryOutcomes {
  import opened Wrappers
  import opened Calendar
  import opened Currency
  import opened CurrencyProofs
  import opened Money
  import opened BankTypes
  import opened Ledger
  import opened Interest
  import opened BankValidity
  import opened Posting
  import opened Settlement
  import opened Recurring
  import opened Transfer
  import opened TransferProofs
  import opened ManualTransactions
  import opened BankCommands
  import opened CommandTerms

  // ---------------------------------------------------------------- settling one account

  /** An open savings account with a rate and an anchor on an earlier day receives its interest in one row, and
      the anchor moves to now; any other account is left alone. */
  ghost predicate SettlesTo(s: BankState, i: nat, now: Instant, r: Option<BankState>)
    requires i < |s.accounts| && 0 <= s.nextSeq
  {
    var a := s.accounts[i];
    if !(a.status.Open? && a.kind.Savings? && a.apy.Some? && a.apy.value != 0.0 && a.accrualAnchor.Some?
         && Before(a.accrualAnchor.value.date, now.date))
    then r == Some(s)
    else
      var interest := AccruedInterest(BalanceOf(s.transactions, a.id), a.apy.value, a.accrualAnchor.value, now);
      var anchored := s.accounts[i := a.(accrualAnchor := Some(now))];
      if interest <= 0 then r == Some(s.(accounts := anchored))
      else if !HasRoomForRow(s, a.id, interest) then r == None
      else r == Some(WithRow(s, Draft(a.id, interest, Interest, Some("Проценты по счёту"), Some("interest"),
                                      None, None, None, None, None, None, now)).(accounts := anchored))
  }

  lemma {:induction false} AnchoredAt(s: BankState, i: nat, now: Instant)
    requires Sound(s, now) && i < |s.accounts|
    ensures WithAnchor(s.accounts, s.accounts[i].id, now) == s.accounts[i := s.accounts[i].(accrualAnchor := Some(now))]
  {
    hide Sound;
    AccountIsUnique(s, i, now);
  }

  lemma {:induction false} PassedIsBefore(anchor: Instant, now: Instant)
    ensures ElapsedDays(anchor, now) > 0 <==> Before(anchor.date, now.date)
  {
    EpochDayIsCalendarOrder(anchor.date, now.date);
    hide EpochDay, Before;
  }

  lemma {:induction false} SequencePositive(s: BankState, now: Instant)
    requires Sound(s, now)
    ensures 0 < s.nextSeq <= MAX_SAFE
  {
  }

  lemma {:induction false} SettlementOutcome(s: BankState, i: nat, now: Instant)
    requires Sound(s, now) && i < |s.accounts| && 0 <= s.nextSeq
    ensures SettlesTo(s, i, now, SettleAccount(s, s.accounts[i].id, now))
  {
    hide Sound, AppendRow, BalanceOf, AccruedInterest, ElapsedDays, Before, FindAccount, Show, HasRoomForRow, WithRow;
    var a := s.accounts[i];
    FindIsAccount(s, a.id, i, now);
    AnchoredAt(s, i, now);
    if a.accrualAnchor.Some? {
      PassedIsBefore(a.accrualAnchor.value, now);
      if a.apy.Some? {
        var interest := AccruedInterest(BalanceOf(s.transactions, a.id), a.apy.value, a.accrualAnchor.value, now);
        AppendIsNextRow(s, InterestRow(a.id, interest, now));
        if AppendRow(s, InterestRow(a.id, interest, now)).Some? {
          RowKeepsAccounts(s, InterestRow(a.id, interest, now));
        }
      }
    }
  }

  lemma {:induction false} RowKeepsAccounts(s: BankState, row: Draft)
    requires 0 <= s.nextSeq
    ensures WithRow(s, row).accounts == s.accounts
  {
    hide BalanceOf, Show;
  }

  // ---------------------------------------------------------------- recording

  ghost predicate RecordsAs(s: BankState, input: ManualInput, i: nat, now: Instant, out: Outcome)
    requires i < |s.accounts| && 0 <= s.nextSeq
  {
    var a, balance := s.accounts[i], BalanceOf(s.transactions, input.accountId);
    if a.status.Closed? then out == Refuse(AccountClosed)
    else if a.kind.Savings? then out == Refuse(CheckingOnly)
    else if !IsRecent(input.effectiveDate, now) then out == Refuse(InvalidDate)
    else match ParseAmountInput(input.amountInput, a.currency, input.locale)
    case None => out == Refuse(InvalidAmount)
    case Some(amount) =>
      var signed: int := if input.direction.Income? then amount else -(amount as int);
      if !IsAffordable(amount, a.currency, s.exchangeRates) then out == Refuse(AmountTooLarge)
      else if input.counterparty.None? then out == Refuse(InvalidCounterparty)
      else if input.note.None? then out == Refuse(InvalidNote)
      else if input.category.None? then out == Refuse(InvalidCategory)
      else if |s.transactions| >= 5_000 then out == Refuse(NoCapacity)
      else if balance + signed < 0 then out == Refused(NotEnoughFunds, Some(balance), Some(amount))
      else if !HasRoomForRow(s, input.accountId, signed) then out == Refuse(BalanceOverflow)
      else
        out == Done(WithRow(s, Draft(input.accountId, signed, if input.direction.Income? then ManualIncome else ManualExpense,
                                     input.counterparty, input.category, None, None,
                                     if input.note.value == "" then None else input.note, Some(input.effectiveDate), None, None, now)),
                    true, [], None, None)
  }

  lemma {:induction false} RecordOutcome(s: BankState, input: ManualInput, now: Instant)
    requires Sound(s, now)
    ensures 0 < s.nextSeq
    ensures NoAccount(s, input.accountId) ==> RecordTransaction(s, input, now) == Refuse(UnknownAccount)
    ensures forall i: nat :: IsAccount(s, input.accountId, i) ==> RecordsAs(s, input, i, now, RecordTransaction(s, input, now))
  {
    hide Sound, AppendRow, BalanceOf, FindAccount, Show, HasRoomForRow, WithRow, WithinCommandUsdLimit, IsAffordable, IsRecent,
      IsAllowedEffectiveDate, ParseAmountInput;
    SequencePositive(s, now);
    FindsNoAccount(s, input.accountId);
    AllowedIsRecent(input.effectiveDate, now);
    BalanceIsNatural(s, input.accountId, now);
    forall i: nat | IsAccount(s, input.accountId, i)
      ensures RecordsAs(s, input, i, now, RecordTransaction(s, input, now))
    {
      FindIsAccount(s, input.accountId, i, now);
      var a := s.accounts[i];
      var parsed := ParseAmountInput(input.amountInput, a.currency, input.locale);
      if parsed.Some? {
        LimitIsAffordable(parsed.value, a.currency, s.exchangeRates);
        if input.counterparty.Some? && input.note.Some? && input.category.Some? && IsAllowedEffectiveDate(input.effectiveDate, now) {
          AppendIsNextRow(s, ManualRow(input, parsed.value, now));
        }
      }
    }
  }

  // ---------------------------------------------------------------- adjusting

  ghost predicate AdjustsAs(s: BankState, input: AdjustInput, i: nat, now: Instant, out: Outcome)
    requires i < |s.accounts|
  {
    var a := s.accounts[i];
    if a.status.Closed? then out == Refuse(AccountClosed)
    else match ParseBalanceInput(input.targetAmountInput, a.currency, input.locale)
    case None => out == Refuse(InvalidAmount)
    case Some(target) =>
      match SettleAccount(s, input.accountId, now)
      case None => out == Refuse(BalanceOverflow)
      case Some(settled) =>
        && 0 <= settled.nextSeq
        && var amount := target - BalanceOf(settled.transactions, input.accountId);
        if |settled.transactions| > 5_000 then out == Refuse(NoCapacity)
        else if amount == 0 then out == Done(settled, settled != s, [], None, None)
        else if |settled.transactions| == 5_000 then out == Refuse(NoCapacity)
        else if !IsSafe(amount) then out == Refuse(BalanceOverflow)
        else if !IsAffordable(if amount > 0 then amount else -amount, a.currency, s.exchangeRates) then out == Refuse(AmountTooLarge)
        else if !HasRoomForRow(settled, input.accountId, amount) then out == Refuse(BalanceOverflow)
        else
          out == Done(WithRow(settled, Draft(input.accountId, amount, BalanceAdjustment, Some("Balance correction"), Some("other"),
                                             None, None, None, Some(now.date), None, None, now)),
                      true, [], None, None)
  }

  lemma {:induction false} AdjustOutcome(s: BankState, input: AdjustInput, now: Instant)
    requires Sound(s, now)
    ensures NoAccount(s, input.accountId) ==> AdjustBalance(s, input, now) == Refuse(UnknownAccount)
    ensures forall i: nat :: IsAccount(s, input.accountId, i) ==> AdjustsAs(s, input, i, now, AdjustBalance(s, input, now))
  {
    hide Sound, AppendRow, BalanceOf, FindAccount, Show, HasRoomForRow, WithRow, WithinCommandUsdLimit, IsAffordable,
      ParseBalanceInput, SettleAccount, SettledFrom;
    FindsNoAccount(s, input.accountId);
    SequencePositive(s, now);
    forall i: nat | IsAccount(s, input.accountId, i)
      ensures AdjustsAs(s, input, i, now, AdjustBalance(s, input, now))
    {
      FindIsAccount(s, input.accountId, i, now);
      var a := s.accounts[i];
      var settled := SettleAccount(s, input.accountId, now);
      if settled.Some? {
        SettledSequence(s, input.accountId, now);
        var target := ParseBalanceInput(input.targetAmountInput, a.currency, input.locale);
        if target.Some? {
          var amount := target.value - BalanceOf(settled.value.transactions, input.accountId);
          LimitIsAffordable(Absolute(amount), a.currency, s.exchangeRates);
          AppendIsNextRow(settled.value, CorrectionRow(input.accountId, amount, now));
        }
      }
    }
  }

  lemma {:induction false} SettledSequence(s: BankState, id: string, now: Instant)
    requires SettleAccount(s, id, now).Some? && 0 <= s.nextSeq
    ensures 0 <= SettleAccount(s, id, now).value.nextSeq && SettleAccount(s, id, now).value.exchangeRates == s.exchangeRates
  {
    hide SettleAccount, SameStanding;
    SettleAccountFrame(s, id, now);
  }

  // ---------------------------------------------------------------- transferring

  /** `ct_` and one to ninety-six letters, digits or `_.:-`. */
  predicate IsTransferId(id: string) {
    && 4 <= |id| <= 99 && id[..3] == "ct_"
    && forall i :: 3 <= i < |id| ==>
         || 'a' <= id[i] <= 'z' || 'A' <= id[i] <= 'Z' || '0' <= id[i] <= '9' || id[i] in "_.:-"
  }

  lemma {:induction false} TransferIdSpelled(id: string)
    ensures IsClientTransferId(id) <==> IsTransferId(id)
  {
  }

  /** The identifiers remembered after one more: the last fifty. */
  function Remembered(ids: seq<string>, id: string): seq<string> {
    if |ids| < 50 then ids + [id] else ids[|ids| - 49..] + [id]
  }

  lemma {:induction false} RememberedIs(s: BankState, id: string, now: Instant)
    requires |s.recentTransferIds| <= 50
    ensures Remember(s, id) == s.(recentTransferIds := Remembered(s.recentTransferIds, id))
  {
    var ids := s.recentTransferIds;
    if |ids| == 50 {
      assert (ids + [id])[1..] == ids[1..] + [id];
    }
  }

  /** The two legs of an own transfer on a settled state. */
  ghost predicate PostsLegs(settled: BankState, from: Account, to: Account, amount: int, credited: int, fx: Option<FxSnapshot>,
                            id: string, now: Instant, out: Outcome)
    requires 0 <= settled.nextSeq
  {
    var group := Some("grp_" + Show(settled.nextSeq));
    var outgoing := Draft(from.id, -amount, TransferOwnOut, Some(to.name), Some("transfer"), group, fx, None, None, None, None, now);
    var incoming := Draft(to.id, credited, TransferOwnIn, Some(from.name), Some("transfer"), group, fx, None, None, None, None, now);
    if !HasRoomForRow(settled, from.id, -amount) then out == Refuse(BalanceOverflow)
    else
      var paid := WithRow(settled, outgoing);
      && 0 <= paid.nextSeq
      && if !HasRoomForRow(paid, to.id, credited) then out == Refuse(BalanceOverflow)
         else
           var posted := WithRow(paid, incoming);
           out == Done(posted.(recentTransferIds := Remembered(settled.recentTransferIds, id)), true, [], Some(credited), None)
  }

  lemma {:induction false} LegsOutcome(settled: BankState, from: Account, to: Account, amount: int, credited: int, fx: Option<FxSnapshot>,
                                       id: string, now: Instant)
    requires 0 < settled.nextSeq && |settled.recentTransferIds| <= 50
    ensures PostsLegs(settled, from, to, amount, credited, fx, id, now,
                      match PostLegs(settled, from, to, amount, credited, fx, now)
                      case None => Refuse(BalanceOverflow)
                      case Some(posted) => Done(Remember(posted, id), true, [], Some(credited), None))
  {
    hide AppendRow, BalanceOf, Show, HasRoomForRow, Remember, Remembered;
    var group := Some(GroupId(settled.nextSeq));
    var outgoing := Leg(from.id, -amount, TransferOwnOut, to.name, group, fx, now);
    var incoming := Leg(to.id, credited, TransferOwnIn, from.name, group, fx, now);
    AppendIsNextRow(settled, outgoing);
    if AppendRow(settled, outgoing).Some? {
      var paid := WithRow(settled, outgoing);
      AppendIsNextRow(paid, incoming);
      if AppendRow(paid, incoming).Some? {
        RememberedIs(WithRow(paid, incoming), id, now);
      }
    }
  }

  /** A transfer to another own account: converted first, then both accounts settled, then funds, then the legs. */
  ghost predicate TransfersAs(s: BankState, i: nat, j: nat, amount: int, id: string, now: Instant, out: Outcome)
    requires i < |s.accounts| && j < |s.accounts|
  {
    var from, to, x := s.accounts[i], s.accounts[j], s.exchangeRates;
    var exchange := from.currency != to.currency;
    var converted := if exchange then Converted(amount, from.currency, to.currency, RateFor(x, from.currency), RateFor(x, to.currency))
                     else Some(amount);
    if converted.None? then out == Refuse(InvalidExchangeRate)
    else if converted.value == 0 then out == Refuse(ConvertedAmountTooSmall)
    else
      match SettleBoth(s, from.id, to.id, now)
      case None => out == Refuse(BalanceOverflow)
      case Some(settled) =>
        if amount > BalanceOf(settled.transactions, from.id) then out == Refuse(NotEnoughFunds)
        else
          var fx := FxSnapshot(from.currency, to.currency, amount, converted.value, QuoteCrossRate(RateFor(x, from.currency), RateFor(x, to.currency)),
                               RateFor(x, from.currency), RateFor(x, to.currency), x.asOf, x.fetchedAt, x.source);
          0 <= settled.nextSeq && PostsLegs(settled, from, to, amount, converted.value, if exchange then Some(fx) else None, id, now, out)
  }

  lemma {:induction false} RecentsWithin(s: BankState, now: Instant)
    requires Sound(s, now)
    ensures |s.recentTransferIds| <= 50
  {
  }

  lemma {:induction false} BothSettled(s: BankState, fromId: string, toId: string, now: Instant)
    requires SettleBoth(s, fromId, toId, now).Some? && 0 < s.nextSeq
    ensures var r := SettleBoth(s, fromId, toId, now).value; 0 < r.nextSeq && r.recentTransferIds == s.recentTransferIds
  {
    hide SettleAccount, SameStanding;
    SettleAccountFrame(s, fromId, now);
    SettleAccountFrame(SettleAccount(s, fromId, now).value, toId, now);
  }

  lemma {:induction false} BetweenOutcome(s: BankState, i: nat, j: nat, amount: int, id: string, now: Instant)
    requires Sound(s, now) && i < |s.accounts| && j < |s.accounts| && amount != 0
    ensures TransfersAs(s, i, j, amount, id, now, TransferBetween(s, s.accounts[i], s.accounts[j], amount, id, now))
  {
    hide Sound, SettleBoth, PostLegs, BalanceOf, Converted, QuoteCrossRate, PostsLegs, Remember;
    var from, to, x := s.accounts[i], s.accounts[j], s.exchangeRates;
    SequencePositive(s, now);
    RecentsWithin(s, now);
    LimitIsAffordable(0, from.currency, x);
    LimitIsAffordable(0, to.currency, x);
    var settled := SettleBoth(s, from.id, to.id, now);
    var exchange := from.currency != to.currency;
    var converted := if exchange then Converted(amount, from.currency, to.currency, x.rates.Of(from.currency), x.rates.Of(to.currency))
                     else Some(amount);
    if settled.Some? && converted.Some? {
      BothSettled(s, from.id, to.id, now);
      var fx := if exchange then Some(SnapshotOf(x, from.currency, to.currency, amount, converted.value)) else None;
      LegsOutcome(settled.value, from, to, amount, converted.value, fx, id, now);
    }
  }

  /** A transfer to a contact: one row, and the contact remembers the time. */
  ghost predicate PaysAs(s: BankState, i: nat, k: nat, amount: int, id: string, now: Instant, out: Outcome)
    requires i < |s.accounts| && k < |s.contacts|
  {
    var from, to := s.accounts[i], s.contacts[k];
    match SettleAccount(s, from.id, now)
    case None => out == Refuse(BalanceOverflow)
    case Some(settled) =>
      && 0 <= settled.nextSeq
      && if amount > BalanceOf(settled.transactions, from.id) then out == Refuse(NotEnoughFunds)
         else if !HasRoomForRow(settled, from.id, -amount) then out == Refuse(BalanceOverflow)
         else
           var row := Draft(from.id, -amount, TransferContact, Some(to.name), Some("transfer"), None, None, None, None, None, None, now);
           out == Done(WithRow(settled, row).(contacts := s.contacts[k := to.(lastTransferAt := Some(now))],
                                              recentTransferIds := Remembered(s.recentTransferIds, id)),
                       true, [], None, None)
  }

  lemma {:induction false} ContactsUnique(s: BankState, k: nat, now: Instant)
    requires Sound(s, now) && k < |s.contacts|
    ensures forall m :: 0 <= m < |s.contacts| && s.contacts[m].id == s.contacts[k].id ==> m == k
  {
  }

  lemma {:induction false} ContactOutcome(s: BankState, i: nat, k: nat, amount: int, id: string, now: Instant)
    requires Sound(s, now) && i < |s.accounts| && k < |s.contacts|
    ensures PaysAs(s, i, k, amount, id, now, TransferToContact(s, s.accounts[i], s.contacts[k], amount, id, now))
  {
    hide Sound, SettleAccount, AppendRow, BalanceOf, Show, HasRoomForRow, Remember, Remembered, SameStanding;
    var from, to := s.accounts[i], s.contacts[k];
    SequencePositive(s, now);
    RecentsWithin(s, now);
    ContactsUnique(s, k, now);
    var settled := SettleAccount(s, from.id, now);
    if settled.Some? {
      SettleAccountFrame(s, from.id, now);
      var row := Leg(from.id, -amount, TransferContact, to.name, None, None, now);
      AppendIsNextRow(settled.value, row);
      if AppendRow(settled.value, row).Some? {
        var posted := WithRow(settled.value, row);
        assert Touched(posted.contacts, to.id, now) == s.contacts[k := to.(lastTransferAt := Some(now))];
        RememberedIs(posted.(contacts := Touched(posted.contacts, to.id, now)), id, now);
      }
    }
  }

  /** The contact with this identifier stands at position `k`. */
  predicate IsContact(s: BankState, id: string, k: nat) {
    k < |s.contacts| && s.contacts[k].id == id
  }

  ghost predicate HasTarget(s: BankState, q: TransferRequest) {
    || (q.toAccountId.Some? && exists j: nat :: IsAccount(s, q.toAccountId.value, j))
    || (q.toContactId.Some? && exists k: nat :: IsContact(s, q.toContactId.value, k))
  }

  /** A request is turned away before any money moves, in the order of the checks, or comes to a transfer between
      the two accounts or to the contact. */
  ghost predicate RequestsAs(s: BankState, q: TransferRequest, now: Instant, out: Outcome) {
    if !IsTransferId(q.clientTransferId) then out == Refuse(InvalidClientTransferId)
    else if q.clientTransferId in s.recentTransferIds then out == Done(s, false, [], None, None)
    else if !(0 < q.amountMinor <= MAX_SAFE) then out == Refuse(InvalidAmount)
    else if q.toAccountId.Some? == q.toContactId.Some? then out == Refuse(UnknownTarget)
    else if q.toAccountId == Some(q.fromAccountId) then out == Refuse(SameAccount)
    else if NoAccount(s, q.fromAccountId) || !HasTarget(s, q) then out == Refuse(UnknownTarget)
    else
      exists i: nat :: IsAccount(s, q.fromAccountId, i) && RequestFrom(s, q, i, now, out)
  }

  ghost predicate RequestFrom(s: BankState, q: TransferRequest, i: nat, now: Instant, out: Outcome)
    requires i < |s.accounts|
  {
    if q.toAccountId.Some? then exists j: nat :: IsAccount(s, q.toAccountId.value, j) && RequestBetween(s, q, i, j, now, out)
    else q.toContactId.Some? && exists k: nat :: IsContact(s, q.toContactId.value, k) && RequestToContact(s, q, i, k, now, out)
  }

  predicate IsTooLarge(s: BankState, q: TransferRequest, i: nat)
    requires i < |s.accounts|
  {
    !(q.amountMinor > 0 && IsAffordable(q.amountMinor, s.accounts[i].currency, s.exchangeRates))
  }

  ghost predicate RequestBetween(s: BankState, q: TransferRequest, i: nat, j: nat, now: Instant, out: Outcome)
    requires i < |s.accounts| && j < |s.accounts|
  {
    if s.accounts[i].status.Closed? || s.accounts[j].status.Closed? then out == Refuse(AccountClosed)
    else if IsTooLarge(s, q, i) then out == Refuse(AmountTooLarge)
    else TransfersAs(s, i, j, q.amountMinor, q.clientTransferId, now, out)
  }

  ghost predicate RequestToContact(s: BankState, q: TransferRequest, i: nat, k: nat, now: Instant, out: Outcome)
    requires i < |s.accounts| && k < |s.contacts|
  {
    if s.accounts[i].status.Closed? then out == Refuse(AccountClosed)
    else if IsTooLarge(s, q, i) then out == Refuse(AmountTooLarge)
    else PaysAs(s, i, k, q.amountMinor, q.clientTransferId, now, out)
  }

  lemma {:induction false} FindsNoContact(s: BankState, id: string)
    ensures FindContact(s.contacts, id).None? <==> forall k: nat :: !IsContact(s, id, k)
    ensures FindContact(s.contacts, id).Some? ==> IsContact(s, id, FindContact(s.contacts, id).value)
  {
    ContactMissing(s.contacts, id);
    var found := FindContact(s.contacts, id);
    if found.Some? {
      assert IsContact(s, id, found.value);
    }
  }

  lemma {:induction false} ContactMissing(contacts: seq<Contact>, id: string)
    ensures FindContact(contacts, id).None? ==> forall k :: 0 <= k < |contacts| ==> contacts[k].id != id
  {
    if contacts != [] {
      ContactMissing(contacts[1..], id);
      assert forall k :: 0 < k < |contacts| ==> contacts[k] == contacts[1..][k - 1];
    }
  }

  lemma {:induction false} TargetFound(s: BankState, q: TransferRequest)
    requires q.toAccountId.Some? != q.toContactId.Some?
    ensures var toAccount := if q.toAccountId.Some? then FindAccount(s.accounts, q.toAccountId.value) else None;
            var toContact := if q.toContactId.Some? then FindContact(s.contacts, q.toContactId.value) else None;
            && (HasTarget(s, q) <==> toAccount.Some? || toContact.Some?)
            && (toAccount.Some? ==> IsAccount(s, q.toAccountId.value, toAccount.value))
            && (toContact.Some? ==> IsContact(s, q.toContactId.value, toContact.value))
  {
    hide FindAccount, FindContact;
    if q.toAccountId.Some? {
      var found := FindAccount(s.accounts, q.toAccountId.value);
      FindsNoAccount(s, q.toAccountId.value);
      if found.Some? {
        assert IsAccount(s, q.toAccountId.value, found.value);
      }
    } else {
      FindsNoContact(s, q.toContactId.value);
    }
  }

  lemma {:induction false} RequestFound(s: BankState, q: TransferRequest, i: nat, now: Instant)
    requires Sound(s, now) && IsClientTransferId(q.clientTransferId) && q.clientTransferId !in s.recentTransferIds
    requires 0 < q.amountMinor <= MAX_SAFE && q.toAccountId.Some? != q.toContactId.Some? && q.toAccountId != Some(q.fromAccountId)
    requires FindAccount(s.accounts, q.fromAccountId) == Some(i) && HasTarget(s, q)
    ensures RequestFrom(s, q, i, now, ApplyTransfer(s, q, now))
  {
    hide Sound, TransferBetween, TransferToContact, TransfersAs, PaysAs, IsClientTransferId, WithinCommandUsdLimit,
      IsAffordable, FindAccount, FindContact, HasTarget;
    TargetFound(s, q);
    LimitIsAffordable(q.amountMinor, s.accounts[i].currency, s.exchangeRates);
    if q.toAccountId.Some? {
      var j := FindAccount(s.accounts, q.toAccountId.value).value;
      assert IsAccount(s, q.toAccountId.value, j);
      BetweenOutcome(s, i, j, q.amountMinor, q.clientTransferId, now);
      assert RequestBetween(s, q, i, j, now, ApplyTransfer(s, q, now));
    } else {
      var k := FindContact(s.contacts, q.toContactId.value).value;
      assert IsContact(s, q.toContactId.value, k);
      ContactOutcome(s, i, k, q.amountMinor, q.clientTransferId, now);
      assert RequestToContact(s, q, i, k, now, ApplyTransfer(s, q, now));
    }
  }

  lemma {:induction false} RequestMissing(s: BankState, q: TransferRequest, now: Instant)
    requires IsClientTransferId(q.clientTransferId) && q.clientTransferId !in s.recentTransferIds
    requires 0 < q.amountMinor <= MAX_SAFE && q.toAccountId.Some? != q.toContactId.Some? && q.toAccountId != Some(q.fromAccountId)
    requires NoAccount(s, q.fromAccountId) || !HasTarget(s, q)
    ensures ApplyTransfer(s, q, now) == Refuse(UnknownTarget)
  {
    hide TransferBetween, TransferToContact, IsClientTransferId, WithinCommandUsdLimit, FindAccount, FindContact, HasTarget;
    TargetFound(s, q);
    FindsNoAccount(s, q.fromAccountId);
  }

  lemma {:induction false} RequestRefused(s: BankState, q: TransferRequest, now: Instant)
    requires || !IsClientTransferId(q.clientTransferId) || q.clientTransferId in s.recentTransferIds || !(0 < q.amountMinor <= MAX_SAFE)
             || q.toAccountId.Some? == q.toContactId.Some? || q.toAccountId == Some(q.fromAccountId)
    ensures RequestsAs(s, q, now, ApplyTransfer(s, q, now))
  {
    hide TransferBetween, TransferToContact, IsClientTransferId, IsTransferId, WithinCommandUsdLimit, FindAccount, FindContact, HasTarget, RequestFrom;
    TransferIdSpelled(q.clientTransferId);
  }

  /** What a transfer request comes to. */
  lemma {:induction false} TransferOutcome(s: BankState, q: TransferRequest, now: Instant)
    requires Sound(s, now)
    ensures RequestsAs(s, q, now, ApplyTransfer(s, q, now))
  {
    hide Sound, ApplyTransfer, IsClientTransferId, IsTransferId, FindAccount, HasTarget, RequestFrom;
    if || !IsClientTransferId(q.clientTransferId) || q.clientTransferId in s.recentTransferIds || !(0 < q.amountMinor <= MAX_SAFE)
       || q.toAccountId.Some? == q.toContactId.Some? || q.toAccountId == Some(q.fromAccountId)
    {
      RequestRefused(s, q, now);
    } else {
      TransferIdSpelled(q.clientTransferId);
      FindsNoAccount(s, q.fromAccountId);
      if NoAccount(s, q.fromAccountId) || !HasTarget(s, q) {
        RequestMissing(s, q, now);
      } else {
        var i := FindAccount(s.accounts, q.fromAccountId).value;
        assert IsAccount(s, q.fromAccountId, i);
        RequestFound(s, q, i, now);
      }
    }
  }
}
