/** Transfers keep the invariant, conserve money, and remember the last fifty identifiers. */
module TransferProofs {
  import opened Wrappers
  import opened Calendar
  import opened Currency
  import opened BankTypes
  import opened Ledger
  import opened Interest
  import opened BankValidity
  import opened Posting
  import opened Settlement
  import opened Transfer

  // ---------------------------------------------------------------- settling before the transfer

  /** Settlements before a transfer: anchors move and rows are appended, nothing else changes. */
  ghost predicate SettledSince(s: BankState, after: BankState) {
    && after == s.(accounts := after.accounts, transactions := after.transactions, nextSeq := after.nextSeq)
    && SameStanding(s.accounts, after.accounts)
    && s.transactions <= after.transactions
    && after.nextSeq == s.nextSeq + (|after.transactions| - |s.transactions|)
  }

  lemma {:induction false} SettledTwice(a: BankState, b: BankState, c: BankState)
    requires SettledFrom(a, b) && SettledFrom(b, c)
    ensures SettledSince(a, c)
  {
    forall i | 0 <= i < |a.accounts|
      ensures Identity(a.accounts[i]) == Identity(c.accounts[i])
    {
      assert Identity(a.accounts[i]) == Identity(b.accounts[i]);
    }
  }

  lemma {:induction false} SettleBothKeepsSound(s: BankState, fromId: string, toId: string, now: Instant)
    requires Sound(s, now) && SettleBoth(s, fromId, toId, now).Some?
    requires |SettleBoth(s, fromId, toId, now).value.transactions| <= MAX_TRANSACTIONS
    ensures Sound(SettleBoth(s, fromId, toId, now).value, now)
    ensures SettledSince(s, SettleBoth(s, fromId, toId, now).value)
  {
    hide Sound, SettleAccount, SettledSince, SettledFrom;
    var one := SettleAccount(s, fromId, now).value;
    var two := SettleAccount(one, toId, now).value;
    SettleAccountFrame(s, fromId, now);
    SettleAccountFrame(one, toId, now);
    SettledGrows(one, two);
    SettleAccountKeepsSound(s, fromId, now);
    SettleAccountKeepsSound(one, toId, now);
    SettledTwice(s, one, two);
  }

  lemma {:induction false} SettledGrows(a: BankState, b: BankState)
    requires SettledFrom(a, b)
    ensures |a.transactions| <= |b.transactions|
  {
  }

  // ---------------------------------------------------------------- the two legs

  /** The exchange snapshot is there exactly when the currencies differ, and it is the state's own quote. */
  ghost predicate FxMatches(x: ExchangeRates, from: Currency, to: Currency, amount: int, credited: int, fx: Option<FxSnapshot>) {
    if from == to then fx.None? && credited == amount
    else
      && fx == Some(SnapshotOf(x, from, to, amount, credited))
      && Converted(amount, from, to, x.rates.Of(from), x.rates.Of(to)) == Some(credited)
  }

  /** Every exchange that credits something writes a snapshot that the invariant accepts. */
  lemma {:induction false} SnapshotIsValid(x: ExchangeRates, from: Currency, to: Currency, amount: int, credited: int, now: Instant)
    requires RatesValid(x, now) && from != to && 0 < amount <= MAX_SAFE && credited != 0
    requires Converted(amount, from, to, x.rates.Of(from), x.rates.Of(to)) == Some(credited)
    ensures credited > 0 && FxSnapshotValid(SnapshotOf(x, from, to, amount, credited))
  {
    NonZeroConversionHasQuote(amount, from, to, x.rates.Of(from), x.rates.Of(to));
    ConversionIsNearest(amount, from, to, x.rates.Of(from), x.rates.Of(to));
    assert IsSafe(credited) by { ConvertedIsSafe(amount, from, to, x.rates.Of(from), x.rates.Of(to)); }
    hide Converted, QuoteCrossRate, IsPositiveDecimal, IsRateDateCoherent, IsNearest, RatioNumerator, RatioDenominator;
  }

  lemma {:induction false} ConvertedIsSafe(amount: int, from: Currency, to: Currency, fromRate: Rate, toRate: Rate)
    requires Converted(amount, from, to, fromRate, toRate).Some?
    ensures IsSafe(Converted(amount, from, to, fromRate, toRate).value)
  {
    hide RoundRatio, RatioNumerator, RatioDenominator;
  }

  ghost predicate LegsReady(s: BankState, i: nat, j: nat, from: Account, to: Account, amount: int, credited: int,
                            fx: Option<FxSnapshot>)
  {
    && i < |s.accounts| && j < |s.accounts| && i != j
    && Identity(s.accounts[i]) == Identity(from) && Identity(s.accounts[j]) == Identity(to)
    && s.accounts[i].status.Open? && s.accounts[j].status.Open?
    && 0 < amount <= MAX_SAFE && 0 < credited <= MAX_SAFE
    && amount <= BalanceOf(s.transactions, from.id)
    && FxMatches(s.exchangeRates, from.currency, to.currency, amount, credited, fx)
  }

  function OutLeg(s: BankState, from: Account, to: Account, amount: int, fx: Option<FxSnapshot>, now: Instant): Draft
    requires s.nextSeq > 0
  {
    Leg(from.id, -amount, TransferOwnOut, to.name, Some(GroupId(s.nextSeq)), fx, now)
  }

  function InLeg(s: BankState, from: Account, to: Account, credited: int, fx: Option<FxSnapshot>, now: Instant): Draft
    requires s.nextSeq > 0
  {
    Leg(to.id, credited, TransferOwnIn, from.name, Some(GroupId(s.nextSeq)), fx, now)
  }

  lemma {:induction false} LegShape(s: BankState, from: Account, to: Account, amount: int, credited: int,
                                    fx: Option<FxSnapshot>, now: Instant)
    requires s.nextSeq > 0 && 0 < amount <= MAX_SAFE && 0 < credited <= MAX_SAFE
    requires RatesValid(s.exchangeRates, now)
    requires FxMatches(s.exchangeRates, from.currency, to.currency, amount, credited, fx)
    ensures DraftShape(OutLeg(s, from, to, amount, fx, now)) && DraftTimes(OutLeg(s, from, to, amount, fx, now), now)
    ensures DraftShape(InLeg(s, from, to, credited, fx, now)) && DraftTimes(InLeg(s, from, to, credited, fx, now), now)
  {
    if from.currency != to.currency {
      SnapshotIsValid(s.exchangeRates, from.currency, to.currency, amount, credited, now);
    }
    hide FxSnapshotValid, GroupId, Converted;
    assert NotAfter(now, now);
  }

  lemma {:induction false} LegsAgreeBoth(x: ExchangeRates, from: Currency, to: Currency, amount: int, credited: int,
                                         fx: Option<FxSnapshot>, o: Draft, n: Draft)
    requires FxMatches(x, from, to, amount, credited, fx)
    requires o.fxSnapshot == fx && n.fxSnapshot == fx && o.amountMinor == -amount && n.amountMinor == credited
    ensures LegsAgree(o, n, from, to)
  {
    hide Converted, QuoteCrossRate;
  }

  lemma {:induction false} LegFits(d: Draft, a: Account, now: Instant)
    requires d.createdAt == now && IsOwnTransfer(d.kind) && a.status.Open? && NotAfter(a.createdAt, now)
    ensures RowFits(d, a, now)
  {
  }

  lemma {:induction false} IdentityIds(a: Account, b: Account)
    requires Identity(a) == Identity(b)
    ensures a.id == b.id && a.currency == b.currency && a.name == b.name && a.kind == b.kind
  {
    assert Identity(a).id == a.id && Identity(b).id == b.id;
    assert Identity(a).currency == a.currency && Identity(b).currency == b.currency;
    assert Identity(a).name == a.name && Identity(b).name == b.name;
    assert Identity(a).kind == a.kind && Identity(b).kind == b.kind;
  }

  lemma {:induction false} AccountFacts(s: BankState, i: nat, now: Instant)
    requires Sound(s, now) && i < |s.accounts|
    ensures forall k :: 0 <= k < |s.accounts| && s.accounts[k].id == s.accounts[i].id ==> k == i
    ensures s.accounts[i].id in AccountIds(s.accounts)
    ensures NotAfter(s.accounts[i].createdAt, now)
    ensures RatesValid(s.exchangeRates, now) && 0 < s.nextSeq
  {
    hide NotAfter;
    assert AccountTimes(s.accounts[i], now);
  }

  lemma {:induction false} PairIsValid(s: BankState, i: nat, j: nat, from: Account, to: Account, amount: int, credited: int,
                                       fx: Option<FxSnapshot>, now: Instant, o: Transaction, n: Transaction)
    requires Sound(s, now) && LegsReady(s, i, j, from, to, amount, credited, fx) && s.nextSeq > 0
    requires o.row == OutLeg(s, from, to, amount, fx, now) && o.seqNo == s.nextSeq
    requires n.row == InLeg(s, from, to, credited, fx, now) && n.seqNo == s.nextSeq + 1
    ensures PairValid(o, n, s.accounts)
  {
    hide Sound, FxMatches, BalanceOf, GroupId, IsNumberedGroup, LegsAgree;
    AccountFacts(s, i, now);
    AccountFacts(s, j, now);
    IdentityIds(s.accounts[i], from);
    IdentityIds(s.accounts[j], to);
    LegsAgreeBoth(s.exchangeRates, from.currency, to.currency, amount, credited, fx, o.row, n.row);
  }

  lemma {:induction false} LegsPosted(s: BankState, from: Account, to: Account, amount: int, credited: int,
                                      fx: Option<FxSnapshot>, now: Instant) returns (o: Transaction, n: Transaction)
    requires PostLegs(s, from, to, amount, credited, fx, now).Some?
    ensures 0 < s.nextSeq && s.nextSeq + 1 < MAX_SAFE
    ensures var one := s.(transactions := s.transactions + [o], nextSeq := s.nextSeq + 1);
            && o == Stamped(s.transactions, s.nextSeq, OutLeg(s, from, to, amount, fx, now))
            && n == Stamped(s.transactions + [o], s.nextSeq + 1, InLeg(s, from, to, credited, fx, now))
            && PostLegs(s, from, to, amount, credited, fx, now)
               == Some(s.(transactions := s.transactions + [o] + [n], nextSeq := s.nextSeq + 2))
    ensures IsSafe(o.balanceAfterMinor) && IsSafe(n.balanceAfterMinor)
  {
    hide BalanceOf, GroupId, TxId;
    var d := OutLeg(s, from, to, amount, fx, now);
    var next := AppendRow(s, d).value;
    o := Stamped(s.transactions, s.nextSeq, d);
    n := Stamped(s.transactions + [o], s.nextSeq + 1, InLeg(s, from, to, credited, fx, now));
  }

  lemma {:induction false} LegsKeepLedger(s: BankState, i: nat, j: nat, from: Account, to: Account, amount: int, credited: int,
                                          fx: Option<FxSnapshot>, now: Instant, o: Transaction, n: Transaction)
    requires Sound(s, now) && LegsReady(s, i, j, from, to, amount, credited, fx)
    requires 0 < s.nextSeq && s.nextSeq + 1 < MAX_SAFE && |s.transactions| + 2 <= MAX_TRANSACTIONS
    requires o == Stamped(s.transactions, s.nextSeq, OutLeg(s, from, to, amount, fx, now))
    requires n == Stamped(s.transactions + [o], s.nextSeq + 1, InLeg(s, from, to, credited, fx, now))
    requires IsSafe(n.balanceAfterMinor) && IsSafe(o.balanceAfterMinor)
    requires BalanceOf(s.transactions + [o], to.id) >= 0
    ensures LedgerSound(s.(transactions := s.transactions + [o] + [n], nextSeq := s.nextSeq + 2), now)
  {
    hide Sound, LegsReady, FxMatches, BalanceOf, GroupId, TxId, DraftShape, DraftTimes, RowFits, RowsValid, NextSeqValid,
      PostedWithin, ClosedAtZero, TransfersPaired, AccountIds, PairValid, NotAfter, RatesValid;
    var txs := s.transactions;
    PartsOfSound(s, now);
    LegFacts(s, i, j, from, to, amount, credited, fx, now);
    LegShape(s, from, to, amount, credited, fx, now);
    PostKeepsRows(txs, s.nextSeq, o.row, now);
    PostKeepsRows(txs + [o], s.nextSeq + 1, n.row, now);
    PostKeepsWithin(txs, o, s.accounts, now);
    PostKeepsWithin(txs + [o], n, s.accounts, now);
    PostKeepsClosed(txs, o, s.accounts);
    PostKeepsClosed(txs + [o], n, s.accounts);
    PairIsValid(s, i, j, from, to, amount, credited, fx, now, o, n);
    NewGroupIsFresh(txs, s.nextSeq, s.accounts, now);
    PairKeepsPairs(txs, o, n, s.accounts);
  }

  lemma {:induction false} LegFacts(s: BankState, i: nat, j: nat, from: Account, to: Account, amount: int, credited: int,
                                    fx: Option<FxSnapshot>, now: Instant)
    requires Sound(s, now) && LegsReady(s, i, j, from, to, amount, credited, fx) && s.nextSeq > 0
    ensures RatesValid(s.exchangeRates, now)
    ensures 0 < amount <= MAX_SAFE && 0 < credited <= MAX_SAFE && amount <= BalanceOf(s.transactions, from.id)
    ensures FxMatches(s.exchangeRates, from.currency, to.currency, amount, credited, fx)
    ensures from.id in AccountIds(s.accounts) && to.id in AccountIds(s.accounts) && from.id != to.id
    ensures forall k :: 0 <= k < |s.accounts| && s.accounts[k].id == from.id ==>
              s.accounts[k].status.Open? && RowFits(OutLeg(s, from, to, amount, fx, now), s.accounts[k], now)
    ensures forall k :: 0 <= k < |s.accounts| && s.accounts[k].id == to.id ==>
              s.accounts[k].status.Open? && RowFits(InLeg(s, from, to, credited, fx, now), s.accounts[k], now)
  {
    hide Sound, FxMatches, BalanceOf, GroupId, RowFits, AccountIds, NotAfter, RatesValid;
    AccountFacts(s, i, now);
    AccountFacts(s, j, now);
    IdentityIds(s.accounts[i], from);
    IdentityIds(s.accounts[j], to);
    LegFits(OutLeg(s, from, to, amount, fx, now), s.accounts[i], now);
    LegFits(InLeg(s, from, to, credited, fx, now), s.accounts[j], now);
  }

  // ---------------------------------------------------------------- the whole transfer

  lemma {:induction false} LegsKeepSound(s: BankState, i: nat, j: nat, from: Account, to: Account, amount: int, credited: int,
                                         fx: Option<FxSnapshot>, now: Instant)
    requires Sound(s, now) && LegsReady(s, i, j, from, to, amount, credited, fx)
    requires PostLegs(s, from, to, amount, credited, fx, now).Some?
    requires |s.transactions| + 2 <= MAX_TRANSACTIONS
    ensures Sound(PostLegs(s, from, to, amount, credited, fx, now).value, now)
  {
    hide Sound, LegsReady, FxMatches, BalanceOf, GroupId, TxId, PostLegs, LedgerSound, RulesSound, OutLeg, InLeg, AccountIds, RowFits, RatesValid;
    var o, n := LegsPosted(s, from, to, amount, credited, fx, now);
    var after := PostLegs(s, from, to, amount, credited, fx, now).value;
    LegFacts(s, i, j, from, to, amount, credited, fx, now);
    BalanceAfterAppend(s.transactions, o, to.id);
    OtherBalance(s, o, from, to, amount, fx, now);
    LegsKeepLedger(s, i, j, from, to, amount, credited, fx, now, o, n);
    LegsKeepRules(s, o, n, from, to, amount, credited, fx, now);
    SoundFromParts(s, after, now);
  }

  lemma {:induction false} OtherBalance(s: BankState, o: Transaction, from: Account, to: Account, amount: int,
                                        fx: Option<FxSnapshot>, now: Instant)
    requires Sound(s, now) && s.nextSeq > 0 && from.id != to.id
    requires o.row == OutLeg(s, from, to, amount, fx, now)
    ensures BalanceOf(s.transactions + [o], to.id) >= 0
  {
    hide Sound, BalanceOf, GroupId;
    BalanceAfterAppend(s.transactions, o, to.id);
    BalanceIsNatural(s, to.id, now);
  }

  lemma {:induction false} LegsKeepRules(s: BankState, o: Transaction, n: Transaction, from: Account, to: Account,
                                         amount: int, credited: int, fx: Option<FxSnapshot>, now: Instant)
    requires Sound(s, now) && s.nextSeq > 0
    requires o.row == OutLeg(s, from, to, amount, fx, now) && n.row == InLeg(s, from, to, credited, fx, now)
    ensures RulesSound(s.(transactions := s.transactions + [o] + [n], nextSeq := s.nextSeq + 2), now)
  {
    hide Sound, GroupId, RulesValid, RulesFit, RowsLinked, RulesContinuous;
    PartsOfSound(s, now);
    PostKeepsLinks(s.transactions, o, s.recurringRules);
    PostKeepsLinks(s.transactions + [o], n, s.recurringRules);
    PostKeepsContinuous(s.transactions, o, s.recurringRules);
    PostKeepsContinuous(s.transactions + [o], n, s.recurringRules);
  }

  lemma {:induction false} RememberKeepsSound(s: BankState, id: string, now: Instant)
    requires Sound(s, now) && IsClientTransferId(id) && id !in s.recentTransferIds
    ensures Sound(Remember(s, id), now)
  {
    RememberKeepsRecent(s.recentTransferIds, id);
    hide AccountsValid, RowsValid, NextSeqValid, PostedWithin, ClosedAtZero, TransfersPaired, RulesValid, RulesFit,
      RowsLinked, RulesContinuous, CardsValid, ContactsValid, RatesValid, RecentIdsValid, LastIds, IsClientTransferId;
  }

  lemma {:induction false} RememberKeepsRecent(ids: seq<string>, id: string)
    requires IsClientTransferId(id) && id !in ids && RecentIdsValid(ids)
    ensures RecentIdsValid(LastIds(ids + [id]))
  {
    hide IsClientTransferId;
    var all := ids + [id];
    var d := if |all| <= RECENT_IDS_CAP then 0 else |all| - RECENT_IDS_CAP;
    assert LastIds(all) == all[d..];
    forall i | 0 <= i < |all|
      ensures IsClientTransferId(all[i])
    {
    }
    forall i, j | 0 <= i < j < |all|
      ensures all[i] != all[j]
    {
    }
  }

  lemma {:induction false} TouchedIsValid(contacts: seq<Contact>, id: string, now: Instant)
    requires ContactsValid(contacts, now)
    ensures ContactsValid(Touched(contacts, id, now), now)
  {
    assert NotAfter(now, now);
    hide NotAfter;
  }

  lemma {:induction false} TouchedKeepsSound(s: BankState, id: string, now: Instant)
    requires Sound(s, now)
    ensures Sound(s.(contacts := Touched(s.contacts, id, now)), now)
  {
    hide AccountsValid, RowsValid, NextSeqValid, PostedWithin, ClosedAtZero, TransfersPaired, RulesValid, RulesFit,
      RowsLinked, RulesContinuous, CardsValid, ContactsValid, RatesValid, RecentIdsValid, Touched;
    TouchedIsValid(s.contacts, id, now);
  }

  ghost predicate TransferArgs(s: BankState, i: nat, j: nat, amount: int, id: string) {
    && i < |s.accounts| && j < |s.accounts| && i != j
    && s.accounts[i].status.Open? && s.accounts[j].status.Open?
    && 0 < amount <= MAX_SAFE && IsClientTransferId(id) && id !in s.recentTransferIds
  }

  /** The parts of an applied transfer between own accounts. */
  lemma {:induction false} BetweenParts(s: BankState, i: nat, j: nat, amount: int, id: string, now: Instant)
      returns (settled: BankState, posted: BankState, credited: int, fx: Option<FxSnapshot>)
    requires Sound(s, now) && TransferArgs(s, i, j, amount, id)
    requires TransferBetween(s, s.accounts[i], s.accounts[j], amount, id, now).Done?
    ensures SettleBoth(s, s.accounts[i].id, s.accounts[j].id, now) == Some(settled)
    ensures PostLegs(settled, s.accounts[i], s.accounts[j], amount, credited, fx, now) == Some(posted)
    ensures amount <= BalanceOf(settled.transactions, s.accounts[i].id)
    ensures FxMatches(s.exchangeRates, s.accounts[i].currency, s.accounts[j].currency, amount, credited, fx)
    ensures 0 < credited <= MAX_SAFE
    ensures TransferBetween(s, s.accounts[i], s.accounts[j], amount, id, now)
            == Done(Remember(posted, id), true, [], Some(credited), None)
  {
    hide Sound, SettleBoth, PostLegs, BalanceOf, Converted, Remember, IsClientTransferId, SnapshotOf;
    var from, to := s.accounts[i], s.accounts[j];
    var x := s.exchangeRates;
    settled := SettleBoth(s, from.id, to.id, now).value;
    if from.currency == to.currency {
      credited, fx := amount, None;
    } else {
      credited := Converted(amount, from.currency, to.currency, x.rates.Of(from.currency), x.rates.Of(to.currency)).value;
      fx := Some(SnapshotOf(x, from.currency, to.currency, amount, credited));
      RatesOf(s, now);
      SnapshotIsValid(x, from.currency, to.currency, amount, credited, now);
      ConvertedIsSafe(amount, from.currency, to.currency, x.rates.Of(from.currency), x.rates.Of(to.currency));
    }
    posted := PostLegs(settled, from, to, amount, credited, fx, now).value;
  }

  lemma {:induction false} RatesOf(s: BankState, now: Instant)
    requires Sound(s, now)
    ensures RatesValid(s.exchangeRates, now)
  {
  }

  lemma {:induction false} BetweenKeepsSound(s: BankState, i: nat, j: nat, amount: int, id: string, now: Instant)
    requires Sound(s, now) && TransferArgs(s, i, j, amount, id)
    requires var out := TransferBetween(s, s.accounts[i], s.accounts[j], amount, id, now);
             out.Done? && |out.state.transactions| <= MAX_TRANSACTIONS
    ensures Sound(TransferBetween(s, s.accounts[i], s.accounts[j], amount, id, now).state, now)
  {
    hide Sound, SettleBoth, PostLegs, BalanceOf, FxMatches, TransferBetween, SettledSince;
    var from, to := s.accounts[i], s.accounts[j];
    var settled, posted, credited, fx := BetweenParts(s, i, j, amount, id, now);
    LegsAddTwo(settled, from, to, amount, credited, fx, now);
    SettleBothKeepsSound(s, from.id, to.id, now);
    SettledAccounts(s, settled, i);
    SettledAccounts(s, settled, j);
    LegsKeepSound(settled, i, j, from, to, amount, credited, fx, now);
    LegsKeepRecents(settled, from, to, amount, credited, fx, now);
    RememberKeepsSound(posted, id, now);
  }

  lemma {:induction false} LegsAddTwo(s: BankState, from: Account, to: Account, amount: int, credited: int,
                                      fx: Option<FxSnapshot>, now: Instant)
    requires PostLegs(s, from, to, amount, credited, fx, now).Some?
    ensures |PostLegs(s, from, to, amount, credited, fx, now).value.transactions| == |s.transactions| + 2
  {
    hide BalanceOf, GroupId, TxId, PostLegs;
    var o, n := LegsPosted(s, from, to, amount, credited, fx, now);
  }

  lemma {:induction false} LegsKeepRecents(s: BankState, from: Account, to: Account, amount: int, credited: int,
                                           fx: Option<FxSnapshot>, now: Instant)
    requires PostLegs(s, from, to, amount, credited, fx, now).Some?
    ensures PostLegs(s, from, to, amount, credited, fx, now).value.recentTransferIds == s.recentTransferIds
  {
    hide BalanceOf, GroupId, TxId, PostLegs;
    var o, n := LegsPosted(s, from, to, amount, credited, fx, now);
  }

  lemma {:induction false} SettledAccounts(s: BankState, after: BankState, i: nat)
    requires SettledSince(s, after) && i < |s.accounts|
    ensures i < |after.accounts| && Identity(after.accounts[i]) == Identity(s.accounts[i])
    ensures after.accounts[i].status == s.accounts[i].status
    ensures after.exchangeRates == s.exchangeRates && after.recentTransferIds == s.recentTransferIds
    ensures after.contacts == s.contacts
  {
    assert Identity(s.accounts[i]) == Identity(after.accounts[i]);
  }

  // ---------------------------------------------------------------- transfers to a contact

  function ContactLeg(from: Account, to: Contact, amount: int, now: Instant): Draft {
    Leg(from.id, -amount, TransferContact, to.name, None, None, now)
  }

  lemma {:induction false} ContactParts(s: BankState, from: Account, to: Contact, amount: int, id: string, now: Instant)
      returns (settled: BankState, posted: BankState)
    requires TransferToContact(s, from, to, amount, id, now).Done?
    ensures SettleAccount(s, from.id, now) == Some(settled)
    ensures amount <= BalanceOf(settled.transactions, from.id)
    ensures AppendRow(settled, ContactLeg(from, to, amount, now)) == Some(posted)
    ensures TransferToContact(s, from, to, amount, id, now)
            == Ok(Remember(posted.(contacts := Touched(posted.contacts, to.id, now)), id), true)
  {
    hide SettleAccount, AppendRow, BalanceOf, Remember, Touched;
    settled := SettleAccount(s, from.id, now).value;
    posted := AppendRow(settled, ContactLeg(from, to, amount, now)).value;
  }

  lemma {:induction false} ContactLegPostable(s: BankState, i: nat, from: Account, to: Contact, amount: int, now: Instant)
    requires Sound(s, now) && i < |s.accounts| && |s.transactions| < MAX_TRANSACTIONS
    requires Identity(s.accounts[i]) == Identity(from) && s.accounts[i].status.Open?
    requires 0 < amount <= MAX_SAFE && amount <= BalanceOf(s.transactions, from.id)
    ensures Postable(s, ContactLeg(from, to, amount, now), now)
  {
    hide Sound, BalanceOf, NotAfter;
    AccountFacts(s, i, now);
    IdentityIds(s.accounts[i], from);
    assert NotAfter(now, now) by { ThisInstant(now); }
  }

  lemma {:induction false} ContactKeepsSound(s: BankState, i: nat, to: Contact, amount: int, id: string, now: Instant)
    requires Sound(s, now) && i < |s.accounts| && s.accounts[i].status.Open?
    requires 0 < amount <= MAX_SAFE && IsClientTransferId(id) && id !in s.recentTransferIds
    requires var out := TransferToContact(s, s.accounts[i], to, amount, id, now);
             out.Done? && |out.state.transactions| <= MAX_TRANSACTIONS
    ensures Sound(TransferToContact(s, s.accounts[i], to, amount, id, now).state, now)
  {
    hide Sound, SettleAccount, AppendRow, BalanceOf, TransferToContact, Touched, SettledFrom, ContactLeg, IsClientTransferId, LastIds;
    var from := s.accounts[i];
    var settled, posted := ContactParts(s, from, to, amount, id, now);
    AppendedParts(settled, ContactLeg(from, to, amount, now));
    SettleAccountFrame(s, from.id, now);
    SettledFromAccounts(s, settled, i);
    SettleAccountKeepsSound(s, from.id, now);
    ContactLegPostable(settled, i, from, to, amount, now);
    ContactLegIsPlain(from, to, amount, now);
    PostKeepsSound(settled, ContactLeg(from, to, amount, now), now);
    TouchedKeepsSound(posted, to.id, now);
    RememberKeepsSound(posted.(contacts := Touched(posted.contacts, to.id, now)), id, now);
  }

  lemma {:induction false} ContactLegIsPlain(from: Account, to: Contact, amount: int, now: Instant)
    ensures var d := ContactLeg(from, to, amount, now); !IsOwnTransfer(d.kind) && d.recurringRuleId.None?
  {
  }

  lemma {:induction false} SettledFromAccounts(s: BankState, after: BankState, i: nat)
    requires SettledFrom(s, after) && i < |s.accounts|
    ensures i < |after.accounts| && Identity(after.accounts[i]) == Identity(s.accounts[i])
    ensures after.accounts[i].status == s.accounts[i].status
    ensures after.recentTransferIds == s.recentTransferIds
  {
    assert Identity(s.accounts[i]) == Identity(after.accounts[i]);
  }

  // ---------------------------------------------------------------- any transfer request

  /** What an applied request found: an open account to pay from, and one open account or one contact to
      pay to. */
  datatype Target = ToAccount(j: nat) | ToContact(contact: Contact)

  ghost predicate IsApplied(s: BankState, q: TransferRequest, now: Instant, i: nat, target: Target) {
    var id, amount := q.clientTransferId, q.amountMinor;
    && i < |s.accounts| && s.accounts[i].status.Open? && s.accounts[i].id == q.fromAccountId
    && 0 < amount <= MAX_SAFE && IsClientTransferId(id) && id !in s.recentTransferIds
    && match target
       case ToAccount(j) =>
         && j < |s.accounts| && j != i && s.accounts[j].status.Open? && Some(s.accounts[j].id) == q.toAccountId
         && ApplyTransfer(s, q, now) == TransferBetween(s, s.accounts[i], s.accounts[j], amount, id, now)
       case ToContact(c) =>
         && q.toAccountId.None?
         && ApplyTransfer(s, q, now) == TransferToContact(s, s.accounts[i], c, amount, id, now)
  }

  lemma {:induction false} AppliedParts(s: BankState, q: TransferRequest, now: Instant) returns (i: nat, target: Target)
    requires ApplyTransfer(s, q, now).Done? && ApplyTransfer(s, q, now).applied
    ensures IsApplied(s, q, now, i, target)
  {
    hide TransferBetween, TransferToContact, WithinCommandUsdLimit, IsClientTransferId;
    i := FindAccount(s.accounts, q.fromAccountId).value;
    if q.toAccountId.Some? {
      target := ToAccount(FindAccount(s.accounts, q.toAccountId.value).value);
    } else {
      target := ToContact(s.contacts[FindContact(s.contacts, q.toContactId.value).value]);
    }
  }

  /** A transfer succeeds without being applied exactly when its identifier is well-formed and remembered,
      and then the state is the same. */
  lemma {:induction false} ReplayedTransfer(s: BankState, q: TransferRequest, now: Instant)
    ensures ApplyTransfer(s, q, now).Done? && !ApplyTransfer(s, q, now).applied
            <==> IsClientTransferId(q.clientTransferId) && q.clientTransferId in s.recentTransferIds
    ensures q.clientTransferId in s.recentTransferIds && ApplyTransfer(s, q, now).Done? ==> ApplyTransfer(s, q, now) == Ok(s, false)
  {
    hide TransferBetween, TransferToContact, WithinCommandUsdLimit, IsClientTransferId;
    if q.clientTransferId !in s.recentTransferIds {
      BetweenApplies(s, q, now);
    }
  }

  lemma {:induction false} BetweenApplies(s: BankState, q: TransferRequest, now: Instant)
    ensures forall from, to :: TransferBetween(s, from, to, q.amountMinor, q.clientTransferId, now).Done?
                               ==> TransferBetween(s, from, to, q.amountMinor, q.clientTransferId, now).applied
    ensures forall from, to :: TransferToContact(s, from, to, q.amountMinor, q.clientTransferId, now).Done?
                               ==> TransferToContact(s, from, to, q.amountMinor, q.clientTransferId, now).applied
  {
    hide SettleBoth, SettleAccount, AppendRow, BalanceOf, Remember, Touched, Converted, PostLegs, SnapshotOf;
  }

  /** A transfer that stays within the row limit keeps the whole invariant. */
  lemma {:induction false} TransferKeepsSound(s: BankState, q: TransferRequest, now: Instant)
    requires Sound(s, now)
    requires ApplyTransfer(s, q, now).Done? && |ApplyTransfer(s, q, now).state.transactions| <= MAX_TRANSACTIONS
    ensures Sound(ApplyTransfer(s, q, now).state, now)
  {
    hide Sound, ApplyTransfer, TransferBetween, TransferToContact, IsClientTransferId;
    if ApplyTransfer(s, q, now).applied {
      var i, target := AppliedParts(s, q, now);
      match target
      case ToAccount(j) => BetweenKeepsSound(s, i, j, q.amountMinor, q.clientTransferId, now);
      case ToContact(c) => ContactKeepsSound(s, i, c, q.amountMinor, q.clientTransferId, now);
    } else {
      ReplayedTransfer(s, q, now);
    }
  }
}
