/** What a transfer moves and remembers: money is conserved up to the interest that it settles, and the
    ring of identifiers holds the last fifty. */
module TransferEffects {
  import opened Wrappers
  import opened Calendar
  import opened BankTypes
  import opened Ledger
  import opened Interest
  import opened BankValidity
  import opened Posting
  import opened Settlement
  import opened RecurringProofs
  import opened Growth
  import opened SavingsProofs
  import opened Transfer
  import opened TransferProofs

  // ---------------------------------------------------------------- the steps of a transfer

  lemma {:induction false} LegsAsRows(s: BankState, from: Account, to: Account, amount: int, credited: int,
                                      fx: Option<FxSnapshot>, now: Instant) returns (one: BankState)
    requires PostLegs(s, from, to, amount, credited, fx, now).Some?
    ensures s.nextSeq > 0
    ensures AppendRow(s, OutLeg(s, from, to, amount, fx, now)) == Some(one)
    ensures AppendRow(one, InLeg(s, from, to, credited, fx, now)) == PostLegs(s, from, to, amount, credited, fx, now)
    ensures OutLeg(s, from, to, amount, fx, now).accountId == from.id && OutLeg(s, from, to, amount, fx, now).amountMinor == -amount
    ensures InLeg(s, from, to, credited, fx, now).accountId == to.id && InLeg(s, from, to, credited, fx, now).amountMinor == credited
  {
    hide AppendRow, GroupId;
    one := AppendRow(s, OutLeg(s, from, to, amount, fx, now)).value;
  }

  lemma {:induction false} AppendGrown(s: BankState, d: Draft)
    requires AppendRow(s, d).Some?
    ensures Grown(s, AppendRow(s, d).value)
  {
    hide AppendRow, Extends, Grown, BalanceOf;
    AppendKeepsFrame(s, d);
    ExtendedGrown(s, AppendRow(s, d).value, 1);
  }

  lemma {:induction false} RememberedGrown(s: BankState, id: string, contacts: seq<Contact>)
    ensures Grown(s, Remember(s.(contacts := contacts), id))
    ensures Remember(s.(contacts := contacts), id).accounts == s.accounts
    ensures Remember(s.(contacts := contacts), id).transactions == s.transactions
  {
    hide LastIds, Identity, Terms;
  }

  lemma {:induction false} SettledNotPending(s: BankState, after: BankState, id: string, now: Instant)
    requires NothingPending(s.accounts, id, now) && SavingsKept(s, after, now) && |s.accounts| == |after.accounts|
    ensures NothingPending(after.accounts, id, now)
  {
    hide BalanceOf, ElapsedDays;
    forall j | 0 <= j < |after.accounts| && after.accounts[j].id == id
      ensures !IsPending(after.accounts[j], now)
    {
      assert KeptAt(s, after, j, now);
    }
  }

  lemma {:induction false} PostedOnSettled(s: BankState, d: Draft, now: Instant)
    requires NothingPending(s.accounts, d.accountId, now) && AppendRow(s, d).Some?
    ensures SavingsKept(s, AppendRow(s, d).value, now) && Grown(s, AppendRow(s, d).value)
    ensures AppendRow(s, d).value.accounts == s.accounts
  {
    hide IsPending, AppendRow, SavingsKept, Grown;
    AppendKeepsSavings(s, d, now);
    AppendGrown(s, d);
    AppendKeepsAccounts(s, d);
  }

  /** What holds after every transfer besides soundness. */
  ghost predicate Moved(s: BankState, after: BankState, now: Instant) {
    Grown(s, after) && SavingsKept(s, after, now)
  }

  lemma {:induction false} MovedTwice(a: BankState, b: BankState, c: BankState, now: Instant)
    requires Moved(a, b, now) && Moved(b, c, now)
    ensures Moved(a, c, now)
  {
    hide Grown, SavingsKept;
    GrownTwice(a, b, c);
    SavingsKeptTwice(a, b, c, now);
  }

  lemma {:induction false} SettleMoves(s: BankState, id: string, now: Instant)
    requires UniqueAccountIds(s.accounts) && SettleAccount(s, id, now).Some?
    ensures var after := SettleAccount(s, id, now).value;
            Moved(s, after, now) && NothingPending(after.accounts, id, now) && UniqueAccountIds(after.accounts)
            && |after.accounts| == |s.accounts|
  {
    hide SettleAccount, Grown, SavingsKept, NothingPending, UniqueAccountIds, Identity;
    SettleAccountFrame(s, id, now);
    var after := SettleAccount(s, id, now).value;
    SettledGrown(s, after);
    SettleKeepsSavings(s, id, now);
    IdentityKeepsUnique(s.accounts, after.accounts);
  }

  lemma {:induction false} BothMove(s: BankState, fromId: string, toId: string, now: Instant)
    requires UniqueAccountIds(s.accounts) && SettleBoth(s, fromId, toId, now).Some?
    ensures var after := SettleBoth(s, fromId, toId, now).value;
            Moved(s, after, now) && NothingPending(after.accounts, fromId, now) && NothingPending(after.accounts, toId, now)
  {
    hide SettleAccount, NothingPending, UniqueAccountIds, Grown, SavingsKept;
    SettleMoves(s, fromId, now);
    var one := SettleAccount(s, fromId, now).value;
    SettleMoves(one, toId, now);
    var two := SettleAccount(one, toId, now).value;
    SettledNotPending(one, two, fromId, now);
    MovedTwice(s, one, two, now);
  }

  lemma {:induction false} LegsMove(s: BankState, from: Account, to: Account, amount: int, credited: int,
                                    fx: Option<FxSnapshot>, now: Instant)
    requires PostLegs(s, from, to, amount, credited, fx, now).Some?
    requires NothingPending(s.accounts, from.id, now) && NothingPending(s.accounts, to.id, now)
    ensures Moved(s, PostLegs(s, from, to, amount, credited, fx, now).value, now)
  {
    hide NothingPending, PostLegs, OutLeg, InLeg, AppendRow, Grown, SavingsKept;
    var one := LegsAsRows(s, from, to, amount, credited, fx, now);
    PostedOnSettled(s, OutLeg(s, from, to, amount, fx, now), now);
    PostedOnSettled(one, InLeg(s, from, to, credited, fx, now), now);
    MovedTwice(s, one, PostLegs(s, from, to, amount, credited, fx, now).value, now);
  }

  lemma {:induction false} RememberMoves(s: BankState, id: string, contacts: seq<Contact>, now: Instant)
    ensures Moved(s, Remember(s.(contacts := contacts), id), now)
  {
    hide Remember, Grown, SavingsKept;
    RememberedGrown(s, id, contacts);
    SavingsUntouched(s, Remember(s.(contacts := contacts), id), now);
  }

  lemma {:induction false} BetweenMoves(s: BankState, i: nat, j: nat, amount: int, id: string, now: Instant)
    requires Sound(s, now) && TransferArgs(s, i, j, amount, id)
    requires TransferBetween(s, s.accounts[i], s.accounts[j], amount, id, now).Done?
    ensures Moved(s, TransferBetween(s, s.accounts[i], s.accounts[j], amount, id, now).state, now)
  {
    hide Sound, SettleBoth, PostLegs, TransferBetween, FxMatches, BalanceOf, NothingPending, Moved, Remember, UniqueAccountIds;
    var settled, posted, credited, fx := BetweenParts(s, i, j, amount, id, now);
    SequenceStarted(s, now);
    BothMove(s, s.accounts[i].id, s.accounts[j].id, now);
    LegsMove(settled, s.accounts[i], s.accounts[j], amount, credited, fx, now);
    RememberMoves(posted, id, posted.contacts, now);
    assert posted.(contacts := posted.contacts) == posted;
    MovedTwice(s, settled, posted, now);
    MovedTwice(s, posted, Remember(posted, id), now);
  }

  lemma {:induction false} ContactMoves(s: BankState, i: nat, to: Contact, amount: int, id: string, now: Instant)
    requires Sound(s, now) && i < |s.accounts|
    requires TransferToContact(s, s.accounts[i], to, amount, id, now).Done?
    ensures Moved(s, TransferToContact(s, s.accounts[i], to, amount, id, now).state, now)
  {
    hide Sound, SettleAccount, TransferToContact, BalanceOf, NothingPending, Moved, Remember, AppendRow, UniqueAccountIds, Touched;
    var from := s.accounts[i];
    var settled, posted := ContactParts(s, from, to, amount, id, now);
    SequenceStarted(s, now);
    SettleMoves(s, from.id, now);
    assert ContactLeg(from, to, amount, now).accountId == from.id;
    hide ContactLeg;
    PostedOnSettled(settled, ContactLeg(from, to, amount, now), now);
    assert Moved(settled, posted, now) by { MovedIs(settled, posted, now); }
    RememberMoves(posted, id, Touched(posted.contacts, to.id, now), now);
    MovedTwice(s, settled, posted, now);
    MovedTwice(s, posted, TransferToContact(s, from, to, amount, id, now).state, now);
  }

  lemma {:induction false} MovedIs(s: BankState, after: BankState, now: Instant)
    requires Grown(s, after) && SavingsKept(s, after, now)
    ensures Moved(s, after, now)
  {
  }

  lemma {:induction false} TransferMoves(s: BankState, q: TransferRequest, now: Instant)
    requires Sound(s, now) && ApplyTransfer(s, q, now).Done?
    ensures Moved(s, ApplyTransfer(s, q, now).state, now)
  {
    hide Sound, ApplyTransfer, TransferBetween, TransferToContact, IsClientTransferId, Moved;
    if ApplyTransfer(s, q, now).applied {
      var i, target := AppliedParts(s, q, now);
      match target
      case ToAccount(j) => BetweenMoves(s, i, j, q.amountMinor, q.clientTransferId, now);
      case ToContact(c) => ContactMoves(s, i, c, q.amountMinor, q.clientTransferId, now);
    } else {
      ReplayedTransfer(s, q, now);
      NothingMoved(s, now);
    }
  }

  lemma {:induction false} NothingMoved(s: BankState, now: Instant)
    ensures Moved(s, s, now)
  {
    hide Grown, SavingsKept;
    GrownNot(s);
    SavingsUntouched(s, s, now);
  }

  // ---------------------------------------------------------------- conservation

  /** The interest that settling this account now would post. */
  function PendingInterest(s: BankState, a: Account, now: Instant): int {
    var due := DueInterest(a, BalanceOf(s.transactions, a.id), now);
    if due > 0 then due else 0
  }

  lemma {:induction false} SettledBalance(s: BankState, i: nat, now: Instant)
    requires i < |s.accounts| && FindAccount(s.accounts, s.accounts[i].id) == Some(i)
    requires SettleAccount(s, s.accounts[i].id, now).Some?
    ensures BalanceOf(SettleAccount(s, s.accounts[i].id, now).value.transactions, s.accounts[i].id)
         == BalanceOf(s.transactions, s.accounts[i].id) + PendingInterest(s, s.accounts[i], now)
  {
    hide AccruedInterest, BalanceOf, ElapsedDays, FindAccount, TxId;
    var a := s.accounts[i];
    var after := SettleAccount(s, a.id, now).value;
    if after.transactions != s.transactions {
      BalanceAfterAppend(s.transactions, after.transactions[|s.transactions|], a.id);
    }
  }

  /** Settling one account does not touch the record of another. */
  lemma {:induction false} SettleKeepsOtherAccount(s: BankState, id: string, j: nat, now: Instant)
    requires SettleAccount(s, id, now).Some? && j < |s.accounts| && s.accounts[j].id != id
    ensures var after := SettleAccount(s, id, now).value; j < |after.accounts| && after.accounts[j] == s.accounts[j]
  {
    hide AccruedInterest, BalanceOf, ElapsedDays, FindAccount, TxId, EarnsInterest;
  }

  lemma {:induction false} BothBalances(s: BankState, i: nat, j: nat, now: Instant)
    requires Sound(s, now) && i < |s.accounts| && j < |s.accounts| && i != j
    requires SettleBoth(s, s.accounts[i].id, s.accounts[j].id, now).Some?
    ensures var after := SettleBoth(s, s.accounts[i].id, s.accounts[j].id, now).value;
            && s.accounts[i].id != s.accounts[j].id
            && BalanceOf(after.transactions, s.accounts[i].id)
               == BalanceOf(s.transactions, s.accounts[i].id) + PendingInterest(s, s.accounts[i], now)
            && BalanceOf(after.transactions, s.accounts[j].id)
               == BalanceOf(s.transactions, s.accounts[j].id) + PendingInterest(s, s.accounts[j], now)
            && (forall a: string :: a != s.accounts[i].id && a != s.accounts[j].id
                                    ==> BalanceOf(after.transactions, a) == BalanceOf(s.transactions, a))
  {
    hide Sound, SettleAccount, BalanceOf, FindAccount, DueInterest, UniqueAccountIds, Moved, NothingPending;
    var from, to := s.accounts[i], s.accounts[j];
    DistinctIds(s, i, j, now);
    FindIsUnique(s.accounts, i);
    SettledBalance(s, i, now);
    OtherBalances(s, from.id, now);
    var one := SettleAccount(s, from.id, now).value;
    SettleMoves(s, from.id, now);
    SettleKeepsOtherAccount(s, from.id, j, now);
    FindIsUnique(one.accounts, j);
    SettledBalance(one, j, now);
    OtherBalances(one, to.id, now);
  }

  lemma {:induction false} DistinctIds(s: BankState, i: nat, j: nat, now: Instant)
    requires Sound(s, now) && i < |s.accounts| && j < |s.accounts| && i != j
    ensures s.accounts[i].id != s.accounts[j].id && UniqueAccountIds(s.accounts)
  {
  }

  lemma {:induction false} OtherBalances(s: BankState, id: string, now: Instant)
    requires SettleAccount(s, id, now).Some?
    ensures forall a: string :: a != id
                                ==> BalanceOf(SettleAccount(s, id, now).value.transactions, a) == BalanceOf(s.transactions, a)
  {
    hide SettleAccount, BalanceOf;
    forall a: string | a != id
      ensures BalanceOf(SettleAccount(s, id, now).value.transactions, a) == BalanceOf(s.transactions, a)
    {
      SettleKeepsOtherBalances(s, id, a, now);
    }
  }

  lemma {:induction false} LegBalances(s: BankState, from: Account, to: Account, amount: int, credited: int,
                                       fx: Option<FxSnapshot>, now: Instant)
    requires PostLegs(s, from, to, amount, credited, fx, now).Some? && from.id != to.id
    ensures var after := PostLegs(s, from, to, amount, credited, fx, now).value;
            && BalanceOf(after.transactions, from.id) == BalanceOf(s.transactions, from.id) - amount
            && BalanceOf(after.transactions, to.id) == BalanceOf(s.transactions, to.id) + credited
            && (forall a: string :: a != from.id && a != to.id ==> BalanceOf(after.transactions, a) == BalanceOf(s.transactions, a))
  {
    hide PostLegs, OutLeg, InLeg, AppendRow, BalanceOf;
    var one := LegsAsRows(s, from, to, amount, credited, fx, now);
    AppendKeepsFrame(s, OutLeg(s, from, to, amount, fx, now));
    AppendKeepsFrame(one, InLeg(s, from, to, credited, fx, now));
  }

  /** A transfer between own accounts moves exactly its amount: the payer loses it, the payee gains what
      it converts to, both first receive the interest they had pending, and no other balance changes.
      Within one currency nothing is created or lost. */
  lemma {:induction false} TransferConserves(s: BankState, i: nat, j: nat, amount: int, id: string, now: Instant)
    requires Sound(s, now) && TransferArgs(s, i, j, amount, id)
    requires TransferBetween(s, s.accounts[i], s.accounts[j], amount, id, now).Done?
    ensures var from, to := s.accounts[i], s.accounts[j];
            var out := TransferBetween(s, from, to, amount, id, now);
            var before, after := s.transactions, out.state.transactions;
            && out.incoming.Some? && (from.currency == to.currency ==> out.incoming.value == amount)
            && BalanceOf(after, from.id) == BalanceOf(before, from.id) + PendingInterest(s, from, now) - amount
            && BalanceOf(after, to.id) == BalanceOf(before, to.id) + PendingInterest(s, to, now) + out.incoming.value
            && (forall a: string :: a != from.id && a != to.id ==> BalanceOf(after, a) == BalanceOf(before, a))
  {
    hide Sound, SettleBoth, PostLegs, BalanceOf, TransferBetween, PendingInterest, LastIds;
    var settled, posted, credited, fx := BetweenParts(s, i, j, amount, id, now);
    BothBalances(s, i, j, now);
    LegBalances(settled, s.accounts[i], s.accounts[j], amount, credited, fx, now);
  }

  // ---------------------------------------------------------------- recent identifiers

  /** Remembering one identifier after another keeps the last fifty of all of them. */
  lemma {:induction false} LastOfLast(ids: seq<string>, id: string)
    ensures LastIds(LastIds(ids) + [id]) == LastIds(ids + [id])
  {
    var kept := LastIds(ids);
    if |ids| > RECENT_IDS_CAP {
      assert ids + [id] == ids[..|ids| - RECENT_IDS_CAP] + (kept + [id]);
      assert (ids + [id])[|ids| + 1 - RECENT_IDS_CAP..] == (kept + [id])[1..];
    }
  }

  lemma {:induction false} TransferRecents(s: BankState, q: TransferRequest, now: Instant)
    requires Sound(s, now) && ApplyTransfer(s, q, now).Done?
    ensures var out := ApplyTransfer(s, q, now);
            if out.applied
            then q.clientTransferId !in s.recentTransferIds && out.state.recentTransferIds == LastIds(s.recentTransferIds + [q.clientTransferId])
            else out.state.recentTransferIds == s.recentTransferIds
  {
    hide Sound, ApplyTransfer, TransferBetween, TransferToContact, IsClientTransferId, LastIds;
    if ApplyTransfer(s, q, now).applied {
      var i, target := AppliedParts(s, q, now);
      match target
      case ToAccount(j) => BetweenRecents(s, i, j, q.amountMinor, q.clientTransferId, now);
      case ToContact(c) => ContactRecents(s, i, c, q.amountMinor, q.clientTransferId, now);
    } else {
      ReplayedTransfer(s, q, now);
    }
  }

  lemma {:induction false} BetweenRecents(s: BankState, i: nat, j: nat, amount: int, id: string, now: Instant)
    requires Sound(s, now) && TransferArgs(s, i, j, amount, id)
    requires TransferBetween(s, s.accounts[i], s.accounts[j], amount, id, now).Done?
    ensures TransferBetween(s, s.accounts[i], s.accounts[j], amount, id, now).state.recentTransferIds
            == LastIds(s.recentTransferIds + [id])
  {
    hide Sound, SettleBoth, PostLegs, BalanceOf, TransferBetween, FxMatches, LastIds;
    var settled, posted, credited, fx := BetweenParts(s, i, j, amount, id, now);
    BothRecents(s, s.accounts[i].id, s.accounts[j].id, now);
    LegsKeepRecents(settled, s.accounts[i], s.accounts[j], amount, credited, fx, now);
  }

  lemma {:induction false} BothRecents(s: BankState, fromId: string, toId: string, now: Instant)
    requires SettleBoth(s, fromId, toId, now).Some?
    ensures SettleBoth(s, fromId, toId, now).value.recentTransferIds == s.recentTransferIds
  {
    hide SettleAccount, SameStanding;
    SettleAccountFrame(s, fromId, now);
    SettleAccountFrame(SettleAccount(s, fromId, now).value, toId, now);
  }

  lemma {:induction false} ContactRecents(s: BankState, i: nat, to: Contact, amount: int, id: string, now: Instant)
    requires i < |s.accounts| && TransferToContact(s, s.accounts[i], to, amount, id, now).Done?
    ensures TransferToContact(s, s.accounts[i], to, amount, id, now).state.recentTransferIds
            == LastIds(s.recentTransferIds + [id])
  {
    hide SettleAccount, BalanceOf, TransferToContact, AppendRow, SameStanding, LastIds, Touched, ContactLeg;
    var settled, posted := ContactParts(s, s.accounts[i], to, amount, id, now);
    SettleAccountFrame(s, s.accounts[i].id, now);
    AppendedParts(settled, ContactLeg(s.accounts[i], to, amount, now));
  }
}
