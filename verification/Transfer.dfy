/** Transfers between own accounts and to contacts: `src/domain/transfer.ts`. */
module Transfer {
  import opened Wrappers
  import opened Calendar
  import opened Currency
  import opened BankTypes
  import opened Ledger
  import opened Interest
  import opened BankValidity

  datatype TransferRequest = TransferRequest(
    fromAccountId: string, toAccountId: Option<string>, toContactId: Option<string>, amountMinor: int,
    clientTransferId: string)

  function FindContact(contacts: seq<Contact>, id: string): (r: Option<nat>)
    ensures r.Some? ==> r.value < |contacts| && contacts[r.value].id == id
  {
    if contacts == [] then None
    else if contacts[0].id == id then Some(0)
    else match FindContact(contacts[1..], id)
      case None => None
      case Some(i) => Some(i + 1)
  }

  /** `ids.slice(-50)`: the last fifty. */
  function LastIds(ids: seq<string>): seq<string> {
    if |ids| <= RECENT_IDS_CAP then ids else ids[|ids| - RECENT_IDS_CAP..]
  }

  function Remember(s: BankState, id: string): BankState {
    s.(recentTransferIds := LastIds(s.recentTransferIds + [id]))
  }

  function SnapshotOf(x: ExchangeRates, from: Currency, to: Currency, amount: int, credited: int): FxSnapshot {
    FxSnapshot(from, to, amount, credited, QuoteCrossRate(x.rates.Of(from), x.rates.Of(to)),
               x.rates.Of(from), x.rates.Of(to), x.asOf, x.fetchedAt, x.source)
  }

  function Leg(accountId: string, amount: int, kind: TransactionKind, counterparty: Text, group: Option<string>,
               fx: Option<FxSnapshot>, now: Instant): Draft
  {
    Draft(accountId, amount, kind, Some(counterparty), Some("transfer"), group, fx, None, None, None, None, now)
  }

  /** Pending interest is settled first on both sides, since the balance check must see it. */
  function SettleBoth(s: BankState, fromId: string, toId: string, now: Instant): Option<BankState> {
    match SettleAccount(s, fromId, now)
    case None => None
    case Some(next) => SettleAccount(next, toId, now)
  }

  /** The two legs, next to each other in the ledger, in one group. */
  function PostLegs(s: BankState, from: Account, to: Account, amount: int, credited: int, fx: Option<FxSnapshot>,
                    now: Instant): Option<BankState>
  {
    if s.nextSeq <= 0 then None // appending the first leg is a range error
    else
      var group := Some(GroupId(s.nextSeq));
      match AppendRow(s, Leg(from.id, -amount, TransferOwnOut, to.name, group, fx, now))
      case None => None
      case Some(next) => AppendRow(next, Leg(to.id, credited, TransferOwnIn, from.name, group, fx, now))
  }

  function TransferBetween(s: BankState, from: Account, to: Account, amount: int, clientTransferId: string, now: Instant): Outcome {
    var x := s.exchangeRates;
    var exchange := from.currency != to.currency;
    var converted := if exchange then Converted(amount, from.currency, to.currency, x.rates.Of(from.currency), x.rates.Of(to.currency))
                     else Some(amount);
    if converted.None? then Refuse(InvalidExchangeRate)
    else if exchange && converted.value == 0 then Refuse(ConvertedAmountTooSmall)
    else
      var fx := if exchange then Some(SnapshotOf(x, from.currency, to.currency, amount, converted.value)) else None;
      match SettleBoth(s, from.id, to.id, now)
      case None => Refuse(BalanceOverflow)
      case Some(settled) =>
        if amount > BalanceOf(settled.transactions, from.id) then Refuse(NotEnoughFunds)
        else match PostLegs(settled, from, to, amount, converted.value, fx, now)
          case None => Refuse(BalanceOverflow)
          case Some(posted) => Done(Remember(posted, clientTransferId), true, [], converted, None)
  }

  function Touched(contacts: seq<Contact>, id: string, now: Instant): (r: seq<Contact>)
    ensures |r| == |contacts|
    ensures forall i :: 0 <= i < |r| ==>
              r[i] == if contacts[i].id == id then contacts[i].(lastTransferAt := Some(now)) else contacts[i]
  {
    seq(|contacts|, i requires 0 <= i < |contacts| =>
      if contacts[i].id == id then contacts[i].(lastTransferAt := Some(now)) else contacts[i])
  }

  function TransferToContact(s: BankState, from: Account, to: Contact, amount: int, clientTransferId: string, now: Instant): Outcome {
    match SettleAccount(s, from.id, now)
    case None => Refuse(BalanceOverflow)
    case Some(settled) =>
      if amount > BalanceOf(settled.transactions, from.id) then Refuse(NotEnoughFunds)
      else match AppendRow(settled, Leg(from.id, -amount, TransferContact, to.name, None, None, now))
        case None => Refuse(BalanceOverflow)
        case Some(posted) =>
          Ok(Remember(posted.(contacts := Touched(posted.contacts, to.id, now)), clientTransferId), true)
  }

  function ApplyTransfer(s: BankState, q: TransferRequest, now: Instant): Outcome {
    if !IsClientTransferId(q.clientTransferId) then Refuse(InvalidClientTransferId)
    else if q.clientTransferId in s.recentTransferIds then Ok(s, false)
    else if !IsSafe(q.amountMinor) || q.amountMinor <= 0 then Refuse(InvalidAmount)
    else if q.toAccountId.Some? == q.toContactId.Some? then Refuse(UnknownTarget)
    else if q.toAccountId == Some(q.fromAccountId) then Refuse(SameAccount)
    else
      var from := FindAccount(s.accounts, q.fromAccountId);
      var toAccount := if q.toAccountId.Some? then FindAccount(s.accounts, q.toAccountId.value) else None;
      var toContact := if q.toContactId.Some? then FindContact(s.contacts, q.toContactId.value) else None;
      if from.None? || (toAccount.None? && toContact.None?) then Refuse(UnknownTarget)
      else
        var a := s.accounts[from.value];
        if a.status.Closed? || (toAccount.Some? && s.accounts[toAccount.value].status.Closed?) then Refuse(AccountClosed)
        else if !WithinCommandUsdLimit(q.amountMinor, a.currency, s.exchangeRates.rates.Of(a.currency)) then Refuse(AmountTooLarge)
        else if toAccount.Some? then
          TransferBetween(s, a, s.accounts[toAccount.value], q.amountMinor, q.clientTransferId, now)
        else TransferToContact(s, a, s.contacts[toContact.value], q.amountMinor, q.clientTransferId, now)
  }
}
