/** The loops with which `parseBankState` checks transfer groups, `src/domain/bankState.ts`: collecting the rows
    of each group decides that every transfer is a pair of neighbouring legs. */
module TransferGroupCheck {
  import opened Wrappers
  import opened BankTypes
  import opened Ledger
  import opened Interest
  import opened BankValidity

  // ---------------------------------------------------------------- the rows of a group

  function GroupRows(txs: seq<Transaction>, g: string): seq<Transaction> {
    if txs == [] then []
    else GroupRows(txs[..|txs| - 1], g)
         + if txs[|txs| - 1].row.transferGroupId == Some(g) then [txs[|txs| - 1]] else []
  }

  predicate RowGrouped(d: Draft) {
    && (IsOwnTransfer(d.kind) <==> d.transferGroupId.Some?)
    && (d.fxSnapshot.Some? ==> IsOwnTransfer(d.kind))
  }

  function FirstOf(rows: seq<Transaction>, kind: TransactionKind): (r: Option<Transaction>)
    ensures r.Some? ==> r.value in rows && r.value.row.kind == kind
    ensures r.None? ==> forall t :: t in rows ==> t.row.kind != kind
  {
    if rows == [] then None else if rows[0].row.kind == kind then Some(rows[0]) else FirstOf(rows[1..], kind)
  }

  /** What the check asks of one group. */
  predicate GroupOk(g: string, rows: seq<Transaction>, accounts: seq<Account>) {
    var outgoing, incoming := FirstOf(rows, TransferOwnOut), FirstOf(rows, TransferOwnIn);
    && |rows| == 2 && outgoing.Some? && incoming.Some?
    && var o, n := outgoing.value, incoming.value;
    && o.row.accountId != n.row.accountId
    && o.row.amountMinor < 0 < n.row.amountMinor
    && n.seqNo == o.seqNo + 1 && n.row.createdAt == o.row.createdAt
    && (IsNumberedGroup(g) ==> o.seqNo > 0 && g == GroupId(o.seqNo))
    && var from, to := FindAccount(accounts, o.row.accountId), FindAccount(accounts, n.row.accountId);
    && from.Some? && to.Some?
    && LegsAgree(o.row, n.row, accounts[from.value].currency, accounts[to.value].currency)
  }

  ghost predicate GroupsOk(txs: seq<Transaction>, accounts: seq<Account>) {
    && (forall i :: 0 <= i < |txs| ==> RowGrouped(txs[i].row))
    && (forall g: string :: GroupRows(txs, g) != [] ==> GroupOk(g, GroupRows(txs, g), accounts))
  }

  lemma {:induction false} GroupMember(txs: seq<Transaction>, g: string, t: Transaction)
    ensures t in GroupRows(txs, g) <==> t in txs && t.row.transferGroupId == Some(g)
    decreases |txs|
  {
    if txs != [] {
      var before := txs[..|txs| - 1];
      GroupMember(before, g, t);
      assert txs == before + [txs[|txs| - 1]];
    }
  }

  /** `groups` holds the rows of every group seen so far. */
  ghost predicate Collected(txs: seq<Transaction>, groups: map<string, seq<Transaction>>) {
    forall g: string :: GroupRows(txs, g) == if g in groups then groups[g] else []
  }

  lemma {:induction false} OneMoreRow(txs: seq<Transaction>, i: nat, g: string)
    requires i < |txs|
    ensures GroupRows(txs[..i + 1], g)
         == GroupRows(txs[..i], g) + if txs[i].row.transferGroupId == Some(g) then [txs[i]] else []
  {
    assert txs[..i + 1][..i] == txs[..i];
  }

  method CollectGroups(txs: seq<Transaction>) returns (ok: bool, groups: map<string, seq<Transaction>>)
    ensures ok <==> forall i :: 0 <= i < |txs| ==> RowGrouped(txs[i].row)
    ensures ok ==> Collected(txs, groups) && forall g :: g in groups ==> groups[g] != []
  {
    hide GroupRows;
    groups := map[];
    NoGroups();
    for i := 0 to |txs|
      invariant forall k :: 0 <= k < i ==> RowGrouped(txs[k].row)
      invariant Collected(txs[..i], groups)
      invariant forall g :: g in groups ==> groups[g] != []
    {
      var row := txs[i].row;
      if !RowGrouped(row) {
        return false, groups;
      }
      ghost var before := groups;
      if row.transferGroupId.Some? {
        var g := row.transferGroupId.value;
        groups := groups[g := (if g in groups then groups[g] else []) + [txs[i]]];
      }
      forall g: string
        ensures GroupRows(txs[..i + 1], g) == if g in groups then groups[g] else []
      {
        OneMoreRow(txs, i, g);
      }
    }
    assert txs[..|txs|] == txs;
    return true, groups;
  }

  lemma {:induction false} NoGroups()
    ensures Collected([], map[])
  {
  }

  /** Collecting and then judging each group. */
  method HasValidTransferGroups(txs: seq<Transaction>, accounts: seq<Account>) returns (ok: bool)
    ensures ok <==> GroupsOk(txs, accounts)
  {
    hide GroupRows, GroupOk, RowGrouped;
    var shaped, groups := CollectGroups(txs);
    if !shaped {
      return false;
    }
    var keys := groups.Keys;
    while keys != {}
      invariant keys <= groups.Keys
      invariant forall g :: g in groups && g !in keys ==> GroupOk(g, groups[g], accounts)
      decreases |keys|
    {
      var g :| g in keys;
      if !GroupOk(g, groups[g], accounts) {
        assert GroupRows(txs, g) == groups[g];
        return false;
      }
      keys := keys - {g};
    }
    forall g: string | GroupRows(txs, g) != []
      ensures GroupOk(g, GroupRows(txs, g), accounts)
    {
      assert g in groups;
    }
    return true;
  }

  // ---------------------------------------------------------------- groups are neighbouring pairs

  lemma {:induction false} SeqOrder(txs: seq<Transaction>, i: nat, j: nat)
    requires LedgerConsistent(txs) && i < j < |txs|
    ensures txs[i].seqNo < txs[j].seqNo
    decreases j
  {
    hide SumOf;
    assert RowConsistent(txs, j);
    if i < j - 1 {
      SeqOrder(txs, i, j - 1);
    }
  }

  /** The row whose number follows is the next row. */
  lemma {:induction false} NextRow(txs: seq<Transaction>, i: nat, n: Transaction)
    requires LedgerConsistent(txs) && i < |txs| && n in txs && n.seqNo == txs[i].seqNo + 1
    ensures i + 1 < |txs| && txs[i + 1] == n
  {
    hide LedgerConsistent;
    var j :| 0 <= j < |txs| && txs[j] == n;
    if j < i {
      SeqOrder(txs, j, i);
    } else {
      if i + 1 < j {
        SeqOrder(txs, i, i + 1);
        SeqOrder(txs, i + 1, j);
      }
    }
  }

  lemma {:induction false} SameSeqSameRow(txs: seq<Transaction>, i: nat, j: nat)
    requires LedgerConsistent(txs) && i < |txs| && j < |txs| && txs[i] == txs[j]
    ensures i == j
  {
    hide LedgerConsistent;
    if i < j {
      SeqOrder(txs, i, j);
    } else if j < i {
      SeqOrder(txs, j, i);
    }
  }

  /** The two rows of a group that is in order. */
  lemma {:induction false} GroupLegs(txs: seq<Transaction>, g: string, accounts: seq<Account>) returns (o: Transaction, n: Transaction)
    requires GroupRows(txs, g) != [] && GroupOk(g, GroupRows(txs, g), accounts)
    ensures o in txs && n in txs && o.row.kind.TransferOwnOut? && n.row.kind.TransferOwnIn?
    ensures o.row.transferGroupId == Some(g) == n.row.transferGroupId
    ensures forall t :: t in GroupRows(txs, g) ==> t == o || t == n
    ensures FirstOf(GroupRows(txs, g), TransferOwnOut) == Some(o) && FirstOf(GroupRows(txs, g), TransferOwnIn) == Some(n)
  {
    var rows := GroupRows(txs, g);
    hide GroupRows, LegsAgree, GroupId, IsNumberedGroup, FindAccount;
    o := FirstOf(rows, TransferOwnOut).value;
    n := FirstOf(rows, TransferOwnIn).value;
    GroupMember(txs, g, o);
    GroupMember(txs, g, n);
  }

  lemma {:induction false} OkIsPair(txs: seq<Transaction>, g: string, accounts: seq<Account>, o: Transaction, n: Transaction)
    requires GroupRows(txs, g) != [] && GroupOk(g, GroupRows(txs, g), accounts) && UniqueAccountIds(accounts)
    requires FirstOf(GroupRows(txs, g), TransferOwnOut) == Some(o) && FirstOf(GroupRows(txs, g), TransferOwnIn) == Some(n)
    requires o.row.transferGroupId == Some(g) == n.row.transferGroupId
    ensures PairValid(o, n, accounts)
  {
    hide GroupRows, LegsAgree, GroupId, IsNumberedGroup, FindAccount;
    var from, to := FindAccount(accounts, o.row.accountId).value, FindAccount(accounts, n.row.accountId).value;
    forall j, k | 0 <= j < |accounts| && 0 <= k < |accounts| && accounts[j].id == o.row.accountId && accounts[k].id == n.row.accountId
      ensures j == from && k == to
    {
    }
  }

  lemma {:induction false} GroupsArePairs(txs: seq<Transaction>, accounts: seq<Account>, i: nat)
    requires LedgerConsistent(txs) && UniqueAccountIds(accounts) && GroupsOk(txs, accounts) && i < |txs|
    ensures LegPaired(txs, accounts, i)
  {
    hide LedgerConsistent, PairValid, GroupOk, UniqueAccountIds;
    assert RowGrouped(txs[i].row);
    if IsOwnTransfer(txs[i].row.kind) {
      var g := txs[i].row.transferGroupId.value;
      GroupMember(txs, g, txs[i]);
      hide GroupRows;
      var o, n := GroupLegs(txs, g, accounts);
      OkIsPair(txs, g, accounts, o, n);
      LegNumbers(o, n, accounts);
      assert txs[i] == o || txs[i] == n;
      var k :| 0 <= k < |txs| && txs[k] == o;
      NextRow(txs, k, n);
      if txs[i] == o {
        SameSeqSameRow(txs, i, k);
      } else {
        SameSeqSameRow(txs, i, k + 1);
      }
    }
  }

  lemma {:induction false} LegNumbers(o: Transaction, n: Transaction, accounts: seq<Account>)
    requires PairValid(o, n, accounts)
    ensures n.seqNo == o.seqNo + 1 && o.row.kind.TransferOwnOut? && n.row.kind.TransferOwnIn?
  {
    hide LegsAgree, IsNumberedGroup, GroupId;
  }

  lemma {:induction false} GroupsAreDistinct(txs: seq<Transaction>, accounts: seq<Account>, i: nat, j: nat)
    requires LedgerConsistent(txs) && GroupsOk(txs, accounts) && i < j < |txs|
    requires txs[i].row.kind.TransferOwnOut? && txs[j].row.kind.TransferOwnOut?
    ensures txs[i].row.transferGroupId != txs[j].row.transferGroupId
  {
    hide LedgerConsistent, GroupOk;
    assert RowGrouped(txs[i].row) && RowGrouped(txs[j].row);
    if txs[i].row.transferGroupId == txs[j].row.transferGroupId {
      var g := txs[i].row.transferGroupId.value;
      GroupMember(txs, g, txs[i]);
      GroupMember(txs, g, txs[j]);
      hide GroupRows;
      var o, n := GroupLegs(txs, g, accounts);
      SeqOrder(txs, i, j);
    }
  }

  /** Only the two legs carry the group. */
  lemma {:induction false} PairIsGroup(txs: seq<Transaction>, g: string, i: nat)
    requires i + 1 < |txs|
    requires forall k :: 0 <= k < |txs| ==> (txs[k].row.transferGroupId == Some(g) <==> k == i || k == i + 1)
    ensures GroupRows(txs, g) == [txs[i], txs[i + 1]]
    decreases |txs|
  {
    var before := txs[..|txs| - 1];
    if i + 2 < |txs| {
      PairIsGroup(before, g, i);
    } else {
      LegIsGroup(before, g, i);
    }
  }

  lemma {:induction false} LegIsGroup(txs: seq<Transaction>, g: string, i: nat)
    requires i + 1 == |txs|
    requires forall k :: 0 <= k < |txs| ==> (txs[k].row.transferGroupId == Some(g) <==> k == i)
    ensures GroupRows(txs, g) == [txs[i]]
  {
    NobodyInGroup(txs[..i], g);
  }

  lemma {:induction false} NobodyInGroup(txs: seq<Transaction>, g: string)
    requires forall k :: 0 <= k < |txs| ==> txs[k].row.transferGroupId != Some(g)
    ensures GroupRows(txs, g) == []
    decreases |txs|
  {
    if txs != [] {
      NobodyInGroup(txs[..|txs| - 1], g);
    }
  }

  /** The position of the outgoing leg of the transfer that a leg belongs to. */
  lemma {:induction false} LegPosition(txs: seq<Transaction>, accounts: seq<Account>, k: nat) returns (i: nat)
    requires TransfersPaired(txs, accounts) && k < |txs| && IsOwnTransfer(txs[k].row.kind)
    ensures (k == i || k == i + 1) && i + 1 < |txs| && PairValid(txs[i], txs[i + 1], accounts)
    ensures txs[i].row.kind.TransferOwnOut? && txs[i].row.transferGroupId == txs[k].row.transferGroupId
    ensures txs[i + 1].row.transferGroupId == txs[k].row.transferGroupId
  {
    assert LegPaired(txs, accounts, k);
    hide LegsAgree, GroupId, IsNumberedGroup;
    i := if txs[k].row.kind.TransferOwnOut? then k else k - 1;
  }

  lemma {:induction false} PairsAreGroups(txs: seq<Transaction>, accounts: seq<Account>, g: string)
    requires TransfersPaired(txs, accounts) && UniqueAccountIds(accounts)
    requires forall i :: 0 <= i < |txs| ==> RowGrouped(txs[i].row) && txs[i].row.accountId in AccountIds(accounts)
    requires GroupRows(txs, g) != []
    ensures GroupOk(g, GroupRows(txs, g), accounts)
  {
    hide PairValid, UniqueAccountIds, AccountIds, TransfersPaired;
    GroupMember(txs, g, GroupRows(txs, g)[0]);
    var k :| 0 <= k < |txs| && txs[k] == GroupRows(txs, g)[0];
    hide GroupRows;
    var i := LegPosition(txs, accounts, k);
    forall m | 0 <= m < |txs| && txs[m].row.transferGroupId == Some(g)
      ensures m == i || m == i + 1
    {
      var other := LegPosition(txs, accounts, m);
      OneOutgoing(txs, accounts, i, other);
    }
    PairIsGroup(txs, g, i);
    PairIsOk(txs, accounts, g, i);
  }

  lemma {:induction false} OneOutgoing(txs: seq<Transaction>, accounts: seq<Account>, i: nat, j: nat)
    requires TransfersPaired(txs, accounts) && i < |txs| && j < |txs|
    requires txs[i].row.kind.TransferOwnOut? && txs[j].row.kind.TransferOwnOut?
    requires txs[i].row.transferGroupId == txs[j].row.transferGroupId
    ensures i == j
  {
    hide LegPaired;
  }

  lemma {:induction false} PairIsOk(txs: seq<Transaction>, accounts: seq<Account>, g: string, i: nat)
    requires i + 1 < |txs| && PairValid(txs[i], txs[i + 1], accounts) && UniqueAccountIds(accounts)
    requires txs[i].row.transferGroupId == Some(g)
    requires txs[i].row.accountId in AccountIds(accounts) && txs[i + 1].row.accountId in AccountIds(accounts)
    ensures GroupOk(g, [txs[i], txs[i + 1]], accounts)
  {
    hide LegsAgree, GroupId, IsNumberedGroup, FindAccount;
    var o, n := txs[i], txs[i + 1];
    assert [o, n][1..] == [n];
    assert FirstOf([o, n], TransferOwnIn) == FirstOf([n], TransferOwnIn);
    KnownIsFound(accounts, o.row.accountId);
    KnownIsFound(accounts, n.row.accountId);
  }

  lemma {:induction false} KnownIsFound(accounts: seq<Account>, id: string)
    requires id in AccountIds(accounts)
    ensures FindAccount(accounts, id).Some?
  {
  }

  /** On a consistent ledger the check of the groups decides exactly the pairing of the invariant. */
  lemma {:induction false} GroupCheckIsPairing(txs: seq<Transaction>, accounts: seq<Account>)
    requires LedgerConsistent(txs) && UniqueAccountIds(accounts)
    requires forall i :: 0 <= i < |txs| ==> RowGrouped(txs[i].row) && txs[i].row.accountId in AccountIds(accounts)
    ensures GroupsOk(txs, accounts) <==> TransfersPaired(txs, accounts)
  {
    hide LedgerConsistent, UniqueAccountIds, AccountIds, GroupOk, GroupRows, LegPaired, RowGrouped;
    if GroupsOk(txs, accounts) {
      forall i | 0 <= i < |txs|
        ensures LegPaired(txs, accounts, i)
      {
        GroupsArePairs(txs, accounts, i);
      }
      forall i, j | 0 <= i < j < |txs| && txs[i].row.kind.TransferOwnOut? && txs[j].row.kind.TransferOwnOut?
        ensures txs[i].row.transferGroupId != txs[j].row.transferGroupId
      {
        GroupsAreDistinct(txs, accounts, i, j);
      }
    }
    if TransfersPaired(txs, accounts) {
      forall g: string | GroupRows(txs, g) != []
        ensures GroupOk(g, GroupRows(txs, g), accounts)
      {
        PairsAreGroups(txs, accounts, g);
      }
    }
  }
}
