/** The append-only ledger: `src/domain/ledger.ts` and `src/domain/invariants.ts`. */
module Ledger {
  import opened Wrappers
  import opened Currency
  import opened Money
  import opened BankTypes

  // ---------------------------------------------------------------- balances

  /** The balance of an account: the snapshot of its last row. */
  function BalanceOf(txs: seq<Transaction>, accountId: string): int {
    if txs == [] then 0
    else if txs[|txs| - 1].row.accountId == accountId then txs[|txs| - 1].balanceAfterMinor
    else BalanceOf(txs[..|txs| - 1], accountId)
  }

  method FindBalance(txs: seq<Transaction>, accountId: string) returns (balance: int)
    ensures balance == BalanceOf(txs, accountId)
  {
    var i := |txs| - 1;
    assert txs[..|txs|] == txs;
    while i >= 0
      invariant -1 <= i < |txs|
      invariant BalanceOf(txs, accountId) == BalanceOf(txs[..i + 1], accountId)
    {
      assert txs[..i + 1][..i] == txs[..i];
      if txs[i].row.accountId == accountId {
        return txs[i].balanceAfterMinor;
      }
      i := i - 1;
    }
    return 0;
  }

  lemma {:induction false} BalanceAfterAppend(txs: seq<Transaction>, t: Transaction, accountId: string)
    ensures BalanceOf(txs + [t], accountId)
         == if t.row.accountId == accountId then t.balanceAfterMinor else BalanceOf(txs, accountId)
  {
    assert (txs + [t])[..|txs|] == txs;
  }

  /** The sum of an account's amounts. */
  function SumOf(txs: seq<Transaction>, accountId: string): int {
    if txs == [] then 0
    else
      var last := txs[|txs| - 1].row;
      SumOf(txs[..|txs| - 1], accountId) + if last.accountId == accountId then last.amountMinor else 0
  }

  // ---------------------------------------------------------------- consistency

  /** Sequence numbers grow, amounts are safe integers, and every snapshot is the running sum. */
  ghost predicate RowConsistent(txs: seq<Transaction>, i: nat)
    requires i < |txs|
  {
    && txs[i].seqNo > (if i == 0 then -1 else txs[i - 1].seqNo)
    && txs[i].balanceAfterMinor == SumOf(txs[..i + 1], txs[i].row.accountId)
    && IsSafe(txs[i].row.amountMinor)
  }

  ghost predicate LedgerConsistent(txs: seq<Transaction>) {
    forall i :: 0 <= i < |txs| ==> RowConsistent(txs, i)
  }

  datatype LedgerError = SeqNotIncreasing(seqNo: int) | LedgerDrift(seqNo: int, expected: int) | NonIntegerAmount(seqNo: int)

  /** The check keeps a running sum per account; it reports nothing exactly when every row agrees. */
  method LedgerErrors(txs: seq<Transaction>) returns (errors: seq<LedgerError>)
    ensures errors == [] <==> LedgerConsistent(txs)
  {
    errors := [];
    var running: map<string, int> := map[];
    var lastSeq := -1;
    for i := 0 to |txs|
      invariant lastSeq == if i == 0 then -1 else txs[i - 1].seqNo
      invariant forall a :: (if a in running then running[a] else 0) == SumOf(txs[..i], a)
      invariant errors == [] <==> forall k :: 0 <= k < i ==> RowConsistent(txs, k)
    {
      var tx := txs[i];
      ghost var before := errors;
      if tx.seqNo <= lastSeq {
        errors := errors + [SeqNotIncreasing(tx.seqNo)];
      }
      lastSeq := tx.seqNo;
      var account := tx.row.accountId;
      var expected := (if account in running then running[account] else 0) + tx.row.amountMinor;
      SumStep(txs, i);
      if tx.balanceAfterMinor != expected {
        errors := errors + [LedgerDrift(tx.seqNo, expected)];
      }
      running := running[account := expected];
      if !IsSafe(tx.row.amountMinor) {
        errors := errors + [NonIntegerAmount(tx.seqNo)];
      }
      assert errors == [] <==> before == [] && RowConsistent(txs, i);
    }
  }

  lemma {:induction false} SumStep(txs: seq<Transaction>, i: nat)
    requires i < |txs|
    ensures forall a :: SumOf(txs[..i + 1], a)
                     == SumOf(txs[..i], a) + if txs[i].row.accountId == a then txs[i].row.amountMinor else 0
  {
    assert txs[..i + 1][..i] == txs[..i];
  }

  /** No drift between the balance and the history: the last snapshot is the sum of all amounts. */
  lemma {:induction false} BalanceIsSum(txs: seq<Transaction>, accountId: string)
    requires LedgerConsistent(txs)
    ensures BalanceOf(txs, accountId) == SumOf(txs, accountId)
  {
    if txs != [] {
      var n := |txs| - 1;
      if txs[n].row.accountId == accountId {
        assert RowConsistent(txs, n) && txs[..n + 1] == txs;
      } else {
        ConsistentPrefix(txs, n);
        BalanceIsSum(txs[..n], accountId);
      }
    }
  }

  lemma {:induction false} ConsistentPrefix(txs: seq<Transaction>, n: nat)
    requires n <= |txs|
    ensures LedgerConsistent(txs) ==> LedgerConsistent(txs[..n])
  {
    forall i | 0 <= i < n && LedgerConsistent(txs)
      ensures RowConsistent(txs[..n], i)
    {
      assert RowConsistent(txs, i) && txs[..n][..i + 1] == txs[..i + 1];
    }
  }

  lemma {:induction false} ConsistentAppend(txs: seq<Transaction>, t: Transaction)
    requires LedgerConsistent(txs)
    requires t.seqNo > (if txs == [] then -1 else txs[|txs| - 1].seqNo)
    requires t.balanceAfterMinor == BalanceOf(txs, t.row.accountId) + t.row.amountMinor
    requires IsSafe(t.row.amountMinor)
    ensures LedgerConsistent(txs + [t])
  {
    var all := txs + [t];
    forall i | 0 <= i < |all|
      ensures RowConsistent(all, i)
    {
      if i < |txs| {
        assert RowConsistent(txs, i) && all[..i + 1] == txs[..i + 1];
      } else {
        BalanceIsSum(txs, t.row.accountId);
        assert all[..i + 1] == all && all[..i] == txs;
      }
    }
  }

  // ---------------------------------------------------------------- appending

  function TxId(n: nat): string { "tx_" + Show(n) }

  function GroupId(n: nat): string { "grp_" + Show(n) }

  /** `None` is the range error of the source: an amount or balance that is not a safe integer, or an
      exhausted sequence. */
  function AppendRow(s: BankState, row: Draft): Option<BankState> {
    var balance := BalanceOf(s.transactions, row.accountId) + row.amountMinor;
    if !IsSafe(row.amountMinor) || s.nextSeq <= 0 || s.nextSeq >= MAX_SAFE || !IsSafe(balance) then None
    else
      var tx := Transaction(TxId(s.nextSeq), s.nextSeq, balance, row);
      Some(s.(transactions := s.transactions + [tx], nextSeq := s.nextSeq + 1))
  }
}
