/** What a client remembers of the server's ledger: `src/platform/ledgerAuthorityReceipt.ts`. A receipt names
    the revision that was adopted last and the epochs that were left; it keeps a client from going back. */
module Receipt {
  import opened Wrappers
  import Currency

  const RETIRED_EPOCH_CAP := 8

  datatype Revision = Revision(telegramId: string, epoch: string, revision: int, digest: string)

  datatype Receipt = Receipt(current: Revision, retired: seq<string>)

  predicate IsHex(c: char) { '0' <= c <= '9' || 'a' <= c <= 'f' }

  predicate IsHexOfLength(s: string, n: nat) {
    |s| == n && forall i :: 0 <= i < |s| ==> IsHex(s[i])
  }

  predicate IsTelegramId(s: string) {
    && 1 <= |s| <= 20 && '1' <= s[0] <= '9'
    && forall i :: 0 < i < |s| ==> '0' <= s[i] <= '9'
  }

  /** `parseLedgerAuthorityRevision` accepts it. */
  predicate IsRevision(r: Revision) {
    && IsTelegramId(r.telegramId) && IsHexOfLength(r.epoch, 32) && IsHexOfLength(r.digest, 64)
    && 1 <= r.revision <= Currency.MAX_SAFE
  }

  predicate AllDistinct(s: seq<string>) {
    forall i, j :: 0 <= i < j < |s| ==> s[i] != s[j]
  }

  /** `parseLedgerAuthorityReceipt` accepts it. */
  predicate IsReceipt(r: Receipt) {
    && IsRevision(r.current)
    && |r.retired| <= RETIRED_EPOCH_CAP
    && (forall i :: 0 <= i < |r.retired| ==> IsHexOfLength(r.retired[i], 32))
    && AllDistinct(r.retired)
    && r.current.epoch !in r.retired
  }

  datatype Decision = Newer | Current | Stale | DigestConflict | RetiredEpoch | WrongUser

  function Classify(receipt: Option<Receipt>, c: Revision): Decision {
    if receipt.None? then Newer
    else
      var r := receipt.value.current;
      if r.telegramId != c.telegramId then WrongUser
      else if c.epoch in receipt.value.retired then RetiredEpoch
      else if r.epoch != c.epoch then Newer
      else if c.revision < r.revision then Stale
      else if c.revision > r.revision then Newer
      else if c.digest == r.digest then Current
      else DigestConflict
  }

  function LastEight(epochs: seq<string>): seq<string> {
    if |epochs| <= RETIRED_EPOCH_CAP then epochs else epochs[|epochs| - RETIRED_EPOCH_CAP..]
  }

  function Retiring(receipt: Option<Receipt>, c: Revision): seq<string> {
    if receipt.None? then []
    else if receipt.value.current.epoch == c.epoch then receipt.value.retired
    else LastEight(receipt.value.retired + [receipt.value.current.epoch])
  }

  /** The receipt after adopting the candidate; `None` when it may not be adopted. */
  function Advance(receipt: Option<Receipt>, c: Revision): Option<Receipt> {
    match Classify(receipt, c)
    case Current => receipt
    case Newer => Some(Receipt(c, Retiring(receipt, c)))
    case _ => None
  }

  /** Advancing always yields a receipt that can be read back. */
  lemma {:induction false} AdvanceIsReadable(receipt: Option<Receipt>, c: Revision)
    requires IsRevision(c) && (receipt.Some? ==> IsReceipt(receipt.value))
    ensures Advance(receipt, c).Some? ==> IsReceipt(Advance(receipt, c).value)
  {
    hide IsRevision, IsHexOfLength;
    if receipt.Some? && receipt.value.current.epoch != c.epoch {
      var r := receipt.value;
      var all := r.retired + [r.current.epoch];
      assert AllDistinct(all);
      var d := if |all| <= RETIRED_EPOCH_CAP then 0 else |all| - RETIRED_EPOCH_CAP;
      assert LastEight(all) == all[d..];
      assert IsHexOfLength(r.current.epoch, 32) by { EpochOf(r.current); }
    }
  }

  lemma {:induction false} EpochOf(r: Revision)
    requires IsRevision(r)
    ensures IsHexOfLength(r.epoch, 32)
  {
  }

  /** When a candidate is adopted: there is no receipt yet, or it is for the same user, its epoch was not left,
      and it opens another epoch, moves the revision forward, or repeats the very same revision. It is then
      the current one. */
  lemma {:induction false} AdoptedExactly(receipt: Option<Receipt>, c: Revision)
    ensures Advance(receipt, c).Some?
            <==> || receipt.None?
                 || (var r := receipt.value.current;
                     && c.telegramId == r.telegramId && c.epoch !in receipt.value.retired
                     && (|| c.epoch != r.epoch || c.revision > r.revision
                         || (c.revision == r.revision && c.digest == r.digest)))
    ensures Advance(receipt, c).Some? ==> Advance(receipt, c).value.current == c
  {
  }

  /** What a refusal means: another user, an epoch that was left, an older revision, or the same revision with
      another content; in this order. */
  lemma {:induction false} RefusedBecause(receipt: Receipt, c: Revision)
    ensures var r, decision := receipt.current, Classify(Some(receipt), c);
            var known := c.telegramId == r.telegramId && c.epoch !in receipt.retired;
            && (decision.WrongUser? <==> c.telegramId != r.telegramId)
            && (decision.RetiredEpoch? <==> c.telegramId == r.telegramId && c.epoch in receipt.retired)
            && (decision.Stale? <==> known && c.epoch == r.epoch && c.revision < r.revision)
            && (decision.DigestConflict? <==> known && c.epoch == r.epoch && c.revision == r.revision && c.digest != r.digest)
            && (decision.Current? <==> known && c == r)
  {
  }

  // ---------------------------------------------------------------- runs of candidates

  function Adopt(receipt: Option<Receipt>, c: Revision): Option<Receipt> {
    var next := Advance(receipt, c);
    if next.None? then receipt else next
  }

  function AdoptAll(receipt: Option<Receipt>, cs: seq<Revision>): Option<Receipt>
    decreases |cs|
  {
    if cs == [] then receipt else AdoptAll(Adopt(receipt, cs[0]), cs[1..])
  }

  /** The epoch that adopting this candidate leaves, if it leaves one. */
  function Leaves(receipt: Option<Receipt>, c: Revision): seq<string> {
    if receipt.Some? && Advance(receipt, c).Some? && receipt.value.current.epoch != c.epoch
    then [receipt.value.current.epoch] else []
  }

  /** The epochs that a run leaves, in order. */
  function LeftEpochs(receipt: Option<Receipt>, cs: seq<Revision>): seq<string>
    decreases |cs|
  {
    if cs == [] then [] else Leaves(receipt, cs[0]) + LeftEpochs(Adopt(receipt, cs[0]), cs[1..])
  }

  /** A candidate that a run adopts, and the number of epochs left before. */
  datatype Adoption = Adoption(revision: Revision, stay: nat)

  function Adoptions(receipt: Option<Receipt>, cs: seq<Revision>, stay: nat): seq<Adoption>
    decreases |cs|
  {
    if cs == [] then []
    else
      var here := stay + |Leaves(receipt, cs[0])|;
      (if Advance(receipt, cs[0]).Some? then [Adoption(cs[0], here)] else []) + Adoptions(Adopt(receipt, cs[0]), cs[1..], here)
  }

  /** The later revision does not go back behind the earlier one. */
  predicate NoRollback(earlier: Revision, later: Revision) {
    && later.epoch == earlier.epoch && later.telegramId == earlier.telegramId
    && (earlier.revision < later.revision || (earlier.revision == later.revision && earlier.digest == later.digest))
  }

  lemma {:induction false} AdoptedIsNotBehind(receipt: Receipt, c: Revision)
    requires Advance(Some(receipt), c).Some? && receipt.current.epoch == c.epoch
    ensures NoRollback(receipt.current, c) && NoRollback(receipt.current, Adopt(Some(receipt), c).value.current)
    ensures NoRollback(c, Adopt(Some(receipt), c).value.current)
  {
  }

  lemma {:induction false} StayOnlyGrows(receipt: Receipt, cs: seq<Revision>, stay: nat)
    ensures forall k :: 0 <= k < |Adoptions(Some(receipt), cs, stay)| ==>
              && Adoptions(Some(receipt), cs, stay)[k].stay >= stay
              && (Adoptions(Some(receipt), cs, stay)[k].stay == stay
                  ==> NoRollback(receipt.current, Adoptions(Some(receipt), cs, stay)[k].revision))
    decreases |cs|
  {
    hide Classify, Retiring;
    if cs != [] {
      var c := cs[0];
      var here := stay + |Leaves(Some(receipt), c)|;
      var next := Adopt(Some(receipt), c).value;
      StayOnlyGrows(next, cs[1..], here);
      if Advance(Some(receipt), c).Some? && receipt.current.epoch == c.epoch {
        AdoptedIsNotBehind(receipt, c);
      }
    }
  }

  /** Between two changes of epoch the adopted revisions only grow, or repeat with the same digest. */
  lemma {:induction false} NeverRollsBack(receipt: Option<Receipt>, cs: seq<Revision>, stay: nat, i: nat, j: nat)
    requires i < j < |Adoptions(receipt, cs, stay)|
    requires Adoptions(receipt, cs, stay)[i].stay == Adoptions(receipt, cs, stay)[j].stay
    ensures NoRollback(Adoptions(receipt, cs, stay)[i].revision, Adoptions(receipt, cs, stay)[j].revision)
    decreases |cs|
  {
    hide Classify, Retiring;
    var c := cs[0];
    var here := stay + |Leaves(receipt, c)|;
    var rest := Adoptions(Adopt(receipt, c), cs[1..], here);
    if Advance(receipt, c).None? {
      NeverRollsBack(Adopt(receipt, c), cs[1..], here, i, j);
    } else if i > 0 {
      NeverRollsBack(Adopt(receipt, c), cs[1..], here, i - 1, j - 1);
    } else {
      var next := Adopt(receipt, c).value;
      StayOnlyGrows(next, cs[1..], here);
      assert rest[j - 1] == Adoptions(receipt, cs, stay)[j];
      AdoptedBecomesCurrent(receipt, c);
    }
  }

  lemma {:induction false} AdoptedBecomesCurrent(receipt: Option<Receipt>, c: Revision)
    requires Advance(receipt, c).Some?
    ensures var r := Adopt(receipt, c).value.current;
            r.epoch == c.epoch && r.telegramId == c.telegramId && r.revision == c.revision && r.digest == c.digest
  {
  }

  /** After any run the receipt is at the revision adopted last, or where it was if none was adopted. */
  lemma {:induction false} CurrentIsLastAdopted(receipt: Option<Receipt>, cs: seq<Revision>, stay: nat)
    ensures var all, after := Adoptions(receipt, cs, stay), AdoptAll(receipt, cs);
            if all == [] then after == receipt else after.Some? && after.value.current == all[|all| - 1].revision
    decreases |cs|
  {
    hide Classify, Retiring, Advance;
    if cs != [] {
      AdoptedExactly(receipt, cs[0]);
      CurrentIsLastAdopted(Adopt(receipt, cs[0]), cs[1..], stay + |Leaves(receipt, cs[0])|);
    }
  }

  lemma {:induction false} LastOfLastEight(epochs: seq<string>, e: string)
    ensures LastEight(LastEight(epochs) + [e]) == LastEight(epochs + [e])
  {
    var kept := LastEight(epochs);
    if |epochs| > RETIRED_EPOCH_CAP {
      assert epochs + [e] == epochs[..|epochs| - RETIRED_EPOCH_CAP] + (kept + [e]);
      assert (epochs + [e])[|epochs| + 1 - RETIRED_EPOCH_CAP..] == (kept + [e])[1..];
    }
  }

  /** The retired epochs are the last eight that were left. */
  lemma {:induction false} RetiredAreLastEight(receipt: Receipt, cs: seq<Revision>, earlier: seq<string>)
    requires receipt.retired == LastEight(earlier)
    ensures AdoptAll(Some(receipt), cs).Some?
    ensures AdoptAll(Some(receipt), cs).value.retired == LastEight(earlier + LeftEpochs(Some(receipt), cs))
    decreases |cs|
  {
    hide LastEight;
    if cs == [] {
      assert earlier + [] == earlier;
    } else {
      var c := cs[0];
      var next := Adopt(Some(receipt), c).value;
      var left := Leaves(Some(receipt), c);
      if left != [] {
        LastOfLastEight(earlier, receipt.current.epoch);
      } else {
        assert earlier + left == earlier;
      }
      RetiredAreLastEight(next, cs[1..], earlier + left);
      assert earlier + left + LeftEpochs(Some(next), cs[1..]) == earlier + LeftEpochs(Some(receipt), cs);
    }
  }

  /** An epoch that was left is refused until eight further epochs have been left. */
  lemma {:induction false} LeftEpochIsRefused(receipt: Receipt, cs: seq<Revision>, earlier: seq<string>, i: nat, c: Revision)
    requires receipt.retired == LastEight(earlier)
    requires var left := earlier + LeftEpochs(Some(receipt), cs);
             i < |left| && left[i] == c.epoch && |left| - i <= 8
    ensures Advance(AdoptAll(Some(receipt), cs), c) == None
  {
    hide LastEight, LeftEpochs;
    RetiredAreLastEight(receipt, cs, earlier);
    var left := earlier + LeftEpochs(Some(receipt), cs);
    RecentlyLeft(left, i);
  }

  lemma {:induction false} RecentlyLeft(left: seq<string>, i: nat)
    requires i < |left| && |left| - i <= RETIRED_EPOCH_CAP
    ensures left[i] in LastEight(left)
  {
    var d := if |left| <= RETIRED_EPOCH_CAP then 0 else |left| - RETIRED_EPOCH_CAP;
    assert LastEight(left) == left[d..];
    assert LastEight(left)[i - d] == left[i];
  }

  /** And only until then: once eight further epochs have been left, a new revision of the old epoch is
      adopted again, whatever its number. */
  lemma {:induction false} ForgottenEpochReturns(receipt: Receipt, c: Revision)
    requires c.telegramId == receipt.current.telegramId && c.epoch != receipt.current.epoch
    ensures Advance(Some(receipt), c).Some? <==> c.epoch !in receipt.retired
  {
  }
}
