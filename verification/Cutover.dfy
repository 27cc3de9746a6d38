/** The one-way cutover from local ledgers to the server's ledger, with several tabs that share one storage
    under one lock and may die between any two writes: `src/store/bankStore.ts` with
    `src/store/persistence.ts`. Each storage write is a step of its own. */
module Cutover {
  import opened Wrappers
  import opened Receipt

  /** A server answer: a state with its revision. The digest stands for the state. */
  datatype Candidate<S> = Candidate(state: S, revision: Revision)

  /** The stored snapshot, with a note (for the proofs only) on where it came from. */
  datatype Snapshot<S> = Local(local: S) | FromServer(candidate: Candidate<S>)

  function StateIn<S>(x: Snapshot<S>): S {
    match x
    case Local(s) => s
    case FromServer(c) => c.state
  }

  datatype Mode = LocalMode | ReadOnly | ServerMode

  /** What a tab is doing while it holds the lock. */
  datatype Work<S> =
    | Resting
    | Mutating(base: S)
    | Marked
    | Adopting(candidate: Candidate<S>, next: Receipt)
    | AdoptingMarked(marked: Candidate<S>, nextMarked: Receipt)
    | AdoptingSaved(saved: Candidate<S>, nextSaved: Receipt)

  datatype Tab<S> = Tab(mode: Mode, memory: S, dirty: bool, unconfirmed: bool, approved: bool, captured: Option<S>, work: Work<S>)

  /** The shared storage, the lock, and the tabs. `ledger` and `commits` record what local commits have added
      up to; the program has no such fields. */
  datatype Browser<S> = Browser(
    marker: bool, snapshot: Snapshot<S>, receipt: Option<Receipt>, lock: Option<nat>, tabs: seq<Tab<S>>,
    ledger: S, commits: nat)

  datatype Action<!S> =
    | GoLocal(tab: nat)                                      // the launch names no server
    | Freeze(tab: nat)                                       // the launch asks for an import
    | Approve(tab: nat)                                      // the user accepts the server's copy
    | BeginMutation(tab: nat)
    | CommitMutation(tab: nat, change: S -> S, ok: bool)
    | MarkForImport(tab: nat, ok: bool)
    | Capture(tab: nat)
    | BeginAdoption(tab: nat, answer: Candidate<S>)
    | MarkAdoption(tab: nat, ok: bool)
    | SaveAdoption(tab: nat, ok: bool)
    | SaveReceipt(tab: nat, ok: bool)
    | Refresh(tab: nat)                                      // another tab's write is reported
    | Crash(tab: nat, unconfirmedAgain: bool)

  // ---------------------------------------------------------------- the steps

  function WithTab<S>(b: Browser<S>, i: nat, t: Tab<S>): Browser<S>
    requires i < |b.tabs|
  {
    b.(tabs := b.tabs[i := t])
  }

  function Release<S>(b: Browser<S>, i: nat, t: Tab<S>): Browser<S>
    requires i < |b.tabs|
  {
    b.(tabs := b.tabs[i := t.(work := Resting)], lock := None)
  }

  /** A dirty tab trusts its memory, any other one the storage. */
  function MutationBase<S>(b: Browser<S>, t: Tab<S>): S {
    if t.dirty then t.memory else StateIn(b.snapshot)
  }

  predicate NeedsConfirmation<S(==)>(b: Browser<S>, t: Tab<S>, c: Candidate<S>) {
    b.receipt.None? && t.unconfirmed && !t.approved && t.memory != c.state
  }

  /** The start of a local mutation looks at the mode and at the marker once the lock is held. */
  function MutationBegun<S>(b: Browser<S>, i: nat): Browser<S>
    requires i < |b.tabs|
  {
    var t := b.tabs[i];
    if b.lock.Some? || !t.work.Resting? then b
    else if t.mode != LocalMode || b.marker then
      WithTab(b, i, t.(mode := if t.mode.LocalMode? then ReadOnly else t.mode))
    else WithTab(b, i, t.(work := Mutating(MutationBase(b, t)))).(lock := Some(i))
  }

  function MutationCommitted<S>(b: Browser<S>, i: nat, change: S -> S, ok: bool): Browser<S>
    requires i < |b.tabs|
  {
    var t := b.tabs[i];
    if b.lock != Some(i) || !t.work.Mutating? then b
    else
      var next := change(t.work.base);
      var after := Release(b, i, t.(memory := next, dirty := !ok));
      after.(snapshot := if ok then Local(next) else b.snapshot, ledger := change(b.ledger), commits := b.commits + 1)
  }

  /** The marker is written before the snapshot for the import is read. */
  function MarkedForImport<S>(b: Browser<S>, i: nat, ok: bool): Browser<S>
    requires i < |b.tabs|
  {
    var t := b.tabs[i];
    if b.lock.Some? || !t.work.Resting? || !ok then b
    else WithTab(b, i, t.(work := Marked)).(lock := Some(i), marker := true)
  }

  function SnapshotCaptured<S>(b: Browser<S>, i: nat): Browser<S>
    requires i < |b.tabs|
  {
    var t := b.tabs[i];
    if b.lock != Some(i) || !t.work.Marked? then b
    else
      var latest := MutationBase(b, t);
      Release(b, i, t.(memory := latest, captured := Some(latest)))
  }

  function AdoptionBegun<S(==)>(b: Browser<S>, i: nat, c: Candidate<S>): Browser<S>
    requires i < |b.tabs|
  {
    var t := b.tabs[i];
    if b.lock.Some? || !t.work.Resting? then b
    else if Advance(b.receipt, c.revision).None? then
      WithTab(b, i, t.(mode := if Classify(b.receipt, c.revision) in {WrongUser, DigestConflict} then ReadOnly else t.mode))
    else if NeedsConfirmation(b, t, c) then WithTab(b, i, t.(mode := ReadOnly))
    else WithTab(b, i, t.(work := Adopting(c, Advance(b.receipt, c.revision).value))).(lock := Some(i))
  }

  /** The three writes of an adoption: the marker, the snapshot, the receipt. */
  function AdoptionMarked<S>(b: Browser<S>, i: nat, ok: bool): Browser<S>
    requires i < |b.tabs|
  {
    var t := b.tabs[i];
    if b.lock != Some(i) || !t.work.Adopting? then b
    else if !ok then Release(b, i, t.(mode := ReadOnly))
    else WithTab(b, i, t.(work := AdoptingMarked(t.work.candidate, t.work.next))).(marker := true)
  }

  function AdoptionSaved<S>(b: Browser<S>, i: nat, ok: bool): Browser<S>
    requires i < |b.tabs|
  {
    var t := b.tabs[i];
    if b.lock != Some(i) || !t.work.AdoptingMarked? then b
    else
      var c, r := t.work.marked, t.work.nextMarked;
      if !ok then Release(b, i, t.(mode := ReadOnly, memory := c.state, dirty := true))
      else WithTab(b, i, t.(memory := c.state, dirty := false, work := AdoptingSaved(c, r))).(snapshot := FromServer(c))
  }

  function ReceiptSaved<S>(b: Browser<S>, i: nat, ok: bool): Browser<S>
    requires i < |b.tabs|
  {
    var t := b.tabs[i];
    if b.lock != Some(i) || !t.work.AdoptingSaved? then b
    else if !ok then Release(b, i, t.(mode := ReadOnly))
    else Release(b, i, t.(mode := ServerMode, unconfirmed := false, approved := false)).(receipt := Some(t.work.nextSaved))
  }

  /** A report of a write by another tab makes an idle local tab read the storage again; it may come late. */
  function Refreshed<S>(b: Browser<S>, i: nat): Browser<S>
    requires i < |b.tabs|
  {
    var t := b.tabs[i];
    if t.mode.LocalMode? && !t.dirty && t.work.Resting? then WithTab(b, i, t.(memory := StateIn(b.snapshot))) else b
  }

  /** The tab is reloaded from the storage; a lock it held is free again. */
  function Crashed<S>(b: Browser<S>, i: nat, unconfirmedAgain: bool): Browser<S>
    requires i < |b.tabs|
  {
    var reloaded := Tab(ReadOnly, StateIn(b.snapshot), false, unconfirmedAgain && b.receipt.None?, false, None, Resting);
    WithTab(b, i, reloaded).(lock := if b.lock == Some(i) then None else b.lock)
  }

  function Step<S(==)>(b: Browser<S>, a: Action<S>): Browser<S> {
    if a.tab >= |b.tabs| then b
    else
      var i, t := a.tab, b.tabs[a.tab];
      match a
      case GoLocal(_) => WithTab(b, i, t.(mode := if b.marker then ReadOnly else LocalMode))
      case Freeze(_) => WithTab(b, i, t.(mode := ReadOnly))
      case Approve(_) => WithTab(b, i, t.(approved := t.unconfirmed))
      case BeginMutation(_) => MutationBegun(b, i)
      case CommitMutation(_, change, ok) => MutationCommitted(b, i, change, ok)
      case MarkForImport(_, ok) => MarkedForImport(b, i, ok)
      case Capture(_) => SnapshotCaptured(b, i)
      case BeginAdoption(_, c) => AdoptionBegun(b, i, c)
      case MarkAdoption(_, ok) => AdoptionMarked(b, i, ok)
      case SaveAdoption(_, ok) => AdoptionSaved(b, i, ok)
      case SaveReceipt(_, ok) => ReceiptSaved(b, i, ok)
      case Refresh(_) => Refreshed(b, i)
      case Crash(_, unconfirmedAgain) => Crashed(b, i, unconfirmedAgain)
  }

  function Run<S(==)>(b: Browser<S>, actions: seq<Action<S>>): Browser<S>
    decreases |actions|
  {
    if actions == [] then b else Run(Step(b, actions[0]), actions[1..])
  }

  /** No server answer has been adopted, no lock is held, and the tabs agree with the storage. */
  ghost predicate IsInitial<S>(b: Browser<S>) {
    && !b.marker && b.receipt.None? && b.lock.None? && b.commits == 0
    && b.snapshot == Local(b.ledger)
    && forall i :: 0 <= i < |b.tabs| ==> b.tabs[i].work.Resting? && !b.tabs[i].dirty && b.tabs[i].captured.None?
  }

  // ---------------------------------------------------------------- the lock

  ghost predicate Exclusive<S>(b: Browser<S>) {
    forall i :: 0 <= i < |b.tabs| && !b.tabs[i].work.Resting? ==> b.lock == Some(i)
  }

  /** What the holder of the lock knows about the storage. */
  ghost predicate WorkSound<S>(b: Browser<S>, w: Work<S>) {
    match w
    case Resting => true
    case Mutating(base) => !b.marker
    case Marked => b.marker
    case Adopting(c, next) => Advance(b.receipt, c.revision) == Some(next)
    case AdoptingMarked(c, next) => b.marker && Advance(b.receipt, c.revision) == Some(next)
    case AdoptingSaved(c, next) =>
      b.marker && Advance(b.receipt, c.revision) == Some(next) && b.snapshot == FromServer(c)
  }

  /** The stored snapshot is the revision of the receipt, or one that the receipt accepts as later. */
  ghost predicate SnapshotNotBehind<S>(b: Browser<S>) {
    b.receipt.Some? ==> b.snapshot.FromServer? && Advance(b.receipt, b.snapshot.candidate.revision).Some?
  }

  ghost predicate CutoverSound<S>(b: Browser<S>) {
    && Exclusive(b)
    && (forall i :: 0 <= i < |b.tabs| ==> WorkSound(b, b.tabs[i].work))
    && (b.receipt.Some? ==> b.marker)
    && (b.snapshot.FromServer? ==> b.marker)
    && SnapshotNotBehind(b)
  }

  lemma {:induction false} InitialIsSound<S>(b: Browser<S>)
    requires IsInitial(b)
    ensures CutoverSound(b)
  {
  }

  /** A receipt accepts its own revision again. */
  lemma {:induction false} ReceiptAcceptsItself(receipt: Option<Receipt>, c: Revision)
    requires Advance(receipt, c).Some?
    ensures Advance(Advance(receipt, c), c).Some?
  {
    if Classify(receipt, c).Newer? {
      RetiringSparesNew(receipt, c);
    }
  }

  lemma {:induction false} RetiringSparesNew(receipt: Option<Receipt>, c: Revision)
    requires Classify(receipt, c).Newer?
    ensures c.epoch !in Retiring(receipt, c)
  {
    if receipt.Some? && receipt.value.current.epoch != c.epoch {
      var all := receipt.value.retired + [receipt.value.current.epoch];
      forall k | 0 <= k < |LastEight(all)|
        ensures LastEight(all)[k] != c.epoch
      {
        var d := if |all| <= RETIRED_EPOCH_CAP then 0 else |all| - RETIRED_EPOCH_CAP;
        assert LastEight(all)[k] == all[d + k];
      }
    }
  }

  ghost predicate StorageSound<S>(b: Browser<S>) {
    && (b.receipt.Some? ==> b.marker)
    && (b.snapshot.FromServer? ==> b.marker)
    && SnapshotNotBehind(b)
  }

  /** The holder of the lock acts alone: every other tab rests. */
  lemma {:induction false} HolderActs<S>(b: Browser<S>, after: Browser<S>, i: nat)
    requires CutoverSound(b) && i < |b.tabs| && (b.lock.None? || b.lock == Some(i))
    requires |after.tabs| == |b.tabs| && after.tabs == b.tabs[i := after.tabs[i]]
    requires after.tabs[i].work.Resting? || after.lock == Some(i)
    requires WorkSound(after, after.tabs[i].work) && StorageSound(after)
    ensures CutoverSound(after)
  {
    hide Advance, SnapshotNotBehind;
    forall j | 0 <= j < |b.tabs| && j != i
      ensures after.tabs[j].work.Resting?
    {
    }
  }

  /** Steps outside the lock change one tab that does not work, or only settings of it. */
  lemma {:induction false} BystanderActs<S>(b: Browser<S>, after: Browser<S>, i: nat)
    requires CutoverSound(b) && i < |b.tabs|
    requires |after.tabs| == |b.tabs| && after.tabs == b.tabs[i := after.tabs[i]]
    requires after.tabs[i].work == b.tabs[i].work || after.tabs[i].work.Resting?
    requires after.lock == b.lock || (b.lock == Some(i) && after.tabs[i].work.Resting?)
    requires after.marker == b.marker && after.snapshot == b.snapshot && after.receipt == b.receipt
    ensures CutoverSound(after)
  {
    hide Advance;
    forall j | 0 <= j < |b.tabs|
      ensures WorkSound(after, after.tabs[j].work)
    {
      assert WorkSound(b, b.tabs[j].work);
    }
  }

  lemma {:induction false} LocalStepKeepsSound<S>(b: Browser<S>, a: Action<S>)
    requires CutoverSound(b) && a.tab < |b.tabs|
    requires a.GoLocal? || a.Freeze? || a.Approve? || a.BeginMutation? || a.CommitMutation? || a.MarkForImport? || a.Capture?
             || a.Refresh? || a.Crash?
    ensures CutoverSound(Step(b, a))
  {
    hide Advance, Classify, CutoverSound;
    var i := a.tab;
    assert StorageSound(b) && WorkSound(b, b.tabs[i].work) by { SoundParts(b, i); }
    hide SnapshotNotBehind;
    match a
    case GoLocal(_) => BystanderActs(b, Step(b, a), i);
    case Freeze(_) => BystanderActs(b, Step(b, a), i);
    case Approve(_) => BystanderActs(b, Step(b, a), i);
    case Refresh(_) => BystanderActs(b, Step(b, a), i);
    case Crash(_, again) => BystanderActs(b, Step(b, a), i);
    case BeginMutation(_) =>
      if b.lock.None? && b.tabs[i].work.Resting? { HolderActs(b, Step(b, a), i); }
    case CommitMutation(_, change, ok) =>
      if b.lock == Some(i) && b.tabs[i].work.Mutating? {
        assert SnapshotNotBehind(Step(b, a)) by { NoReceiptYet(Step(b, a)); }
        HolderActs(b, Step(b, a), i);
      }
    case MarkForImport(_, ok) =>
      if b.lock.None? && b.tabs[i].work.Resting? {
        SameSnapshot(b, Step(b, a));
        HolderActs(b, Step(b, a), i);
      }
    case Capture(_) =>
      if b.lock == Some(i) && b.tabs[i].work.Marked? {
        SameSnapshot(b, Step(b, a));
        HolderActs(b, Step(b, a), i);
      }
  }

  lemma {:induction false} SoundParts<S>(b: Browser<S>, i: nat)
    requires CutoverSound(b) && i < |b.tabs|
    ensures StorageSound(b) && WorkSound(b, b.tabs[i].work)
  {
    hide Advance;
  }

  lemma {:induction false} NoReceiptYet<S>(b: Browser<S>)
    requires b.receipt.None?
    ensures SnapshotNotBehind(b)
  {
  }

  lemma {:induction false} SameSnapshot<S>(b: Browser<S>, after: Browser<S>)
    requires after.snapshot == b.snapshot && after.receipt == b.receipt
    ensures SnapshotNotBehind(after) == SnapshotNotBehind(b)
  {
    hide Advance;
  }

  lemma {:induction false} AdoptionKeepsSound<S>(b: Browser<S>, a: Action<S>)
    requires CutoverSound(b) && a.tab < |b.tabs|
    requires a.BeginAdoption? || a.MarkAdoption? || a.SaveAdoption? || a.SaveReceipt?
    ensures CutoverSound(Step(b, a))
  {
    hide Advance, Classify, CutoverSound;
    var i := a.tab;
    assert StorageSound(b) && WorkSound(b, b.tabs[i].work) by { SoundParts(b, i); }
    match a
    case BeginAdoption(_, c) =>
      if b.lock.None? && b.tabs[i].work.Resting? { HolderActs(b, Step(b, a), i); }
    case MarkAdoption(_, ok) =>
      if b.lock == Some(i) && b.tabs[i].work.Adopting? { HolderActs(b, Step(b, a), i); }
    case SaveAdoption(_, ok) =>
      if b.lock == Some(i) && b.tabs[i].work.AdoptingMarked? { HolderActs(b, Step(b, a), i); }
    case SaveReceipt(_, ok) =>
      if b.lock == Some(i) && b.tabs[i].work.AdoptingSaved? {
        ReceiptAcceptsItself(b.receipt, b.tabs[i].work.saved.revision);
        HolderActs(b, Step(b, a), i);
      }
  }

  lemma {:induction false} StepKeepsSound<S>(b: Browser<S>, a: Action<S>)
    requires CutoverSound(b)
    ensures CutoverSound(Step(b, a))
  {
    hide CutoverSound, Step;
    if a.tab >= |b.tabs| {
      assert Step(b, a) == b by { NoSuchTab(b, a); }
    } else if a.BeginAdoption? || a.MarkAdoption? || a.SaveAdoption? || a.SaveReceipt? {
      AdoptionKeepsSound(b, a);
    } else {
      LocalStepKeepsSound(b, a);
    }
  }

  lemma {:induction false} NoSuchTab<S>(b: Browser<S>, a: Action<S>)
    requires a.tab >= |b.tabs|
    ensures Step(b, a) == b
  {
  }

  /** At every point of every run, crashes included, the stored snapshot is not behind the receipt. */
  lemma {:induction false} RunKeepsSound<S>(b: Browser<S>, actions: seq<Action<S>>)
    requires CutoverSound(b)
    ensures CutoverSound(Run(b, actions)) && SnapshotNotBehind(Run(b, actions))
    decreases |actions|
  {
    hide Step;
    if actions != [] {
      StepKeepsSound(b, actions[0]);
      RunKeepsSound(Step(b, actions[0]), actions[1..]);
    }
  }

  // ---------------------------------------------------------------- no way back

  lemma {:induction false} MarkerStopsCommits<S>(b: Browser<S>, a: Action<S>)
    requires CutoverSound(b) && b.marker
    ensures Step(b, a).marker && Step(b, a).commits == b.commits && Step(b, a).ledger == b.ledger
  {
    hide Advance, Classify;
    if a.tab < |b.tabs| {
      assert WorkSound(b, b.tabs[a.tab].work);
    }
  }

  /** Once the marker is set it stays, and no local mutation commits in any tab ever after. */
  lemma {:induction false} NoCommitAfterMarker<S>(b: Browser<S>, actions: seq<Action<S>>)
    requires CutoverSound(b) && b.marker
    ensures Run(b, actions).marker && Run(b, actions).commits == b.commits && Run(b, actions).ledger == b.ledger
    decreases |actions|
  {
    hide Step, CutoverSound;
    if actions != [] {
      StepKeepsSound(b, actions[0]);
      MarkerStopsCommits(b, actions[0]);
      NoCommitAfterMarker(Step(b, actions[0]), actions[1..]);
    }
  }

  // ---------------------------------------------------------------- nothing is lost on the way

  /** Every write of a snapshot succeeds. */
  predicate IsReliable<S>(a: Action<S>) {
    (a.CommitMutation? || a.SaveAdoption?) ==> a.ok
  }

  /** The tab holds no commit that the storage lacks, and what it captured for the import is complete, unless
      a server answer had been stored before. */
  ghost predicate TabLosesNothing<S>(b: Browser<S>, t: Tab<S>) {
    && !t.dirty
    && (t.work.Mutating? ==> t.work.base == b.ledger)
    && (t.captured.Some? ==> b.marker && (t.captured == Some(b.ledger) || b.snapshot.FromServer?))
  }

  /** Until a server answer is stored, the storage holds all local commits. */
  ghost predicate NothingLost<S>(b: Browser<S>) {
    && (forall i :: 0 <= i < |b.tabs| ==> TabLosesNothing(b, b.tabs[i]))
    && (b.snapshot.Local? ==> b.snapshot == Local(b.ledger))
  }

  lemma {:induction false} OneTabLosesNothing<S>(b: Browser<S>, after: Browser<S>, i: nat)
    requires NothingLost(b) && i < |b.tabs| && |after.tabs| == |b.tabs| && after.tabs == b.tabs[i := after.tabs[i]]
    requires after.ledger == b.ledger && (b.marker ==> after.marker)
    requires after.snapshot == b.snapshot || after.snapshot.FromServer?
    requires TabLosesNothing(after, after.tabs[i])
    ensures NothingLost(after)
  {
    forall j | 0 <= j < |b.tabs|
      ensures TabLosesNothing(after, after.tabs[j])
    {
      assert TabLosesNothing(b, b.tabs[j]);
    }
  }

  lemma {:induction false} CommitLosesNothing<S>(b: Browser<S>, i: nat, change: S -> S)
    requires CutoverSound(b) && NothingLost(b) && i < |b.tabs|
    ensures NothingLost(MutationCommitted(b, i, change, true))
  {
    hide Advance, SnapshotNotBehind;
    if b.lock == Some(i) && b.tabs[i].work.Mutating? {
      assert WorkSound(b, b.tabs[i].work);
      var after := MutationCommitted(b, i, change, true);
      forall j | 0 <= j < |b.tabs|
        ensures TabLosesNothing(after, after.tabs[j])
      {
        assert TabLosesNothing(b, b.tabs[j]) && TabLosesNothing(b, b.tabs[i]);
      }
    }
  }

  lemma {:induction false} CaptureIsComplete<S>(b: Browser<S>, i: nat)
    requires CutoverSound(b) && NothingLost(b) && i < |b.tabs|
    ensures NothingLost(SnapshotCaptured(b, i))
  {
    hide Advance, SnapshotNotBehind;
    if b.lock == Some(i) && b.tabs[i].work.Marked? {
      assert WorkSound(b, b.tabs[i].work) && TabLosesNothing(b, b.tabs[i]);
      OneTabLosesNothing(b, SnapshotCaptured(b, i), i);
    }
  }

  lemma {:induction false} BeginLosesNothing<S>(b: Browser<S>, i: nat)
    requires CutoverSound(b) && NothingLost(b) && i < |b.tabs|
    ensures NothingLost(MutationBegun(b, i))
  {
    hide Advance, SnapshotNotBehind;
    assert TabLosesNothing(b, b.tabs[i]);
    OneTabLosesNothing(b, MutationBegun(b, i), i);
  }

  lemma {:induction false} StepLosesNothing<S>(b: Browser<S>, a: Action<S>)
    requires CutoverSound(b) && NothingLost(b) && IsReliable(a)
    ensures NothingLost(Step(b, a))
  {
    hide Advance, Classify, CutoverSound, NeedsConfirmation, NothingLost, MutationBegun, SnapshotCaptured, MutationCommitted;
    if a.tab < |b.tabs| {
      var i := a.tab;
      assert TabLosesNothing(b, b.tabs[i]) by { TabOf(b, i); }
      match a
      case CommitMutation(_, change, ok) => CommitLosesNothing(b, i, change);
      case Capture(_) => CaptureIsComplete(b, i);
      case BeginMutation(_) => BeginLosesNothing(b, i);
      case _ => if Step(b, a) != b { OneTabLosesNothing(b, Step(b, a), i); }
    }
  }

  lemma {:induction false} TabOf<S>(b: Browser<S>, i: nat)
    requires NothingLost(b) && i < |b.tabs|
    ensures TabLosesNothing(b, b.tabs[i])
  {
  }

  lemma {:induction false} RunLosesNothing<S>(b: Browser<S>, actions: seq<Action<S>>)
    requires CutoverSound(b) && NothingLost(b) && forall k :: 0 <= k < |actions| ==> IsReliable(actions[k])
    ensures NothingLost(Run(b, actions))
    decreases |actions|
  {
    hide Step, CutoverSound, NothingLost, IsReliable;
    if actions != [] {
      StepKeepsSound(b, actions[0]);
      StepLosesNothing(b, actions[0]);
      RunLosesNothing(Step(b, actions[0]), actions[1..]);
    }
  }

  /** The snapshot that a tab captures of the local ledger contains every local commit of every tab: those
      made before, and whatever happens afterwards, adoption included, there are none after. */
  lemma {:induction false} ImportHasEveryCommit<S>(b: Browser<S>, actions: seq<Action<S>>, more: seq<Action<S>>, i: nat)
    requires IsInitial(b) && forall k :: 0 <= k < |actions| ==> IsReliable(actions[k])
    requires i < |Run(b, actions).tabs| && Run(b, actions).tabs[i].captured.Some? && Run(b, actions).snapshot.Local?
    ensures var r := Run(b, actions);
            r.tabs[i].captured == Some(Run(r, more).ledger) && Run(r, more).commits == r.commits
  {
    hide Step, Run, CutoverSound;
    InitialIsSound(b);
    InitialLosesNothing(b);
    RunKeepsSound(b, actions);
    RunLosesNothing(b, actions);
    assert TabLosesNothing(Run(b, actions), Run(b, actions).tabs[i]);
    NoCommitAfterMarker(Run(b, actions), more);
  }

  lemma {:induction false} InitialLosesNothing<S>(b: Browser<S>)
    requires IsInitial(b)
    ensures NothingLost(b)
  {
  }

  // ---------------------------------------------------------------- the user is asked

  /** An adoption under way was confirmed, or needed no confirmation. */
  ghost predicate Confirmed<S>(b: Browser<S>, t: Tab<S>) {
    && (t.work.Adopting? ==> !NeedsConfirmation(b, t, t.work.candidate))
    && (t.work.AdoptingMarked? ==> !NeedsConfirmation(b, t, t.work.marked))
  }

  ghost predicate AllConfirmed<S>(b: Browser<S>) {
    forall i :: 0 <= i < |b.tabs| ==> Confirmed(b, b.tabs[i])
  }

  lemma {:induction false} OneTabConfirmed<S>(b: Browser<S>, after: Browser<S>, i: nat)
    requires AllConfirmed(b) && i < |b.tabs| && |after.tabs| == |b.tabs| && after.tabs == b.tabs[i := after.tabs[i]]
    requires after.receipt == b.receipt || after.receipt.Some?
    requires Confirmed(after, after.tabs[i])
    ensures AllConfirmed(after)
  {
    forall j | 0 <= j < |b.tabs|
      ensures Confirmed(after, after.tabs[j])
    {
      assert Confirmed(b, b.tabs[j]);
    }
  }

  lemma {:induction false} StepKeepsConfirmed<S>(b: Browser<S>, a: Action<S>)
    requires AllConfirmed(b)
    ensures AllConfirmed(Step(b, a))
  {
    hide Advance, Classify, AllConfirmed;
    if a.tab < |b.tabs| {
      assert Confirmed(b, b.tabs[a.tab]) by { ConfirmedTab(b, a.tab); }
      OneTabConfirmed(b, Step(b, a), a.tab);
    }
  }

  lemma {:induction false} ConfirmedTab<S>(b: Browser<S>, i: nat)
    requires AllConfirmed(b) && i < |b.tabs|
    ensures Confirmed(b, b.tabs[i])
  {
  }

  lemma {:induction false} RunKeepsConfirmed<S>(b: Browser<S>, actions: seq<Action<S>>)
    requires AllConfirmed(b)
    ensures AllConfirmed(Run(b, actions))
    decreases |actions|
  {
    hide Step, AllConfirmed;
    if actions != [] {
      StepKeepsConfirmed(b, actions[0]);
      RunKeepsConfirmed(Step(b, actions[0]), actions[1..]);
    }
  }

  /** In every run, the write that replaces the stored snapshot by a different server copy comes from a tab that
      found a receipt, has no snapshot to confirm, or has the approval of the user, or whose own memory is that
      copy. */
  lemma {:induction false} NoUnconfirmedReplacement<S>(b: Browser<S>, actions: seq<Action<S>>, a: Action<S>)
    requires IsInitial(b)
    requires var r := Run(b, actions); Step(r, a).snapshot.FromServer? && Step(r, a).snapshot != r.snapshot
    ensures var r := Run(b, actions);
            && a.SaveAdoption? && a.tab < |r.tabs|
            && var t := r.tabs[a.tab];
            r.receipt.Some? || !t.unconfirmed || t.approved || t.memory == StateIn(Step(r, a).snapshot)
  {
    hide Run, Advance, Classify, AllConfirmed;
    assert AllConfirmed(b) by { InitialIsConfirmed(b); }
    RunKeepsConfirmed(b, actions);
    var r := Run(b, actions);
    if a.tab < |r.tabs| {
      ConfirmedTab(r, a.tab);
    }
  }

  lemma {:induction false} InitialIsConfirmed<S>(b: Browser<S>)
    requires IsInitial(b)
    ensures AllConfirmed(b)
  {
  }

  /** The condition is exact: an acceptable answer replaces the stored snapshot if it holds when the tab begins,
      and otherwise leaves it alone. */
  lemma {:induction false} AdoptionNeedsConsent<S>(b: Browser<S>, i: nat, c: Candidate<S>)
    requires i < |b.tabs| && b.lock.None? && b.tabs[i].work.Resting? && Advance(b.receipt, c.revision).Some?
    ensures var t := b.tabs[i];
            Run(b, [BeginAdoption(i, c), MarkAdoption(i, true), SaveAdoption(i, true)]).snapshot
            == if b.receipt.Some? || !t.unconfirmed || t.approved || t.memory == c.state then FromServer(c) else b.snapshot
  {
    hide Advance, Classify;
    var begun := Step(b, BeginAdoption(i, c));
    var marked := Step(begun, MarkAdoption(i, true));
    ThreeSteps(b, BeginAdoption(i, c), MarkAdoption(i, true), SaveAdoption(i, true));
  }

  /** An accepted answer that may be adopted is adopted to the end: snapshot, receipt, marker and mode are the
      server's, and the lock is free again. */
  lemma {:induction false} AdoptionCompletes<S>(b: Browser<S>, i: nat, c: Candidate<S>)
    requires i < |b.tabs| && b.lock.None? && b.tabs[i].work.Resting?
    requires Advance(b.receipt, c.revision).Some? && !NeedsConfirmation(b, b.tabs[i], c)
    ensures var r := Run(b, [BeginAdoption(i, c), MarkAdoption(i, true), SaveAdoption(i, true), SaveReceipt(i, true)]);
            var t := b.tabs[i];
            r == b.(marker := true, snapshot := FromServer(c), receipt := Advance(b.receipt, c.revision),
                    tabs := b.tabs[i := Tab(ServerMode, c.state, false, false, false, t.captured, Resting)])
  {
    hide Advance, Classify, Run;
    ThreeSteps(b, BeginAdoption(i, c), MarkAdoption(i, true), SaveAdoption(i, true));
    RunTwice(b, [BeginAdoption(i, c), MarkAdoption(i, true), SaveAdoption(i, true)], [SaveReceipt(i, true)]);
    var saved := Run(b, [BeginAdoption(i, c), MarkAdoption(i, true), SaveAdoption(i, true)]);
    OneStep(saved, SaveReceipt(i, true));
    assert [BeginAdoption(i, c), MarkAdoption(i, true), SaveAdoption(i, true)] + [SaveReceipt(i, true)]
        == [BeginAdoption(i, c), MarkAdoption(i, true), SaveAdoption(i, true), SaveReceipt(i, true)];
    var t := b.tabs[i];
    var next := Advance(b.receipt, c.revision).value;
    var begun := Step(b, BeginAdoption(i, c));
    assert begun == b.(lock := Some(i), tabs := b.tabs[i := t.(work := Adopting(c, next))]);
    var marked := Step(begun, MarkAdoption(i, true));
    assert marked == b.(lock := Some(i), marker := true, tabs := b.tabs[i := t.(work := AdoptingMarked(c, next))]);
    assert saved == b.(lock := Some(i), marker := true, snapshot := FromServer(c),
                       tabs := b.tabs[i := t.(memory := c.state, dirty := false, work := AdoptingSaved(c, next))]);
  }

  /** A local mutation commits on the latest state exactly when its tab is in local mode and the marker is not
      set; otherwise storage and commits stay. */
  lemma {:induction false} MutationCommitsExactly<S>(b: Browser<S>, i: nat, change: S -> S)
    requires i < |b.tabs| && b.lock.None? && b.tabs[i].work.Resting?
    ensures var r := Run(b, [BeginMutation(i), CommitMutation(i, change, true)]);
            var t := b.tabs[i];
            var next := change(if t.dirty then t.memory else StateIn(b.snapshot));
            if t.mode.LocalMode? && !b.marker
            then r == b.(snapshot := Local(next), ledger := change(b.ledger), commits := b.commits + 1,
                         tabs := b.tabs[i := t.(memory := next, dirty := false)])
            else r.snapshot == b.snapshot && r.ledger == b.ledger && r.commits == b.commits && r.lock.None?
  {
    hide Run;
    TwoSteps(b, BeginMutation(i), CommitMutation(i, change, true));
    var t := b.tabs[i];
    if t.mode.LocalMode? && !b.marker {
      var base := if t.dirty then t.memory else StateIn(b.snapshot);
      assert Step(b, BeginMutation(i)) == b.(lock := Some(i), tabs := b.tabs[i := t.(work := Mutating(base))]);
    }
  }

  /** An import sets the marker first and then captures the latest state. */
  lemma {:induction false} ImportCaptures<S>(b: Browser<S>, i: nat)
    requires i < |b.tabs| && b.lock.None? && b.tabs[i].work.Resting?
    ensures var t := b.tabs[i];
            var latest := if t.dirty then t.memory else StateIn(b.snapshot);
            Run(b, [MarkForImport(i, true), Capture(i)])
            == b.(marker := true, tabs := b.tabs[i := t.(memory := latest, captured := Some(latest))])
  {
    hide Run;
    TwoSteps(b, MarkForImport(i, true), Capture(i));
    var t := b.tabs[i];
    assert Step(b, MarkForImport(i, true)) == b.(lock := Some(i), marker := true, tabs := b.tabs[i := t.(work := Marked)]);
  }

  /** A refused answer changes nothing but the mode: another user's answer, another content under a known
      revision, and an answer that the user is to confirm first make the tab read-only. */
  lemma {:induction false} RefusedAnswerChangesMode<S>(b: Browser<S>, i: nat, c: Candidate<S>)
    requires i < |b.tabs| && b.lock.None? && b.tabs[i].work.Resting?
    ensures var t, decision := b.tabs[i], Classify(b.receipt, c.revision);
            var unasked := b.receipt.None? && t.unconfirmed && !t.approved && t.memory != c.state;
            && (Advance(b.receipt, c.revision).None? ==>
                  var mode := if decision.WrongUser? || decision.DigestConflict? then ReadOnly else t.mode;
                  Step(b, BeginAdoption(i, c)) == b.(tabs := b.tabs[i := t.(mode := mode)]))
            && (Advance(b.receipt, c.revision).Some? && unasked ==>
                  Step(b, BeginAdoption(i, c)) == b.(tabs := b.tabs[i := t.(mode := ReadOnly)]))
  {
    hide Advance, Classify;
  }

  /** A mutation whose write fails lives in the memory of its tab alone, which is marked as ahead of the storage. */
  lemma {:induction false} FailedMutationStaysInMemory<S>(b: Browser<S>, i: nat, change: S -> S)
    requires i < |b.tabs| && b.lock.None? && b.tabs[i].work.Resting? && b.tabs[i].mode.LocalMode? && !b.marker
    ensures var r := Run(b, [BeginMutation(i), CommitMutation(i, change, false)]);
            var t := b.tabs[i];
            var next := change(if t.dirty then t.memory else StateIn(b.snapshot));
            r == b.(ledger := change(b.ledger), commits := b.commits + 1, tabs := b.tabs[i := t.(memory := next, dirty := true)])
  {
    hide Run;
    TwoSteps(b, BeginMutation(i), CommitMutation(i, change, false));
    var t := b.tabs[i];
    var base := if t.dirty then t.memory else StateIn(b.snapshot);
    assert Step(b, BeginMutation(i)) == b.(lock := Some(i), tabs := b.tabs[i := t.(work := Mutating(base))]);
  }

  /** An adoption whose write fails ends in a read-only tab with a free lock: without the marker nothing is
      stored, without the snapshot the answer is in memory alone, without the receipt only the receipt is missing. */
  lemma {:induction false} FailedAdoptionIsReadOnly<S>(b: Browser<S>, i: nat, c: Candidate<S>, next: Receipt)
    requires i < |b.tabs| && b.lock == Some(i)
    ensures var t := b.tabs[i];
            && (t.work == Adopting(c, next) ==>
                  Step(b, MarkAdoption(i, false)) == b.(lock := None, tabs := b.tabs[i := t.(mode := ReadOnly, work := Resting)]))
            && (t.work == AdoptingMarked(c, next) ==>
                  Step(b, SaveAdoption(i, false))
                  == b.(lock := None, tabs := b.tabs[i := t.(mode := ReadOnly, memory := c.state, dirty := true, work := Resting)]))
            && (t.work == AdoptingSaved(c, next) ==>
                  Step(b, SaveReceipt(i, false)) == b.(lock := None, tabs := b.tabs[i := t.(mode := ReadOnly, work := Resting)]))
  {
  }

  /** A launch without a server makes a tab local only while the marker is not set; the user approves only what is
      to be confirmed; a late report brings an idle local tab up to date; a reload starts from the storage,
      read-only, and frees the lock it held. */
  lemma {:induction false} SettingsOfTab<S>(b: Browser<S>, i: nat, again: bool)
    requires i < |b.tabs|
    ensures var t := b.tabs[i];
            && Step(b, GoLocal(i)) == b.(tabs := b.tabs[i := t.(mode := if b.marker then ReadOnly else LocalMode)])
            && Step(b, Freeze(i)) == b.(tabs := b.tabs[i := t.(mode := ReadOnly)])
            && Step(b, Approve(i)) == b.(tabs := b.tabs[i := t.(approved := t.unconfirmed)])
            && Step(b, Refresh(i)) == (if t.mode.LocalMode? && !t.dirty && t.work.Resting?
                                       then b.(tabs := b.tabs[i := t.(memory := StateIn(b.snapshot))]) else b)
            && Step(b, Crash(i, again))
               == b.(lock := if b.lock == Some(i) then None else b.lock,
                     tabs := b.tabs[i := Tab(ReadOnly, StateIn(b.snapshot), false, again && b.receipt.None?, false, None, Resting)])
  {
  }

  lemma {:induction false} OneStep<S>(b: Browser<S>, a: Action<S>)
    ensures Run(b, [a]) == Step(b, a)
  {
    hide Step;
    assert [a][1..] == [];
  }

  lemma {:induction false} ThreeSteps<S>(b: Browser<S>, a1: Action<S>, a2: Action<S>, a3: Action<S>)
    ensures Run(b, [a1, a2, a3]) == Step(Step(Step(b, a1), a2), a3)
  {
    hide Step;
    TwoSteps(Step(b, a1), a2, a3);
    assert [a1, a2, a3][1..] == [a2, a3];
  }

  lemma {:induction false} TwoSteps<S>(b: Browser<S>, a1: Action<S>, a2: Action<S>)
    ensures Run(b, [a1, a2]) == Step(Step(b, a1), a2)
  {
    hide Step;
    assert [a1, a2][1..] == [a2] && [a2][1..] == [];
    assert Run(Step(b, a1), [a2]) == Run(Step(Step(b, a1), a2), []);
  }

  /** The tab's memory is not the storage: when another tab has committed since, a copy that equals the old
      memory replaces the newer snapshot, and nobody was asked. */
  lemma {:induction false} SilentReplacement(change: int -> int, revision: Revision)
    requires change(1) == 2 && Advance(None, revision).Some?
    ensures var idle := Tab(LocalMode, 1, false, true, false, None, Resting);
            var b := Browser(false, Local(1), None, None, [idle, idle], 1, 0);
            var r := Browser(false, Local(2), None, None, [idle.(memory := 2), idle], 2, 1);
            && IsInitial(b) && Run(b, [BeginMutation(0), CommitMutation(0, change, true)]) == r
            && Run(r, [BeginAdoption(1, Candidate(1, revision)), MarkAdoption(1, true), SaveAdoption(1, true)]).snapshot
               == FromServer(Candidate(1, revision))
  {
    hide Advance, Classify, Run;
    var idle := Tab(LocalMode, 1, false, true, false, None, Resting);
    var b := Browser(false, Local(1), None, None, [idle, idle], 1, 0);
    var r := Browser(false, Local(2), None, None, [idle.(memory := 2), idle], 2, 1);
    TwoSteps(b, BeginMutation(0), CommitMutation(0, change, true));
    assert Step(Step(b, BeginMutation(0)), CommitMutation(0, change, true)) == r;
    AdoptionNeedsConsent(r, 1, Candidate(1, revision));
  }

  predicate WritesSnapshot<S>(a: Action<S>) { a.CommitMutation? || a.SaveAdoption? }

  /** The tab's own writes succeed, and no other tab writes. */
  predicate LeavesStorageTo<S>(a: Action<S>, i: nat) {
    if a.tab == i then IsReliable(a) else !WritesSnapshot(a)
  }

  lemma {:induction false} OthersLeaveStorage<S>(b: Browser<S>, a: Action<S>, i: nat)
    requires i < |b.tabs| && a.tab != i && !WritesSnapshot(a)
    ensures i < |Step(b, a).tabs| && Step(b, a).tabs[i] == b.tabs[i] && Step(b, a).snapshot == b.snapshot
  {
    hide Advance, Classify, NeedsConfirmation;
  }

  lemma {:induction false} OwnStepFollows<S>(b: Browser<S>, a: Action<S>)
    requires a.tab < |b.tabs| && b.tabs[a.tab].memory == StateIn(b.snapshot) && IsReliable(a)
    ensures a.tab < |Step(b, a).tabs| && Step(b, a).tabs[a.tab].memory == StateIn(Step(b, a).snapshot)
  {
    hide Advance, Classify, NeedsConfirmation;
  }

  lemma {:induction false} StepFollowsStorage<S>(b: Browser<S>, a: Action<S>, i: nat)
    requires i < |b.tabs| && b.tabs[i].memory == StateIn(b.snapshot) && LeavesStorageTo(a, i)
    ensures i < |Step(b, a).tabs| && Step(b, a).tabs[i].memory == StateIn(Step(b, a).snapshot)
  {
    hide Step, IsReliable;
    if a.tab == i {
      OwnStepFollows(b, a);
    } else {
      OthersLeaveStorage(b, a, i);
    }
  }

  lemma {:induction false} MemoryFollowsStorage<S>(b: Browser<S>, actions: seq<Action<S>>, i: nat)
    requires i < |b.tabs| && b.tabs[i].memory == StateIn(b.snapshot)
    requires forall k :: 0 <= k < |actions| ==> LeavesStorageTo(actions[k], i)
    ensures var r := Run(b, actions); i < |r.tabs| && r.tabs[i].memory == StateIn(r.snapshot)
    decreases |actions|
  {
    hide Step, LeavesStorageTo;
    if actions != [] {
      StepFollowsStorage(b, actions[0], i);
      MemoryFollowsStorage(Step(b, actions[0]), actions[1..], i);
    }
  }

  /** As long as no other tab has written since the tab's memory was the stored snapshot, which a refresh of a
      local tab makes it, an adoption that nobody entitles the tab to replaces the snapshot by the same state. */
  lemma {:induction false} NothingReplacedUnseen<S>(b: Browser<S>, before: seq<Action<S>>, since: seq<Action<S>>, a: Action<S>)
    requires IsInitial(b)
    requires var seen := Run(b, before);
             a.tab < |seen.tabs| && seen.tabs[a.tab].memory == StateIn(seen.snapshot)
    requires forall k :: 0 <= k < |since| ==> LeavesStorageTo(since[k], a.tab)
    requires var r := Run(Run(b, before), since); Step(r, a).snapshot.FromServer? && Step(r, a).snapshot != r.snapshot
    ensures var r := Run(Run(b, before), since);
            && a.tab < |r.tabs|
            && var t := r.tabs[a.tab];
            r.receipt.Some? || !t.unconfirmed || t.approved || StateIn(Step(r, a).snapshot) == StateIn(r.snapshot)
  {
    hide Run, Step, LeavesStorageTo;
    RunTwice(b, before, since);
    NoUnconfirmedReplacement(b, before + since, a);
    MemoryFollowsStorage(Run(b, before), since, a.tab);
  }

  lemma {:induction false} RunTwice<S>(b: Browser<S>, before: seq<Action<S>>, since: seq<Action<S>>)
    ensures Run(b, before + since) == Run(Run(b, before), since)
    decreases |before|
  {
    hide Step;
    if before == [] {
      assert before + since == since;
    } else {
      assert (before + since)[0] == before[0] && (before + since)[1..] == before[1..] + since;
      RunTwice(Step(b, before[0]), before[1..], since);
    }
  }
}
