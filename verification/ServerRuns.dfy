/** The service on top of the repository, `bot/bank-service.ts`: when a served command fails, what a refused
    one leaves, and how the stored ledger of a user develops over any interleaving of calls. */
module ServerRuns {
  import opened Wrappers
  import opened Calendar
  import opened Currency
  import opened BankTypes
  import opened BankValidity
  import opened Recurring
  import opened Growth
  import opened BankCommands
  import opened CommandProofs
  import opened BankDomain
  import opened DomainProofs
  import opened BankService
  import opened ServiceProofs
  import opened OperationLog
  import opened OperationLogProofs
  import opened OperationRuns

  datatype Message = OperationResult(result: StoredOutcome) | MaterializationWarning(warnings: seq<Warning>)

  type Change = StateTransition<BankState, StoredOutcome, Message>
  type BankDb = Db<BankState, StoredOutcome, Message>
  type BankCall = Call<BankState, StoredOutcome, Message>

  function MessageFor(source: Source, outcome: StoredOutcome): Option<Message> {
    if source.FromTelegram? then Some(OperationResult(outcome))
    else if outcome.warnings == [] then None
    else Some(MaterializationWarning(outcome.warnings))
  }

  /** The transition that the service hands to the repository for a command. */
  ghost function CommandChange(c: BankCommand, now: Instant, source: Source): BankState -> Option<Change> {
    (s: BankState) =>
      match CommandTransition(s, c, now)
      case None => None
      case Some(t) => Some(StateTransition(t.state, t.outcome, MessageFor(source, t.outcome)))
  }

  function WarningOutcome(warnings: seq<Warning>): StoredOutcome {
    StoredOutcome(false, warnings, None, None, None)
  }

  /** The transition of a read. */
  ghost function BootstrapChange(now: Instant): BankState -> Option<Change> {
    (s: BankState) =>
      match BootstrapTransition(s, now)
      case None => None
      case Some(due) =>
        Some(StateTransition(due.state, WarningOutcome(due.warnings), MessageFor(FromSystem, WarningOutcome(due.warnings))))
  }

  /** Private chats: the chat of a user is the user. */
  function CommandRequest(user: string, source: Source, operationId: string, hash: string): Request {
    Request(user, source, operationId, hash, Some(user))
  }

  // ---------------------------------------------------------------- when a call fails

  /** A fresh command on an accepted state fails only for lack of room in the log, for the two unacceptable
      commands, or when the revision is used up. */
  lemma {:induction false} ServedCommandFails(db: BankDb, limit: nat, user: string, source: Source, operationId: string, hash: string,
                                              c: BankCommand, now: Instant)
    requires user in db.states && Valid(db.states[user].state, now)
    requires FindOperation(db.operations, OperationKey(user, source, operationId)).None?
    ensures MaterializeBankState(db.states[user].state, now).Some?
    ensures var q := CommandRequest(user, source, operationId, hash);
            var s := db.states[user].state;
            var due := MaterializeBankState(s, now).value.state;
            Execute(db, limit, q, CommandChange(c, now, source)).1.Failed?
            <==> || CountEvictable(db.operations, db.outbox, user) < NeededSlots(db.operations, limit, q)
                 || (ApplyBankCommand(due, c, now).Done? && !IsAcceptable(due, c))
                 || (&& ApplyBankCommand(due, c, now).Done? && ApplyBankCommand(due, c, now).state != s
                     && db.states[user].revision == MAX_SAFE)
  {
    hide Valid, MaterializeBankState, ApplyBankCommand, IsAcceptable, CommandTransition, CountEvictable, NeededSlots, Evict, MessageFor,
      NextOperationId, Posted, FindOperation;
    TransitionThrows(db.states[user].state, c, now);
    if CommandTransition(db.states[user].state, c, now).Some? {
      TransitionState(db.states[user].state, c, now);
    }
  }

  lemma {:induction false} TransitionState(s: BankState, c: BankCommand, now: Instant)
    requires CommandTransition(s, c, now).Some?
    ensures MaterializeBankState(s, now).Some?
    ensures var out := ApplyBankCommand(MaterializeBankState(s, now).value.state, c, now);
            CommandTransition(s, c, now).value.state == if out.Done? then out.state else s
  {
    hide Valid, MaterializeBankState, ApplyBankCommand, BankService.Merged, IsStorable, FailureOf;
  }

  /** A refused command is stored with its failure, and the state and its revision stay what they were, even
      if interest or occurrences were due. */
  lemma {:induction false} RefusalIsStored(db: BankDb, limit: nat, user: string, source: Source, operationId: string, hash: string,
                                           c: BankCommand, now: Instant)
    requires var answer := Execute(db, limit, CommandRequest(user, source, operationId, hash), CommandChange(c, now, source)).1;
             answer.Answered? && !answer.replayed && answer.outcome.failure.Some?
    ensures user in db.states
    ensures var (after, answer) := Execute(db, limit, CommandRequest(user, source, operationId, hash), CommandChange(c, now, source));
            && after.states == db.states && answer.operationRevision == db.states[user].revision
            && answer.outcome == StoredOutcome(false, [], None, None, answer.outcome.failure)
            && RowOf<BankState, StoredOutcome, Message>(CommandRequest(user, source, operationId, hash), answer) in after.operations
  {
    hide Valid, CommandTransition, Execute, CountEvictable, NeededSlots, Evict, MessageFor, IsStorable, Posted;
    var q := CommandRequest(user, source, operationId, hash);
    var change := CommandChange(c, now, source);
    ExecuteCases(db, limit, q, change);
    CommitLeavesRow(db, limit, q, change);
    RevisionCountsChanges(db, limit, q, change);
    TransitionCommits(db.states[user].state, c, now);
    var after := Execute(db, limit, q, change).0;
    assert after.states[user] == db.states[user];
    assert after.states == db.states;
  }

  /** Reading an accepted state fails only when the revision is used up. */
  lemma {:induction false} ReadFailsOnlyAtEnd(db: BankDb, user: string, hash: string, now: Instant)
    requires DbSound(db) && user in db.states && Valid(db.states[user].state, now)
    ensures var out := Mutate(db, user, hash, BootstrapChange(now)).1;
            out.NotMutated? ==> out.error.RevisionOverflow? && db.states[user].revision == MAX_SAFE
  {
    hide Valid, BootstrapTransition, DbSound, FindOperation, MaterializeId, Commit;
    BootstrapSucceeds(db.states[user].state, now);
    MutateKeepsSound(db, user, hash, BootstrapChange(now));
  }

  // ---------------------------------------------------------------- the stored ledger over runs

  ghost predicate Grows(change: BankState -> Option<Change>) {
    forall s: BankState :: change(s).Some? ==> Grown(s, change(s).value.state)
  }

  lemma {:induction false} CommandGrows(c: BankCommand, now: Instant, source: Source)
    ensures Grows(CommandChange(c, now, source))
  {
    hide CommandTransition, MessageFor, Grown, SavingsProofs.SavingsKept;
    var change := CommandChange(c, now, source);
    forall s: BankState | change(s).Some?
      ensures Grown(s, change(s).value.state)
    {
      TransitionMoves(s, c, now);
    }
  }

  lemma {:induction false} ReadGrows(now: Instant)
    ensures Grows(BootstrapChange(now))
  {
    hide BootstrapTransition, MessageFor, Grown, SavingsProofs.SavingsKept, Valid, MaterializeBankState;
    var change := BootstrapChange(now);
    forall s: BankState | change(s).Some?
      ensures Grown(s, change(s).value.state)
    {
      BootstrapParts(s, now);
      MaterializeMoves(s, now);
    }
  }

  lemma {:induction false} BootstrapParts(s: BankState, now: Instant)
    requires BootstrapTransition(s, now).Some?
    ensures Valid(s, now) && MaterializeBankState(s, now) == BootstrapTransition(s, now)
  {
    hide Valid, MaterializeBankState;
  }

  /** The calls of a server that already holds the user's state. */
  ghost predicate IsServerCall(call: BankCall) {
    match call
    case UserCall(q, change) => exists c, now :: change == CommandChange(c, now, q.source)
    case MaterializeCall(user, hash, change) => exists now :: change == BootstrapChange(now)
    case _ => true
  }

  lemma {:induction false} CommitsGrow(db: BankDb, limit: nat, call: BankCall)
    requires IsServerCall(call)
    ensures forall k :: 0 <= k < |Commits(db, limit, call)| && Commits(db, limit, call)[k].Changed?
                        ==> Grows(Commits(db, limit, call)[k].transition)
  {
    hide CommandChange, BootstrapChange, Grows, Execute, Mutate, ImportState;
    match call
    case UserCall(q, change) =>
      var c, now :| change == CommandChange(c, now, q.source);
      CommandGrows(c, now, q.source);
    case MaterializeCall(user, hash, change) =>
      var now :| change == BootstrapChange(now);
      ReadGrows(now);
    case _ =>
  }

  lemma {:induction false} CallGrows(db: BankDb, limit: nat, call: BankCall, user: string)
    requires IsServerCall(call) && user in db.states
    ensures user in After(db, limit, call).states
    ensures Grown(db.states[user].state, After(db, limit, call).states[user].state)
  {
    hide CommandChange, BootstrapChange, Grown, Execute, Mutate, ImportState, IsServerCall;
    GrownNot(db.states[user].state);
    CallFolds(db, limit, call, user);
    CommitsGrow(db, limit, call);
    OneCommit(db, limit, call, user);
  }

  lemma {:induction false} OneCommit(db: BankDb, limit: nat, call: BankCall, user: string)
    requires user in db.states
    requires forall k :: 0 <= k < |Commits(db, limit, call)| && Commits(db, limit, call)[k].Changed?
                         ==> Grows(Commits(db, limit, call)[k].transition)
    ensures var after := Fold(Commits(db, limit, call), user, StateOf(db, user));
            after.Some? && Grown(db.states[user].state, after.value)
  {
    hide Grown, Execute, Mutate;
    GrownNot(db.states[user].state);
    var entries := Commits(db, limit, call);
    if |entries| == 1 {
      assert entries[1..] == [];
      if entries[0].Began? {
        ImportIsFirst(db, call, limit, user);
      }
    }
  }

  lemma {:induction false} ImportIsFirst(db: BankDb, call: BankCall, limit: nat, user: string)
    requires Commits(db, limit, call) != [] && Commits(db, limit, call)[0].Began?
    ensures Commits(db, limit, call)[0].user !in db.states
  {
    hide Execute, Mutate, FindOperation;
  }

  /** Whatever calls are served in whatever order, with any retries among them, the stored ledger of a user
      only grows: its rows are never rewritten, and its accounts, rules and owner stay. */
  lemma {:induction false} StoredLedgerOnlyGrows(db: BankDb, limit: nat, calls: seq<BankCall>, user: string)
    requires user in db.states && forall i :: 0 <= i < |calls| ==> IsServerCall(calls[i])
    ensures user in AfterAll(db, limit, calls).states
    ensures Grown(db.states[user].state, AfterAll(db, limit, calls).states[user].state)
    decreases |calls|
  {
    hide After, Grown, IsServerCall;
    if calls == [] {
      GrownNot(db.states[user].state);
    } else {
      var next := After(db, limit, calls[0]);
      CallGrows(db, limit, calls[0], user);
      StoredLedgerOnlyGrows(next, limit, calls[1..], user);
      GrownTwice(db.states[user].state, next.states[user].state, AfterAll(db, limit, calls).states[user].state);
    }
  }

  /** Reading twice at one instant changes nothing the second time. */
  lemma {:induction false} SecondReadIsQuiet(db: BankDb, user: string, hash: string, again: string, now: Instant)
    requires DbSound(db) && user in db.states && Valid(db.states[user].state, now)
    requires Mutate(db, user, hash, BootstrapChange(now)).1.Mutated?
    ensures var next := Mutate(db, user, hash, BootstrapChange(now)).0;
            && user in next.states
            && Mutate(next, user, again, BootstrapChange(now)) == (next, Mutated(false, next.states[user]))
  {
    hide Valid, BootstrapTransition, DbSound, FindOperation, MaterializeId, MessageFor, NextOperationId, Posted;
    var s := db.states[user].state;
    BootstrapSucceeds(s, now);
    var due := BootstrapTransition(s, now).value;
    BootstrapSame(s, now);
    var next := Mutate(db, user, hash, BootstrapChange(now)).0;
    assert next.states[user].state == due.state;
    assert MessageFor(FromSystem, WarningOutcome([])) == None by { NoMessage(); }
    assert next.states[user := next.states[user]] == next.states;
  }

  lemma {:induction false} NoMessage()
    ensures MessageFor(FromSystem, WarningOutcome([])) == None
  {
  }

  lemma {:induction false} BootstrapSame(s: BankState, now: Instant)
    requires Valid(s, now) && BootstrapTransition(s, now).Some?
    ensures BootstrapTransition(BootstrapTransition(s, now).value.state, now) == Some(Materialized(BootstrapTransition(s, now).value.state, []))
  {
    hide Valid, MaterializeBankState;
    MaterializeTwice(s, now, now);
  }
}
