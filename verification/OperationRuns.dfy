/** Whole runs of the repository: any interleaving of fresh calls, retries, materialisations, imports and
    deliveries. */
module OperationRuns {
  import opened Wrappers
  import opened OperationLog
  import opened OperationLogProofs

  datatype Call<!S, O, M> =
    | UserCall(request: Request, transition: S -> Option<StateTransition<S, O, M>>)
    | MaterializeCall(user: string, hash: string, change: S -> Option<StateTransition<S, O, M>>)
    | ImportCall(owner: string, operationId: string, digest: string, state: S, outcome: O)
    | DeliverCall(id: nat)
    | DeferCall(deferred: nat, attempts: nat, nextAttemptAt: nat)

  /** The service never passes the system source to a user operation. */
  predicate IsServed<S, O, M>(call: Call<S, O, M>) {
    call.UserCall? ==> !call.request.source.FromSystem? && !call.request.source.FromImport?
  }

  function After<S(==), O, M>(db: Db<S, O, M>, limit: nat, call: Call<S, O, M>): Db<S, O, M> {
    match call
    case UserCall(q, t) => Execute(db, limit, q, t).0
    case MaterializeCall(user, hash, t) => Mutate(db, user, hash, t).0
    case ImportCall(user, id, hash, state, outcome) => ImportState(db, user, id, hash, state, outcome).0
    case DeliverCall(id) => CompleteOutbox(db, id)
    case DeferCall(id, attempts, at) => DeferOutbox(db, id, attempts, at)
  }

  function AfterAll<S(==), O, M>(db: Db<S, O, M>, limit: nat, calls: seq<Call<S, O, M>>): Db<S, O, M>
    decreases |calls|
  {
    if calls == [] then db else AfterAll(After(db, limit, calls[0]), limit, calls[1..])
  }

  // ---------------------------------------------------------------- the log of commits

  /** A change that was committed for a user: a first state, or a transition with the key of its operation. */
  datatype Entry<!S, O, M> =
    | Began(user: string, state: S)
    | Changed(user: string, key: Option<OperationKey>, transition: S -> Option<StateTransition<S, O, M>>)

  function Commits<S(==), O, M>(db: Db<S, O, M>, limit: nat, call: Call<S, O, M>): seq<Entry<S, O, M>> {
    match call
    case UserCall(q, t) =>
      var answer := Execute(db, limit, q, t).1;
      if answer.Answered? && !answer.replayed then [Changed(q.user, Some(KeyOf(q)), t)] else []
    case MaterializeCall(user, hash, t) =>
      if Mutate(db, user, hash, t).1.Mutated? then [Changed(user, None, t)] else []
    case ImportCall(user, id, hash, state, outcome) =>
      var answer := ImportState(db, user, id, hash, state, outcome).1;
      if answer.Answered? && !answer.replayed then [Began(user, state)] else []
    case _ => []
  }

  /** The commits of a run in the order in which they happened first. */
  function CommitLog<S(==), O, M>(db: Db<S, O, M>, limit: nat, calls: seq<Call<S, O, M>>): seq<Entry<S, O, M>>
    decreases |calls|
  {
    if calls == [] then []
    else Commits(db, limit, calls[0]) + CommitLog(After(db, limit, calls[0]), limit, calls[1..])
  }

  function StateOf<S, O, M>(db: Db<S, O, M>, user: string): Option<S> {
    if user in db.states then Some(db.states[user].state) else None
  }

  /** One user's state after the entries that are hers. */
  function Fold<S, O, M>(entries: seq<Entry<S, O, M>>, user: string, state: Option<S>): Option<S>
    decreases |entries|
  {
    if entries == [] then state else Fold(entries[1..], user, FoldOne(entries[0], user, state))
  }

  function FoldOne<S, O, M>(entry: Entry<S, O, M>, user: string, state: Option<S>): Option<S> {
    if entry.user != user then state
    else
      match entry
      case Began(_, first) => Some(first)
      case Changed(_, _, t) =>
        if state.Some? && t(state.value).Some? then Some(t(state.value).value.state) else state
  }

  lemma {:induction false} FoldJoined<S, O, M>(a: seq<Entry<S, O, M>>, b: seq<Entry<S, O, M>>, user: string, state: Option<S>)
    ensures Fold(a + b, user, state) == Fold(b, user, Fold(a, user, state))
    decreases |a|
  {
    hide FoldOne;
    if a == [] {
      assert a + b == b;
    } else {
      assert (a + b)[1..] == a[1..] + b && (a + b)[0] == a[0];
      FoldJoined(a[1..], b, user, FoldOne(a[0], user, state));
    }
  }

  // ---------------------------------------------------------------- every call

  lemma {:induction false} CallKeepsSound<S, O, M>(db: Db<S, O, M>, limit: nat, call: Call<S, O, M>)
    requires DbSound(db) && IsServed(call)
    ensures DbSound(After(db, limit, call))
  {
    hide DbSound, Execute, Mutate, ImportState, CompleteOutbox, DeferOutbox;
    match call
    case UserCall(q, t) => ExecuteKeepsSound(db, limit, q, t);
    case MaterializeCall(user, hash, t) => MutateKeepsSound(db, user, hash, t);
    case ImportCall(user, id, hash, state, outcome) => ImportKeepsSound(db, user, id, hash, state, outcome);
    case DeliverCall(id) => DeliveryKeepsSound(db, id, 0, 0);
    case DeferCall(id, attempts, at) => DeliveryKeepsSound(db, id, attempts, at);
  }

  lemma {:induction false} RunKeepsSound<S, O, M>(db: Db<S, O, M>, limit: nat, calls: seq<Call<S, O, M>>)
    requires DbSound(db) && forall i :: 0 <= i < |calls| ==> IsServed(calls[i])
    ensures DbSound(AfterAll(db, limit, calls))
    decreases |calls|
  {
    hide DbSound, After, IsServed;
    if calls != [] {
      CallKeepsSound(db, limit, calls[0]);
      RunKeepsSound(After(db, limit, calls[0]), limit, calls[1..]);
    }
  }

  lemma {:induction false} ExecuteFolds<S, O, M>(db: Db<S, O, M>, limit: nat, q: Request, t: S -> Option<StateTransition<S, O, M>>, user: string)
    ensures StateOf(Execute(db, limit, q, t).0, user)
         == Fold(Commits(db, limit, UserCall(q, t)), user, StateOf(db, user))
  {
    RevisionCountsChanges(db, limit, q, t);
    ExecuteCases(db, limit, q, t);
    hide Execute;
    var (after, answer) := Execute(db, limit, q, t);
    if answer.Answered? && !answer.replayed {
      var entry: Entry<S, O, M> := Changed(q.user, Some(KeyOf(q)), t);
      assert [entry][1..] == [];
    }
  }

  lemma {:induction false} CallFolds<S, O, M>(db: Db<S, O, M>, limit: nat, call: Call<S, O, M>, user: string)
    ensures StateOf(After(db, limit, call), user) == Fold(Commits(db, limit, call), user, StateOf(db, user))
  {
    match call
    case UserCall(q, t) => ExecuteFolds(db, limit, q, t, user);
    case MaterializeCall(owner, hash, t) =>
      hide FindOperation, NextOperationId, Posted, MaterializeId;
    case ImportCall(owner, id, hash, state, outcome) =>
      hide FindOperation, NextOperationId;
    case _ =>
  }

  /** Exactly-once refinement: after any interleaving a user's state is the fold of the committed transitions
      in the order of their first commit. Retries and failures leave no trace in it. */
  lemma {:induction false} StateIsFoldOfCommits<S, O, M>(db: Db<S, O, M>, limit: nat, calls: seq<Call<S, O, M>>, user: string)
    ensures StateOf(AfterAll(db, limit, calls), user) == Fold(CommitLog(db, limit, calls), user, StateOf(db, user))
    decreases |calls|
  {
    hide After, Commits, StateOf;
    if calls != [] {
      var next := After(db, limit, calls[0]);
      CallFolds(db, limit, calls[0], user);
      StateIsFoldOfCommits(next, limit, calls[1..], user);
      FoldJoined(Commits(db, limit, calls[0]), CommitLog(next, limit, calls[1..]), user, StateOf(db, user));
    }
  }

  // ---------------------------------------------------------------- while a row is retained

  /** The row is there before, between and after all calls of the run. */
  ghost predicate Retained<S, O, M>(db: Db<S, O, M>, limit: nat, calls: seq<Call<S, O, M>>, op: Operation<O>)
    decreases |calls|
  {
    op in db.operations && (calls != [] ==> Retained(After(db, limit, calls[0]), limit, calls[1..], op))
  }

  predicate HasKey<S, O, M>(entry: Entry<S, O, M>, key: OperationKey) {
    entry.Changed? && entry.key == Some(key)
  }

  lemma {:induction false} NoCommitUnderKey<S, O, M>(db: Db<S, O, M>, limit: nat, call: Call<S, O, M>, op: Operation<O>)
    requires DbSound(db) && op in db.operations
    ensures forall k :: 0 <= k < |Commits(db, limit, call)| ==> !HasKey(Commits(db, limit, call)[k], op.key)
  {
    hide DbSound, Execute, Mutate, ImportState;
    if call.UserCall? && KeyOf(call.request) == op.key {
      RetryIsAnswered(db, limit, call.request, call.transition, op);
    }
  }

  /** While the row of an operation is retained, no call commits under its key again. */
  lemma {:induction false} CommitsOnceWhileRetained<S, O, M>(db: Db<S, O, M>, limit: nat, calls: seq<Call<S, O, M>>, op: Operation<O>)
    requires DbSound(db) && Retained(db, limit, calls, op)
    requires forall i :: 0 <= i < |calls| ==> IsServed(calls[i])
    ensures forall k :: 0 <= k < |CommitLog(db, limit, calls)| ==> !HasKey(CommitLog(db, limit, calls)[k], op.key)
    decreases |calls|
  {
    hide DbSound, After, Commits, IsServed, HasKey;
    if calls != [] {
      NoCommitUnderKey(db, limit, calls[0], op);
      CallKeepsSound(db, limit, calls[0]);
      CommitsOnceWhileRetained(After(db, limit, calls[0]), limit, calls[1..], op);
    }
  }

  lemma {:induction false} RetainedAtEnd<S, O, M>(db: Db<S, O, M>, limit: nat, calls: seq<Call<S, O, M>>, op: Operation<O>)
    requires Retained(db, limit, calls, op)
    ensures op in AfterAll(db, limit, calls).operations
    decreases |calls|
  {
    hide After;
    if calls != [] {
      RetainedAtEnd(After(db, limit, calls[0]), limit, calls[1..], op);
    }
  }

  /** The row that a committed call leaves. */
  function RowOf<S, O, M>(q: Request, answer: Answer<S, O>): Operation<O>
    requires answer.Answered?
  {
    Operation(answer.operationId, KeyOf(q), q.hash, answer.outcome, answer.operationRevision)
  }

  lemma {:induction false} CommitLeavesRow<S, O, M>(db: Db<S, O, M>, limit: nat, q: Request, t: S -> Option<StateTransition<S, O, M>>)
    requires var answer := Execute(db, limit, q, t).1; answer.Answered? && !answer.replayed
    ensures RowOf<S, O, M>(q, Execute(db, limit, q, t).1) in Execute(db, limit, q, t).0.operations
  {
    hide Evict, Execute, NextOperationId, CountEvictable, NeededSlots, Posted;
    ExecuteCases(db, limit, q, t);
    var ops := Execute(db, limit, q, t).0.operations;
    assert ops[|ops| - 1] == RowOf<S, O, M>(q, Execute(db, limit, q, t).1);
  }

  /** However much happens in between, a retry of a committed call gets the outcome and the revision of the
      first commit, as long as its row is retained, and changes nothing. */
  lemma {:induction false} RetryAfterRun<S, O, M>(db: Db<S, O, M>, limit: nat, q: Request, t: S -> Option<StateTransition<S, O, M>>,
                                                  calls: seq<Call<S, O, M>>, again: S -> Option<StateTransition<S, O, M>>)
    requires DbSound(db) && IsServed<S, O, M>(UserCall(q, t)) && forall i :: 0 <= i < |calls| ==> IsServed(calls[i])
    requires var (next, answer) := Execute(db, limit, q, t);
             answer.Answered? && !answer.replayed && Retained(next, limit, calls, RowOf<S, O, M>(q, answer))
    ensures var (next, answer) := Execute(db, limit, q, t);
            var later := AfterAll(next, limit, calls);
            && q.user in later.states
            && Execute(later, limit, q, again)
               == (later, Answered(true, answer.operationId, answer.operationRevision, later.states[q.user], answer.outcome))
  {
    hide DbSound, Execute, Retained;
    var (next, answer) := Execute(db, limit, q, t);
    ExecuteKeepsSound(db, limit, q, t);
    RunKeepsSound(next, limit, calls);
    RetainedAtEnd(next, limit, calls, RowOf<S, O, M>(q, answer));
    RetryIsAnswered(AfterAll(next, limit, calls), limit, q, again, RowOf<S, O, M>(q, answer));
  }

  // ---------------------------------------------------------------- undelivered messages

  lemma {:induction false} ExecuteSpares<S, O, M>(db: Db<S, O, M>, limit: nat, q: Request, t: S -> Option<StateTransition<S, O, M>>, op: Operation<O>)
    requires op in db.operations && HasOutbox(db.outbox, op.id)
    ensures op in Execute(db, limit, q, t).0.operations
  {
    hide Evict, Execute, CountEvictable, HasOutbox;
    ExecuteCases(db, limit, q, t);
    EvictSpares(db.operations, db.outbox, q.user, NeededSlots(db.operations, limit, q), op);
    var (after, answer) := Execute(db, limit, q, t);
    if after != db {
      var kept := Evict(db.operations, db.outbox, q.user, NeededSlots(db.operations, limit, q));
      assert op in kept && after.operations[..|kept|] == kept;
      assert op in after.operations[..|kept|];
    }
  }

  /** No call removes an operation with an undelivered message. */
  lemma {:induction false} UndeliveredStays<S, O, M>(db: Db<S, O, M>, limit: nat, call: Call<S, O, M>, op: Operation<O>)
    requires op in db.operations && HasOutbox(db.outbox, op.id)
    ensures op in After(db, limit, call).operations
  {
    match call
    case UserCall(q, t) => ExecuteSpares(db, limit, q, t, op);
    case MaterializeCall(user, hash, t) =>
      hide FindOperation, HasOutbox, Posted, NextOperationId, MaterializeId;
    case ImportCall(user, id, hash, state, outcome) =>
      hide FindOperation, HasOutbox, NextOperationId;
    case _ =>
  }

  // ---------------------------------------------------------------- calls that commit nothing

  /** The call fails or is answered from the log. */
  predicate IsSilent<S(==), O, M>(db: Db<S, O, M>, limit: nat, call: Call<S, O, M>) {
    match call
    case UserCall(q, t) => var answer := Execute(db, limit, q, t).1; answer.Failed? || answer.replayed
    case MaterializeCall(user, hash, t) => Mutate(db, user, hash, t).1.NotMutated?
    case ImportCall(user, id, hash, state, outcome) =>
      var answer := ImportState(db, user, id, hash, state, outcome).1; answer.Failed? || answer.replayed
    case _ => false
  }

  lemma {:induction false} SilentChangesNothing<S, O, M>(db: Db<S, O, M>, limit: nat, call: Call<S, O, M>)
    requires IsSilent(db, limit, call)
    ensures After(db, limit, call) == db
  {
    match call
    case UserCall(q, t) =>
      ExecuteCases(db, limit, q, t);
      hide Execute;
    case MaterializeCall(user, hash, t) =>
      hide FindOperation, NextOperationId, Posted, MaterializeId;
    case ImportCall(user, id, hash, state, outcome) =>
      hide FindOperation, NextOperationId;
  }

  /** The run without the calls that fail or are answered from the log. */
  function Effective<S(==), O, M>(db: Db<S, O, M>, limit: nat, calls: seq<Call<S, O, M>>): seq<Call<S, O, M>>
    decreases |calls|
  {
    if calls == [] then []
    else
      (if IsSilent(db, limit, calls[0]) then [] else [calls[0]]) + Effective(After(db, limit, calls[0]), limit, calls[1..])
  }

  /** Over any run the calls that fail or are answered from the log leave no trace: all tables are what they
      would be if these calls had never been made, evictions undone and identifiers reused. */
  lemma {:induction false} FailuresLeaveNoTrace<S, O, M>(db: Db<S, O, M>, limit: nat, calls: seq<Call<S, O, M>>)
    ensures AfterAll(db, limit, calls) == AfterAll(db, limit, Effective(db, limit, calls))
    decreases |calls|
  {
    hide After, IsSilent;
    if calls != [] {
      var next := After(db, limit, calls[0]);
      var rest := Effective(next, limit, calls[1..]);
      FailuresLeaveNoTrace(next, limit, calls[1..]);
      if IsSilent(db, limit, calls[0]) {
        SilentChangesNothing(db, limit, calls[0]);
        assert [] + rest == rest;
      } else {
        assert ([calls[0]] + rest)[1..] == rest;
      }
    }
  }

  // ---------------------------------------------------------------- every reachable log

  lemma {:induction false} EvictNeverAdds<O, M>(ops: seq<Operation<O>>, outbox: seq<OutboxRow<M>>, owner: string, n: nat, user: string)
    ensures CountUser(Evict(ops, outbox, owner, n), user) <= CountUser(ops, user)
    decreases |ops|
  {
    hide IsEvictable, IsUserOperation;
    if n > 0 && ops != [] {
      if IsEvictable(ops[0], outbox, owner) {
        EvictNeverAdds(ops[1..], outbox, owner, n - 1, user);
      } else {
        EvictNeverAdds(ops[1..], outbox, owner, n, user);
        var rest := Evict(ops[1..], outbox, owner, n);
        assert ([ops[0]] + rest)[1..] == rest;
      }
    }
  }

  lemma {:induction false} ExecuteStaysWithin<S, O, M>(db: Db<S, O, M>, limit: nat, q: Request, t: S -> Option<StateTransition<S, O, M>>, user: string)
    requires DbSound(db) && limit >= 1 && (q.source.FromTelegram? || q.source.FromTma?)
    requires CountUser(db.operations, user) <= limit
    ensures CountUser(Execute(db, limit, q, t).0.operations, user) <= limit
  {
    hide DbSound, Execute, Evict, CountEvictable, NeededSlots, CountUser, NextOperationId, Posted;
    ExecuteCases(db, limit, q, t);
    var (after, answer) := Execute(db, limit, q, t);
    if Committed(db, limit, q, t, after, answer) && after != db {
      if q.user == user {
        CommittedAnswer(db, limit, q, t, after, answer);
        RetentionHolds(db, limit, q, t);
      } else {
        var needed := NeededSlots(db.operations, limit, q);
        var kept := Evict(db.operations, db.outbox, q.user, needed);
        EvictNeverAdds(db.operations, db.outbox, q.user, needed, user);
        CountAppended(kept, after.operations[|after.operations| - 1], user);
        assert after.operations == kept + [after.operations[|after.operations| - 1]];
      }
    }
  }

  lemma {:induction false} CommittedAnswer<S, O, M>(db: Db<S, O, M>, limit: nat, q: Request, t: S -> Option<StateTransition<S, O, M>>,
                                                    after: Db<S, O, M>, answer: Answer<S, O>)
    requires Committed(db, limit, q, t, after, answer)
    ensures answer.Answered? && !answer.replayed
  {
    hide Evict, CountEvictable, NeededSlots, Posted, NextOperationId;
  }

  lemma {:induction false} CallStaysWithin<S, O, M>(db: Db<S, O, M>, limit: nat, call: Call<S, O, M>, user: string)
    requires DbSound(db) && IsServed(call) && limit >= 1 && CountUser(db.operations, user) <= limit
    ensures CountUser(After(db, limit, call).operations, user) <= limit
  {
    hide DbSound, Execute, CountUser, FindOperation, NextOperationId, Posted, MaterializeId;
    match call
    case UserCall(q, t) => ExecuteStaysWithin(db, limit, q, t, user);
    case MaterializeCall(owner, hash, t) =>
      var ops := After(db, limit, call).operations;
      if ops != db.operations {
        CountAppended(db.operations, ops[|ops| - 1], user);
      }
    case ImportCall(owner, id, hash, state, outcome) =>
      var ops := After(db, limit, call).operations;
      if ops != db.operations {
        CountAppended(db.operations, ops[|ops| - 1], user);
      }
    case _ =>
  }

  lemma {:induction false} RunStaysWithin<S, O, M>(db: Db<S, O, M>, limit: nat, calls: seq<Call<S, O, M>>, user: string)
    requires DbSound(db) && limit >= 1 && CountUser(db.operations, user) <= limit
    requires forall i :: 0 <= i < |calls| ==> IsServed(calls[i])
    ensures CountUser(AfterAll(db, limit, calls).operations, user) <= limit
    decreases |calls|
  {
    hide DbSound, After, IsServed, CountUser;
    if calls != [] {
      CallStaysWithin(db, limit, calls[0], user);
      CallKeepsSound(db, limit, calls[0]);
      RunStaysWithin(After(db, limit, calls[0]), limit, calls[1..], user);
    }
  }

  /** From an empty database every run keeps the invariant of the tables and, for every user at once, no more
      retained operations than the limit. */
  lemma {:induction false} ReachableIsWithinLimit<S, O, M>(limit: nat, calls: seq<Call<S, O, M>>, user: string)
    requires limit >= 1 && forall i :: 0 <= i < |calls| ==> IsServed(calls[i])
    ensures var empty: Db<S, O, M> := Db(map[], [], []);
            var after := AfterAll(empty, limit, calls);
            DbSound(after) && CountUser(after.operations, user) <= limit
  {
    hide DbSound, AfterAll, IsServed;
    EmptyIsSound<S, O, M>();
    var empty: Db<S, O, M> := Db(map[], [], []);
    RunKeepsSound(empty, limit, calls);
    RunStaysWithin(empty, limit, calls, user);
  }

  // ---------------------------------------------------------------- messages wait for their delivery

  /** The message is still to be delivered, whatever attempts were made. */
  ghost predicate IsWaiting<M>(outbox: seq<OutboxRow<M>>, row: OutboxRow<M>) {
    exists i :: 0 <= i < |outbox| && outbox[i] == row.(attempts := outbox[i].attempts, nextAttemptAt := outbox[i].nextAttemptAt)
  }

  lemma {:induction false} WaitsInLonger<M>(before: seq<OutboxRow<M>>, after: seq<OutboxRow<M>>, row: OutboxRow<M>)
    requires IsWaiting(before, row) && before <= after
    ensures IsWaiting(after, row)
  {
    var i :| 0 <= i < |before| && before[i] == row.(attempts := before[i].attempts, nextAttemptAt := before[i].nextAttemptAt);
    assert after[i] == before[i];
  }

  lemma {:induction false} WaitsDespite<M>(outbox: seq<OutboxRow<M>>, row: OutboxRow<M>, id: nat, attempts: nat, at: nat)
    requires IsWaiting(outbox, row)
    ensures IsWaiting(DeferredRows(outbox, id, attempts, at), row)
    ensures id != row.id ==> IsWaiting(WithoutOutbox(outbox, id), row)
  {
    var i :| 0 <= i < |outbox| && outbox[i] == row.(attempts := outbox[i].attempts, nextAttemptAt := outbox[i].nextAttemptAt);
    var later := DeferredRows(outbox, id, attempts, at);
    assert later[i] == row.(attempts := later[i].attempts, nextAttemptAt := later[i].nextAttemptAt);
    if id != row.id {
      OtherMessagesStay(outbox, id, outbox[i]);
      var rest := WithoutOutbox(outbox, id);
      var k :| 0 <= k < |rest| && rest[k] == outbox[i];
      assert rest[k] == row.(attempts := rest[k].attempts, nextAttemptAt := rest[k].nextAttemptAt);
    }
  }

  lemma {:induction false} QueueIsLonger<M>(before: seq<OutboxRow<M>>, after: seq<OutboxRow<M>>, operation: nat, user: string, chatId: string, message: M)
    requires QueuesOne(before, after, operation, user, chatId, message)
    ensures before <= after
  {
  }

  lemma {:induction false} CallKeepsWaiting<S, O, M>(db: Db<S, O, M>, limit: nat, call: Call<S, O, M>, row: OutboxRow<M>)
    requires DbSound(db) && IsWaiting(db.outbox, row) && call != DeliverCall(row.id)
    ensures IsWaiting(After(db, limit, call).outbox, row)
  {
    hide DbSound, Execute, Mutate, ImportState, IsWaiting, QueuesOne, AddsOne;
    match call
    case UserCall(q, t) =>
      ExecuteWrites(db, limit, q, t);
      var (after, answer) := Execute(db, limit, q, t);
      if after.outbox != db.outbox {
        QueueIsLonger(db.outbox, after.outbox, answer.operationId, q.user, q.chatId.value, t(db.states[q.user].state).value.outbox.value);
        WaitsInLonger(db.outbox, after.outbox, row);
      }
    case MaterializeCall(user, hash, t) =>
      MutateWrites(db, user, hash, t);
      var after := Mutate(db, user, hash, t).0;
      if after.outbox != db.outbox {
        QueueIsLonger(db.outbox, after.outbox, after.operations[|db.operations|].id, user, user, t(db.states[user].state).value.outbox.value);
        WaitsInLonger(db.outbox, after.outbox, row);
      }
    case ImportCall(user, id, hash, state, outcome) => ImportWrites(db, user, id, hash, state, outcome);
    case DeliverCall(id) => WaitsDespite(db.outbox, row, id, 0, 0);
    case DeferCall(id, attempts, at) => WaitsDespite(db.outbox, row, id, attempts, at);
  }

  /** The message of a committed operation waits through any run until a delivery completes it. */
  lemma {:induction false} MessageWaits<S, O, M>(db: Db<S, O, M>, limit: nat, calls: seq<Call<S, O, M>>, row: OutboxRow<M>)
    requires DbSound(db) && IsWaiting(db.outbox, row)
    requires forall i :: 0 <= i < |calls| ==> IsServed(calls[i]) && calls[i] != DeliverCall(row.id)
    ensures IsWaiting(AfterAll(db, limit, calls).outbox, row)
    decreases |calls|
  {
    hide DbSound, After, IsServed, IsWaiting;
    if calls != [] {
      CallKeepsWaiting(db, limit, calls[0], row);
      CallKeepsSound(db, limit, calls[0]);
      MessageWaits(After(db, limit, calls[0]), limit, calls[1..], row);
    }
  }

  /** A committed operation whose transition has a message leaves it in the outbox for its chat, and there it
      stays through any run until that very row is delivered. */
  lemma {:induction false} CommittedMessageWaits<S, O, M>(db: Db<S, O, M>, limit: nat, q: Request, t: S -> Option<StateTransition<S, O, M>>,
                                                          calls: seq<Call<S, O, M>>) returns (row: OutboxRow<M>)
    requires DbSound(db) && IsServed<S, O, M>(UserCall(q, t))
    requires var answer := Execute(db, limit, q, t).1;
             && answer.Answered? && !answer.replayed
             && q.user in db.states && t(db.states[q.user].state).Some? && t(db.states[q.user].state).value.outbox.Some?
    ensures q.chatId.Some?
    ensures row == OutboxRow(row.id, Execute(db, limit, q, t).1.operationId, q.user, q.chatId.value,
                             t(db.states[q.user].state).value.outbox.value, 0, 0)
    ensures row in Execute(db, limit, q, t).0.outbox
    ensures (forall i :: 0 <= i < |calls| ==> IsServed(calls[i]) && calls[i] != DeliverCall(row.id))
            ==> IsWaiting(AfterAll(Execute(db, limit, q, t).0, limit, calls).outbox, row)
  {
    hide DbSound, Execute;
    ExecuteWrites(db, limit, q, t);
    ExecuteKeepsSound(db, limit, q, t);
    var next := Execute(db, limit, q, t).0;
    row := next.outbox[|db.outbox|];
    assert IsWaiting(next.outbox, row) by {
      assert next.outbox[|db.outbox|] == row.(attempts := row.attempts, nextAttemptAt := row.nextAttemptAt);
    }
    if forall i :: 0 <= i < |calls| ==> IsServed(calls[i]) && calls[i] != DeliverCall(row.id) {
      MessageWaits(next, limit, calls, row);
    }
  }
}
