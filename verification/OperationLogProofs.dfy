/** The guarantees of the operation log: retention, revisions, idempotency keys and messages, kept by every
    transaction. */
module OperationLogProofs {
  import opened Wrappers
  import opened Money
  import opened OperationLog
  import Currency

  // ---------------------------------------------------------------- what eviction removes

  ghost predicate IdsIncrease<O>(ops: seq<Operation<O>>) {
    && (forall i :: 0 <= i < |ops| ==> ops[i].id >= 1)
    && forall i, j :: 0 <= i < j < |ops| ==> ops[i].id < ops[j].id
  }

  ghost predicate KeysDistinct<O>(ops: seq<Operation<O>>) {
    forall i, j :: 0 <= i < j < |ops| ==> ops[i].key != ops[j].key
  }

  /** Eviction keeps the rows it does not remove, in their order. */
  lemma {:induction false} EvictIsPart<O, M>(ops: seq<Operation<O>>, outbox: seq<OutboxRow<M>>, user: string, n: nat)
    ensures forall x :: x in Evict(ops, outbox, user, n) ==> x in ops
    ensures IdsIncrease(ops) ==> IdsIncrease(Evict(ops, outbox, user, n))
    ensures KeysDistinct(ops) ==> KeysDistinct(Evict(ops, outbox, user, n))
    decreases |ops|
  {
    hide IsEvictable, IdsIncrease, KeysDistinct;
    if n > 0 && ops != [] {
      var m := if IsEvictable(ops[0], outbox, user) then n - 1 else n;
      EvictIsPart(ops[1..], outbox, user, m);
      TailIsOrdered(ops);
      FirstIsOrdered(ops, Evict(ops[1..], outbox, user, m));
    }
  }

  lemma {:induction false} TailIsOrdered<O>(ops: seq<Operation<O>>)
    requires ops != []
    ensures IdsIncrease(ops) ==> IdsIncrease(ops[1..])
    ensures KeysDistinct(ops) ==> KeysDistinct(ops[1..])
  {
  }

  lemma {:induction false} FirstIsOrdered<O>(ops: seq<Operation<O>>, rest: seq<Operation<O>>)
    requires ops != [] && forall x :: x in rest ==> x in ops[1..]
    ensures IdsIncrease(ops) && IdsIncrease(rest) ==> IdsIncrease([ops[0]] + rest)
    ensures KeysDistinct(ops) && KeysDistinct(rest) ==> KeysDistinct([ops[0]] + rest)
  {
    forall k | 0 <= k < |rest|
      ensures IdsIncrease(ops) ==> ops[0].id < rest[k].id
      ensures KeysDistinct(ops) ==> ops[0].key != rest[k].key
    {
      assert rest[k] in ops[1..];
    }
  }

  /** It removes evictable rows only: other users' rows and rows with an undelivered message stay. */
  lemma {:induction false} EvictSpares<O, M>(ops: seq<Operation<O>>, outbox: seq<OutboxRow<M>>, user: string, n: nat, x: Operation<O>)
    requires x in ops && !IsEvictable(x, outbox, user)
    ensures x in Evict(ops, outbox, user, n)
    decreases |ops|
  {
    hide IsEvictable;
    if n > 0 && ops[0] != x {
      assert x in ops[1..];
      EvictSpares(ops[1..], outbox, user, if IsEvictable(ops[0], outbox, user) then n - 1 else n, x);
    }
  }

  /** It removes exactly as many user rows as asked. */
  lemma {:induction false} EvictCounts<O, M>(ops: seq<Operation<O>>, outbox: seq<OutboxRow<M>>, user: string, n: nat)
    requires n <= CountEvictable(ops, outbox, user)
    ensures CountUser(Evict(ops, outbox, user, n), user) == CountUser(ops, user) - n
    ensures |Evict(ops, outbox, user, n)| == |ops| - n
    decreases |ops|
  {
    hide HasOutbox;
    if n > 0 && ops != [] {
      if IsEvictable(ops[0], outbox, user) {
        EvictCounts(ops[1..], outbox, user, n - 1);
      } else {
        EvictCounts(ops[1..], outbox, user, n);
        var rest := Evict(ops[1..], outbox, user, n);
        assert ([ops[0]] + rest)[1..] == rest;
      }
    }
  }

  /** It removes the oldest ones: every evictable row that stays is younger than every row that goes. */
  lemma {:induction false} EvictsOldest<O, M>(ops: seq<Operation<O>>, outbox: seq<OutboxRow<M>>, user: string, n: nat,
                                              x: Operation<O>, y: Operation<O>)
    requires IdsIncrease(ops) && x in ops && x !in Evict(ops, outbox, user, n)
    requires y in Evict(ops, outbox, user, n) && IsEvictable(y, outbox, user)
    ensures x.id < y.id
    decreases |ops|
  {
    hide IsEvictable;
    var m := if IsEvictable(ops[0], outbox, user) then n - 1 else n;
    if x == ops[0] {
      EvictIsPart(ops[1..], outbox, user, m);
      assert y in ops[1..];
    } else {
      assert x in ops[1..];
      assert IdsIncrease(ops[1..]);
      EvictsOldest(ops[1..], outbox, user, m, x, y);
    }
  }

  lemma {:induction false} EvictNothing<O, M>(ops: seq<Operation<O>>, outbox: seq<OutboxRow<M>>, user: string)
    ensures Evict(ops, outbox, user, 0) == ops
  {
  }

  lemma {:induction false} CountAppended<O>(ops: seq<Operation<O>>, op: Operation<O>, user: string)
    ensures CountUser(ops + [op], user) == CountUser(ops, user) + if IsUserOperation(op, user) then 1 else 0
    decreases |ops|
  {
    if ops == [] {
      assert ops + [op] == [op] && [op][1..] == [];
    } else {
      assert (ops + [op])[1..] == ops[1..] + [op];
      CountAppended(ops[1..], op, user);
    }
  }

  // ---------------------------------------------------------------- the tables

  ghost predicate OutboxIdsIncrease<M>(outbox: seq<OutboxRow<M>>) {
    forall i, j :: 0 <= i < j < |outbox| ==> outbox[i].id < outbox[j].id
  }

  ghost predicate BelongsTo<O, M>(row: OutboxRow<M>, op: Operation<O>) {
    op.id == row.operation && op.key.user == row.user
  }

  ghost predicate HasOwner<O, M>(ops: seq<Operation<O>>, row: OutboxRow<M>) {
    exists k :: 0 <= k < |ops| && BelongsTo(row, ops[k])
  }

  /** Every message belongs to an operation of its user, and no operation has two. */
  ghost predicate OutboxRefers<O, M>(ops: seq<Operation<O>>, outbox: seq<OutboxRow<M>>) {
    && (forall i :: 0 <= i < |outbox| ==> HasOwner(ops, outbox[i]))
    && forall i, j :: 0 <= i < j < |outbox| ==> outbox[i].operation != outbox[j].operation
  }

  /** Every operation has a state, at a revision that is not ahead of it. */
  ghost predicate RevisionsBounded<S, O>(states: map<string, StoredState<S>>, ops: seq<Operation<O>>) {
    && (forall user :: user in states ==> 1 <= states[user].revision <= Currency.MAX_SAFE)
    && forall op :: op in ops ==> op.key.user in states && 1 <= op.revision <= states[op.key.user].revision
  }

  /** A materialisation is reported under the revision it led to. */
  ghost predicate SystemIdsMatch<O>(ops: seq<Operation<O>>) {
    forall op :: op in ops && op.key.source.FromSystem? ==> op.key.operationId == MaterializeId(op.revision)
  }

  ghost predicate DbSound<S, O, M>(db: Db<S, O, M>) {
    && IdsIncrease(db.operations) && KeysDistinct(db.operations)
    && OutboxIdsIncrease(db.outbox) && OutboxRefers(db.operations, db.outbox)
    && RevisionsBounded(db.states, db.operations) && SystemIdsMatch(db.operations)
  }

  lemma {:induction false} EmptyIsSound<S, O, M>()
    ensures DbSound<S, O, M>(Db(map[], [], []))
  {
  }

  // ---------------------------------------------------------------- committing a row

  lemma {:induction false} NextIdIsLarger<O>(ops: seq<Operation<O>>)
    requires IdsIncrease(ops)
    ensures NextOperationId(ops) >= 1 && forall op :: op in ops ==> op.id < NextOperationId(ops)
  {
  }

  lemma {:induction false} NextOutboxIdIsLarger<M>(outbox: seq<OutboxRow<M>>)
    requires OutboxIdsIncrease(outbox)
    ensures forall row :: row in outbox ==> row.id < NextOutboxId(outbox)
  {
  }

  lemma {:induction false} AppendKeepsIds<O>(ops: seq<Operation<O>>, op: Operation<O>)
    requires IdsIncrease(ops) && KeysDistinct(ops) && op.id == NextOperationId(ops)
    requires forall x :: x in ops ==> x.key != op.key
    ensures IdsIncrease(ops + [op]) && KeysDistinct(ops + [op])
  {
    NextIdIsLarger(ops);
  }

  lemma {:induction false} OwnerRemains<O, M>(ops: seq<Operation<O>>, op: Operation<O>, row: OutboxRow<M>)
    requires HasOwner(ops, row)
    ensures HasOwner(ops + [op], row)
  {
    var k :| 0 <= k < |ops| && BelongsTo(row, ops[k]);
    assert (ops + [op])[k] == ops[k];
  }

  lemma {:induction false} OwnerIsOlder<O, M>(ops: seq<Operation<O>>, row: OutboxRow<M>)
    requires IdsIncrease(ops) && HasOwner(ops, row)
    ensures row.operation < NextOperationId(ops)
  {
    var k :| 0 <= k < |ops| && BelongsTo(row, ops[k]);
    NextIdIsLarger(ops);
    assert ops[k] in ops;
  }

  lemma {:induction false} PostKeepsOutbox<O, M>(ops: seq<Operation<O>>, outbox: seq<OutboxRow<M>>, op: Operation<O>, chatId: string, message: Option<M>)
    requires IdsIncrease(ops) && OutboxIdsIncrease(outbox) && OutboxRefers(ops, outbox) && op.id == NextOperationId(ops)
    ensures OutboxIdsIncrease(Posted(outbox, op.id, op.key.user, chatId, message))
    ensures OutboxRefers(ops + [op], Posted(outbox, op.id, op.key.user, chatId, message))
  {
    hide HasOwner, IdsIncrease, NextOperationId;
    NextOutboxIdIsLarger(outbox);
    var all := Posted(outbox, op.id, op.key.user, chatId, message);
    forall i | 0 <= i < |outbox|
      ensures HasOwner(ops + [op], outbox[i]) && outbox[i].operation < op.id
    {
      OwnerRemains(ops, op, outbox[i]);
      OwnerIsOlder(ops, outbox[i]);
    }
    if message.Some? {
      assert HasOwner(ops + [op], all[|outbox|]) by { NewOwner(ops, op, all[|outbox|]); }
    }
  }

  lemma {:induction false} NewOwner<O, M>(ops: seq<Operation<O>>, op: Operation<O>, row: OutboxRow<M>)
    requires BelongsTo(row, op)
    ensures HasOwner(ops + [op], row)
  {
    assert (ops + [op])[|ops|] == op;
  }

  lemma {:induction false} CommitKeepsRevisions<S, O>(states: map<string, StoredState<S>>, ops: seq<Operation<O>>, op: Operation<O>, stored: StoredState<S>)
    requires RevisionsBounded(states, ops) && op.key.user in states && op.revision == stored.revision
    requires states[op.key.user].revision <= stored.revision <= Currency.MAX_SAFE
    ensures RevisionsBounded(states[op.key.user := stored], ops + [op])
  {
  }

  /** Committing an operation with a fresh key keeps the tables sound. */
  lemma {:induction false} CommitKeepsSound<S, O, M>(db: Db<S, O, M>, kept: seq<Operation<O>>, q: Request, t: StateTransition<S, O, M>)
    requires DbSound(db.(operations := kept)) && q.user in db.states && (t.outbox.Some? ==> q.chatId.Some?)
    requires forall x :: x in kept ==> x.key != KeyOf(q)
    requires t.state != db.states[q.user].state ==> db.states[q.user].revision < Currency.MAX_SAFE
    requires q.source.FromSystem? ==> q.operationId == MaterializeId(NextRevision(db.states[q.user], t.state))
    ensures DbSound(Commit(db, kept, q, t).0)
  {
    hide MaterializeId, IdsIncrease, KeysDistinct, OutboxIdsIncrease, OutboxRefers, RevisionsBounded;
    var current := db.states[q.user];
    var revision := NextRevision(current, t.state);
    var op := Operation(NextOperationId(kept), KeyOf(q), q.hash, t.outcome, revision);
    var chatId := if q.chatId.Some? then q.chatId.value else "";
    AppendKeepsIds(kept, op);
    PostKeepsOutbox(kept, db.outbox, op, chatId, t.outbox);
    RevisionOfState(db.states, kept, q.user);
    CommitKeepsRevisions(db.states, kept, op, StoredState(t.state, revision));
  }

  lemma {:induction false} RevisionOfState<S, O>(states: map<string, StoredState<S>>, ops: seq<Operation<O>>, user: string)
    requires RevisionsBounded(states, ops) && user in states
    ensures 1 <= states[user].revision <= Currency.MAX_SAFE
  {
  }

  lemma {:induction false} EvictKeepsSound<S, O, M>(db: Db<S, O, M>, user: string, n: nat)
    requires DbSound(db)
    ensures DbSound(db.(operations := Evict(db.operations, db.outbox, user, n)))
  {
    hide MaterializeId, IdsIncrease, KeysDistinct, OutboxIdsIncrease;
    var kept := Evict(db.operations, db.outbox, user, n);
    EvictIsPart(db.operations, db.outbox, user, n);
    forall i | 0 <= i < |db.outbox|
      ensures HasOwner(kept, db.outbox[i])
    {
      OwnerStays(db.operations, db.outbox, user, n, i);
    }
  }

  lemma {:induction false} OwnerStays<O, M>(ops: seq<Operation<O>>, outbox: seq<OutboxRow<M>>, user: string, n: nat, i: nat)
    requires i < |outbox| && HasOwner(ops, outbox[i])
    ensures HasOwner(Evict(ops, outbox, user, n), outbox[i])
  {
    hide Evict;
    var k :| 0 <= k < |ops| && BelongsTo(outbox[i], ops[k]);
    assert HasOutbox(outbox, ops[k].id);
    EvictSpares(ops, outbox, user, n, ops[k]);
    var kept := Evict(ops, outbox, user, n);
    var j :| 0 <= j < |kept| && kept[j] == ops[k];
  }

  // ---------------------------------------------------------------- a user operation

  /** The cases of a user operation: an answer from the log, a refusal, or one new row. */
  ghost predicate Committed<S, O, M>(db: Db<S, O, M>, limit: nat, q: Request, transition: S -> Option<StateTransition<S, O, M>>,
                                     after: Db<S, O, M>, answer: Answer<S, O>)
  {
    var needed := NeededSlots(db.operations, limit, q);
    && FindOperation(db.operations, KeyOf(q)).None?
    && needed <= CountEvictable(db.operations, db.outbox, q.user)
    && q.user in db.states && transition(db.states[q.user].state).Some?
    && var t := transition(db.states[q.user].state).value;
    && (t.state != db.states[q.user].state ==> db.states[q.user].revision != Currency.MAX_SAFE)
    && (t.outbox.Some? ==> q.chatId.Some?)
    && (after, answer) == Commit(db, Evict(db.operations, db.outbox, q.user, needed), q, t)
  }

  lemma {:induction false} ExecuteCases<S, O, M>(db: Db<S, O, M>, limit: nat, q: Request, transition: S -> Option<StateTransition<S, O, M>>)
    ensures var (after, answer) := Execute(db, limit, q, transition);
            || (after == db && (answer.Failed? || answer.replayed))
            || Committed(db, limit, q, transition, after, answer)
  {
    hide Evict, CountEvictable, NeededSlots, Commit;
  }

  /** A user operation keeps the tables sound. The service refuses any other source. */
  lemma {:induction false} ExecuteKeepsSound<S, O, M>(db: Db<S, O, M>, limit: nat, q: Request, transition: S -> Option<StateTransition<S, O, M>>)
    requires DbSound(db) && !q.source.FromSystem?
    ensures DbSound(Execute(db, limit, q, transition).0)
  {
    hide DbSound, Execute, Evict, Commit, CountEvictable, NeededSlots;
    ExecuteCases(db, limit, q, transition);
    var (after, answer) := Execute(db, limit, q, transition);
    if Committed(db, limit, q, transition, after, answer) {
      var needed := NeededSlots(db.operations, limit, q);
      var kept := Evict(db.operations, db.outbox, q.user, needed);
      EvictKeepsSound(db, q.user, needed);
      EvictIsPart(db.operations, db.outbox, q.user, needed);
      StateRevision(db, q.user);
      CommitKeepsSound(db, kept, q, transition(db.states[q.user].state).value);
    }
  }

  lemma {:induction false} StateRevision<S, O, M>(db: Db<S, O, M>, user: string)
    requires DbSound(db) && user in db.states
    ensures 1 <= db.states[user].revision <= Currency.MAX_SAFE
  {
  }

  /** After each committed user operation the user's rows are within the limit; the rows removed are the
      oldest ones without a message, and the one row added is the youngest of all. */
  lemma {:induction false} RetentionHolds<S, O, M>(db: Db<S, O, M>, limit: nat, q: Request, transition: S -> Option<StateTransition<S, O, M>>)
    requires DbSound(db) && limit >= 1 && (q.source.FromTelegram? || q.source.FromTma?)
    requires var answer := Execute(db, limit, q, transition).1; answer.Answered? && !answer.replayed
    ensures CountUser(Execute(db, limit, q, transition).0.operations, q.user) <= limit
    ensures var ops := Execute(db, limit, q, transition).0.operations;
            && ops != []
            && (forall x :: x in db.operations && x !in ops ==> IsEvictable(x, db.outbox, q.user))
            && (forall x, y :: x in db.operations && x !in ops && y in ops && y in db.operations && IsEvictable(y, db.outbox, q.user)
                               ==> x.id < y.id)
            && (forall x :: x in ops[..|ops| - 1] ==> x in db.operations && x.id < ops[|ops| - 1].id)
            && ops[|ops| - 1].key == KeyOf(q)
  {
    hide DbSound, Execute, Evict, CountEvictable, IsEvictable, CountUser, Posted;
    ExecuteCases(db, limit, q, transition);
    IdsOf(db);
    var needed := NeededSlots(db.operations, limit, q);
    var kept := Evict(db.operations, db.outbox, q.user, needed);
    var ops := Execute(db, limit, q, transition).0.operations;
    assert ops[..|ops| - 1] == kept;
    EvictCounts(db.operations, db.outbox, q.user, needed);
    CountAppended(kept, ops[|ops| - 1], q.user);
    EvictIsPart(db.operations, db.outbox, q.user, needed);
    NextIdIsLarger(kept);
    EvictionOrder(db, kept, needed, q.user);
    assert forall x :: x in kept ==> x in ops;
  }

  lemma {:induction false} IdsOf<S, O, M>(db: Db<S, O, M>)
    requires DbSound(db)
    ensures IdsIncrease(db.operations) && KeysDistinct(db.operations)
  {
  }

  lemma {:induction false} EvictionOrder<S, O, M>(db: Db<S, O, M>, kept: seq<Operation<O>>, needed: nat, user: string)
    requires IdsIncrease(db.operations) && kept == Evict(db.operations, db.outbox, user, needed)
    ensures forall x :: x in db.operations && x !in kept ==> IsEvictable(x, db.outbox, user)
    ensures forall x, y :: x in db.operations && x !in kept && y in kept && IsEvictable(y, db.outbox, user) ==> x.id < y.id
  {
    hide Evict, IsEvictable, IdsIncrease;
    forall x | x in db.operations && x !in kept
      ensures IsEvictable(x, db.outbox, user)
    {
      if !IsEvictable(x, db.outbox, user) {
        EvictSpares(db.operations, db.outbox, user, needed, x);
      }
    }
    forall x, y | x in db.operations && x !in kept && y in kept && IsEvictable(y, db.outbox, user)
      ensures x.id < y.id
    {
      EvictsOldest(db.operations, db.outbox, user, needed, x, y);
    }
  }

  /** The revision rises by one exactly when the state changes, the new operation carries it, and no other
      user's state is touched. */
  lemma {:induction false} RevisionCountsChanges<S, O, M>(db: Db<S, O, M>, limit: nat, q: Request, transition: S -> Option<StateTransition<S, O, M>>)
    ensures var (after, answer) := Execute(db, limit, q, transition);
            && after.states.Keys == db.states.Keys
            && (forall user :: user in db.states && user != q.user ==> after.states[user] == db.states[user])
            && (q.user in db.states ==>
                  after.states[q.user].revision
                  == db.states[q.user].revision + if after.states[q.user].state != db.states[q.user].state then 1 else 0)
            && (answer.Answered? && !answer.replayed ==>
                  && q.user in db.states && answer.state == after.states[q.user]
                  && answer.operationRevision == answer.state.revision
                  && transition(db.states[q.user].state).Some?
                  && after.states[q.user].state == transition(db.states[q.user].state).value.state)
  {
    hide Execute, Evict, CountEvictable, NeededSlots, NextOperationId, Posted;
    ExecuteCases(db, limit, q, transition);
    var (after, answer) := Execute(db, limit, q, transition);
    if after != db {
      assert q.user in db.states;
    }
  }

  // ---------------------------------------------------------------- retries

  lemma {:induction false} FindIsUnique<O>(ops: seq<Operation<O>>, i: nat)
    requires KeysDistinct(ops) && i < |ops|
    ensures FindOperation(ops, ops[i].key) == Some(i)
  {
    var found := FindOperation(ops, ops[i].key);
    if found.Some? && found.value < i {
    } else if found.Some? && found.value > i {
    }
  }

  /** While an operation is retained, a retry gets its stored outcome and revision and changes nothing,
      whatever the retry would do; another command under the same key conflicts and changes nothing. */
  lemma {:induction false} RetryIsAnswered<S, O, M>(db: Db<S, O, M>, limit: nat, q: Request, transition: S -> Option<StateTransition<S, O, M>>,
                                                    op: Operation<O>)
    requires DbSound(db) && op in db.operations && KeyOf(q) == op.key
    ensures q.user in db.states
    ensures Execute(db, limit, q, transition)
         == (db, if q.hash == op.hash then Answered(true, op.id, op.revision, db.states[q.user], op.outcome) else Failed(IdempotencyConflict))
  {
    IdsOf(db);
    OwnerHasState(db, op);
    hide DbSound, Evict, CountEvictable, NeededSlots, KeysDistinct, FindOperation;
    var i :| 0 <= i < |db.operations| && db.operations[i] == op;
    FindIsUnique(db.operations, i);
  }

  lemma {:induction false} OwnerHasState<S, O, M>(db: Db<S, O, M>, op: Operation<O>)
    requires DbSound(db) && op in db.operations
    ensures op.key.user in db.states && 1 <= op.revision <= db.states[op.key.user].revision
  {
  }

  // ---------------------------------------------------------------- imports and materialisations

  lemma {:induction false} ImportKeepsSound<S, O, M>(db: Db<S, O, M>, user: string, operationId: string, hash: string, state: S, outcome: O)
    requires DbSound(db)
    ensures DbSound(ImportState(db, user, operationId, hash, state, outcome).0)
  {
    hide FindOperation, MaterializeId, IdsIncrease, KeysDistinct, OutboxIdsIncrease;
    var key := OperationKey(user, FromImport, operationId);
    if Replay(db, key, hash).None? && user !in db.states {
      var op := Operation(NextOperationId(db.operations), key, hash, outcome, 1);
      AppendKeepsIds(db.operations, op);
      var after := ImportState(db, user, operationId, hash, state, outcome).0;
      assert after.operations == db.operations + [op];
      forall i | 0 <= i < |db.outbox|
        ensures HasOwner(after.operations, db.outbox[i])
      {
        OwnerRemains(db.operations, op, db.outbox[i]);
      }
    }
  }

  /** The identifier of a materialisation is never taken: every older one names a smaller revision. */
  lemma {:induction false} MaterializationIsFresh<S, O, M>(db: Db<S, O, M>, user: string, revision: nat)
    requires DbSound(db) && user in db.states && revision > db.states[user].revision
    ensures FindOperation(db.operations, OperationKey(user, FromSystem, MaterializeId(revision))).None?
  {
    var key := OperationKey(user, FromSystem, MaterializeId(revision));
    hide FindOperation, MaterializeId, IdsIncrease, KeysDistinct, OutboxIdsIncrease, OutboxRefers;
    var found := FindOperation(db.operations, key);
    if found.Some? {
      var op := db.operations[found.value];
      assert op in db.operations;
      MaterializeIdNames(op.revision, revision);
    }
  }

  lemma {:induction false} MaterializeIdNames(m: nat, n: nat)
    requires MaterializeId(m) == MaterializeId(n)
    ensures m == n
  {
    assert MaterializeId(m)[12..] == Show(m) && MaterializeId(n)[12..] == Show(n);
    ShowIsInjective(m, n);
  }

  /** A materialisation keeps the tables sound and never fails for a taken identifier. */
  lemma {:induction false} MutateKeepsSound<S, O, M>(db: Db<S, O, M>, user: string, hash: string, transition: S -> Option<StateTransition<S, O, M>>)
    requires DbSound(db)
    ensures DbSound(Mutate(db, user, hash, transition).0)
    ensures Mutate(db, user, hash, transition).1 != NotMutated(DuplicateOperation)
  {
    hide DbSound, FindOperation, MaterializeId, Commit;
    if user in db.states && transition(db.states[user].state).Some? {
      var current := db.states[user];
      var t := transition(current.state).value;
      StateRevision(db, user);
      if t.state != current.state && current.revision < Currency.MAX_SAFE {
        if t.outbox.Some? {
          var q := Request(user, FromSystem, MaterializeId(current.revision + 1), hash, Some(user));
          MaterializationIsFresh(db, user, current.revision + 1);
          assert db.(operations := db.operations) == db;
          CommitKeepsSound(db, db.operations, q, t);
        } else {
          StateAdvances(db, user, StoredState(t.state, current.revision + 1));
        }
      } else if t.outbox.None? {
        StateAdvances(db, user, StoredState(t.state, current.revision));
      }
    }
  }

  lemma {:induction false} StateAdvances<S, O, M>(db: Db<S, O, M>, user: string, stored: StoredState<S>)
    requires DbSound(db) && user in db.states && db.states[user].revision <= stored.revision <= Currency.MAX_SAFE
    ensures DbSound(db.(states := db.states[user := stored]))
  {
    hide IdsIncrease, KeysDistinct, OutboxIdsIncrease, OutboxRefers, SystemIdsMatch;
  }

  // ---------------------------------------------------------------- messages

  lemma {:induction false} WithoutIsPart<M>(outbox: seq<OutboxRow<M>>, id: nat)
    ensures forall row :: row in WithoutOutbox(outbox, id) ==> row in outbox && row.id != id
    ensures OutboxIdsIncrease(outbox) ==> OutboxIdsIncrease(WithoutOutbox(outbox, id))
    decreases |outbox|
  {
    if outbox != [] {
      WithoutIsPart(outbox[1..], id);
    }
  }

  lemma {:induction false} OtherMessagesStay<M>(outbox: seq<OutboxRow<M>>, id: nat, row: OutboxRow<M>)
    requires row in outbox && row.id != id
    ensures row in WithoutOutbox(outbox, id)
    decreases |outbox|
  {
    if row != outbox[0] {
      OtherMessagesStay(outbox[1..], id, row);
    }
  }

  lemma {:induction false} WithoutKeepsOwners<O, M>(ops: seq<Operation<O>>, outbox: seq<OutboxRow<M>>, id: nat)
    requires OutboxRefers(ops, outbox)
    ensures OutboxRefers(ops, WithoutOutbox(outbox, id))
    decreases |outbox|
  {
    hide HasOwner;
    if outbox != [] {
      assert OutboxRefers(ops, outbox[1..]);
      WithoutKeepsOwners(ops, outbox[1..], id);
      WithoutIsPart(outbox[1..], id);
      var rest := WithoutOutbox(outbox[1..], id);
      forall k | 0 <= k < |rest|
        ensures rest[k].operation != outbox[0].operation
      {
        assert rest[k] in outbox[1..];
      }
    }
  }

  /** Delivering or putting off a message keeps the tables sound and touches neither states nor operations. */
  lemma {:induction false} DeliveryKeepsSound<S, O, M>(db: Db<S, O, M>, id: nat, attempts: nat, nextAttemptAt: nat)
    requires DbSound(db)
    ensures DbSound(CompleteOutbox(db, id)) && DbSound(DeferOutbox(db, id, attempts, nextAttemptAt))
  {
    WithoutIsPart(db.outbox, id);
    WithoutKeepsOwners(db.operations, db.outbox, id);
    DeferKeepsOwners(db.operations, db.outbox, DeferOutbox(db, id, attempts, nextAttemptAt).outbox);
    hide IdsIncrease, KeysDistinct, RevisionsBounded, SystemIdsMatch, OutboxRefers, WithoutOutbox;
  }

  lemma {:induction false} DeferKeepsOwners<O, M>(ops: seq<Operation<O>>, before: seq<OutboxRow<M>>, after: seq<OutboxRow<M>>)
    requires OutboxRefers(ops, before) && |before| == |after|
    requires forall i :: 0 <= i < |before| ==>
               after[i].id == before[i].id && after[i].operation == before[i].operation && after[i].user == before[i].user
    ensures OutboxRefers(ops, after)
    ensures OutboxIdsIncrease(before) ==> OutboxIdsIncrease(after)
  {
    forall i | 0 <= i < |after|
      ensures HasOwner(ops, after[i])
    {
      assert HasOwner(ops, before[i]);
      var k :| 0 <= k < |ops| && BelongsTo(before[i], ops[k]);
      assert BelongsTo(after[i], ops[k]);
    }
  }

  // ---------------------------------------------------------------- what a commit writes

  /** One message more, at the end: for this operation, user and chat, not tried yet and due at once, under an
      identifier larger than all others. */
  ghost predicate QueuesOne<M>(before: seq<OutboxRow<M>>, after: seq<OutboxRow<M>>, operation: nat, user: string, chatId: string, message: M) {
    && |after| == |before| + 1 && before <= after
    && var row := after[|before|];
    && row == OutboxRow(row.id, operation, user, chatId, message, 0, 0)
    && forall i :: 0 <= i < |before| ==> before[i].id < row.id
  }

  ghost predicate AddsOne<O>(before: seq<Operation<O>>, after: seq<Operation<O>>, op: Operation<O>) {
    && after == before + [op]
    && forall i :: 0 <= i < |before| ==> before[i].id < op.id
  }

  lemma {:induction false} PostedQueues<S, O, M>(db: Db<S, O, M>, operation: nat, user: string, chatId: string, message: Option<M>)
    requires DbSound(db)
    ensures var after := Posted(db.outbox, operation, user, chatId, message);
            if message.Some? then QueuesOne(db.outbox, after, operation, user, chatId, message.value) else after == db.outbox
  {
    NextOutboxIdIsLarger(db.outbox);
    assert forall i :: 0 <= i < |db.outbox| ==> db.outbox[i] in db.outbox;
  }

  /** A committed user operation stores the state of its transition, one row under its key with its hash,
      outcome and revision, and its message if it has one; nothing else is written. */
  lemma {:induction false} ExecuteWrites<S, O, M>(db: Db<S, O, M>, limit: nat, q: Request, transition: S -> Option<StateTransition<S, O, M>>)
    requires DbSound(db)
    ensures var (after, answer) := Execute(db, limit, q, transition);
            if answer.Answered? && !answer.replayed then
              && q.user in db.states && transition(db.states[q.user].state).Some?
              && var t := transition(db.states[q.user].state).value;
              && answer.outcome == t.outcome && answer.state == StoredState(t.state, answer.operationRevision)
              && after.states == db.states[q.user := answer.state]
              && after.operations != []
              && AddsOne(after.operations[..|after.operations| - 1], after.operations,
                         Operation(answer.operationId, KeyOf(q), q.hash, t.outcome, answer.operationRevision))
              && (t.outbox.Some? ==>
                    && q.chatId.Some?
                    && QueuesOne(db.outbox, after.outbox, answer.operationId, q.user, q.chatId.value, t.outbox.value))
              && (t.outbox.None? ==> after.outbox == db.outbox)
            else after == db
  {
    hide DbSound, Execute, Evict, CountEvictable, NeededSlots, Posted, FindOperation, QueuesOne, NextOperationId;
    ExecuteCases(db, limit, q, transition);
    var (after, answer) := Execute(db, limit, q, transition);
    if Committed(db, limit, q, transition, after, answer) {
      var t := transition(db.states[q.user].state).value;
      var needed := NeededSlots(db.operations, limit, q);
      var kept := Evict(db.operations, db.outbox, q.user, needed);
      PostedQueues(db, answer.operationId, q.user, if q.chatId.Some? then q.chatId.value else "", t.outbox);
      IdsOf(db);
      EvictIsPart(db.operations, db.outbox, q.user, needed);
      NextIdIsLarger(kept);
      assert after.operations[..|after.operations| - 1] == kept;
      assert forall i :: 0 <= i < |kept| ==> kept[i] in kept;
    }
  }

  /** A change outside user operations writes its state; a message is queued for the user's own chat with one
      row under the identifier of the new revision. */
  lemma {:induction false} MutateWrites<S, O, M>(db: Db<S, O, M>, user: string, hash: string, transition: S -> Option<StateTransition<S, O, M>>)
    requires DbSound(db)
    ensures var (after, mutation) := Mutate(db, user, hash, transition);
            if mutation.Mutated? then
              && user in db.states && transition(db.states[user].state).Some?
              && var t, current := transition(db.states[user].state).value, db.states[user];
              && mutation.changed == (t.state != current.state)
              && mutation.state == StoredState(t.state, current.revision + if mutation.changed then 1 else 0)
              && after.states == db.states[user := mutation.state]
              && (t.outbox.None? ==> after.operations == db.operations && after.outbox == db.outbox)
              && (t.outbox.Some? ==>
                    && mutation.changed && |after.operations| == |db.operations| + 1
                    && var op := after.operations[|db.operations|];
                    && AddsOne(db.operations, after.operations, op)
                    && op == Operation(op.id, OperationKey(user, FromSystem, "materialize:" + Show(mutation.state.revision)), hash,
                                       t.outcome, mutation.state.revision)
                    && QueuesOne(db.outbox, after.outbox, op.id, user, user, t.outbox.value))
            else after == db
  {
    hide DbSound, Posted, FindOperation, QueuesOne, NextOperationId;
    var (after, mutation) := Mutate(db, user, hash, transition);
    if mutation.Mutated? && transition(db.states[user].state).value.outbox.Some? {
      var t := transition(db.states[user].state).value;
      IdsOf(db);
      NextIdIsLarger(db.operations);
      PostedQueues(db, NextOperationId(db.operations), user, user, t.outbox);
      assert forall i :: 0 <= i < |db.operations| ==> db.operations[i] in db.operations;
    }
  }

  /** An import stores the first state at revision one with its row, and no message. */
  lemma {:induction false} ImportWrites<S, O, M>(db: Db<S, O, M>, user: string, operationId: string, hash: string, state: S, outcome: O)
    requires DbSound(db)
    ensures var (after, answer) := ImportState(db, user, operationId, hash, state, outcome);
            if answer.Answered? && !answer.replayed then
              && user !in db.states && answer.state == StoredState(state, 1) && answer.operationRevision == 1 && answer.outcome == outcome
              && after.states == db.states[user := StoredState(state, 1)] && after.outbox == db.outbox
              && AddsOne(db.operations, after.operations,
                         Operation(answer.operationId, OperationKey(user, FromImport, operationId), hash, outcome, 1))
            else after == db
  {
    hide DbSound, FindOperation, NextOperationId;
    IdsOf(db);
    NextIdIsLarger(db.operations);
    assert forall i :: 0 <= i < |db.operations| ==> db.operations[i] in db.operations;
  }

  // ---------------------------------------------------------------- when a user operation fails

  ghost predicate IsStored<O>(ops: seq<Operation<O>>, key: OperationKey) {
    exists i :: 0 <= i < |ops| && ops[i].key == key
  }

  /** The user's log is full and too few of its rows may go. */
  predicate IsOutOfRoom<S, O, M>(db: Db<S, O, M>, limit: nat, q: Request) {
    && (q.source.FromTelegram? || q.source.FromTma?)
    && CountUser(db.operations, q.user) >= limit
    && CountEvictable(db.operations, db.outbox, q.user) < CountUser(db.operations, q.user) - limit + 1
  }

  /** Why a fresh user operation fails, in the order of the checks; with none of these reasons it commits. */
  lemma {:induction false} FreshOperationFails<S, O, M>(db: Db<S, O, M>, limit: nat, q: Request, transition: S -> Option<StateTransition<S, O, M>>)
    requires !IsStored(db.operations, KeyOf(q))
    ensures var answer := Execute(db, limit, q, transition).1;
            if IsOutOfRoom(db, limit, q) then answer == Failed(OperationCapacity)
            else if q.user !in db.states then answer == Failed(StateMissing)
            else
              var current := db.states[q.user];
              match transition(current.state)
              case None => answer == Failed(TransitionThrew)
              case Some(t) =>
                if t.state != current.state && current.revision == Currency.MAX_SAFE then answer == Failed(RevisionOverflow)
                else if t.outbox.Some? && q.chatId.None? then answer == Failed(OutboxNeedsChat)
                else answer.Answered? && !answer.replayed
  {
    hide CountUser, CountEvictable, Evict, Posted, NextOperationId;
    var found := FindOperation(db.operations, KeyOf(q));
    assert found.None?;
  }

  /** Eviction takes no more rows than it must: below the limit none, and at the limit just enough for the new
      row, so that a full log stays exactly full. */
  lemma {:induction false} EvictionIsMinimal<S, O, M>(db: Db<S, O, M>, limit: nat, q: Request, transition: S -> Option<StateTransition<S, O, M>>)
    requires DbSound(db) && limit >= 1 && (q.source.FromTelegram? || q.source.FromTma?)
    requires var answer := Execute(db, limit, q, transition).1; answer.Answered? && !answer.replayed
    ensures var before, ops := CountUser(db.operations, q.user), Execute(db, limit, q, transition).0.operations;
            && ops != []
            && if before < limit then ops[..|ops| - 1] == db.operations && CountUser(ops, q.user) == before + 1
               else CountUser(ops, q.user) == limit && |ops| == |db.operations| - (before - limit)
  {
    hide DbSound, Execute, Evict, CountEvictable, IsEvictable, CountUser, Posted, NextOperationId;
    ExecuteCases(db, limit, q, transition);
    var needed := NeededSlots(db.operations, limit, q);
    var kept := Evict(db.operations, db.outbox, q.user, needed);
    var ops := Execute(db, limit, q, transition).0.operations;
    assert ops[..|ops| - 1] == kept;
    EvictCounts(db.operations, db.outbox, q.user, needed);
    EvictNothing(db.operations, db.outbox, q.user);
    CountAppended(kept, ops[|ops| - 1], q.user);
  }
}
