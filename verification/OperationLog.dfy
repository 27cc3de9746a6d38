/** What one transaction of the server's repository does to its tables: the specification of
    `bot/repository.ts`. A transaction that throws is rolled back, so it gives back the tables it started
    from. */
module OperationLog {
  import opened Wrappers
  import opened Money
  import Currency

  datatype Source = FromImport | FromTelegram | FromTma | FromSystem

  /** The unique index of the operations table. */
  datatype OperationKey = OperationKey(user: string, source: Source, operationId: string)

  datatype Operation<O> = Operation(id: nat, key: OperationKey, hash: string, outcome: O, revision: nat)

  datatype OutboxRow<M> = OutboxRow(
    id: nat, operation: nat, user: string, chatId: string, message: M, attempts: nat, nextAttemptAt: nat)

  datatype StoredState<S> = StoredState(state: S, revision: nat)

  /** The three tables. Operations and outbox rows stand in the order of their identifiers. */
  datatype Db<S, O, M> = Db(states: map<string, StoredState<S>>, operations: seq<Operation<O>>, outbox: seq<OutboxRow<M>>)

  datatype StateTransition<S, O, M> = StateTransition(state: S, outcome: O, outbox: Option<M>)

  datatype RepositoryError =
    | IdempotencyConflict | OperationCapacity | StateMissing | StateAlreadyExists | TransitionThrew
    | RevisionOverflow | OutboxNeedsChat | OutboxNeedsChange | DuplicateOperation

  datatype Answer<S, O> =
    | Answered(replayed: bool, operationId: nat, operationRevision: nat, state: StoredState<S>, outcome: O)
    | Failed(error: RepositoryError)

  datatype Request = Request(user: string, source: Source, operationId: string, hash: string, chatId: Option<string>)

  function KeyOf(q: Request): OperationKey {
    OperationKey(q.user, q.source, q.operationId)
  }

  // ---------------------------------------------------------------- looking rows up

  function FindOperation<O>(ops: seq<Operation<O>>, key: OperationKey): (r: Option<nat>)
    ensures r.Some? ==> r.value < |ops| && ops[r.value].key == key
    ensures r.None? ==> forall i :: 0 <= i < |ops| ==> ops[i].key != key
  {
    if ops == [] then None
    else if ops[0].key == key then Some(0)
    else match FindOperation(ops[1..], key)
      case None => None
      case Some(i) => Some(i + 1)
  }

  /** A stored operation answers for itself; another command under the same key is a conflict. */
  function Replay<S, O, M>(db: Db<S, O, M>, key: OperationKey, hash: string): Option<Answer<S, O>> {
    var found := FindOperation(db.operations, key);
    if found.None? then None
    else
      var op := db.operations[found.value];
      if op.hash != hash then Some(Failed(IdempotencyConflict))
      else if key.user !in db.states then Some(Failed(StateMissing))
      else Some(Answered(true, op.id, op.revision, db.states[key.user], op.outcome))
  }

  // ---------------------------------------------------------------- retention

  predicate IsUserOperation<O>(op: Operation<O>, user: string) {
    op.key.user == user && (op.key.source.FromTelegram? || op.key.source.FromTma?)
  }

  predicate HasOutbox<M>(outbox: seq<OutboxRow<M>>, operation: nat) {
    exists i :: 0 <= i < |outbox| && outbox[i].operation == operation
  }

  /** An operation of the user whose message, if any, is delivered. */
  predicate IsEvictable<O, M>(op: Operation<O>, outbox: seq<OutboxRow<M>>, user: string) {
    IsUserOperation(op, user) && !HasOutbox(outbox, op.id)
  }

  function CountUser<O>(ops: seq<Operation<O>>, user: string): nat {
    if ops == [] then 0
    else CountUser(ops[1..], user) + if IsUserOperation(ops[0], user) then 1 else 0
  }

  function CountEvictable<O, M>(ops: seq<Operation<O>>, outbox: seq<OutboxRow<M>>, user: string): nat {
    if ops == [] then 0
    else CountEvictable(ops[1..], outbox, user) + if IsEvictable(ops[0], outbox, user) then 1 else 0
  }

  /** The operations without the first `n` evictable ones. */
  function Evict<O, M>(ops: seq<Operation<O>>, outbox: seq<OutboxRow<M>>, user: string, n: nat): seq<Operation<O>> {
    if n == 0 || ops == [] then ops
    else if IsEvictable(ops[0], outbox, user) then Evict(ops[1..], outbox, user, n - 1)
    else [ops[0]] + Evict(ops[1..], outbox, user, n)
  }

  /** How many rows have to go before a fresh user operation fits. */
  function NeededSlots<O>(ops: seq<Operation<O>>, limit: nat, q: Request): nat {
    var count := CountUser(ops, q.user);
    if !(q.source.FromTelegram? || q.source.FromTma?) || count < limit then 0 else count - limit + 1
  }

  // ---------------------------------------------------------------- writing rows

  /** A new row gets the largest identifier plus one. */
  function NextOperationId<O>(ops: seq<Operation<O>>): nat {
    if ops == [] then 1 else ops[|ops| - 1].id + 1
  }

  function NextOutboxId<M>(outbox: seq<OutboxRow<M>>): nat {
    if outbox == [] then 1 else outbox[|outbox| - 1].id + 1
  }

  /** The revision counts the changes of the canonical state. */
  function NextRevision<S(==)>(current: StoredState<S>, state: S): nat {
    if state != current.state then current.revision + 1 else current.revision
  }

  function Posted<M>(outbox: seq<OutboxRow<M>>, operation: nat, user: string, chatId: string, message: Option<M>): seq<OutboxRow<M>> {
    if message.None? then outbox
    else outbox + [OutboxRow(NextOutboxId(outbox), operation, user, chatId, message.value, 0, 0)]
  }

  // ---------------------------------------------------------------- the transactions

  function Commit<S(==), O, M>(db: Db<S, O, M>, kept: seq<Operation<O>>, q: Request, t: StateTransition<S, O, M>): (Db<S, O, M>, Answer<S, O>)
    requires q.user in db.states && (t.outbox.Some? ==> q.chatId.Some?)
  {
    var current := db.states[q.user];
    var revision := NextRevision(current, t.state);
    var id := NextOperationId(kept);
    var stored := StoredState(t.state, revision);
    (Db(db.states[q.user := stored],
        kept + [Operation(id, KeyOf(q), q.hash, t.outcome, revision)],
        Posted(db.outbox, id, q.user, if q.chatId.Some? then q.chatId.value else "", t.outbox)),
     Answered(false, id, revision, stored, t.outcome))
  }

  function Execute<S(==), O, M>(db: Db<S, O, M>, limit: nat, q: Request, transition: S -> Option<StateTransition<S, O, M>>):
      (Db<S, O, M>, Answer<S, O>)
  {
    var replay := Replay(db, KeyOf(q), q.hash);
    if replay.Some? then (db, replay.value)
    else
      var needed := NeededSlots(db.operations, limit, q);
      if CountEvictable(db.operations, db.outbox, q.user) < needed then (db, Failed(OperationCapacity))
      else if q.user !in db.states then (db, Failed(StateMissing))
      else
        var current := db.states[q.user];
        match transition(current.state)
        case None => (db, Failed(TransitionThrew))
        case Some(t) =>
          if t.state != current.state && current.revision == Currency.MAX_SAFE then (db, Failed(RevisionOverflow))
          else if t.outbox.Some? && q.chatId.None? then (db, Failed(OutboxNeedsChat))
          else Commit(db, Evict(db.operations, db.outbox, q.user, needed), q, t)
  }

  function ImportState<S, O, M>(db: Db<S, O, M>, user: string, operationId: string, hash: string, state: S, outcome: O):
      (Db<S, O, M>, Answer<S, O>)
  {
    var key := OperationKey(user, FromImport, operationId);
    var replay := Replay(db, key, hash);
    if replay.Some? then (db, replay.value)
    else if user in db.states then (db, Failed(StateAlreadyExists))
    else
      var id := NextOperationId(db.operations);
      (db.(states := db.states[user := StoredState(state, 1)], operations := db.operations + [Operation(id, key, hash, outcome, 1)]),
       Answered(false, id, 1, StoredState(state, 1), outcome))
  }

  /** The identifier of the operation that reports a materialisation: `materialize:<revision>`. */
  function MaterializeId(revision: nat): string { "materialize:" + Show(revision) }

  datatype Mutation<S> = Mutated(changed: bool, state: StoredState<S>) | NotMutated(error: RepositoryError)

  /** A change outside any user operation; only its message leaves an operation behind. `hash` is the digest
      of that message. */
  function Mutate<S(==), O, M>(db: Db<S, O, M>, user: string, hash: string, transition: S -> Option<StateTransition<S, O, M>>):
      (Db<S, O, M>, Mutation<S>)
  {
    if user !in db.states then (db, NotMutated(StateMissing))
    else
      var current := db.states[user];
      match transition(current.state)
      case None => (db, NotMutated(TransitionThrew))
      case Some(t) =>
        var changed := t.state != current.state;
        if t.outbox.Some? && !changed then (db, NotMutated(OutboxNeedsChange))
        else if changed && current.revision == Currency.MAX_SAFE then (db, NotMutated(RevisionOverflow))
        else
          var revision := NextRevision(current, t.state);
          var stored := StoredState(t.state, revision);
          var q := Request(user, FromSystem, MaterializeId(revision), hash, Some(user));
          if t.outbox.None? then (db.(states := db.states[user := stored]), Mutated(changed, stored))
          else if FindOperation(db.operations, KeyOf(q)).Some? then (db, NotMutated(DuplicateOperation))
          else (Commit(db, db.operations, q, t).0, Mutated(changed, stored))
  }

  function WithoutOutbox<M>(outbox: seq<OutboxRow<M>>, id: nat): seq<OutboxRow<M>> {
    if outbox == [] then []
    else if outbox[0].id == id then WithoutOutbox(outbox[1..], id)
    else [outbox[0]] + WithoutOutbox(outbox[1..], id)
  }

  function CompleteOutbox<S, O, M>(db: Db<S, O, M>, id: nat): Db<S, O, M> {
    db.(outbox := WithoutOutbox(db.outbox, id))
  }

  const MAX_ATTEMPTS := 31

  /** An attempt is recorded only forwards: more attempts, or a later time once the counter is at its end. */
  predicate Advances<M>(row: OutboxRow<M>, id: nat, attempts: nat, nextAttemptAt: nat) {
    && row.id == id
    && (|| row.attempts < attempts
        || (row.attempts == MAX_ATTEMPTS && attempts == MAX_ATTEMPTS && row.nextAttemptAt < nextAttemptAt))
  }

  function DeferredRows<M>(outbox: seq<OutboxRow<M>>, id: nat, attempts: nat, nextAttemptAt: nat): (r: seq<OutboxRow<M>>)
    ensures |r| == |outbox|
    ensures forall i :: 0 <= i < |r| ==>
              r[i] == if Advances(outbox[i], id, attempts, nextAttemptAt)
                      then outbox[i].(attempts := attempts, nextAttemptAt := nextAttemptAt) else outbox[i]
  {
    seq(|outbox|, i requires 0 <= i < |outbox| =>
      if Advances(outbox[i], id, attempts, nextAttemptAt)
      then outbox[i].(attempts := attempts, nextAttemptAt := nextAttemptAt) else outbox[i])
  }

  function DeferOutbox<S, O, M>(db: Db<S, O, M>, id: nat, attempts: nat, nextAttemptAt: nat): Db<S, O, M> {
    db.(outbox := DeferredRows(db.outbox, id, attempts, nextAttemptAt))
  }
}
