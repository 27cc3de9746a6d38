/** The repository as the server runs it, `bot/repository.ts`: the tables are fields, every transaction is a
    method that changes them step by step, and a transaction that fails is rolled back. */
module Repository {
  import opened Wrappers
  import opened OperationLog
  import opened OperationLogProofs
  import Currency

  // ---------------------------------------------------------------- deleting candidates one by one

  /** The identifiers of the `n` oldest evictable operations, as far as there are that many. */
  function Oldest<O, M>(ops: seq<Operation<O>>, outbox: seq<OutboxRow<M>>, user: string, n: nat): seq<nat> {
    if n == 0 || ops == [] then []
    else if IsEvictable(ops[0], outbox, user) then [ops[0].id] + Oldest(ops[1..], outbox, user, n - 1)
    else Oldest(ops[1..], outbox, user, n)
  }

  function WithoutOperation<O>(ops: seq<Operation<O>>, id: nat): seq<Operation<O>> {
    if ops == [] then []
    else if ops[0].id == id then WithoutOperation(ops[1..], id)
    else [ops[0]] + WithoutOperation(ops[1..], id)
  }

  function WithoutAll<O>(ops: seq<Operation<O>>, ids: seq<nat>): seq<Operation<O>>
    decreases |ids|
  {
    if ids == [] then ops else WithoutAll(WithoutOperation(ops, ids[0]), ids[1..])
  }

  lemma {:induction false} AbsentId<O>(ops: seq<Operation<O>>, id: nat)
    requires forall i :: 0 <= i < |ops| ==> ops[i].id != id
    ensures WithoutOperation(ops, id) == ops
    decreases |ops|
  {
    if ops != [] {
      AbsentId(ops[1..], id);
    }
  }

  lemma {:induction false} OldestAreLater<O, M>(ops: seq<Operation<O>>, outbox: seq<OutboxRow<M>>, user: string, n: nat, bound: nat)
    requires forall i :: 0 <= i < |ops| ==> ops[i].id > bound
    ensures forall k :: 0 <= k < |Oldest(ops, outbox, user, n)| ==> Oldest(ops, outbox, user, n)[k] > bound
    decreases |ops|
  {
    hide IsEvictable;
    if n > 0 && ops != [] {
      OldestAreLater(ops[1..], outbox, user, if IsEvictable(ops[0], outbox, user) then n - 1 else n, bound);
    }
  }

  lemma {:induction false} FirstStays<O>(x: Operation<O>, rest: seq<Operation<O>>, ids: seq<nat>)
    requires forall k :: 0 <= k < |ids| ==> ids[k] != x.id
    ensures WithoutAll([x] + rest, ids) == [x] + WithoutAll(rest, ids)
    decreases |ids|
  {
    if ids != [] {
      assert ([x] + rest)[1..] == rest;
      FirstStays(x, WithoutOperation(rest, ids[0]), ids[1..]);
    }
  }

  /** Deleting the selected candidates one after the other is the eviction. */
  lemma {:induction false} DeletingIsEvicting<O, M>(ops: seq<Operation<O>>, outbox: seq<OutboxRow<M>>, user: string, n: nat)
    requires IdsIncrease(ops)
    ensures WithoutAll(ops, Oldest(ops, outbox, user, n)) == Evict(ops, outbox, user, n)
    decreases |ops|
  {
    hide IsEvictable;
    if n > 0 && ops != [] {
      var rest := ops[1..];
      assert ops == [ops[0]] + rest && IdsIncrease(rest);
      var evicts := IsEvictable(ops[0], outbox, user);
      var m := if evicts then n - 1 else n;
      DeletingIsEvicting(rest, outbox, user, m);
      OldestAreLater(rest, outbox, user, m, ops[0].id);
      var ids := Oldest(rest, outbox, user, m);
      if evicts {
        AbsentId(rest, ops[0].id);
        assert ([ops[0].id] + ids)[1..] == ids;
      } else {
        FirstStays(ops[0], rest, ids);
      }
    }
  }

  class BankRepository<S(==), O, M> {
    var states: map<string, StoredState<S>>
    var operations: seq<Operation<O>>
    var outbox: seq<OutboxRow<M>>
    const limit: nat

    constructor (limit: nat)
      requires limit >= 1
      ensures Tables() == Db(map[], [], []) && Valid() && this.limit == limit
    {
      states, operations, outbox := map[], [], [];
      this.limit := limit;
      new;
      EmptyIsSound<S, O, M>();
    }

    function Tables(): Db<S, O, M>
      reads this
    {
      Db(states, operations, outbox)
    }

    ghost predicate Valid()
      reads this
    {
      DbSound(Tables())
    }

    method CountOperations(user: string) returns (count: nat)
      ensures count == CountUser(operations, user)
    {
      count := 0;
      var i := |operations|;
      while i > 0
        invariant 0 <= i <= |operations|
        invariant count == CountUser(operations[i..], user)
      {
        i := i - 1;
        assert operations[i..][1..] == operations[i + 1..];
        if IsUserOperation(operations[i], user) {
          count := count + 1;
        }
      }
    }

    /** The candidates in the order of their identifiers, at most `n` of them. */
    method SelectCandidates(user: string, n: nat) returns (candidates: seq<nat>)
      ensures candidates == Oldest(operations, outbox, user, n)
      ensures |candidates| == n <==> n <= CountEvictable(operations, outbox, user)
    {
      hide IsEvictable;
      candidates := [];
      var i := 0;
      while i < |operations| && |candidates| < n
        invariant i <= |operations| && |candidates| <= n
        invariant Oldest(operations, outbox, user, n)
               == candidates + Oldest(operations[i..], outbox, user, n - |candidates|)
        invariant CountEvictable(operations, outbox, user)
               == |candidates| + CountEvictable(operations[i..], outbox, user)
      {
        assert operations[i..][0] == operations[i] && operations[i..][1..] == operations[i + 1..];
        if IsEvictable(operations[i], outbox, user) {
          candidates := candidates + [operations[i].id];
        }
        i := i + 1;
      }
    }

    /** Deletes the oldest operations of the user that have no message left to deliver. */
    method MakeRoomForFreshUserOperation(q: Request) returns (ok: bool)
      requires IdsIncrease(operations)
      modifies this`operations
      ensures var needed := NeededSlots(old(operations), limit, q);
              && ok == (needed <= CountEvictable(old(operations), outbox, q.user))
              && operations == if ok then Evict(old(operations), outbox, q.user, needed) else old(operations)
    {
      EvictNothing(operations, outbox, q.user);
      if !q.source.FromTelegram? && !q.source.FromTma? {
        return true;
      }
      var count := CountOperations(q.user);
      if count < limit {
        return true;
      }
      var requiredSlots := count - limit + 1;
      var candidates := SelectCandidates(q.user, requiredSlots);
      if |candidates| != requiredSlots {
        return false;
      }
      DeletingIsEvicting(operations, outbox, q.user, requiredSlots);
      var k := 0;
      while k < |candidates|
        invariant k <= |candidates|
        invariant WithoutAll(operations, candidates[k..]) == WithoutAll(old(operations), candidates)
      {
        assert candidates[k..][0] == candidates[k] && candidates[k..][1..] == candidates[k + 1..];
        operations := WithoutOperation(operations, candidates[k]);
        k := k + 1;
      }
      return true;
    }

    method Rollback(saved: Db<S, O, M>)
      modifies this
      ensures Tables() == saved
    {
      states, operations, outbox := saved.states, saved.operations, saved.outbox;
    }

    method InsertOperation(key: OperationKey, hash: string, outcome: O, revision: nat) returns (id: nat)
      modifies this`operations
      ensures id == NextOperationId(old(operations))
      ensures operations == old(operations) + [Operation(id, key, hash, outcome, revision)]
    {
      id := NextOperationId(operations);
      operations := operations + [Operation(id, key, hash, outcome, revision)];
    }

    method InsertOutbox(operation: nat, user: string, chatId: string, message: M)
      modifies this`outbox
      ensures outbox == Posted(old(outbox), operation, user, chatId, Some(message))
    {
      outbox := outbox + [OutboxRow(NextOutboxId(outbox), operation, user, chatId, message, 0, 0)];
    }

    /** One operation of a user: an answer from the log, or room, transition, state, row and message in one
        transaction. */
    method ExecuteBankOperation(q: Request, transition: S -> Option<StateTransition<S, O, M>>) returns (answer: Answer<S, O>)
      requires Valid() && !q.source.FromSystem?
      modifies this
      ensures Valid()
      ensures (Tables(), answer) == Execute(old(Tables()), limit, q, transition)
    {
      hide DbSound, Evict, CountEvictable, NeededSlots, FindOperation;
      var saved := Tables(); // BEGIN
      ExecuteKeepsSound(saved, limit, q, transition);
      IdsOf(saved);
      var replay := Replay(saved, KeyOf(q), q.hash);
      if replay.Some? {
        return replay.value;
      }
      var ok := MakeRoomForFreshUserOperation(q);
      if !ok {
        Rollback(saved);
        return Failed(OperationCapacity);
      }
      if q.user !in states {
        Rollback(saved);
        return Failed(StateMissing);
      }
      var current := states[q.user];
      var result := transition(current.state);
      if result.None? {
        Rollback(saved);
        return Failed(TransitionThrew);
      }
      var t := result.value;
      var revision := current.revision;
      if t.state != current.state {
        if revision == Currency.MAX_SAFE {
          Rollback(saved);
          return Failed(RevisionOverflow);
        }
        revision := revision + 1;
        states := states[q.user := StoredState(t.state, revision)];
      }
      assert states == saved.states[q.user := StoredState(t.state, revision)];
      var id := InsertOperation(KeyOf(q), q.hash, t.outcome, revision);
      if t.outbox.Some? {
        if q.chatId.None? {
          Rollback(saved);
          return Failed(OutboxNeedsChat);
        }
        InsertOutbox(id, q.user, q.chatId.value, t.outbox.value);
      }
      return Answered(false, id, revision, states[q.user], t.outcome);
    }

    /** The first state of a user, at revision one. */
    method ImportBankState(user: string, operationId: string, hash: string, state: S, outcome: O) returns (answer: Answer<S, O>)
      requires Valid()
      modifies this
      ensures Valid()
      ensures (Tables(), answer) == ImportState(old(Tables()), user, operationId, hash, state, outcome)
    {
      hide DbSound, FindOperation;
      var saved := Tables(); // BEGIN
      ImportKeepsSound(saved, user, operationId, hash, state, outcome);
      var key := OperationKey(user, FromImport, operationId);
      var replay := Replay(saved, key, hash);
      if replay.Some? {
        return replay.value;
      }
      if user in states {
        return Failed(StateAlreadyExists);
      }
      states := states[user := StoredState(state, 1)];
      var id := InsertOperation(key, hash, outcome, 1);
      return Answered(false, id, 1, states[user], outcome);
    }

    /** A change outside any user operation. */
    method MutateBankState(user: string, hash: string, transition: S -> Option<StateTransition<S, O, M>>) returns (mutation: Mutation<S>)
      requires Valid()
      modifies this
      ensures Valid()
      ensures (Tables(), mutation) == Mutate(old(Tables()), user, hash, transition)
      ensures mutation != NotMutated(DuplicateOperation)
    {
      hide DbSound, FindOperation, MaterializeId;
      var saved := Tables(); // BEGIN
      MutateKeepsSound(saved, user, hash, transition);
      if user !in states {
        return NotMutated(StateMissing);
      }
      var current := states[user];
      var result := transition(current.state);
      if result.None? {
        return NotMutated(TransitionThrew);
      }
      var t := result.value;
      var changed := t.state != current.state;
      if t.outbox.Some? && !changed {
        return NotMutated(OutboxNeedsChange);
      }
      var revision := current.revision;
      if changed {
        if revision == Currency.MAX_SAFE {
          return NotMutated(RevisionOverflow);
        }
        revision := revision + 1;
        states := states[user := StoredState(t.state, revision)];
      }
      assert states == saved.states[user := StoredState(t.state, revision)];
      if t.outbox.Some? {
        var key := OperationKey(user, FromSystem, MaterializeId(revision));
        var id := InsertOperation(key, hash, t.outcome, revision);
        InsertOutbox(id, user, user, t.outbox.value);
      }
      return Mutated(changed, states[user]);
    }

    method CompleteBankOutbox(id: nat) returns (found: bool)
      requires Valid()
      modifies this`outbox
      ensures Valid()
      ensures Tables() == CompleteOutbox(old(Tables()), id)
      ensures found == exists i :: 0 <= i < |old(outbox)| && old(outbox)[i].id == id
    {
      hide DbSound;
      DeliveryKeepsSound(Tables(), id, 0, 0);
      found := exists i :: 0 <= i < |outbox| && outbox[i].id == id;
      outbox := WithoutOutbox(outbox, id);
    }

    method DeferBankOutbox(id: nat, attempts: nat, nextAttemptAt: nat) returns (changed: bool)
      requires Valid() && 1 <= attempts <= MAX_ATTEMPTS
      modifies this`outbox
      ensures Valid()
      ensures Tables() == DeferOutbox(old(Tables()), id, attempts, nextAttemptAt)
      ensures changed == (outbox != old(outbox))
    {
      hide DbSound;
      DeliveryKeepsSound(Tables(), id, attempts, nextAttemptAt);
      changed := exists i :: 0 <= i < |outbox| && Advances(outbox[i], id, attempts, nextAttemptAt);
      ghost var before := outbox;
      outbox := DeferredRows(outbox, id, attempts, nextAttemptAt);
      if changed {
        ghost var i :| 0 <= i < |before| && Advances(before[i], id, attempts, nextAttemptAt);
        assert outbox[i] != before[i];
      }
    }
  }
}
