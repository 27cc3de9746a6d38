/** The long-polling worker: `bot/poller.ts`. Updates of a batch are handled in the order of their ids; one that
    keeps failing is dropped after five attempts, so that it does not block the ones behind it. */
module Poller {
  import opened UpdateLog
  import Currency

  const MAX_UPDATE_ATTEMPTS := 5

  /** How the handling of an update ends. A terminal error is one that repeating cannot mend; a fatal one stops
      the worker. */
  datatype Ending = Succeeded | RetryableError | TerminalError | FatalError | Aborted

  /** What the handler of an update did to the replies and sessions, and how it ended. */
  datatype Handling<D> = Handling(replies: map<nat, Reply>, sessions: map<string, D>, ending: Ending)

  datatype BatchEnd = Finished | Retry | Stopped

  /** The worker's view: the tables, and the failed attempts of the updates that are not done. */
  datatype PollState<D> = PollState(tables: Tables<D>, attempts: map<nat, nat>)

  function AttemptsOf(attempts: map<nat, nat>, id: nat): nat {
    if id in attempts then attempts[id] else 0
  }

  function AfterHandler<D>(t: Tables<D>, h: Handling<D>): Tables<D> {
    t.(replies := h.replies, sessions := h.sessions)
  }

  /** Whether an update whose handling failed is done with all the same. */
  predicate IsDropped(ending: Ending, attempts: nat) {
    ending.TerminalError? || attempts >= MAX_UPDATE_ATTEMPTS
  }

  /** One update of a batch: the state after it, and whether the batch goes on. */
  function HandleUpdate<D>(s: PollState<D>, id: nat, h: Handling<D>, now: nat): (PollState<D>, BatchEnd) {
    if HasProcessed(s.tables.processed, id) then
      (s, if id == Currency.MAX_SAFE then Retry else Finished)
    else
      var t := AfterHandler(s.tables, h);
      match h.ending
      case Aborted => (s.(tables := t), Stopped)
      case FatalError => (s.(tables := t), Stopped)
      case Succeeded => Complete(s.(tables := t), id, now)
      case _ =>
        var attempts := AttemptsOf(s.attempts, id) + 1;
        var failed := PollState(t, s.attempts[id := attempts]);
        if IsDropped(h.ending, attempts) then Complete(failed, id, now) else (failed, Retry)
  }

  /** Marking the largest update id throws: there would be no next offset. */
  function Complete<D>(s: PollState<D>, id: nat, now: nat): (PollState<D>, BatchEnd) {
    match Marked(s.tables, id, now)
    case None => (s, Retry)
    case Some(t) => (PollState(t, s.attempts - {id}), Finished)
  }

  /** A batch in the order of the ids, with the handling that each update would get. */
  function HandleBatch<D>(s: PollState<D>, ids: seq<nat>, hs: seq<Handling<D>>, now: nat): (PollState<D>, BatchEnd)
    requires |ids| == |hs|
    decreases |ids|
  {
    if ids == [] then (s, Finished)
    else
      var (next, end) := HandleUpdate(s, ids[0], hs[0], now);
      if !end.Finished? then (next, end) else HandleBatch(next, ids[1..], hs[1..], now)
  }

  class LongPoller<D> {
    var tables: Tables<D>
    var updateAttempts: map<nat, nat>
    var consecutiveFailures: nat

    constructor (tables: Tables<D>)
      ensures this.tables == tables && updateAttempts == map[] && consecutiveFailures == 0
    {
      this.tables, updateAttempts, consecutiveFailures := tables, map[], 0;
    }

    function State(): PollState<D>
      reads this
    {
      PollState(tables, updateAttempts)
    }

    method MarkProcessed(id: nat, now: nat) returns (ok: bool)
      modifies this`tables
      ensures ok == Marked(old(tables), id, now).Some?
      ensures tables == if ok then Marked(old(tables), id, now).value else old(tables)
    {
      var next := Marked(tables, id, now);
      if next.None? {
        return false;
      }
      tables := next.value;
      return true;
    }

    /** One turn of the worker on the updates it was given. */
    method RunBatch(ids: seq<nat>, hs: seq<Handling<D>>, now: nat) returns (end: BatchEnd)
      requires |ids| == |hs|
      modifies this
      ensures (State(), end) == HandleBatch(old(State()), ids, hs, now)
      ensures consecutiveFailures == match end
                                     case Finished => 0
                                     case Retry => old(consecutiveFailures) + 1
                                     case Stopped => old(consecutiveFailures)
    {
      var k := 0;
      while k < |ids|
        invariant k <= |ids|
        invariant HandleBatch(old(State()), ids, hs, now) == HandleBatch(State(), ids[k..], hs[k..], now)
        invariant consecutiveFailures == old(consecutiveFailures)
      {
        var id, h := ids[k], hs[k];
        assert ids[k..][0] == id && hs[k..][0] == h && ids[k..][1..] == ids[k + 1..] && hs[k..][1..] == hs[k + 1..];
        if !HasProcessed(tables.processed, id) {
          tables := AfterHandler(tables, h);
          if h.ending.Aborted? || h.ending.FatalError? {
            return Stopped;
          }
          if !h.ending.Succeeded? {
            var attempts := AttemptsOf(updateAttempts, id) + 1;
            updateAttempts := updateAttempts[id := attempts];
            if !h.ending.TerminalError? && attempts < MAX_UPDATE_ATTEMPTS {
              consecutiveFailures := consecutiveFailures + 1;
              return Retry;
            }
          }
          var ok := MarkProcessed(id, now);
          if !ok {
            consecutiveFailures := consecutiveFailures + 1;
            return Retry;
          }
          updateAttempts := updateAttempts - {id};
        } else if id == Currency.MAX_SAFE {
          consecutiveFailures := consecutiveFailures + 1;
          return Retry;
        }
        k := k + 1;
      }
      consecutiveFailures := 0;
      return Finished;
    }
  }
}
