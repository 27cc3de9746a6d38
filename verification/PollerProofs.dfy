/** Update handling over whole runs: between two restarts of the numbering updates are completed in the order of
    their ids, each after at most five failed attempts. */
module PollerProofs {
  import opened Wrappers
  import opened UpdateLog
  import opened UpdateLogProofs
  import opened Poller
  import Currency

  // ---------------------------------------------------------------- what happens to one update

  function CompletedBy<D>(s: PollState<D>, id: nat, h: Handling<D>, now: nat): seq<nat> {
    if !HasProcessed(s.tables.processed, id) && HandleUpdate(s, id, h, now).1.Finished? then [id] else []
  }

  /** A failed attempt that counts: aborted and fatal endings stop the worker instead. */
  function FailedBy<D>(s: PollState<D>, id: nat, h: Handling<D>): seq<nat> {
    if !HasProcessed(s.tables.processed, id) && (h.ending.RetryableError? || h.ending.TerminalError?) then [id] else []
  }

  function BatchCompleted<D>(s: PollState<D>, ids: seq<nat>, hs: seq<Handling<D>>, now: nat): seq<nat>
    requires |ids| == |hs|
    decreases |ids|
  {
    if ids == [] then []
    else
      var (next, end) := HandleUpdate(s, ids[0], hs[0], now);
      CompletedBy(s, ids[0], hs[0], now) + if end.Finished? then BatchCompleted(next, ids[1..], hs[1..], now) else []
  }

  function BatchFailed<D>(s: PollState<D>, ids: seq<nat>, hs: seq<Handling<D>>, now: nat): seq<nat>
    requires |ids| == |hs|
    decreases |ids|
  {
    if ids == [] then []
    else
      var (next, end) := HandleUpdate(s, ids[0], hs[0], now);
      FailedBy(s, ids[0], hs[0]) + if end.Finished? then BatchFailed(next, ids[1..], hs[1..], now) else []
  }

  function Count(ids: seq<nat>, id: nat): nat {
    if ids == [] then 0 else Count(ids[1..], id) + if ids[0] == id then 1 else 0
  }

  lemma {:induction false} CountJoined(a: seq<nat>, b: seq<nat>, id: nat)
    ensures Count(a + b, id) == Count(a, id) + Count(b, id)
    decreases |a|
  {
    if a == [] {
      assert a + b == b;
    } else {
      assert (a + b)[1..] == a[1..] + b;
      CountJoined(a[1..], b, id);
    }
  }

  // ---------------------------------------------------------------- the invariant

  /** The watermark is above all rows, and no update has more than four failed attempts on record. */
  ghost predicate PollSound<D>(s: PollState<D>) {
    && UpdatesSound(s.tables)
    && forall id: nat :: id < Currency.MAX_SAFE ==> AttemptsOf(s.attempts, id) < MAX_UPDATE_ATTEMPTS
  }

  function MarkOf<D>(s: PollState<D>): nat {
    if s.tables.watermark.None? then 0 else s.tables.watermark.value
  }

  ghost predicate Ascending(ids: seq<nat>) {
    forall i, j :: 0 <= i < j < |ids| ==> ids[i] <= ids[j]
  }

  ghost predicate Increasing(ids: seq<nat>) {
    forall i, j :: 0 <= i < j < |ids| ==> ids[i] < ids[j]
  }

  /** The rest of a batch: in order, and below the watermark only updates that are done. */
  ghost predicate IsBatch<D>(s: PollState<D>, ids: seq<nat>) {
    && Ascending(ids)
    && forall k :: 0 <= k < |ids| ==> MarkOf(s) <= ids[k] || HasProcessed(s.tables.processed, ids[k])
  }

  /** One update either leaves watermark and rows alone, or it is done: the watermark moves behind it and its
      attempts are forgotten. */
  lemma {:induction false} OneUpdate<D>(s: PollState<D>, id: nat, h: Handling<D>, now: nat)
    requires PollSound(s) && (MarkOf(s) <= id || HasProcessed(s.tables.processed, id))
    ensures var (next, end) := HandleUpdate(s, id, h, now);
            && PollSound(next)
            && (CompletedBy(s, id, h, now) != [] ==>
                  id < Currency.MAX_SAFE && MarkOf(s) <= id && MarkOf(next) == id + 1 && HasProcessed(next.tables.processed, id)
                  && AttemptsOf(next.attempts, id) == 0)
            && (CompletedBy(s, id, h, now) == [] ==>
                  && next.tables.processed == s.tables.processed && next.tables.watermark == s.tables.watermark
                  && AttemptsOf(next.attempts, id) == AttemptsOf(s.attempts, id) + |FailedBy(s, id, h)|)
            && (forall other: nat :: other != id ==> AttemptsOf(next.attempts, other) == AttemptsOf(s.attempts, other))
            && (FailedBy(s, id, h) != [] ==> MarkOf(s) <= id)
  {
    hide HasProcessed, Marked, UpdatesSound, AttemptsOf;
    var t := AfterHandler(s.tables, h);
    HandlerKeepsRows(s.tables, h);
    OneMoreAttempt(s.attempts, id);
    AttemptsForgotten(s.attempts, id);
    AttemptsForgotten(s.attempts[id := AttemptsOf(s.attempts, id) + 1], id);
    if id < Currency.MAX_SAFE {
      MarkedRows(t, id, now);
      MarkKeepsSound(t, id, now);
    } else {
      LargestIsUnmarked(t, id, now);
    }
    forall x: nat | x < Currency.MAX_SAFE
      ensures AttemptsOf(HandleUpdate(s, id, h, now).0.attempts, x) < MAX_UPDATE_ATTEMPTS
    {
      assert AttemptsOf(s.attempts, x) < MAX_UPDATE_ATTEMPTS;
    }
  }

  lemma {:induction false} OneMoreAttempt(attempts: map<nat, nat>, id: nat)
    ensures forall x: nat :: AttemptsOf(attempts[id := AttemptsOf(attempts, id) + 1], x)
                             == AttemptsOf(attempts, x) + if x == id then 1 else 0
  {
  }

  lemma {:induction false} AttemptsForgotten(attempts: map<nat, nat>, id: nat)
    ensures forall x: nat :: AttemptsOf(attempts - {id}, x) == if x == id then 0 else AttemptsOf(attempts, x)
  {
  }

  lemma {:induction false} HandlerKeepsRows<D>(t: Tables<D>, h: Handling<D>)
    requires UpdatesSound(t)
    ensures UpdatesSound(AfterHandler(t, h))
    ensures AfterHandler(t, h).processed == t.processed && AfterHandler(t, h).watermark == t.watermark
  {
  }

  lemma {:induction false} LargestIsUnmarked<D>(t: Tables<D>, id: nat, now: nat)
    requires id >= Currency.MAX_SAFE
    ensures Marked(t, id, now).None?
  {
    hide Pruned, Inserted;
  }

  lemma {:induction false} MarkedRows<D>(t: Tables<D>, id: nat, now: nat)
    requires id < Currency.MAX_SAFE
    ensures Marked(t, id, now).Some? && Marked(t, id, now).value.watermark == Later(t.watermark, id + 1)
  {
    hide Pruned, Inserted, RepliesProcessed;
  }

  /** What a batch does to the watermark, the attempts, and the two lists. */
  ghost predicate BatchResult<D>(s: PollState<D>, after: PollState<D>, done: seq<nat>, failed: seq<nat>) {
    && PollSound(after) && MarkOf(s) <= MarkOf(after)
    && Increasing(done)
    && (forall k :: 0 <= k < |done| ==> MarkOf(s) <= done[k] < MarkOf(after) && done[k] < Currency.MAX_SAFE)
    && (forall k :: 0 <= k < |failed| ==> MarkOf(s) <= failed[k])
    && (forall id: nat :: id < Currency.MAX_SAFE ==>
          && Count(failed, id) + AttemptsOf(s.attempts, id) <= MAX_UPDATE_ATTEMPTS
          && (id !in done ==> AttemptsOf(after.attempts, id) == AttemptsOf(s.attempts, id) + Count(failed, id)))
  }

  lemma {:induction false} BatchDone<D>(s: PollState<D>, ids: seq<nat>, hs: seq<Handling<D>>, now: nat)
    requires |ids| == |hs| && PollSound(s) && IsBatch(s, ids)
    ensures BatchResult(s, HandleBatch(s, ids, hs, now).0, BatchCompleted(s, ids, hs, now), BatchFailed(s, ids, hs, now))
    decreases |ids|
  {
    hide HandleUpdate, PollSound, CompletedBy, FailedBy, BatchResult, IsBatch, AttemptsOf;
    if ids == [] {
      NothingInBatch(s);
    } else {
      var (next, end) := HandleUpdate(s, ids[0], hs[0], now);
      FirstOfBatch(s, ids);
      OneUpdate(s, ids[0], hs[0], now);
      OneIsResult(s, ids[0], hs[0], now);
      if end.Finished? {
        RestIsBatch(s, ids, hs[0], now);
        BatchDone(next, ids[1..], hs[1..], now);
        ResultsJoin(s, next, HandleBatch(next, ids[1..], hs[1..], now).0,
                    CompletedBy(s, ids[0], hs[0], now), BatchCompleted(next, ids[1..], hs[1..], now),
                    FailedBy(s, ids[0], hs[0]), BatchFailed(next, ids[1..], hs[1..], now));
      } else {
        assert CompletedBy(s, ids[0], hs[0], now) + [] == CompletedBy(s, ids[0], hs[0], now);
        assert FailedBy(s, ids[0], hs[0]) + [] == FailedBy(s, ids[0], hs[0]);
      }
    }
  }

  lemma {:induction false} FirstOfBatch<D>(s: PollState<D>, ids: seq<nat>)
    requires IsBatch(s, ids) && ids != []
    ensures MarkOf(s) <= ids[0] || HasProcessed(s.tables.processed, ids[0])
  {
    hide HasProcessed;
  }

  lemma {:induction false} NothingInBatch<D>(s: PollState<D>)
    requires PollSound(s)
    ensures BatchResult(s, s, [], [])
  {
    hide UpdatesSound;
  }

  lemma {:induction false} OneIsResult<D>(s: PollState<D>, id: nat, h: Handling<D>, now: nat)
    requires PollSound(s) && (MarkOf(s) <= id || HasProcessed(s.tables.processed, id))
    ensures BatchResult(s, HandleUpdate(s, id, h, now).0, CompletedBy(s, id, h, now), FailedBy(s, id, h))
  {
    OneUpdate(s, id, h, now);
    hide HandleUpdate, UpdatesSound, HasProcessed, AttemptsOf;
    CountOne(id);
  }

  lemma {:induction false} CountOne(id: nat)
    ensures forall x: nat :: Count([id], x) == if x == id then 1 else 0
    ensures forall x: nat :: Count([], x) == 0
  {
    assert [id][1..] == [];
  }

  lemma {:induction false} RestIsBatch<D>(s: PollState<D>, ids: seq<nat>, h: Handling<D>, now: nat)
    requires PollSound(s) && IsBatch(s, ids) && ids != []
    ensures IsBatch(HandleUpdate(s, ids[0], h, now).0, ids[1..])
  {
    OneUpdate(s, ids[0], h, now);
    hide HandleUpdate, PollSound, HasProcessed;
  }

  lemma {:induction false} ResultsJoin<D>(a: PollState<D>, b: PollState<D>, c: PollState<D>,
                                          done1: seq<nat>, done2: seq<nat>, failed1: seq<nat>, failed2: seq<nat>)
    requires BatchResult(a, b, done1, failed1) && BatchResult(b, c, done2, failed2)
    ensures BatchResult(a, c, done1 + done2, failed1 + failed2)
  {
    hide PollSound, AttemptsOf, Count;
    forall id: nat | id < Currency.MAX_SAFE
      ensures Count(failed1 + failed2, id) + AttemptsOf(a.attempts, id) <= MAX_UPDATE_ATTEMPTS
      ensures id !in done1 + done2 ==> AttemptsOf(c.attempts, id) == AttemptsOf(a.attempts, id) + Count(failed1 + failed2, id)
    {
      CountJoined(failed1, failed2, id);
      if id in done1 {
        NoneBelow(failed2, MarkOf(b), id);
      }
    }
  }

  lemma {:induction false} NoneBelow(ids: seq<nat>, bound: nat, id: nat)
    requires id < bound && forall k :: 0 <= k < |ids| ==> bound <= ids[k]
    ensures Count(ids, id) == 0
    decreases |ids|
  {
    if ids != [] {
      NoneBelow(ids[1..], bound, id);
    }
  }

  // ---------------------------------------------------------------- what an update comes to

  /** An update that is not done yet is completed exactly when its handling succeeds, or fails for good, or fails
      for the fifth time; the largest id never. */
  lemma {:induction false} CompletedExactly<D>(s: PollState<D>, id: nat, h: Handling<D>, now: nat)
    requires !HasProcessed(s.tables.processed, id)
    ensures var (next, end) := HandleUpdate(s, id, h, now);
            var failures := (if id in s.attempts then s.attempts[id] else 0) + 1;
            end.Finished?
            <==> id < Currency.MAX_SAFE
                 && (h.ending.Succeeded? || h.ending.TerminalError? || (h.ending.RetryableError? && failures >= 5))
  {
    hide HasProcessed, Pruned, Inserted, RepliesProcessed;
  }

  /** Completing keeps what the handler did to sessions, marks the update, and forgets its attempts; a failure
      that is to be repeated counts one attempt more and marks nothing; a stop of the worker counts nothing. */
  lemma {:induction false} UpdateEffects<D>(s: PollState<D>, id: nat, h: Handling<D>, now: nat)
    requires PollSound(s) && !HasProcessed(s.tables.processed, id) && id < Currency.MAX_SAFE && MarkOf(s) <= id
    ensures var (next, end) := HandleUpdate(s, id, h, now);
            && next.tables.sessions == h.sessions
            && match end
               case Finished => HasProcessed(next.tables.processed, id) && next.tables.watermark == Some(id + 1) && next.attempts == s.attempts - {id}
               case Retry => h.ending.RetryableError? && next.tables.processed == s.tables.processed && next.tables.replies == h.replies
                             && next.attempts == s.attempts[id := AttemptsOf(s.attempts, id) + 1]
               case Stopped => (h.ending.FatalError? || h.ending.Aborted?) && next.tables.processed == s.tables.processed
                               && next.tables.replies == h.replies && next.attempts == s.attempts
  {
    hide HasProcessed, Marked, UpdatesSound;
    var t := AfterHandler(s.tables, h);
    HandlerKeepsRows(s.tables, h);
    MarkedRows(t, id, now);
    MarkKeepsSound(t, id, now);
    MarkedSessions(t, id, now);
  }

  lemma {:induction false} MarkedSessions<D>(t: Tables<D>, id: nat, now: nat)
    requires id < Currency.MAX_SAFE
    ensures Marked(t, id, now).Some? && Marked(t, id, now).value.sessions == t.sessions
  {
    hide Pruned, Inserted, RepliesProcessed;
  }

  /** An update that was processed before is left alone. */
  lemma {:induction false} ProcessedIsSkipped<D>(s: PollState<D>, id: nat, h: Handling<D>, now: nat)
    requires HasProcessed(s.tables.processed, id) && id < Currency.MAX_SAFE
    ensures HandleUpdate(s, id, h, now) == (s, Finished)
  {
    hide HasProcessed;
  }

  /** A batch that can all be handled is handled to its end, every update of it in order. */
  lemma {:induction false} GoodBatchCompletes<D>(s: PollState<D>, ids: seq<nat>, hs: seq<Handling<D>>, now: nat)
    requires |ids| == |hs| && forall i :: 0 <= i < |ids| ==> ids[i] < Currency.MAX_SAFE && hs[i].ending.Succeeded?
    ensures HandleBatch(s, ids, hs, now).1 == Finished
    decreases |ids|
  {
    hide HasProcessed, Pruned, Inserted, RepliesProcessed;
    if ids != [] {
      if HasProcessed(s.tables.processed, ids[0]) {
        ProcessedIsSkipped(s, ids[0], hs[0], now);
      } else {
        CompletedExactly(s, ids[0], hs[0], now);
      }
      hide HandleUpdate;
      GoodBatchCompletes(HandleUpdate(s, ids[0], hs[0], now).0, ids[1..], hs[1..], now);
    }
  }

  /** A batch stops at the first update that is to be repeated or that stops the worker. */
  lemma {:induction false} BatchStopsThere<D>(s: PollState<D>, ids: seq<nat>, hs: seq<Handling<D>>, now: nat, k: nat)
    requires |ids| == |hs| && k < |ids|
    requires HandleBatch(s, ids[..k], hs[..k], now).1.Finished?
    requires var before := HandleBatch(s, ids[..k], hs[..k], now).0; !HandleUpdate(before, ids[k], hs[k], now).1.Finished?
    ensures var before := HandleBatch(s, ids[..k], hs[..k], now).0;
            HandleBatch(s, ids, hs, now) == HandleUpdate(before, ids[k], hs[k], now)
    decreases k
  {
    hide HandleUpdate;
    if k > 0 {
      assert ids[..k][1..] == ids[1..][..k - 1] && hs[..k][1..] == hs[1..][..k - 1];
      BatchStopsThere(HandleUpdate(s, ids[0], hs[0], now).0, ids[1..], hs[1..], now, k - 1);
    }
  }

  // ---------------------------------------------------------------- whole runs

  /** A poll with the batch that the provider answered, or anything else that changes replies and sessions. */
  datatype Event<D> =
    | Poll(now: nat, ids: seq<nat>, hs: seq<Handling<D>>)
    | Elsewhere(replies: map<nat, Reply>, sessions: map<string, D>)

  function PreparedFor<D>(s: PollState<D>, now: nat): PollState<D> {
    s.(tables := Prepared(s.tables, now).0)
  }

  /** The provider promises updates from the offset on; the worker sorts them. */
  ghost predicate IsAnswer<D>(s: PollState<D>, e: Event<D>) {
    e.Poll? ==>
      && |e.ids| == |e.hs| && Ascending(e.ids)
      && forall k :: 0 <= k < |e.ids| ==> Prepared(s.tables, e.now).1.None? || Prepared(s.tables, e.now).1.value <= e.ids[k]
  }

  /** After six quiet days the numbering starts over with this poll. */
  predicate Restarts<D>(s: PollState<D>, e: Event<D>) {
    e.Poll? && IsSequenceStale(s.tables, e.now)
  }

  function StartOf<D>(s: PollState<D>, e: Event<D>): PollState<D> {
    if e.Poll? then PreparedFor(s, e.now) else s
  }

  function AfterEvent<D>(s: PollState<D>, e: Event<D>): PollState<D>
    requires e.Poll? ==> |e.ids| == |e.hs|
  {
    match e
    case Poll(now, ids, hs) => HandleBatch(PreparedFor(s, now), ids, hs, now).0
    case Elsewhere(replies, sessions) => s.(tables := s.tables.(replies := replies, sessions := sessions))
  }

  function EventCompleted<D>(s: PollState<D>, e: Event<D>): seq<nat>
    requires e.Poll? ==> |e.ids| == |e.hs|
  {
    if e.Poll? then BatchCompleted(PreparedFor(s, e.now), e.ids, e.hs, e.now) else []
  }

  function EventFailed<D>(s: PollState<D>, e: Event<D>): seq<nat>
    requires e.Poll? ==> |e.ids| == |e.hs|
  {
    if e.Poll? then BatchFailed(PreparedFor(s, e.now), e.ids, e.hs, e.now) else []
  }

  ghost predicate IsRun<D>(s: PollState<D>, events: seq<Event<D>>)
    decreases |events|
  {
    events != [] ==> IsAnswer(s, events[0]) && IsRun(AfterEvent(s, events[0]), events[1..])
  }

  ghost function RunState<D>(s: PollState<D>, events: seq<Event<D>>): PollState<D>
    requires IsRun(s, events)
    decreases |events|
  {
    if events == [] then s else RunState(AfterEvent(s, events[0]), events[1..])
  }

  /** The updates completed, and the failed attempts, between two restarts of the numbering. */
  datatype Segment = Segment(done: seq<nat>, failed: seq<nat>)

  const NOTHING := Segment([], [])

  function Joined(first: Segment, rest: seq<Segment>): (r: seq<Segment>)
    requires rest != []
    ensures r != []
  {
    [Segment(first.done + rest[0].done, first.failed + rest[0].failed)] + rest[1..]
  }

  ghost function RunSegments<D>(s: PollState<D>, events: seq<Event<D>>): (r: seq<Segment>)
    requires IsRun(s, events)
    ensures r != []
    decreases |events|
  {
    if events == [] then [NOTHING]
    else
      var here := Segment(EventCompleted(s, events[0]), EventFailed(s, events[0]));
      var all := Joined(here, RunSegments(AfterEvent(s, events[0]), events[1..]));
      if Restarts(s, events[0]) then [NOTHING] + all else all
  }

  lemma {:induction false} StartIs<D>(s: PollState<D>, e: Event<D>)
    requires PollSound(s)
    ensures PollSound(StartOf(s, e)) && StartOf(s, e).attempts == s.attempts
    ensures !Restarts(s, e) ==> MarkOf(StartOf(s, e)) == MarkOf(s)
    ensures e.Poll? ==> MarkOf(StartOf(s, e)) == if Prepared(s.tables, e.now).1.None? then 0 else Prepared(s.tables, e.now).1.value
  {
    if e.Poll? {
      PrepareKeepsSound(s.tables, e.now);
    }
    hide EffectiveLast, FreshReplies, UpdatesSound, IsSequenceStale;
  }

  lemma {:induction false} EventDone<D>(s: PollState<D>, e: Event<D>)
    requires PollSound(s) && IsAnswer(s, e)
    ensures BatchResult(StartOf(s, e), AfterEvent(s, e), EventCompleted(s, e), EventFailed(s, e))
  {
    hide PollSound, HandleBatch, BatchCompleted, BatchFailed, Prepared, HasProcessed, Count, AttemptsOf;
    StartIs(s, e);
    match e
    case Poll(now, ids, hs) => BatchDone(PreparedFor(s, now), ids, hs, now);
    case Elsewhere(replies, sessions) =>
      ElsewhereSound(s, replies, sessions);
      NothingInBatch(AfterEvent(s, e));
  }

  lemma {:induction false} ElsewhereSound<D>(s: PollState<D>, replies: map<nat, Reply>, sessions: map<string, D>)
    requires PollSound(s)
    ensures PollSound(s.(tables := s.tables.(replies := replies, sessions := sessions)))
  {
  }

  ghost predicate SegmentSound(g: Segment) {
    && Increasing(g.done) && (forall i :: 0 <= i < |g.done| ==> g.done[i] < Currency.MAX_SAFE)
    && (forall id: nat :: id < Currency.MAX_SAFE ==> Count(g.failed, id) <= MAX_UPDATE_ATTEMPTS)
  }

  /** The segment that goes on from `s`. */
  ghost predicate Continues<D>(s: PollState<D>, g: Segment) {
    && (forall i :: 0 <= i < |g.done| ==> MarkOf(s) <= g.done[i])
    && (forall i :: 0 <= i < |g.failed| ==> MarkOf(s) <= g.failed[i])
    && (forall id: nat :: id < Currency.MAX_SAFE ==> Count(g.failed, id) + AttemptsOf(s.attempts, id) <= MAX_UPDATE_ATTEMPTS)
  }

  ghost predicate Below(ids: seq<nat>, mark: nat) {
    forall i :: 0 <= i < |ids| ==> ids[i] < mark
  }

  ghost predicate RunResult<D>(s: PollState<D>, after: PollState<D>, segments: seq<Segment>) {
    && segments != [] && PollSound(after)
    && (forall k :: 0 <= k < |segments| ==> SegmentSound(segments[k]))
    && Continues(s, segments[0])
    && Below(segments[|segments| - 1].done, MarkOf(after))
    && (|segments| == 1 ==> MarkOf(s) <= MarkOf(after))
  }

  lemma {:induction false} NothingIsSound<D>(s: PollState<D>)
    requires PollSound(s)
    ensures SegmentSound(NOTHING) && Continues(s, NOTHING) && Below(NOTHING.done, MarkOf(s))
  {
    hide UpdatesSound;
  }

  lemma {:induction false} JoinedSound<D>(s: PollState<D>, next: PollState<D>, first: Segment, rest: Segment)
    requires BatchResult(s, next, first.done, first.failed) && SegmentSound(rest) && Continues(next, rest)
    ensures SegmentSound(Segment(first.done + rest.done, first.failed + rest.failed))
    ensures Continues(s, Segment(first.done + rest.done, first.failed + rest.failed))
  {
    hide PollSound, AttemptsOf, Count;
    forall id: nat | id < Currency.MAX_SAFE
      ensures Count(first.failed + rest.failed, id) + AttemptsOf(s.attempts, id) <= MAX_UPDATE_ATTEMPTS
    {
      CountJoined(first.failed, rest.failed, id);
      if id in first.done {
        NoneBelow(rest.failed, MarkOf(next), id);
      }
    }
  }

  lemma {:induction false} SegmentsJoin<D>(s: PollState<D>, next: PollState<D>, after: PollState<D>, first: Segment, rest: seq<Segment>)
    requires BatchResult(s, next, first.done, first.failed) && RunResult(next, after, rest)
    ensures RunResult(s, after, Joined(first, rest))
  {
    JoinedSound(s, next, first, rest[0]);
    hide PollSound, SegmentSound, Continues, Count, AttemptsOf, Increasing;
    var all := Joined(first, rest);
    assert forall k :: 0 < k < |all| ==> all[k] == rest[k];
  }

  lemma {:induction false} RestartAdds<D>(s: PollState<D>, start: PollState<D>, after: PollState<D>, segments: seq<Segment>)
    requires PollSound(s) && RunResult(start, after, segments)
    ensures RunResult(s, after, [NOTHING] + segments)
  {
    NothingIsSound(s);
    hide PollSound, SegmentSound, Continues;
    var all := [NOTHING] + segments;
    assert forall k :: 0 < k < |all| ==> all[k] == segments[k - 1];
  }

  lemma {:induction false} SameStart<D>(s: PollState<D>, start: PollState<D>, after: PollState<D>, segments: seq<Segment>)
    requires RunResult(start, after, segments) && MarkOf(s) == MarkOf(start) && s.attempts == start.attempts
    ensures RunResult(s, after, segments)
  {
    hide PollSound, SegmentSound, Count, AttemptsOf, MarkOf;
  }

  lemma {:induction false} RunDone<D>(s: PollState<D>, events: seq<Event<D>>)
    requires PollSound(s) && IsRun(s, events)
    ensures RunResult(s, RunState(s, events), RunSegments(s, events))
    decreases |events|
  {
    hide PollSound, AfterEvent, EventCompleted, EventFailed, BatchResult, Ascending, Prepared, RunResult, Joined, Restarts, StartOf;
    if events == [] {
      assert RunResult(s, s, [NOTHING]) by { EmptyRun(s); }
    } else {
      var e, next := events[0], AfterEvent(s, events[0]);
      var here := Segment(EventCompleted(s, e), EventFailed(s, e));
      var rest := RunSegments(next, events[1..]);
      var after := RunState(next, events[1..]);
      EventDone(s, e);
      ResultIsSound(StartOf(s, e), next, here.done, here.failed);
      RunDone(next, events[1..]);
      SegmentsJoin(StartOf(s, e), next, after, here, rest);
      StartIs(s, e);
      if Restarts(s, e) {
        RestartAdds(s, StartOf(s, e), after, Joined(here, rest));
      } else {
        SameStart(s, StartOf(s, e), after, Joined(here, rest));
      }
    }
  }

  lemma {:induction false} EmptyRun<D>(s: PollState<D>)
    requires PollSound(s)
    ensures RunResult(s, s, [NOTHING])
  {
    NothingIsSound(s);
    hide PollSound, SegmentSound, Continues, Below;
  }

  lemma {:induction false} ResultIsSound<D>(s: PollState<D>, after: PollState<D>, done: seq<nat>, failed: seq<nat>)
    requires BatchResult(s, after, done, failed)
    ensures PollSound(after)
  {
  }

  /** Over any run, with any restarts of the numbering, the updates completed between two restarts come in
      strictly increasing order of their ids. Those since the last restart lie below the watermark, which also
      exceeds every retained row. */
  lemma {:induction false} CompletedInOrder<D>(s: PollState<D>, events: seq<Event<D>>)
    requires PollSound(s) && IsRun(s, events)
    ensures var segments := RunSegments(s, events);
            && (forall k :: 0 <= k < |segments| ==> Increasing(segments[k].done))
            && Below(segments[|segments| - 1].done, MarkOf(RunState(s, events)))
    ensures UpdatesSound(RunState(s, events).tables)
  {
    hide IsRun, RunState, RunSegments, Count, Below, Increasing, Continues;
    RunDone(s, events);
    var segments := RunSegments(s, events);
    forall k | 0 <= k < |segments|
      ensures Increasing(segments[k].done)
    {
      assert SegmentSound(segments[k]);
    }
  }

  /** Over any run an update fails at most five times between two restarts of the numbering, unless it has the
      largest possible id; attempts on record from before count as well. */
  lemma {:induction false} AtMostFiveFailures<D>(s: PollState<D>, events: seq<Event<D>>, id: nat, k: nat)
    requires PollSound(s) && IsRun(s, events) && id < Currency.MAX_SAFE && k < |RunSegments(s, events)|
    ensures Count(RunSegments(s, events)[k].failed, id) <= MAX_UPDATE_ATTEMPTS
  {
    hide IsRun, RunState, RunSegments, Count, PollSound, UpdatesSound, Below, Increasing, Continues;
    RunDone(s, events);
    assert SegmentSound(RunSegments(s, events)[k]);
  }

  /** The largest id has no next offset: no run ever completes it. */
  lemma {:induction false} LargestNeverCompletes<D>(s: PollState<D>, events: seq<Event<D>>, k: nat)
    requires PollSound(s) && IsRun(s, events) && k < |RunSegments(s, events)|
    ensures Currency.MAX_SAFE !in RunSegments(s, events)[k].done
  {
    hide IsRun, RunState, RunSegments, Count, PollSound, UpdatesSound, Below, Increasing, Continues;
    RunDone(s, events);
    assert SegmentSound(RunSegments(s, events)[k]);
  }
}
