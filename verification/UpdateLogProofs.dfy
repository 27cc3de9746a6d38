/** The watermark, the pruning and the lifecycle of replies. */
module UpdateLogProofs {
  import opened Wrappers
  import opened UpdateLog
  import Currency

  // ---------------------------------------------------------------- the watermark

  ghost predicate RowsIncrease(rows: seq<Processed>) {
    forall i, j :: 0 <= i < j < |rows| ==> rows[i].id < rows[j].id
  }

  /** The watermark exceeds the id of every processed update. */
  ghost predicate WatermarkAbove(rows: seq<Processed>, watermark: Option<nat>) {
    forall i :: 0 <= i < |rows| ==> watermark.Some? && rows[i].id < watermark.value
  }

  lemma {:induction false} InsertedHas(rows: seq<Processed>, id: nat, at: nat)
    ensures forall x: nat :: HasProcessed(Inserted(rows, id, at), x) <==> x == id || HasProcessed(rows, x)
    decreases |rows|
  {
    hide HasProcessed;
    if rows == [] {
      FirstAnd(Processed(id, at), rows);
      assert [Processed(id, at)] + rows == [Processed(id, at)];
      NothingProcessed();
    } else {
      assert rows == [rows[0]] + rows[1..];
      FirstAnd(rows[0], rows[1..]);
      if id < rows[0].id {
        FirstAnd(Processed(id, at), rows);
      } else if id > rows[0].id {
        InsertedHas(rows[1..], id, at);
        FirstAnd(rows[0], Inserted(rows[1..], id, at));
      }
    }
  }

  lemma {:induction false} NothingProcessed()
    ensures forall x: nat :: !HasProcessed([], x)
  {
  }

  lemma {:induction false} InsertedAbove(rows: seq<Processed>, id: nat, at: nat, bound: nat)
    requires bound < id && forall i :: 0 <= i < |rows| ==> bound < rows[i].id
    ensures forall i :: 0 <= i < |Inserted(rows, id, at)| ==> bound < Inserted(rows, id, at)[i].id
    decreases |rows|
  {
    if rows != [] && id > rows[0].id {
      InsertedAbove(rows[1..], id, at, bound);
    }
  }

  lemma {:induction false} InsertedIncreases(rows: seq<Processed>, id: nat, at: nat)
    requires RowsIncrease(rows)
    ensures RowsIncrease(Inserted(rows, id, at))
    decreases |rows|
  {
    if rows != [] && id > rows[0].id {
      assert RowsIncrease(rows[1..]);
      InsertedIncreases(rows[1..], id, at);
      InsertedAbove(rows[1..], id, at, rows[0].id);
    }
  }

  lemma {:induction false} InsertedRows(rows: seq<Processed>, id: nat, at: nat)
    requires RowsIncrease(rows)
    ensures RowsIncrease(Inserted(rows, id, at))
    ensures HasProcessed(Inserted(rows, id, at), id)
    ensures forall x: nat :: HasProcessed(Inserted(rows, id, at), x) <==> x == id || HasProcessed(rows, x)
  {
    hide HasProcessed, Inserted, RowsIncrease;
    InsertedHas(rows, id, at);
    InsertedIncreases(rows, id, at);
  }

  lemma {:induction false} FirstAnd(first: Processed, rest: seq<Processed>)
    ensures forall x: nat :: HasProcessed([first] + rest, x) <==> x == first.id || HasProcessed(rest, x)
  {
    forall x: nat
      ensures HasProcessed([first] + rest, x) <==> x == first.id || HasProcessed(rest, x)
    {
      assert ([first] + rest)[0] == first;
      if HasProcessed(rest, x) {
        var k :| 0 <= k < |rest| && rest[k].id == x;
        assert ([first] + rest)[k + 1] == rest[k];
      }
    }
  }

  /** In increasing rows below the watermark the filter drops a prefix. */
  lemma {:induction false} AboveIsSuffix(rows: seq<Processed>, watermark: nat, n: nat)
    requires RowsIncrease(rows) && n < |rows| && WatermarkAbove(rows, Some(watermark))
    ensures Above(rows, watermark, rows[n].id) == rows[n..]
    decreases |rows|
  {
    if n > 0 {
      assert RowsIncrease(rows[1..]) && WatermarkAbove(rows[1..], Some(watermark)) && rows[1..][n - 1] == rows[n];
      AboveIsSuffix(rows[1..], watermark, n - 1);
    } else {
      AboveIsAll(rows, watermark, rows[0].id);
    }
  }

  lemma {:induction false} AboveIsAll(rows: seq<Processed>, watermark: nat, threshold: nat)
    requires forall i :: 0 <= i < |rows| ==> rows[i].id >= threshold
    ensures Above(rows, watermark, threshold) == rows
    decreases |rows|
  {
    if rows != [] {
      AboveIsAll(rows[1..], watermark, threshold);
    }
  }

  /** Pruning keeps exactly the newest rows, as many as the limit allows. */
  lemma {:induction false} PrunedIsNewest(rows: seq<Processed>, watermark: nat, limit: nat)
    requires RowsIncrease(rows) && limit >= 1 && WatermarkAbove(rows, Some(watermark))
    ensures Pruned(rows, watermark, limit) == if |rows| <= limit then rows else rows[|rows| - limit..]
  {
    if |rows| >= limit {
      AboveIsSuffix(rows, watermark, |rows| - limit);
      assert rows[0..] == rows;
    }
  }

  ghost predicate UpdatesSound<D>(t: Tables<D>) {
    && RowsIncrease(t.processed) && WatermarkAbove(t.processed, t.watermark)
    && |t.processed| <= PROCESSED_UPDATE_RETENTION_LIMIT
  }

  /** Marking an update keeps the watermark above every row, keeps at most the newest 4096 rows, and the row of
      an update that lies above the watermark is among them. */
  lemma {:induction false} MarkKeepsSound<D>(t: Tables<D>, id: nat, now: nat)
    requires UpdatesSound(t) && id < Currency.MAX_SAFE
    ensures var after := Marked(t, id, now).value;
            && UpdatesSound(after) && after.watermark == Later(t.watermark, id + 1)
            && (t.watermark.None? || t.watermark.value <= id ==> HasProcessed(after.processed, id))
  {
    hide Pruned, Inserted, HasProcessed, RowsIncrease;
    var rows := Inserted(t.processed, id, now);
    var w := Later(t.watermark, id + 1).value;
    InsertedRows(t.processed, id, now);
    BelowWatermark(t.processed, rows, t.watermark, id, w);
    PrunedIsNewest(rows, w, PROCESSED_UPDATE_RETENTION_LIMIT);
    SuffixSound(rows, w);
    if t.watermark.None? || t.watermark.value <= id {
      NewestStays(rows, id, PROCESSED_UPDATE_RETENTION_LIMIT);
    }
  }

  /** The rows after marking are the newest 4096 of the old ones with the new one in its place. */
  lemma {:induction false} MarkedKeepsNewest<D>(t: Tables<D>, id: nat, now: nat)
    requires UpdatesSound(t) && id < Currency.MAX_SAFE
    ensures var rows := Inserted(t.processed, id, now);
            Marked(t, id, now).value.processed == if |rows| <= 4_096 then rows else rows[|rows| - 4_096..]
  {
    hide Pruned, Inserted, HasProcessed, RowsIncrease;
    var rows := Inserted(t.processed, id, now);
    var w := Later(t.watermark, id + 1).value;
    InsertedRows(t.processed, id, now);
    BelowWatermark(t.processed, rows, t.watermark, id, w);
    PrunedIsNewest(rows, w, PROCESSED_UPDATE_RETENTION_LIMIT);
  }

  lemma {:induction false} BelowWatermark(before: seq<Processed>, rows: seq<Processed>, watermark: Option<nat>, id: nat, w: nat)
    requires WatermarkAbove(before, watermark) && id < w && (watermark.Some? ==> watermark.value <= w)
    requires forall x: nat :: HasProcessed(rows, x) <==> x == id || HasProcessed(before, x)
    ensures WatermarkAbove(rows, Some(w))
  {
    forall i | 0 <= i < |rows|
      ensures rows[i].id < w
    {
      assert HasProcessed(rows, rows[i].id);
      if rows[i].id != id {
        var k :| 0 <= k < |before| && before[k].id == rows[i].id;
      }
    }
  }

  lemma {:induction false} SuffixSound(rows: seq<Processed>, w: nat)
    requires RowsIncrease(rows) && WatermarkAbove(rows, Some(w))
    ensures forall n :: 0 <= n <= |rows| ==> RowsIncrease(rows[n..]) && WatermarkAbove(rows[n..], Some(w))
  {
  }

  /** A row whose id no other row exceeds survives the pruning. */
  lemma {:induction false} NewestStays(rows: seq<Processed>, id: nat, limit: nat)
    requires RowsIncrease(rows) && limit >= 1 && HasProcessed(rows, id) && WatermarkAbove(rows, Some(id + 1))
    ensures HasProcessed(if |rows| <= limit then rows else rows[|rows| - limit..], id)
  {
    var k :| 0 <= k < |rows| && rows[k].id == id;
    assert rows[|rows| - 1].id < id + 1;
    var kept := if |rows| <= limit then rows else rows[|rows| - limit..];
    assert kept[|kept| - 1] == rows[k];
  }

  lemma {:induction false} PrepareKeepsSound<D>(t: Tables<D>, now: nat)
    requires UpdatesSound(t)
    ensures UpdatesSound(Prepared(t, now).0) && Prepared(t, now).1 == Prepared(t, now).0.watermark
    ensures Prepared(t, now).0.watermark.Some? ==> Prepared(t, now).0.processed == t.processed && Prepared(t, now).0.watermark == t.watermark
  {
    hide EffectiveLast, FreshReplies;
  }

  // ---------------------------------------------------------------- replies

  /** No reply row is both delivered and processed, and a user has at most one pending reply. */
  ghost predicate RepliesSound(replies: map<nat, Reply>) {
    && (forall id :: id in replies ==> !(replies[id].status.Delivered? && replies[id].updateProcessed))
    && (forall a, b :: a in replies && b in replies && a != b && replies[a].user == replies[b].user
                       ==> !(replies[a].status.Pending? && replies[b].status.Pending?))
  }

  lemma {:induction false} QueuingKeepsReplies<D>(t: Tables<D>, id: nat, user: string, draft: D, now: nat)
    requires RepliesSound(t.replies)
    ensures QueueReply(t, id, user, draft, now).Fresh? ==> RepliesSound(QueueReply(t, id, user, draft, now).after.replies)
  {
  }

  /** When the handling of an update may go on, the user has no pending reply, so the reply that it queues
      finds room. */
  lemma {:induction false} ResumeMakesRoom<D>(t: Tables<D>, id: nat, user: string, pending: Option<nat>, sending: Sending, draft: D, now: nat)
    requires RepliesSound(t.replies) && IsPendingOf(t.replies, user, pending)
    requires var r := ResumeReply(t, id, user, pending, sending); r.Resumed? && !r.handled
    ensures var after := ResumeReply(t, id, user, pending, sending).tables;
            && RepliesSound(after.replies) && !HasPending(after.replies, user) && id !in after.replies
            && QueueReply(after, id, user, draft, now).Fresh?
  {
    if pending.Some? {
      var after := ResumeReply(t, id, user, pending, sending).tables;
      forall k | k in after.replies && after.replies[k].user == user
        ensures !after.replies[k].status.Pending?
      {
        assert k in t.replies;
      }
    }
  }

  /** When an update's own reply is there, the update is not handled again; afterwards the reply is delivered or
      gone. */
  lemma {:induction false} ResumeReplaces<D>(t: Tables<D>, id: nat, user: string, pending: Option<nat>, sending: Sending)
    requires RepliesSound(t.replies) && id in t.replies && t.replies[id].user == user && (pending.Some? ==> pending.value in t.replies)
    requires ResumeReply(t, id, user, pending, sending).Resumed?
    ensures var r := ResumeReply(t, id, user, pending, sending);
            && r.handled && RepliesSound(r.tables.replies)
            && (id in r.tables.replies ==> r.tables.replies[id].status.Delivered?)
            && (sending.Sent? ==> r.tables.sessions == t.sessions)
  {
  }

  // ---------------------------------------------------------------- six quiet days

  /** A time at which an update was processed, as far as the tables know. */
  ghost predicate IsKnownTime<D>(t: Tables<D>, at: nat) {
    t.lastUpdateAt == Some(at) || exists i :: 0 <= i < |t.processed| && t.processed[i].at == at
  }

  lemma {:induction false} LastOfRows(rows: seq<Processed>)
    ensures LastProcessedAt(rows).None? <==> rows == []
    ensures LastProcessedAt(rows).Some? ==> exists i :: 0 <= i < |rows| && rows[i].at == LastProcessedAt(rows).value
    ensures forall i :: 0 <= i < |rows| ==> LastProcessedAt(rows).Some? && rows[i].at <= LastProcessedAt(rows).value
    decreases |rows|
  {
    if rows != [] {
      LastOfRows(rows[1..]);
      assert forall i :: 0 < i < |rows| ==> rows[i] == rows[1..][i - 1];
      var last := LastProcessedAt(rows[1..]);
      if last.Some? && last.value >= rows[0].at {
        var k :| 0 <= k < |rows[1..]| && rows[1..][k].at == last.value;
        assert rows[k + 1].at == last.value;
      }
    }
  }

  /** The numbering starts over exactly when some update was processed and all known times are at least six days
      old; then all rows and the watermark go. Otherwise rows and watermark stay, and the watermark is the
      offset. */
  lemma {:induction false} PreparedExactly<D>(t: Tables<D>, now: nat)
    ensures var (after, offset) := Prepared(t, now);
            if (exists at: nat :: IsKnownTime(t, at)) && (forall at: nat :: IsKnownTime(t, at) ==> at + 518_400_000 <= now)
            then after.processed == [] && after.watermark.None? && after.lastUpdateAt.None? && offset.None?
            else after.processed == t.processed && after.watermark == t.watermark && offset == t.watermark
    ensures Prepared(t, now).0.sessions == t.sessions
  {
    hide FreshReplies;
    LastOfRows(t.processed);
    var last := EffectiveLast(t);
    if last.Some? {
      assert IsKnownTime(t, last.value);
      assert forall at: nat :: IsKnownTime(t, at) ==> at <= last.value;
    } else {
      assert forall at: nat :: !IsKnownTime(t, at);
    }
  }

  /** Preparing drops the delivered replies that are six days old and no other. */
  lemma {:induction false} RepliesExpire<D>(t: Tables<D>, now: nat, id: nat)
    requires now >= 518_400_000
    ensures var after := Prepared(t, now).0.replies;
            && (id in after <==> id in t.replies && !(t.replies[id].status.Delivered? && t.replies[id].createdAt + 518_400_000 <= now))
            && (id in after ==> after[id] == t.replies[id])
  {
    hide EffectiveLast;
  }

  // ---------------------------------------------------------------- one step of a reply

  /** Processing an update ends its reply if it was delivered, and notes it if it is still pending; other replies
      and all sessions stay. */
  lemma {:induction false} MarkedReplies<D>(t: Tables<D>, id: nat, now: nat)
    requires id < Currency.MAX_SAFE
    ensures var after := Marked(t, id, now);
            && after.Some? && after.value.sessions == t.sessions
            && after.value.replies == (if id !in t.replies then t.replies
                                       else if t.replies[id].status.Delivered? then t.replies - {id}
                                       else t.replies[id := t.replies[id].(updateProcessed := true)])
            && after.value.lastUpdateAt == Some(if t.lastUpdateAt.Some? && t.lastUpdateAt.value > now then t.lastUpdateAt.value else now)
  {
    hide Pruned, Inserted;
  }

  /** A delivered reply goes when its update was processed before; otherwise it stays, marked as delivered. */
  lemma {:induction false} DeliveryOutcome<D>(t: Tables<D>, id: nat)
    requires id in t.replies
    ensures DeliveredReply(t, id)
            == t.(replies := if t.replies[id].updateProcessed then t.replies - {id}
                             else t.replies[id := t.replies[id].(status := Delivered)])
  {
  }

  /** What an attempt on a stored reply does: nothing for a delivered one; an unreachable provider leaves it to be
      tried again; a rejected one goes with the session of its user; a sent one is delivered. */
  lemma {:induction false} AttemptOutcome<D>(t: Tables<D>, id: nat, sending: Sending)
    requires id in t.replies
    ensures var reply, after := t.replies[id], Attempted(t, id, sending);
            if reply.status.Delivered? then after == Some(t)
            else match sending
              case Unreachable => after == None
              case Rejected => after == Some(t.(replies := t.replies - {id}, sessions := t.sessions - {reply.user}))
              case Sent => after == Some(DeliveredReply(t, id))
  {
  }

  /** Queuing: the stored reply of the same user answers; a reply of another user, or a pending one of this user,
      collides; otherwise reply and session are stored together. */
  lemma {:induction false} QueueOutcome<D>(t: Tables<D>, id: nat, user: string, draft: D, now: nat)
    ensures var r := QueueReply(t, id, user, draft, now);
            if id in t.replies then r == if t.replies[id].user == user then Existing(t.replies[id]) else Collision
            else if exists other :: other in t.replies && t.replies[other].user == user && t.replies[other].status.Pending? then r == Collision
            else
              var reply := Reply(user, Pending, false, now);
              r == Fresh(t.(replies := t.replies[id := reply], sessions := t.sessions[user := draft]), reply)
  {
  }

  /** Before handling: a stored reply of this update is attempted instead; another pending reply of the user is
      attempted first; an unreachable provider interrupts. */
  lemma {:induction false} ResumeOutcome<D>(t: Tables<D>, id: nat, user: string, pending: Option<nat>, sending: Sending)
    requires IsPendingOf(t.replies, user, pending)
    ensures var r := ResumeReply(t, id, user, pending, sending);
            if id in t.replies && t.replies[id].user != user then r == Misdirected
            else if id in t.replies then
              r == match Attempted(t, id, sending) case None => Interrupted case Some(after) => Resumed(after, true)
            else if pending.None? then r == Resumed(t, false)
            else r == match Attempted(t, pending.value, sending) case None => Interrupted case Some(after) => Resumed(after, false)
  {
    hide Attempted;
  }

  // ---------------------------------------------------------------- whole runs of replies

  datatype ReplyStep<D> =
    | Queue(id: nat, user: string, draft: D, now: nat)
    | Deliver(id: nat)
    | Delete(id: nat)
    | Forget(user: string)
    | Mark(id: nat, now: nat)
    | Prepare(now: nat)

  function AfterStep<D>(t: Tables<D>, step: ReplyStep<D>): Tables<D> {
    match step
    case Queue(id, user, draft, now) =>
      var queued := QueueReply(t, id, user, draft, now);
      if queued.Fresh? then queued.after else t
    case Deliver(id) => DeliveredReply(t, id)
    case Delete(id) => WithoutReply(t, id)
    case Forget(user) => WithoutSession(t, user)
    case Mark(id, now) => if Marked(t, id, now).Some? then Marked(t, id, now).value else t
    case Prepare(now) => Prepared(t, now).0
  }

  function AfterSteps<D>(t: Tables<D>, steps: seq<ReplyStep<D>>): Tables<D>
    decreases |steps|
  {
    if steps == [] then t else AfterSteps(AfterStep(t, steps[0]), steps[1..])
  }

  lemma {:induction false} StepKeepsReplies<D>(t: Tables<D>, step: ReplyStep<D>)
    requires RepliesSound(t.replies)
    ensures RepliesSound(AfterStep(t, step).replies)
  {
    hide RepliesSound, RepliesProcessed, FreshReplies, DeliveredReply, WithoutReply, QueueReply, Pruned, Inserted, EffectiveLast;
    match step
    case Queue(id, user, draft, now) => QueuingKeepsReplies(t, id, user, draft, now);
    case Deliver(id) => DeliveryKeepsReplies(t, id);
    case Delete(id) => DeliveryKeepsReplies(t, id);
    case Forget(user) =>
    case Mark(id, now) => ClockKeepsReplies(t, id, now);
    case Prepare(now) => ClockKeepsReplies(t, 0, now);
  }

  lemma {:induction false} DeliveryKeepsReplies<D>(t: Tables<D>, id: nat)
    requires RepliesSound(t.replies)
    ensures RepliesSound(DeliveredReply(t, id).replies) && RepliesSound(WithoutReply(t, id).replies)
  {
  }

  lemma {:induction false} ClockKeepsReplies<D>(t: Tables<D>, id: nat, now: nat)
    requires RepliesSound(t.replies)
    ensures RepliesSound(RepliesProcessed(t.replies, id)) && RepliesSound(FreshReplies(t.replies, now))
  {
  }

  /** Over any run of queuing, delivering, rejecting, marking and pruning no reply row is both delivered and
      processed, and no user has two pending replies. */
  lemma {:induction false} RunKeepsReplies<D>(t: Tables<D>, steps: seq<ReplyStep<D>>)
    requires RepliesSound(t.replies)
    ensures RepliesSound(AfterSteps(t, steps).replies)
    decreases |steps|
  {
    hide AfterStep, RepliesSound;
    if steps != [] {
      StepKeepsReplies(t, steps[0]);
      RunKeepsReplies(AfterStep(t, steps[0]), steps[1..]);
    }
  }

  /** The row of the reply is there before, between and after all steps. */
  ghost predicate RowStays<D>(t: Tables<D>, steps: seq<ReplyStep<D>>, id: nat)
    decreases |steps|
  {
    id in t.replies && (steps != [] ==> RowStays(AfterStep(t, steps[0]), steps[1..], id))
  }

  /** How often the session transition of an update is applied in a run. */
  function TransitionsOf<D>(t: Tables<D>, steps: seq<ReplyStep<D>>, id: nat): nat
    decreases |steps|
  {
    if steps == [] then 0
    else
      TransitionsOf(AfterStep(t, steps[0]), steps[1..], id)
      + match steps[0]
        case Queue(queued, user, draft, now) => if queued == id && QueueReply(t, queued, user, draft, now).Fresh? then 1 else 0
        case _ => 0
  }

  /** While the row of its reply exists, no replay of an update moves a session again. */
  lemma {:induction false} ReplayMovesNoSession<D>(t: Tables<D>, steps: seq<ReplyStep<D>>, id: nat)
    requires RowStays(t, steps, id)
    ensures TransitionsOf(t, steps, id) == 0
    decreases |steps|
  {
    hide AfterStep;
    if steps != [] {
      ReplayMovesNoSession(AfterStep(t, steps[0]), steps[1..], id);
    }
  }

  lemma {:induction false} RowKeepsUser<D>(t: Tables<D>, steps: seq<ReplyStep<D>>, id: nat)
    requires RowStays(t, steps, id)
    ensures id in AfterSteps(t, steps).replies && AfterSteps(t, steps).replies[id].user == t.replies[id].user
    decreases |steps|
  {
    if steps != [] {
      StepKeepsUser(t, steps[0], id);
      hide AfterStep;
      RowKeepsUser(AfterStep(t, steps[0]), steps[1..], id);
    }
  }

  lemma {:induction false} StepKeepsUser<D>(t: Tables<D>, step: ReplyStep<D>, id: nat)
    requires id in t.replies && id in AfterStep(t, step).replies
    ensures AfterStep(t, step).replies[id].user == t.replies[id].user
  {
    hide Pruned, Inserted, EffectiveLast;
  }

  /** An update that queues a reply moves its session once: over any run in which the row of the reply stays,
      nothing moves it for that update again, and a replay finds the reply of the same user. */
  lemma {:induction false} QueuedOnce<D>(t: Tables<D>, id: nat, user: string, draft: D, now: nat, steps: seq<ReplyStep<D>>, again: D, later: nat)
    requires QueueReply(t, id, user, draft, now).Fresh?
    requires RowStays(QueueReply(t, id, user, draft, now).after, steps, id)
    ensures QueueReply(t, id, user, draft, now).after.sessions == t.sessions[user := draft]
    ensures TransitionsOf(t, [Queue(id, user, draft, now)] + steps, id) == 1
    ensures var end := AfterSteps(t, [Queue(id, user, draft, now)] + steps);
            QueueReply(end, id, user, again, later).Existing?
  {
    var after := QueueReply(t, id, user, draft, now).after;
    assert after.replies[id].user == user;
    assert AfterStep(t, Queue(id, user, draft, now)) == after;
    var all := [Queue(id, user, draft, now)] + steps;
    assert all[0] == Queue(id, user, draft, now) && all[1..] == steps;
    hide AfterStep;
    ReplayMovesNoSession(after, steps, id);
    RowKeepsUser(after, steps, id);
  }
}
