/** The tables behind the handling of Telegram updates: the processed updates with their watermark, and the
    conversation replies with their sessions. `bot/repository.ts`. */
module UpdateLog {
  import opened Wrappers
  import Currency

  const PROCESSED_UPDATE_RETENTION_LIMIT := 4_096
  const UPDATE_SEQUENCE_RESET_AFTER_MS := 518_400_000 // six days

  datatype Processed = Processed(id: nat, at: nat)

  datatype ReplyStatus = Pending | Delivered

  datatype Reply = Reply(user: string, status: ReplyStatus, updateProcessed: bool, createdAt: nat)

  /** `D` is the draft of a conversation session. The processed updates stand in the order of their ids. */
  datatype Tables<D> = Tables(
    processed: seq<Processed>, watermark: Option<nat>, lastUpdateAt: Option<nat>,
    replies: map<nat, Reply>, sessions: map<string, D>)

  // ---------------------------------------------------------------- processed updates

  predicate HasProcessed(rows: seq<Processed>, id: nat) {
    exists i :: 0 <= i < |rows| && rows[i].id == id
  }

  /** `INSERT OR IGNORE`, in the order of the ids. */
  function Inserted(rows: seq<Processed>, id: nat, at: nat): seq<Processed> {
    if rows == [] then [Processed(id, at)]
    else if id < rows[0].id then [Processed(id, at)] + rows
    else if id == rows[0].id then rows
    else [rows[0]] + Inserted(rows[1..], id, at)
  }

  /** The rows with an id below both bounds go. */
  function Above(rows: seq<Processed>, watermark: nat, threshold: nat): seq<Processed> {
    if rows == [] then []
    else if rows[0].id < watermark && rows[0].id < threshold then Above(rows[1..], watermark, threshold)
    else [rows[0]] + Above(rows[1..], watermark, threshold)
  }

  /** The threshold is the id of the row at position `limit - 1` counted from the newest, if there is one. */
  function Pruned(rows: seq<Processed>, watermark: nat, limit: nat): seq<Processed>
    requires limit >= 1
  {
    if |rows| < limit then rows else Above(rows, watermark, rows[|rows| - limit].id)
  }

  function Later(a: Option<nat>, b: nat): Option<nat> {
    if a.None? || a.value < b then Some(b) else a
  }

  /** A processed update no longer needs a delivered reply, and its pending reply knows that it is processed. */
  function RepliesProcessed(replies: map<nat, Reply>, id: nat): map<nat, Reply> {
    if id !in replies then replies
    else if replies[id].status.Delivered? then replies - {id}
    else replies[id := replies[id].(updateProcessed := true)]
  }

  /** `None` for the largest update id, after which there is no offset. */
  function Marked<D>(t: Tables<D>, id: nat, now: nat): Option<Tables<D>> {
    if id >= Currency.MAX_SAFE then None
    else
      var watermark := Later(t.watermark, id + 1);
      Some(Tables(Pruned(Inserted(t.processed, id, now), watermark.value, PROCESSED_UPDATE_RETENTION_LIMIT),
                  watermark, Later(t.lastUpdateAt, now), RepliesProcessed(t.replies, id), t.sessions))
  }

  function LastProcessedAt(rows: seq<Processed>): Option<nat> {
    if rows == [] then None
    else Later(LastProcessedAt(rows[1..]), rows[0].at)
  }

  function EffectiveLast<D>(t: Tables<D>): Option<nat> {
    var last := LastProcessedAt(t.processed);
    if last.Some? && (t.lastUpdateAt.None? || last.value > t.lastUpdateAt.value) then last else t.lastUpdateAt
  }

  /** Delivered replies are kept for six days. */
  function FreshReplies(replies: map<nat, Reply>, now: nat): map<nat, Reply> {
    var cutoff := if now < UPDATE_SEQUENCE_RESET_AFTER_MS then 0 else now - UPDATE_SEQUENCE_RESET_AFTER_MS;
    map id | id in replies && !(replies[id].status.Delivered? && replies[id].createdAt <= cutoff) :: replies[id]
  }

  predicate IsSequenceStale<D>(t: Tables<D>, now: nat) {
    var last := EffectiveLast(t);
    last.Some? && now >= last.value && now - last.value >= UPDATE_SEQUENCE_RESET_AFTER_MS
  }

  /** The offset to poll from. After six quiet days the numbering starts over, since Telegram's may have. */
  function Prepared<D>(t: Tables<D>, now: nat): (Tables<D>, Option<nat>) {
    var kept := t.(lastUpdateAt := EffectiveLast(t), replies := FreshReplies(t.replies, now));
    if IsSequenceStale(t, now) then (kept.(processed := [], watermark := None, lastUpdateAt := None), None)
    else (kept, kept.watermark)
  }

  // ---------------------------------------------------------------- conversation replies

  predicate HasPending(replies: map<nat, Reply>, user: string) {
    exists id :: id in replies && replies[id].user == user && replies[id].status.Pending?
  }

  /** What queuing a reply together with its session gives: the reply that is there already, a new one, or a
      refusal. */
  datatype Queued<D> = Existing(reply: Reply) | Fresh(after: Tables<D>, created: Reply) | Collision

  /** A session moves on only together with a new reply row for its update. */
  function QueueReply<D>(t: Tables<D>, id: nat, user: string, draft: D, now: nat): Queued<D> {
    if id in t.replies then
      if t.replies[id].user != user then Collision else Existing(t.replies[id])
    else if HasPending(t.replies, user) then Collision // the unique index on pending replies
    else
      var reply := Reply(user, Pending, false, now);
      Fresh(t.(replies := t.replies[id := reply], sessions := t.sessions[user := draft]), reply)
  }

  /** The row of a reply whose update is processed goes once it is delivered. */
  function DeliveredReply<D>(t: Tables<D>, id: nat): Tables<D> {
    if id !in t.replies then t
    else if t.replies[id].updateProcessed then t.(replies := t.replies - {id})
    else t.(replies := t.replies[id := t.replies[id].(status := Delivered)])
  }

  function WithoutReply<D>(t: Tables<D>, id: nat): Tables<D> { t.(replies := t.replies - {id}) }

  function WithoutSession<D>(t: Tables<D>, user: string): Tables<D> { t.(sessions := t.sessions - {user}) }

  // ---------------------------------------------------------------- sending

  datatype Sending = Sent | Unreachable | Rejected

  /** One attempt to send a reply. `None` when the attempt is to be repeated: the row stays. */
  function Attempted<D>(t: Tables<D>, id: nat, sending: Sending): Option<Tables<D>>
    requires id in t.replies
  {
    if t.replies[id].status.Delivered? then Some(t)
    else
      match sending
      case Unreachable => None
      case Rejected => Some(WithoutReply(WithoutSession(t, t.replies[id].user), id))
      case Sent => Some(DeliveredReply(t, id))
  }

  /** Before an update is handled: its own reply is sent again instead of handling it, and a reply that another
      update left pending is sent first. `handled` says that there is nothing more to do. */
  datatype Resumed<D> = Resumed(tables: Tables<D>, handled: bool) | Interrupted | Misdirected

  function ResumeReply<D>(t: Tables<D>, id: nat, user: string, pending: Option<nat>, sending: Sending): Resumed<D>
    requires pending.Some? ==> pending.value in t.replies
  {
    if id in t.replies then
      if t.replies[id].user != user then Misdirected
      else
        var after := Attempted(t, id, sending);
        if after.None? then Interrupted else Resumed(after.value, true)
    else if pending.None? then Resumed(t, false)
    else
      var after := Attempted(t, pending.value, sending);
      if after.None? then Interrupted else Resumed(after.value, false)
  }

  /** The pending reply that the query finds for a user, if there is one. */
  ghost predicate IsPendingOf(replies: map<nat, Reply>, user: string, pending: Option<nat>) {
    if pending.Some? then pending.value in replies && replies[pending.value].user == user && replies[pending.value].status.Pending?
    else !HasPending(replies, user)
  }
}
