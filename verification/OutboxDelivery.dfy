/** Delivering stored messages: `flushBankOutbox` of `bot/bank-flow.ts`. A message leaves the outbox only when it
    was sent or can never be sent; any other failure puts it off. */
module OutboxDelivery {
  import opened Wrappers
  import opened OperationLog
  import opened OperationLogProofs
  import opened Repository
  import Currency

  const BANK_OUTBOX_INITIAL_BACKOFF_MS := 1_000
  const BANK_OUTBOX_MAX_BACKOFF_MS := 60_000
  const BANK_OUTBOX_MAX_RETRY_AFTER_MS := 3_600_000

  /** How an attempt to send ends; a failure may carry the delay in seconds that the provider asks for. */
  datatype Sending = Sent | Rejected | Failed(retryAfter: Option<nat>, fatal: bool)

  function PowerOfTwo(n: nat): (p: nat)
    ensures p >= 1
  {
    if n == 0 then 1 else 2 * PowerOfTwo(n - 1)
  }

  function Least(a: nat, b: nat): nat { if a < b then a else b }

  function RetryMs(retryAfter: Option<nat>, attempts: nat): nat
    requires attempts >= 1
  {
    var exponential := Least(BANK_OUTBOX_MAX_BACKOFF_MS, BANK_OUTBOX_INITIAL_BACKOFF_MS * PowerOfTwo(Least(attempts - 1, 8)));
    var asked := Least((if retryAfter.Some? then retryAfter.value else 0) * 1_000, BANK_OUTBOX_MAX_RETRY_AFTER_MS);
    if exponential < asked then asked else exponential
  }

  lemma {:induction false} PowersGrow(m: nat, n: nat)
    requires m <= n
    ensures PowerOfTwo(m) <= PowerOfTwo(n)
    decreases n
  {
    if m < n {
      PowersGrow(m, n - 1);
    }
  }

  /** A delay is between a second and an hour, at least what the provider asks for within that hour, and never
      shorter after more attempts. */
  lemma {:induction false} RetryIsBounded(retryAfter: Option<nat>, attempts: nat, more: nat)
    requires 1 <= attempts <= more
    ensures 1_000 <= RetryMs(retryAfter, attempts) <= BANK_OUTBOX_MAX_RETRY_AFTER_MS
    ensures retryAfter.Some? && retryAfter.value <= 3_600 ==> RetryMs(retryAfter, attempts) >= 1_000 * retryAfter.value
    ensures RetryMs(retryAfter, attempts) <= RetryMs(retryAfter, more)
  {
    PowersGrow(Least(attempts - 1, 8), Least(more - 1, 8));
  }

  lemma {:induction false} PowersOfEight(n: nat)
    ensures PowerOfTwo(6) == 64 && (n >= 6 ==> PowerOfTwo(n) >= 64)
  {
    assert PowerOfTwo(6) == 64;
    if n >= 6 {
      PowersGrow(6, n);
    }
  }

  /** The delay starts with a second and doubles with every attempt up to a minute. What the provider asks for,
      up to an hour, is a lower bound and nothing more. */
  lemma {:induction false} RetryDoubles(attempts: nat, seconds: nat)
    requires attempts >= 1
    ensures RetryMs(None, 1) == 1_000
    ensures RetryMs(None, attempts + 1) == if RetryMs(None, attempts) <= 30_000 then 2 * RetryMs(None, attempts) else 60_000
    ensures RetryMs(Some(seconds), attempts)
            == (var asked := if seconds <= 3_600 then 1_000 * seconds else 3_600_000;
                if RetryMs(None, attempts) < asked then asked else RetryMs(None, attempts))
  {
    PowersOfEight(Least(attempts - 1, 8));
    PowersOfEight(Least(attempts, 8));
  }

  // ---------------------------------------------------------------- one message

  function NextAttempts(attempts: nat): nat {
    Least(attempts + 1, MAX_ATTEMPTS)
  }

  function NextAttemptAt(retryAfter: Option<nat>, attempts: nat, now: nat): nat
    requires attempts >= 1
  {
    Least(Currency.MAX_SAFE, now + RetryMs(retryAfter, attempts))
  }

  /** The outbox after one attempt on `item`. */
  function AfterSending<M>(outbox: seq<OutboxRow<M>>, item: OutboxRow<M>, sending: Sending, now: nat): seq<OutboxRow<M>> {
    match sending
    case Sent => WithoutOutbox(outbox, item.id)
    case Rejected => WithoutOutbox(outbox, item.id)
    case Failed(retryAfter, _) =>
      var attempts := NextAttempts(item.attempts);
      DeferredRows(outbox, item.id, attempts, NextAttemptAt(retryAfter, attempts, now))
  }

  function AfterFlush<M>(outbox: seq<OutboxRow<M>>, due: seq<OutboxRow<M>>, sendings: seq<Sending>, now: nat): seq<OutboxRow<M>>
    requires |due| == |sendings|
    decreases |due|
  {
    if due == [] then outbox
    else AfterFlush(AfterSending(outbox, due[0], sendings[0], now), due[1..], sendings[1..], now)
  }

  /** The rows that the query for due messages gives: distinct rows of the outbox whose time has come, with room
      for one more hour on the clock. */
  ghost predicate AreDue<M>(outbox: seq<OutboxRow<M>>, due: seq<OutboxRow<M>>, now: nat) {
    && now + BANK_OUTBOX_MAX_RETRY_AFTER_MS <= Currency.MAX_SAFE
    && (forall i :: 0 <= i < |due| ==> due[i] in outbox && due[i].nextAttemptAt <= now)
    && (forall i, j :: 0 <= i < j < |due| ==> due[i].id != due[j].id)
  }

  lemma {:induction false} DeferringAdvances<M>(row: OutboxRow<M>, retryAfter: Option<nat>, now: nat)
    requires row.nextAttemptAt <= now && now + BANK_OUTBOX_MAX_RETRY_AFTER_MS <= Currency.MAX_SAFE
    requires row.attempts <= MAX_ATTEMPTS
    ensures var attempts := NextAttempts(row.attempts);
            && 1 <= attempts <= MAX_ATTEMPTS
            && Advances(row, row.id, attempts, NextAttemptAt(retryAfter, attempts, now))
            && now < NextAttemptAt(retryAfter, attempts, now)
  {
    RetryIsBounded(retryAfter, NextAttempts(row.attempts), NextAttempts(row.attempts));
    hide RetryMs;
  }

  lemma {:induction false} OtherRowStays<M>(outbox: seq<OutboxRow<M>>, item: OutboxRow<M>, sending: Sending, now: nat, row: OutboxRow<M>)
    requires row in outbox && row.id != item.id
    ensures row in AfterSending(outbox, item, sending, now)
  {
    hide RetryMs;
    if sending.Failed? {
      var i :| 0 <= i < |outbox| && outbox[i] == row;
      assert AfterSending(outbox, item, sending, now)[i] == row;
    } else {
      OtherMessagesStay(outbox, item.id, row);
    }
  }

  lemma {:induction false} RestIsDue<M>(outbox: seq<OutboxRow<M>>, due: seq<OutboxRow<M>>, sending: Sending, now: nat)
    requires AreDue(outbox, due, now) && due != []
    ensures AreDue(AfterSending(outbox, due[0], sending, now), due[1..], now)
  {
    hide AfterSending;
    forall i | 0 <= i < |due| - 1
      ensures due[1..][i] in AfterSending(outbox, due[0], sending, now)
    {
      OtherRowStays(outbox, due[0], sending, now, due[i + 1]);
    }
  }

  // ---------------------------------------------------------------- the whole flush

  /** One message: gone, or put off. A message that is put off must still be there. */
  method Deliver<S(==), O, M>(repository: BankRepository<S, O, M>, item: OutboxRow<M>, sending: Sending, now: nat)
    requires repository.Valid() && item in repository.outbox && item.attempts <= MAX_ATTEMPTS
    requires item.nextAttemptAt <= now && now + BANK_OUTBOX_MAX_RETRY_AFTER_MS <= Currency.MAX_SAFE
    modifies repository`outbox
    ensures repository.Valid()
    ensures repository.outbox == AfterSending(old(repository.outbox), item, sending, now)
  {
    hide DbSound, RetryMs;
    if sending.Failed? {
      var attempts := NextAttempts(item.attempts);
      DeferringAdvances(item, sending.retryAfter, now);
      DueRowAdvances(repository.outbox, item, attempts, NextAttemptAt(sending.retryAfter, attempts, now));
      var changed := repository.DeferBankOutbox(item.id, attempts, NextAttemptAt(sending.retryAfter, attempts, now));
      assert changed;
    } else {
      var found := repository.CompleteBankOutbox(item.id);
    }
  }

  predicate AnyFatal(sendings: seq<Sending>) {
    exists i :: 0 <= i < |sendings| && sendings[i].Failed? && sendings[i].fatal
  }

  /** Tries every due message once; a fatal failure is reported at the end. */
  method FlushBankOutbox<S(==), O, M>(repository: BankRepository<S, O, M>, due: seq<OutboxRow<M>>, sendings: seq<Sending>, now: nat)
      returns (fatal: bool)
    requires repository.Valid() && |due| == |sendings| && AreDue(repository.outbox, due, now)
    requires forall i :: 0 <= i < |due| ==> due[i].attempts <= MAX_ATTEMPTS
    modifies repository`outbox
    ensures repository.Valid()
    ensures repository.outbox == AfterFlush(old(repository.outbox), due, sendings, now)
    ensures fatal == AnyFatal(sendings)
  {
    hide DbSound, AfterSending;
    fatal := false;
    for k := 0 to |due|
      invariant repository.Valid()
      invariant AreDue(repository.outbox, due[k..], now)
      invariant AfterFlush(repository.outbox, due[k..], sendings[k..], now) == AfterFlush(old(repository.outbox), due, sendings, now)
      invariant fatal == AnyFatal(sendings[..k])
    {
      assert due[k..][0] == due[k] && due[k..][1..] == due[k + 1..] && sendings[k..][1..] == sendings[k + 1..];
      RestIsDue(repository.outbox, due[k..], sendings[k], now);
      Deliver(repository, due[k], sendings[k], now);
      fatal := fatal || (sendings[k].Failed? && sendings[k].fatal);
      OneMoreSending(sendings, k);
    }
    assert due[|due|..] == [] && sendings[..|due|] == sendings;
  }

  lemma {:induction false} OneMoreSending(sendings: seq<Sending>, k: nat)
    requires k < |sendings|
    ensures AnyFatal(sendings[..k + 1]) <==> AnyFatal(sendings[..k]) || (sendings[k].Failed? && sendings[k].fatal)
  {
    if AnyFatal(sendings[..k]) {
      var i :| 0 <= i < k && sendings[..k][i].Failed? && sendings[..k][i].fatal;
      assert sendings[..k + 1][i] == sendings[i];
    }
    assert sendings[..k + 1][k] == sendings[k];
  }

  lemma {:induction false} DueRowAdvances<M>(outbox: seq<OutboxRow<M>>, item: OutboxRow<M>, attempts: nat, nextAttemptAt: nat)
    requires item in outbox && Advances(item, item.id, attempts, nextAttemptAt)
    ensures DeferredRows(outbox, item.id, attempts, nextAttemptAt) != outbox
  {
    var i :| 0 <= i < |outbox| && outbox[i] == item;
    assert DeferredRows(outbox, item.id, attempts, nextAttemptAt)[i] != outbox[i];
  }

  /** Nothing is lost: a message that failed to go out is still there with one more attempt and a later time,
      and only messages that were sent or can never be sent are gone. */
  lemma {:induction false} FlushLosesNothing<M>(outbox: seq<OutboxRow<M>>, due: seq<OutboxRow<M>>, sendings: seq<Sending>, now: nat, row: OutboxRow<M>)
    requires |due| == |sendings| && AreDue(outbox, due, now) && row in outbox && row.attempts <= MAX_ATTEMPTS
    requires forall i :: 0 <= i < |due| && due[i].id == row.id ==> due[i] == row && sendings[i].Failed?
    ensures exists after :: after in AfterFlush(outbox, due, sendings, now) && after.message == row.message && after.id == row.id
                            && (if row in due then after.attempts == NextAttempts(row.attempts) && now < after.nextAttemptAt else after == row)
    decreases |due|
  {
    hide AfterSending, RetryMs;
    if due == [] {
      assert row in AfterFlush(outbox, due, sendings, now);
    } else {
      var next := AfterSending(outbox, due[0], sendings[0], now);
      RestIsDue(outbox, due, sendings[0], now);
      if due[0].id == row.id {
        var later := PutOff(outbox, row, sendings[0], now);
        StaysThrough(next, due[1..], sendings[1..], now, later);
      } else {
        OtherRowStays(outbox, due[0], sendings[0], now, row);
        FlushLosesNothing(next, due[1..], sendings[1..], now, row);
        assert row in due <==> row in due[1..];
      }
    }
  }

  lemma {:induction false} PutOff<M>(outbox: seq<OutboxRow<M>>, row: OutboxRow<M>, sending: Sending, now: nat) returns (later: OutboxRow<M>)
    requires row in outbox && sending.Failed? && row.attempts <= MAX_ATTEMPTS && row.nextAttemptAt <= now
    requires now + BANK_OUTBOX_MAX_RETRY_AFTER_MS <= Currency.MAX_SAFE
    ensures later in AfterSending(outbox, row, sending, now) && later.id == row.id && later.message == row.message
    ensures later.attempts == NextAttempts(row.attempts) && now < later.nextAttemptAt
  {
    hide RetryMs;
    DeferringAdvances(row, sending.retryAfter, now);
    var i :| 0 <= i < |outbox| && outbox[i] == row;
    later := AfterSending(outbox, row, sending, now)[i];
  }

  lemma {:induction false} StaysThrough<M>(outbox: seq<OutboxRow<M>>, due: seq<OutboxRow<M>>, sendings: seq<Sending>, now: nat, row: OutboxRow<M>)
    requires |due| == |sendings| && row in outbox && forall i :: 0 <= i < |due| ==> due[i].id != row.id
    ensures row in AfterFlush(outbox, due, sendings, now)
    decreases |due|
  {
    hide AfterSending;
    if due != [] {
      OtherRowStays(outbox, due[0], sendings[0], now, row);
      StaysThrough(AfterSending(outbox, due[0], sendings[0], now), due[1..], sendings[1..], now, row);
    }
  }

  // ---------------------------------------------------------------- what becomes of each message

  lemma {:induction false} SentIsGone<M>(outbox: seq<OutboxRow<M>>, item: OutboxRow<M>, sending: Sending, now: nat)
    ensures forall row :: row in AfterSending(outbox, item, sending, now) ==> exists one :: one in outbox && one.id == row.id
    ensures !sending.Failed? ==> forall row :: row in AfterSending(outbox, item, sending, now) ==> row.id != item.id
  {
    hide RetryMs;
    WithoutIsPart(outbox, item.id);
    forall row | row in AfterSending(outbox, item, sending, now)
      ensures exists one :: one in outbox && one.id == row.id
    {
      if sending.Failed? {
        var k :| 0 <= k < |outbox| && AfterSending(outbox, item, sending, now)[k] == row;
        assert outbox[k] in outbox && outbox[k].id == row.id;
      } else {
        assert row in outbox;
      }
    }
  }

  lemma {:induction false} StaysGone<M>(outbox: seq<OutboxRow<M>>, due: seq<OutboxRow<M>>, sendings: seq<Sending>, now: nat, id: nat)
    requires |due| == |sendings| && forall row :: row in outbox ==> row.id != id
    ensures forall row :: row in AfterFlush(outbox, due, sendings, now) ==> row.id != id
    decreases |due|
  {
    hide AfterSending;
    if due != [] {
      SentIsGone(outbox, due[0], sendings[0], now);
      StaysGone(AfterSending(outbox, due[0], sendings[0], now), due[1..], sendings[1..], now, id);
    }
  }

  /** A message that was sent, or that can never be sent, leaves the outbox. */
  lemma {:induction false} FlushRemovesSent<M>(outbox: seq<OutboxRow<M>>, due: seq<OutboxRow<M>>, sendings: seq<Sending>, now: nat, i: nat)
    requires |due| == |sendings| && i < |due| && !sendings[i].Failed?
    ensures forall row :: row in AfterFlush(outbox, due, sendings, now) ==> row.id != due[i].id
    decreases |due|
  {
    hide AfterSending;
    var next := AfterSending(outbox, due[0], sendings[0], now);
    if i == 0 {
      SentIsGone(outbox, due[0], sendings[0], now);
      StaysGone(next, due[1..], sendings[1..], now, due[0].id);
    } else {
      FlushRemovesSent(next, due[1..], sendings[1..], now, i - 1);
    }
  }

  /** A message that failed stays, with one attempt more, at most 31 on record, and is due again after the delay
      for that many attempts. */
  lemma {:induction false} FlushPutsOff<M>(outbox: seq<OutboxRow<M>>, due: seq<OutboxRow<M>>, sendings: seq<Sending>, now: nat, i: nat)
    requires |due| == |sendings| && AreDue(outbox, due, now) && i < |due| && sendings[i].Failed? && due[i].attempts <= MAX_ATTEMPTS
    ensures var attempts := if due[i].attempts < 31 then due[i].attempts + 1 else 31;
            due[i].(attempts := attempts, nextAttemptAt := now + RetryMs(sendings[i].retryAfter, attempts)) in AfterFlush(outbox, due, sendings, now)
    decreases |due|
  {
    hide AfterSending, RetryMs;
    var next := AfterSending(outbox, due[0], sendings[0], now);
    if i == 0 {
      var row := due[0];
      var later := PutOffTill(outbox, row, sendings[0], now);
      StaysThrough(next, due[1..], sendings[1..], now, later);
    } else {
      RestIsDue(outbox, due, sendings[0], now);
      FlushPutsOff(next, due[1..], sendings[1..], now, i - 1);
    }
  }

  lemma {:induction false} PutOffTill<M>(outbox: seq<OutboxRow<M>>, row: OutboxRow<M>, sending: Sending, now: nat) returns (later: OutboxRow<M>)
    requires row in outbox && sending.Failed? && row.attempts <= MAX_ATTEMPTS && row.nextAttemptAt <= now
    requires now + BANK_OUTBOX_MAX_RETRY_AFTER_MS <= Currency.MAX_SAFE
    ensures later in AfterSending(outbox, row, sending, now)
    ensures var attempts := if row.attempts < 31 then row.attempts + 1 else 31;
            later == row.(attempts := attempts, nextAttemptAt := now + RetryMs(sending.retryAfter, attempts))
  {
    DeferringAdvances(row, sending.retryAfter, now);
    RetryIsBounded(sending.retryAfter, NextAttempts(row.attempts), NextAttempts(row.attempts));
    hide RetryMs;
    var i :| 0 <= i < |outbox| && outbox[i] == row;
    later := AfterSending(outbox, row, sending, now)[i];
  }
}
