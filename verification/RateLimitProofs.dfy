/** What the limiter guarantees over whole runs of requests. */
module RateLimitProofs {
  import opened Wrappers
  import opened RateLimit
  import Currency

  // ---------------------------------------------------------------- one window after the other

  /** A request of one user and kind. A durable replay is admitted without a charge. */
  datatype Hit = Hit(now: int, durable: bool)

  /** How many charged hits are admitted in the interval of one window length that starts at `t`. */
  function AdmittedWithin(entry: Option<Entry>, p: Policy, hits: seq<Hit>, t: int): nat
    decreases |hits|
  {
    if hits == [] then 0
    else
      var (e, verdict) := Charge(entry, p, hits[0].durable, hits[0].now);
      AdmittedWithin(Some(e), p, hits[1..], t)
      + if !hits[0].durable && verdict.Admitted? && t <= hits[0].now < t + p.windowMs then 1 else 0
  }

  ghost predicate InOrder(hits: seq<Hit>, from: int) {
    && (forall i :: 0 <= i < |hits| ==> from <= hits[i].now)
    && forall i, j :: 0 <= i < j < |hits| ==> hits[i].now <= hits[j].now
  }

  lemma {:induction false} LaterInOrder(hits: seq<Hit>, from: int)
    requires InOrder(hits, from) && hits != []
    ensures InOrder(hits[1..], hits[0].now)
  {
  }

  lemma {:induction false} NothingAfter(e: Entry, p: Policy, hits: seq<Hit>, t: int)
    requires InOrder(hits, t + p.windowMs)
    ensures AdmittedWithin(Some(e), p, hits, t) == 0
    decreases |hits|
  {
    if hits != [] {
      assert InOrder(hits[1..], t + p.windowMs);
      NothingAfter(Charge(Some(e), p, hits[0].durable, hits[0].now).0, p, hits[1..], t);
    }
  }

  /** In a window that starts inside the interval only the rest of its own budget is left. */
  lemma {:induction false} RestOfWindow(e: Entry, p: Policy, hits: seq<Hit>, t: int)
    requires IsPolicy(p) && e.count <= p.maximum && InOrder(hits, e.windowStartedAtMs) && t <= e.windowStartedAtMs
    ensures AdmittedWithin(Some(e), p, hits, t) <= p.maximum - e.count
    decreases |hits|
  {
    if hits != [] {
      LaterInOrder(hits, e.windowStartedAtMs);
      var next := Charge(Some(e), p, hits[0].durable, hits[0].now).0;
      if hits[0].now - e.windowStartedAtMs < p.windowMs {
        assert InOrder(hits[1..], e.windowStartedAtMs);
        RestOfWindow(next, p, hits[1..], t);
      } else {
        NothingAfter(next, p, hits[1..], t);
      }
    }
  }

  lemma {:induction false} RestOfTwoWindows(e: Entry, p: Policy, hits: seq<Hit>, t: int)
    requires IsPolicy(p) && e.count <= p.maximum && InOrder(hits, e.windowStartedAtMs) && InOrder(hits, t)
    ensures AdmittedWithin(Some(e), p, hits, t) <= (p.maximum - e.count) + p.maximum
    decreases |hits|
  {
    if hits != [] {
      LaterInOrder(hits, t);
      var next := Charge(Some(e), p, hits[0].durable, hits[0].now).0;
      if hits[0].now - e.windowStartedAtMs < p.windowMs {
        assert InOrder(hits[1..], e.windowStartedAtMs) && InOrder(hits[1..], t);
        RestOfTwoWindows(next, p, hits[1..], t);
      } else {
        RestOfWindow(next, p, hits[1..], t);
      }
    }
  }

  /** A hit sees its own window: opening it beforehand changes nothing. */
  lemma {:induction false} SameWindow(entry: Option<Entry>, p: Policy, hits: seq<Hit>, t: int)
    requires hits != [] && IsPolicy(p)
    ensures AdmittedWithin(entry, p, hits, t) == AdmittedWithin(Some(WindowAt(entry, p, hits[0].now)), p, hits, t)
  {
  }

  /** With a clock that does not go back, any interval of one window length admits at most twice the
      maximum: it meets at most two windows. */
  lemma {:induction false} AtMostTwice(entry: Option<Entry>, p: Policy, hits: seq<Hit>, t: int, from: int)
    requires IsPolicy(p) && InOrder(hits, from)
    requires entry.Some? ==> entry.value.count <= p.maximum && entry.value.windowStartedAtMs <= from
    ensures AdmittedWithin(entry, p, hits, t) <= 2 * p.maximum
    decreases |hits|
  {
    if hits != [] {
      LaterInOrder(hits, from);
      var next := Charge(entry, p, hits[0].durable, hits[0].now).0;
      if hits[0].now < t {
        AtMostTwice(Some(next), p, hits[1..], t, hits[0].now);
      } else {
        var e := WindowAt(entry, p, hits[0].now);
        assert InOrder(hits, hits[0].now) && InOrder(hits, t) && InOrder(hits, e.windowStartedAtMs);
        SameWindow(entry, p, hits, t);
        RestOfTwoWindows(e, p, hits, t);
      }
    }
  }

  /** The bound is reached: with a maximum of one, the end of one window and the start of the next are both
      admitted within less than a window length. */
  lemma {:induction false} TwiceIsReached()
    ensures var p := Policy(1, 1_000);
            AdmittedWithin(Some(Entry(0, 0)), p, [Hit(999, false), Hit(1_000, false)], 999) == 2 * p.maximum
  {
    var p := Policy(1, 1_000);
    var hits := [Hit(999, false), Hit(1_000, false)];
    assert hits[1..] == [Hit(1_000, false)] && hits[1..][1..] == [];
    assert AdmittedWithin(Some(Entry(0, 1)), p, hits[1..], 999) == 1;
  }

  /** All hits of one window length from the first one on, none of them a replay. */
  ghost predicate IsBurst(hits: seq<Hit>, p: Policy, start: int) {
    forall i :: 0 <= i < |hits| ==> !hits[i].durable && start <= hits[i].now < start + p.windowMs
  }

  lemma {:induction false} BurstFrom(e: Entry, p: Policy, hits: seq<Hit>)
    requires IsPolicy(p) && e.count <= p.maximum && IsBurst(hits, p, e.windowStartedAtMs)
    ensures AdmittedWithin(Some(e), p, hits, e.windowStartedAtMs)
         == if |hits| <= p.maximum - e.count then |hits| else p.maximum - e.count
    decreases |hits|
  {
    if hits != [] {
      BurstFrom(Charge(Some(e), p, false, hits[0].now).0, p, hits[1..]);
    }
  }

  /** A fresh window admits exactly the first hits up to the maximum. */
  lemma {:induction false} BurstAdmitsMaximum(p: Policy, hits: seq<Hit>)
    requires IsPolicy(p) && hits != [] && IsBurst(hits, p, hits[0].now)
    ensures AdmittedWithin(None, p, hits, hits[0].now) == if |hits| <= p.maximum then |hits| else p.maximum
  {
    SameWindow(None, p, hits, hits[0].now);
    BurstFrom(Entry(hits[0].now, 0), p, hits);
  }

  /** A window that is over does not count any more, nor one that lies ahead of the clock, and a replay of a stored
      command is always admitted without a charge. */
  lemma {:induction false} OldWindowIsForgotten(e: Entry, p: Policy, durable: bool, now: int)
    requires IsPolicy(p)
    ensures now >= e.windowStartedAtMs + p.windowMs || now < e.windowStartedAtMs ==> Charge(Some(e), p, durable, now) == Charge(None, p, durable, now)
    ensures Charge(None, p, durable, now) == (Entry(now, if durable then 0 else 1), Admitted)
    ensures e.windowStartedAtMs <= now < e.windowStartedAtMs + p.windowMs ==> Charge(Some(e), p, true, now) == (e, Admitted)
  {
  }

  /** The delay of a rejection is the least number of whole seconds after which a request of that kind, with
      none in between, is admitted. */
  lemma {:induction false} DelayIsExact(entry: Option<Entry>, p: Policy, now: int, seconds: nat)
    requires IsPolicy(p) && Charge(entry, p, false, now).1.RetryAfter?
    ensures var (e, rejected) := Charge(entry, p, false, now);
            Charge(Some(e), p, false, now + 1_000 * seconds).1.Admitted? <==> rejected.seconds <= seconds
  {
  }

  // ---------------------------------------------------------------- runs of requests

  function Run(users: seq<Tracked>, policies: Kind -> Policy, capacity: nat, qs: seq<Request>): seq<Tracked>
    decreases |qs|
  {
    if qs == [] then users else Run(Consume(users, policies, capacity, qs[0]).0, policies, capacity, qs[1..])
  }

  predicate IsRead(q: Request) {
    q.wellFormed && 0 <= q.nowMs <= Currency.MAX_SAFE
  }

  /** The charged requests of one user and kind that a run admits in the interval. */
  function AdmittedFor(users: seq<Tracked>, policies: Kind -> Policy, capacity: nat, qs: seq<Request>, user: string, kind: Kind, t: int): nat
    decreases |qs|
  {
    if qs == [] then 0
    else
      var q := qs[0];
      var (next, verdict) := Consume(users, policies, capacity, q);
      AdmittedFor(next, policies, capacity, qs[1..], user, kind, t)
      + if q.user == user && q.kind == kind && !q.durableReplay && verdict.Admitted? && t <= q.nowMs < t + policies(kind).windowMs then 1 else 0
  }

  function HitsOf(qs: seq<Request>, user: string, kind: Kind): seq<Hit> {
    if qs == [] then []
    else
      (if IsRead(qs[0]) && qs[0].user == user && qs[0].kind == kind then [Hit(qs[0].nowMs, qs[0].durableReplay)] else [])
      + HitsOf(qs[1..], user, kind)
  }

  ghost predicate UsersDistinct(users: seq<Tracked>) {
    forall i, j :: 0 <= i < j < |users| ==> users[i].user != users[j].user
  }

  lemma {:induction false} FindInDistinct(users: seq<Tracked>, i: nat)
    requires UsersDistinct(users) && i < |users|
    ensures FindUser(users, users[i].user) == Some(i)
  {
    var found := FindUser(users, users[i].user);
  }

  lemma {:induction false} RoomIsDistinct(users: seq<Tracked>, capacity: nat, user: string)
    requires UsersDistinct(users)
    ensures UsersDistinct(WithUser(users, capacity, user)) && FindUser(WithUser(users, capacity, user), user).Some?
  {
    RoomHasUser(users, capacity, user);
  }

  /** The list keeps one entry for each user, and never more than the capacity. */
  lemma {:induction false} ConsumeKeepsBounds(users: seq<Tracked>, policies: Kind -> Policy, capacity: nat, q: Request)
    requires UsersDistinct(users) && |users| <= capacity && 1 <= capacity
    ensures UsersDistinct(Consume(users, policies, capacity, q).0) && |Consume(users, policies, capacity, q).0| <= capacity
  {
    RoomIsDistinct(users, capacity, q.user);
  }

  /** What one request does to the window of any user who stays tracked. */
  lemma {:induction false} EntryAfter(users: seq<Tracked>, policies: Kind -> Policy, capacity: nat, q: Request, user: string, kind: Kind)
    requires UsersDistinct(users) && IsRead(q)
    requires FindUser(users, user).Some? ==> FindUser(Consume(users, policies, capacity, q).0, user).Some?
    ensures var (next, verdict) := Consume(users, policies, capacity, q);
            var charged := Charge(EntryOf(users, user, kind), policies(kind), q.durableReplay, q.nowMs);
            if q.user == user && q.kind == kind
            then EntryOf(next, user, kind) == Some(charged.0) && verdict == charged.1
            else EntryOf(next, user, kind) == EntryOf(users, user, kind)
  {
    hide Charge;
    RoomIsDistinct(users, capacity, q.user);
    var room := WithUser(users, capacity, q.user);
    var f := FindUser(room, q.user).value;
    var next := Consume(users, policies, capacity, q).0;
    MovedIsDistinct(users, policies, capacity, q);
    RoomEntry(users, capacity, q.user, user, kind);
    if q.user == user {
      FindInDistinct(next, |next| - 1);
    } else {
      MovedEntry(room, f, next, user, kind);
    }
  }

  lemma {:induction false} MovedIsDistinct(users: seq<Tracked>, policies: Kind -> Policy, capacity: nat, q: Request)
    requires UsersDistinct(users)
    ensures UsersDistinct(Consume(users, policies, capacity, q).0)
  {
    RoomIsDistinct(users, capacity, q.user);
  }

  /** Making room forgets nobody who stays, and a new user starts without windows. */
  lemma {:induction false} RoomEntry(users: seq<Tracked>, capacity: nat, newcomer: string, user: string, kind: Kind)
    requires UsersDistinct(users)
    ensures var room := WithUser(users, capacity, newcomer);
            (FindUser(users, user).Some? ==> FindUser(room, user).Some?)
            ==> EntryOf(room, user, kind) == EntryOf(users, user, kind)
  {
    RoomIsDistinct(users, capacity, newcomer);
    var room := WithUser(users, capacity, newcomer);
    if FindUser(users, newcomer).None? && FindUser(room, user).Some? {
      var k := FindUser(room, user).value;
      if k < |room| - 1 {
        var d := |users| - (|room| - 1);
        assert users[d + k] == room[k];
        FindInDistinct(users, d + k);
      }
    }
  }

  lemma {:induction false} MovedEntry(room: seq<Tracked>, f: nat, next: seq<Tracked>, user: string, kind: Kind)
    requires UsersDistinct(room) && UsersDistinct(next) && f < |room| && |next| == |room| && room[f].user != user
    requires next[..|next| - 1] == Without(room, f) && next[|next| - 1].user == room[f].user
    ensures EntryOf(next, user, kind) == EntryOf(room, user, kind)
    ensures FindUser(next, user).Some? <==> FindUser(room, user).Some?
  {
    var found := FindUser(room, user);
    if found.Some? {
      var i := found.value;
      var k := if i < f then i else i - 1;
      assert next[k] == next[..|next| - 1][k] == room[i];
      FindInDistinct(next, k);
    } else {
      forall k | 0 <= k < |next| - 1
        ensures next[k].user != user
      {
        assert next[k] == next[..|next| - 1][k];
        assert next[k] == room[if k < f then k else k + 1];
      }
    }
  }

  /** The user stays tracked from the first request of the run that names her on. */
  ghost predicate NeverForgotten(users: seq<Tracked>, policies: Kind -> Policy, capacity: nat, qs: seq<Request>, user: string)
    decreases |qs|
  {
    qs != [] ==>
      var next := Consume(users, policies, capacity, qs[0]).0;
      && (FindUser(users, user).Some? ==> FindUser(next, user).Some?)
      && NeverForgotten(next, policies, capacity, qs[1..], user)
  }

  /** The run as one user and kind sees it. */
  lemma {:induction false} RunOfHits(users: seq<Tracked>, policies: Kind -> Policy, capacity: nat, qs: seq<Request>, user: string, kind: Kind, t: int)
    requires UsersDistinct(users) && |users| <= capacity && 1 <= capacity
    requires NeverForgotten(users, policies, capacity, qs, user)
    ensures AdmittedFor(users, policies, capacity, qs, user, kind, t)
         == AdmittedWithin(EntryOf(users, user, kind), policies(kind), HitsOf(qs, user, kind), t)
    decreases |qs|
  {
    hide Consume, Charge, EntryOf, UsersDistinct, FindUser;
    if qs != [] {
      var q := qs[0];
      var next := Consume(users, policies, capacity, q).0;
      ConsumeKeepsBounds(users, policies, capacity, q);
      RunOfHits(next, policies, capacity, qs[1..], user, kind, t);
      if IsRead(q) {
        EntryAfter(users, policies, capacity, q, user, kind);
        if q.user == user && q.kind == kind {
          assert HitsOf(qs, user, kind)[1..] == HitsOf(qs[1..], user, kind);
        } else {
          assert HitsOf(qs, user, kind) == HitsOf(qs[1..], user, kind);
        }
      } else {
        UnreadChangesNothing(users, policies, capacity, q);
        assert HitsOf(qs, user, kind) == HitsOf(qs[1..], user, kind);
      }
    }
  }

  lemma {:induction false} UnreadChangesNothing(users: seq<Tracked>, policies: Kind -> Policy, capacity: nat, q: Request)
    requires !IsRead(q)
    ensures Consume(users, policies, capacity, q) == (users, Malformed)
  {
  }

  ghost predicate ClockInOrder(qs: seq<Request>, from: int) {
    && (forall i :: 0 <= i < |qs| ==> from <= qs[i].nowMs)
    && forall i, j :: 0 <= i < j < |qs| ==> qs[i].nowMs <= qs[j].nowMs
  }

  lemma {:induction false} HitsInOrder(qs: seq<Request>, user: string, kind: Kind, from: int)
    requires ClockInOrder(qs, from)
    ensures InOrder(HitsOf(qs, user, kind), from)
    decreases |qs|
  {
    if qs != [] {
      assert ClockInOrder(qs[1..], qs[0].nowMs);
      HitsInOrder(qs[1..], user, kind, qs[0].nowMs);
    }
  }

  /** With a clock that does not go back and a user who is not forgotten, no interval of one window length
      admits more than twice the maximum of charged requests of a kind, whatever all users ask for. */
  lemma {:induction false} LimitHolds(policies: Kind -> Policy, capacity: nat, qs: seq<Request>, user: string, kind: Kind, t: int)
    requires IsPolicy(policies(kind)) && 1 <= capacity && ClockInOrder(qs, 0)
    requires NeverForgotten([], policies, capacity, qs, user)
    ensures AdmittedFor([], policies, capacity, qs, user, kind, t) <= 2 * policies(kind).maximum
  {
    hide NeverForgotten, AdmittedFor, HitsOf, AdmittedWithin;
    RunOfHits([], policies, capacity, qs, user, kind, t);
    HitsInOrder(qs, user, kind, 0);
    AtMostTwice(None, policies(kind), HitsOf(qs, user, kind), t, 0);
  }

  // ---------------------------------------------------------------- who is forgotten

  function Ids(users: seq<Tracked>): (r: seq<string>)
    ensures |r| == |users| && forall i :: 0 <= i < |r| ==> r[i] == users[i].user
  {
    seq(|users|, i requires 0 <= i < |users| => users[i].user)
  }

  function Removed(ids: seq<string>, user: string): seq<string> {
    if ids == [] then [] else if ids[0] == user then ids[1..] else [ids[0]] + Removed(ids[1..], user)
  }

  /** The users of a history, each once, in the order in which they were seen last. */
  function Recency(history: seq<string>): seq<string> {
    if history == [] then []
    else Removed(Recency(history[..|history| - 1]), history[|history| - 1]) + [history[|history| - 1]]
  }

  function LastOf(ids: seq<string>, n: nat): seq<string> {
    if |ids| <= n then ids else ids[|ids| - n..]
  }

  /** One request as the list of tracked users sees it. */
  function Seen(ids: seq<string>, capacity: nat, user: string): seq<string> {
    if user in ids then Removed(ids, user) + [user]
    else (if |ids| < capacity || ids == [] then ids else ids[1..]) + [user]
  }

  ghost predicate Distinct(ids: seq<string>) {
    forall i, j :: 0 <= i < j < |ids| ==> ids[i] != ids[j]
  }

  lemma {:induction false} RemovedAt(ids: seq<string>, i: nat)
    requires Distinct(ids) && i < |ids|
    ensures Removed(ids, ids[i]) == ids[..i] + ids[i + 1..]
    decreases |ids|
  {
    if i > 0 {
      assert ids[1..][i - 1] == ids[i] && Distinct(ids[1..]);
      RemovedAt(ids[1..], i - 1);
    }
  }

  lemma {:induction false} RemovedNone(ids: seq<string>, user: string)
    requires user !in ids
    ensures Removed(ids, user) == ids
    decreases |ids|
  {
    if ids != [] {
      RemovedNone(ids[1..], user);
    }
  }

  lemma {:induction false} RemovedJoined(a: seq<string>, b: seq<string>, user: string)
    ensures Removed(a + b, user) == if user in a then Removed(a, user) + b else a + Removed(b, user)
    decreases |a|
  {
    if a == [] {
      assert a + b == b;
    } else {
      assert (a + b)[1..] == a[1..] + b && (a + b)[0] == a[0];
      if a[0] != user {
        assert user in a <==> user in a[1..];
        RemovedJoined(a[1..], b, user);
        hide Removed;
        assert [a[0]] + (a[1..] + Removed(b, user)) == a + Removed(b, user);
        assert [a[0]] + (Removed(a[1..], user) + b) == [a[0]] + Removed(a[1..], user) + b;
      }
    }
  }

  lemma {:induction false} RemovedIsDistinct(ids: seq<string>, user: string)
    requires Distinct(ids)
    ensures Distinct(Removed(ids, user) + [user])
    ensures |Removed(ids, user)| == |ids| - if user in ids then 1 else 0
  {
    if user in ids {
      var i :| 0 <= i < |ids| && ids[i] == user;
      RemovedAt(ids, i);
    } else {
      RemovedNone(ids, user);
    }
  }

  lemma {:induction false} RecencyIsDistinct(history: seq<string>)
    ensures Distinct(Recency(history))
    decreases |history|
  {
    if history != [] {
      RecencyIsDistinct(history[..|history| - 1]);
      RemovedIsDistinct(Recency(history[..|history| - 1]), history[|history| - 1]);
    }
  }

  lemma {:induction false} LastOfJoined(a: seq<string>, b: seq<string>, n: nat)
    requires |b| == n || (a == [] && |b| <= n)
    ensures LastOf(a + b, n) == b
  {
    if |a + b| > n {
      assert (a + b)[|a|..] == b;
    } else {
      assert a == [];
      assert a + b == b;
    }
  }

  /** The kept part stands at the end of the full list, and either it is full or it is everything. */
  lemma {:induction false} KeptPart(recent: seq<string>, n: nat) returns (before: seq<string>)
    ensures recent == before + LastOf(recent, n)
    ensures |LastOf(recent, n)| == n || (before == [] && |LastOf(recent, n)| < n)
  {
    before := recent[..|recent| - |LastOf(recent, n)|];
  }

  lemma {:induction false} SeenKept(before: seq<string>, kept: seq<string>, n: nat, user: string)
    requires Distinct(before + kept) && user in kept && (|kept| == n || (before == [] && |kept| < n))
    ensures Removed(kept, user) + [user] == LastOf(Removed(before + kept, user) + [user], n)
  {
    hide Removed, LastOf, Distinct;
    NotInBoth(before, kept, user);
    RemovedJoined(before, kept, user);
    PartsDistinct(before, kept);
    RemovedIsDistinct(kept, user);
    var tail := Removed(kept, user) + [user];
    assert before + Removed(kept, user) + [user] == before + tail;
    LastOfJoined(before, tail, n);
  }

  lemma {:induction false} NotInBoth(a: seq<string>, b: seq<string>, user: string)
    requires Distinct(a + b) && user in b
    ensures user !in a
  {
    var j :| 0 <= j < |b| && b[j] == user;
    assert (a + b)[|a| + j] == user;
    forall i | 0 <= i < |a|
      ensures a[i] != user
    {
      assert (a + b)[i] == a[i];
    }
  }

  lemma {:induction false} PartsDistinct(a: seq<string>, b: seq<string>)
    requires Distinct(a + b)
    ensures Distinct(a) && Distinct(b)
  {
    forall i, j | 0 <= i < j < |a|
      ensures a[i] != a[j]
    {
      assert (a + b)[i] == a[i] && (a + b)[j] == a[j];
    }
    forall i, j | 0 <= i < j < |b|
      ensures b[i] != b[j]
    {
      assert (a + b)[|a| + i] == b[i] && (a + b)[|a| + j] == b[j];
    }
  }

  /** A newcomer, or one who was forgotten before. */
  lemma {:induction false} SeenNew(before: seq<string>, kept: seq<string>, n: nat, user: string)
    requires user !in kept && 1 <= n && (|kept| == n || (before == [] && |kept| < n))
    ensures (if |kept| < n then kept else kept[1..]) + [user] == LastOf(Removed(before + kept, user) + [user], n)
  {
    hide Removed, LastOf;
    RemovedJoined(before, kept, user);
    RemovedNone(kept, user);
    var rest := if user in before then Removed(before, user) else before;
    assert Removed(before + kept, user) == rest + kept;
    if |kept| < n {
      assert rest == [];
      assert rest + kept + [user] == [] + (kept + [user]);
      LastOfJoined([], kept + [user], n);
    } else {
      assert rest + kept + [user] == (rest + [kept[0]]) + (kept[1..] + [user]);
      LastOfJoined(rest + [kept[0]], kept[1..] + [user], n);
    }
  }

  lemma {:induction false} SeenIsRecency(recent: seq<string>, capacity: nat, user: string)
    requires Distinct(recent) && 1 <= capacity
    ensures Seen(LastOf(recent, capacity), capacity, user) == LastOf(Removed(recent, user) + [user], capacity)
  {
    hide Removed, LastOf, Distinct;
    var kept := LastOf(recent, capacity);
    var before := KeptPart(recent, capacity);
    if user in kept {
      SeenKept(before, kept, capacity, user);
    } else {
      SeenNew(before, kept, capacity, user);
    }
  }

  lemma {:induction false} ConsumeShape(users: seq<Tracked>, policies: Kind -> Policy, capacity: nat, q: Request) returns (i: nat, t: Tracked)
    requires IsRead(q)
    ensures var room := WithUser(users, capacity, q.user);
            FindUser(room, q.user) == Some(i) && t.user == q.user && Consume(users, policies, capacity, q).0 == Without(room, i) + [t]
  {
    hide Charge, WithUser;
    RoomHasUser(users, capacity, q.user);
    i := FindUser(WithUser(users, capacity, q.user), q.user).value;
    t := Consume(users, policies, capacity, q).0[|Consume(users, policies, capacity, q).0| - 1];
  }

  lemma {:induction false} IdsWithout(users: seq<Tracked>, i: nat, t: Tracked)
    requires i < |users| && t.user == users[i].user
    ensures Ids(Without(users, i) + [t]) == Ids(users)[..i] + Ids(users)[i + 1..] + [t.user]
  {
  }

  lemma {:induction false} DistinctIds(users: seq<Tracked>)
    requires UsersDistinct(users)
    ensures Distinct(Ids(users))
  {
  }

  lemma {:induction false} FoundIsIn(users: seq<Tracked>, user: string)
    ensures FindUser(users, user).Some? <==> user in Ids(users)
  {
    if FindUser(users, user).Some? {
      assert Ids(users)[FindUser(users, user).value] == user;
    }
  }

  lemma {:induction false} RoomIds(users: seq<Tracked>, capacity: nat, user: string)
    requires FindUser(users, user).None?
    ensures Ids(WithUser(users, capacity, user)) == (if |users| < capacity || users == [] then Ids(users) else Ids(users)[1..]) + [user]
    ensures WithUser(users, capacity, user) != []
  {
    hide FindUser;
  }

  lemma {:induction false} ConsumeIsSeen(users: seq<Tracked>, policies: Kind -> Policy, capacity: nat, q: Request)
    requires UsersDistinct(users) && IsRead(q)
    ensures Ids(Consume(users, policies, capacity, q).0) == Seen(Ids(users), capacity, q.user)
  {
    hide Consume, UsersDistinct, Ids, WithUser, Removed, FindUser, Without, Distinct;
    var i, t := ConsumeShape(users, policies, capacity, q);
    var room := WithUser(users, capacity, q.user);
    IdsWithout(room, i, t);
    FoundIsIn(users, q.user);
    if FindUser(users, q.user).Some? {
      DistinctIds(users);
      RemovedAt(Ids(users), i);
    } else {
      RoomIsDistinct(users, capacity, q.user);
      RoomIds(users, capacity, q.user);
      var ids := Ids(room);
      assert ids[|ids| - 1] == q.user;
      FindInDistinct(room, |room| - 1);
      assert ids[..i] + ids[i + 1..] + [q.user] == ids;
    }
  }

  function HistoryOf(qs: seq<Request>): seq<string> {
    if qs == [] then [] else (if IsRead(qs[0]) then [qs[0].user] else []) + HistoryOf(qs[1..])
  }

  /** The tracked users are always exactly the most recently seen ones, as many as fit, in that order: the one
      who is forgotten is the one who was seen least recently. */
  lemma {:induction false} TrackedAreMostRecent(users: seq<Tracked>, policies: Kind -> Policy, capacity: nat, qs: seq<Request>, history: seq<string>)
    requires UsersDistinct(users) && 1 <= capacity && Ids(users) == LastOf(Recency(history), capacity)
    ensures Ids(Run(users, policies, capacity, qs)) == LastOf(Recency(history + HistoryOf(qs)), capacity)
    decreases |qs|
  {
    hide Consume, LastOf, Recency, UsersDistinct, Ids;
    if qs == [] {
      assert history + [] == history;
    } else {
      var q := qs[0];
      var next := Consume(users, policies, capacity, q).0;
      MovedIsDistinct(users, policies, capacity, q);
      if IsRead(q) {
        ConsumeIsSeen(users, policies, capacity, q);
        RecencyIsDistinct(history);
        SeenIsRecency(Recency(history), capacity, q.user);
        assert Recency(history + [q.user]) == Removed(Recency(history), q.user) + [q.user] by { OneMoreSeen(history, q.user); }
        TrackedAreMostRecent(next, policies, capacity, qs[1..], history + [q.user]);
        assert history + [q.user] + HistoryOf(qs[1..]) == history + HistoryOf(qs);
      } else {
        UnreadChangesNothing(users, policies, capacity, q);
        TrackedAreMostRecent(next, policies, capacity, qs[1..], history);
        assert HistoryOf(qs) == HistoryOf(qs[1..]);
      }
    }
  }

  lemma {:induction false} OneMoreSeen(history: seq<string>, user: string)
    ensures Recency(history + [user]) == Removed(Recency(history), user) + [user]
  {
    assert (history + [user])[..|history|] == history;
  }
}
