/** The request limiter of the bank API: `bot/rate-limit.ts`. A fixed window for each user and kind of
    request, and at most so many users, of whom the least recently seen one is forgotten first. */
module RateLimit {
  import opened Wrappers
  import Currency

  datatype Kind = Bootstrap | ImportIngress | CommandIngress | Import | Command | Rates

  datatype Policy = Policy(maximum: nat, windowMs: nat)

  predicate IsPolicy(p: Policy) {
    1 <= p.maximum <= 128 && 1_000 <= p.windowMs
  }

  /** The parts of a request that decide about it; `wellFormed` says that identifiers, source and fingerprint
      have the shape that the kind asks for. */
  datatype Request = Request(user: string, kind: Kind, wellFormed: bool, durableReplay: bool, nowMs: int)

  datatype Verdict = Admitted | RetryAfter(seconds: nat) | Malformed

  datatype Entry = Entry(windowStartedAtMs: int, count: nat)

  /** One user's windows. The list of users is in the order in which they were seen last. */
  datatype Tracked = Tracked(user: string, byKind: map<Kind, Entry>)

  // ---------------------------------------------------------------- one window

  /** The window that a request falls into: a new one after a full length, and also when the clock went
      back. */
  function WindowAt(entry: Option<Entry>, p: Policy, now: int): Entry {
    if entry.None? then Entry(now, 0)
    else
      var e := entry.value;
      if now < e.windowStartedAtMs || now - e.windowStartedAtMs >= p.windowMs then Entry(now, 0) else e
  }

  /** `Math.ceil(ms / 1000)`, at least one. */
  function SecondsFor(ms: int): nat {
    var s := (ms + 999) / 1_000;
    if s < 1 then 1 else s
  }

  function Charge(entry: Option<Entry>, p: Policy, durable: bool, now: int): (Entry, Verdict) {
    var e := WindowAt(entry, p, now);
    if durable then (e, Admitted)
    else if e.count >= p.maximum then (e, RetryAfter(SecondsFor(e.windowStartedAtMs + p.windowMs - now)))
    else (e.(count := e.count + 1), Admitted)
  }

  // ---------------------------------------------------------------- all users

  function FindUser(users: seq<Tracked>, user: string): (r: Option<nat>)
    ensures r.Some? ==> r.value < |users| && users[r.value].user == user
    ensures r.None? ==> forall i :: 0 <= i < |users| ==> users[i].user != user
  {
    if users == [] then None
    else if users[0].user == user then Some(0)
    else match FindUser(users[1..], user)
      case None => None
      case Some(i) => Some(i + 1)
  }

  /** A user who is not tracked yet pushes out the first one when the list is full. */
  function WithUser(users: seq<Tracked>, capacity: nat, user: string): (r: seq<Tracked>)
    ensures FindUser(users, user).None? ==> r != [] && r[|r| - 1] == Tracked(user, map[])
    ensures FindUser(users, user).Some? ==> r == users
  {
    if FindUser(users, user).Some? then users
    else (if |users| < capacity || users == [] then users else users[1..]) + [Tracked(user, map[])]
  }

  function EntryIn(byKind: map<Kind, Entry>, kind: Kind): Option<Entry> {
    if kind in byKind then Some(byKind[kind]) else None
  }

  function EntryOf(users: seq<Tracked>, user: string, kind: Kind): Option<Entry> {
    var found := FindUser(users, user);
    if found.None? then None else EntryIn(users[found.value].byKind, kind)
  }

  function Without(users: seq<Tracked>, i: nat): seq<Tracked>
    requires i < |users|
  {
    users[..i] + users[i + 1..]
  }

  function Consume(users: seq<Tracked>, policies: Kind -> Policy, capacity: nat, q: Request): (seq<Tracked>, Verdict) {
    if !q.wellFormed || q.nowMs < 0 || q.nowMs > Currency.MAX_SAFE then (users, Malformed)
    else
      var room := WithUser(users, capacity, q.user);
      RoomHasUser(users, capacity, q.user);
      var i := FindUser(room, q.user).value;
      var t := room[i];
      var (entry, verdict) := Charge(EntryIn(t.byKind, q.kind), policies(q.kind), q.durableReplay, q.nowMs);
      (Without(room, i) + [t.(byKind := t.byKind[q.kind := entry])], verdict)
  }

  lemma {:induction false} RoomHasUser(users: seq<Tracked>, capacity: nat, user: string)
    ensures FindUser(WithUser(users, capacity, user), user).Some?
  {
  }

  class InMemoryBankRequestLimiter {
    var users: seq<Tracked>
    const policies: Kind -> Policy
    const maximumTrackedUsers: nat

    constructor (policies: Kind -> Policy, maximumTrackedUsers: nat)
      requires forall k :: IsPolicy(policies(k))
      requires 1 <= maximumTrackedUsers <= 2_048
      ensures users == [] && this.policies == policies && this.maximumTrackedUsers == maximumTrackedUsers
    {
      users := [];
      this.policies, this.maximumTrackedUsers := policies, maximumTrackedUsers;
    }

    method MakeRoom()
      modifies this`users
      ensures users == if |old(users)| < maximumTrackedUsers || old(users) == [] then old(users) else old(users)[1..]
    {
      if |users| < maximumTrackedUsers {
        return;
      }
      if users != [] {
        users := users[1..];
      }
    }

    method Admit(q: Request) returns (verdict: Verdict)
      modifies this`users
      ensures (users, verdict) == Consume(old(users), policies, maximumTrackedUsers, q)
    {
      if !q.wellFormed || q.nowMs < 0 || q.nowMs > Currency.MAX_SAFE {
        return Malformed;
      }
      var policy := policies(q.kind);
      if FindUser(users, q.user).None? {
        MakeRoom();
        users := users + [Tracked(q.user, map[])];
        assert users == WithUser(old(users), maximumTrackedUsers, q.user);
        RoomHasUser(old(users), maximumTrackedUsers, q.user);
      }
      var i := FindUser(users, q.user).value;
      var userEntries := users[i];
      var entry := if q.kind in userEntries.byKind then userEntries.byKind[q.kind] else Entry(q.nowMs, 0);
      if q.nowMs < entry.windowStartedAtMs || q.nowMs - entry.windowStartedAtMs >= policy.windowMs {
        entry := Entry(q.nowMs, 0);
      }
      verdict := Admitted;
      if !q.durableReplay {
        if entry.count >= policy.maximum {
          verdict := RetryAfter(SecondsFor(entry.windowStartedAtMs + policy.windowMs - q.nowMs));
        } else {
          entry := entry.(count := entry.count + 1);
        }
      }
      users := Without(users, i) + [userEntries.(byKind := userEntries.byKind[q.kind := entry])];
    }
  }
}
