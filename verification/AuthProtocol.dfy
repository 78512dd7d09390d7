/** Login, user deletion, logout and request checks as threads whose steps on the
    two stores interleave freely.  Each store call holds a lock, so a step is one
    store call. */
module AuthProtocol {
  import opened Common
  import opened UserStore
  import S = SessionStore

  type Record = S.SessionRecord

  /** Where a thread is between two store calls. */
  datatype Thread =
    | Opening(user: User)                                  // password verified, session not yet created
    | Deleting(userId: string)                             // user found, not yet deleted
    | Purging(userId: string)                              // user deleted, sessions not yet purged
    | Checking(sid: string, record: Record, readAt: int)   // session read, user not yet looked up
    | Dropping(sid: string)                                // user gone, session not yet dropped

  datatype World = World(
    now: int, users: seq<User>, sessions: S.Sessions, threads: map<nat, Thread>,
    issuedIds: set<string>, issuedTokens: set<string>)

  datatype Event =
    | Tick(time: int)
    | AddUser(user: User)
    | Bootstrap(thread: nat, user: User)
    | LoginLookup(thread: nat, username: string, passwordOk: bool)
    | OpenSession(thread: nat, token: string)
    | SetPassword(id: string, hash: string)
    | DeleteLookup(thread: nat, id: string)
    | DeleteUser(thread: nat)
    | Purge(thread: nat)
    | Logout(sid: string)
    | CheckSession(thread: nat, sid: string)
    | CheckUser(thread: nat)
    | Drop(thread: nat)

  const EMPTY: World := World(0, [], map[], map[], {}, {})

  /** Time does not run backwards, new threads are new, new ids and tokens were
      never issued before, and a thread only takes its own next step. */
  predicate Enabled(w: World, e: Event) {
    match e
    case Tick(time) => w.now <= time
    case AddUser(user) => user.id !in w.issuedIds
    case Bootstrap(t, user) => t !in w.threads && user.id !in w.issuedIds
    case LoginLookup(t, _, _) => t !in w.threads
    case OpenSession(t, token) => t in w.threads && w.threads[t].Opening? && token !in w.issuedTokens
    case SetPassword(_, _) => true
    case DeleteLookup(t, _) => t !in w.threads
    case DeleteUser(t) => t in w.threads && w.threads[t].Deleting?
    case Purge(t) => t in w.threads && w.threads[t].Purging?
    case Logout(_) => true
    case CheckSession(t, _) => t !in w.threads
    case CheckUser(t) => t in w.threads && w.threads[t].Checking?
    case Drop(t) => t in w.threads && w.threads[t].Dropping?
  }

  function Named(users: seq<User>, name: string): Option<User> {
    if users == [] then None else if users[0].username == name then Some(users[0]) else Named(users[1..], name)
  }

  function WithUser(w: World, user: User): World {
    w.(users := w.users + [user], issuedIds := w.issuedIds + {user.id})
  }

  function WithThread(w: World, t: nat, s: Thread): World {
    w.(threads := w.threads[t := s])
  }

  function Done(w: World, t: nat): World {
    w.(threads := w.threads - {t})
  }

  function Next(w: World, e: Event): World
    requires Enabled(w, e)
  {
    match e
    case Tick(time) => w.(now := time)
    case AddUser(user) => if HasName(w.users, user.username) then w else WithUser(w, user)
    case Bootstrap(t, user) => if w.users != [] then w else WithThread(WithUser(w, user), t, Opening(user))
    case LoginLookup(t, name, passwordOk) =>
      var user := Named(w.users, name);
      if user.None? || !passwordOk then w else WithThread(w, t, Opening(user.value))
    case OpenSession(t, token) =>
      var user := w.threads[t].user;
      Done(w, t).(sessions := S.Opened(w.sessions, token, user.id, user.username, w.now),
                  issuedTokens := w.issuedTokens + {token})
    case SetPassword(id, hash) => w.(users := SetHash(w.users, id, hash))
    case DeleteLookup(t, id) => if HasId(w.users, id) then WithThread(w, t, Deleting(id)) else w
    case DeleteUser(t) =>
      var id := w.threads[t].userId;
      WithThread(w, t, Purging(id)).(users := WithoutUser(w.users, id))
    case Purge(t) => Done(w, t).(sessions := S.Purged(w.sessions, w.threads[t].userId))
    case Logout(sid) => w.(sessions := w.sessions - {sid})
    case CheckSession(t, sid) =>
      var read := S.Read(w.sessions, sid, w.now);
      var w' := w.(sessions := S.AfterRead(w.sessions, sid, w.now));
      if read.None? then w' else WithThread(w', t, Checking(sid, read.value, w.now))
    case CheckUser(t) =>
      if HasId(w.users, w.threads[t].record.userId) then Done(w, t) else WithThread(w, t, Dropping(w.threads[t].sid))
    case Drop(t) => Done(w, t).(sessions := w.sessions - {w.threads[t].sid})
  }

  /** The step lets a request through as this user. */
  predicate Admits(w: World, e: Event, id: string) {
    e.CheckUser? && Enabled(w, e) && w.threads[e.thread].record.userId == id && HasId(w.users, id)
  }

  // ----- runs -----

  predicate Possible(w: World, es: seq<Event>)
    decreases |es|, 0
  {
    es == [] || (Possible(w, es[..|es| - 1]) && Enabled(After(w, es[..|es| - 1]), es[|es| - 1]))
  }

  function After(w: World, es: seq<Event>): World
    requires Possible(w, es)
    decreases |es|, 1
  {
    if es == [] then w else Next(After(w, es[..|es| - 1]), es[|es| - 1])
  }

  // ----- what every run keeps -----

  predicate ThreadOk(w: World, s: Thread) {
    match s
    case Opening(user) => user.id in w.issuedIds
    case Deleting(id) => id in w.issuedIds
    case Purging(id) => id in w.issuedIds && !HasId(w.users, id)
    case Checking(sid, record, readAt) =>
      && sid in w.issuedTokens && record.userId in w.issuedIds
      && readAt <= w.now && readAt < record.expiresAt <= readAt + S.SESSION_TTL_SECONDS
      && (sid in w.sessions ==> w.sessions[sid] == record)
    case Dropping(sid) =>
      sid in w.issuedTokens && (sid in w.sessions ==> !HasId(w.users, w.sessions[sid].userId))
  }

  ghost predicate UsersOk(w: World) {
    Unambiguous(w.users) && forall u :: u in w.users ==> u.id in w.issuedIds
  }

  ghost predicate SessionsOk(w: World) {
    forall sid :: sid in w.sessions ==>
      && sid in w.issuedTokens && w.sessions[sid].userId in w.issuedIds
      && w.sessions[sid].expiresAt <= w.now + S.SESSION_TTL_SECONDS
  }

  ghost predicate Consistent(w: World) {
    UsersOk(w) && SessionsOk(w) && forall t :: t in w.threads ==> ThreadOk(w, w.threads[t])
  }

  lemma {:induction false} NamedIsUser(users: seq<User>, name: string)
    ensures Named(users, name).Some? ==> Named(users, name).value in users && Named(users, name).value.username == name
    ensures Named(users, name).None? ==> !HasName(users, name)
  {
    if users != [] && users[0].username != name {
      NamedIsUser(users[1..], name);
      assert forall u :: u in users ==> u == users[0] || u in users[1..];
    }
  }

  /** Users come only with ids never issued before, so a user who is gone stays
      gone. */
  lemma StepKeepsUsers(w: World, e: Event)
    requires Enabled(w, e) && UsersOk(w)
    ensures UsersOk(Next(w, e))
    ensures w.issuedIds <= Next(w, e).issuedIds && w.now <= Next(w, e).now
    ensures forall id :: id in w.issuedIds && !HasId(w.users, id) ==> !HasId(Next(w, e).users, id)
  {
    match e
    case AddUser(user) =>
      if !HasName(w.users, user.username) {
        AppendIsUnambiguous(w, user);
      }
    case Bootstrap(t, user) =>
      if w.users == [] {
        AppendIsUnambiguous(w, user);
      }
    case SetPassword(id, hash) =>
      SetHashIs(w.users, id, hash);
      forall u | u in SetHash(w.users, id, hash)
        ensures u.id in w.issuedIds
      {
        assert HasId(SetHash(w.users, id, hash), u.id);
      }
    case DeleteUser(t) =>
      WithoutUserIs(w.users, w.threads[t].userId);
    case _ =>
  }

  lemma AppendIsUnambiguous(w: World, user: User)
    requires UsersOk(w) && user.id !in w.issuedIds && !HasName(w.users, user.username)
    ensures UsersOk(WithUser(w, user))
    ensures forall id :: id != user.id && !HasId(w.users, id) ==> !HasId(w.users + [user], id)
  {
    forall i | 0 <= i < |w.users|
      ensures w.users[i].id != user.id && w.users[i].username != user.username
    {
      assert w.users[i] in w.users;
    }
  }

  /** No token is ever bound again: what a step leaves under an issued token is
      what was there. */
  lemma StepKeepsSessions(w: World, e: Event)
    requires Enabled(w, e) && SessionsOk(w) && forall t :: t in w.threads ==> ThreadOk(w, w.threads[t])
    ensures SessionsOk(Next(w, e)) && w.issuedTokens <= Next(w, e).issuedTokens
    ensures forall sid :: sid in w.issuedTokens && sid in Next(w, e).sessions ==>
      sid in w.sessions && Next(w, e).sessions[sid] == w.sessions[sid]
  {
  }

  lemma ThreadStaysOk(w: World, e: Event, s: Thread)
    requires Enabled(w, e) && UsersOk(w) && SessionsOk(w) && ThreadOk(w, s)
    requires forall t :: t in w.threads ==> ThreadOk(w, w.threads[t])
    ensures ThreadOk(Next(w, e), s)
  {
    StepKeepsUsers(w, e);
    StepKeepsSessions(w, e);
  }

  lemma NewThreadIsOk(w: World, e: Event, t: nat)
    requires Enabled(w, e) && Consistent(w)
    requires t in Next(w, e).threads && (t in w.threads ==> Next(w, e).threads[t] != w.threads[t])
    ensures ThreadOk(Next(w, e), Next(w, e).threads[t])
  {
    match e
    case LoginLookup(_, name, _) => NamedIsUser(w.users, name);
    case DeleteUser(x) => WithoutUserIs(w.users, w.threads[x].userId);
    case _ =>
  }

  lemma StepKeepsConsistent(w: World, e: Event)
    requires Enabled(w, e) && Consistent(w)
    ensures Consistent(Next(w, e))
  {
    StepKeepsUsers(w, e);
    StepKeepsSessions(w, e);
    forall t | t in Next(w, e).threads
      ensures ThreadOk(Next(w, e), Next(w, e).threads[t])
    {
      if t in w.threads && Next(w, e).threads[t] == w.threads[t] {
        ThreadStaysOk(w, e, w.threads[t]);
      } else {
        NewThreadIsOk(w, e, t);
      }
    }
  }

  lemma {:induction false} RunsAreConsistent(w: World, es: seq<Event>)
    requires Consistent(w) && Possible(w, es)
    ensures Consistent(After(w, es))
  {
    if es != [] {
      RunsAreConsistent(w, es[..|es| - 1]);
      StepKeepsConsistent(After(w, es[..|es| - 1]), es[|es| - 1]);
    }
  }
}
