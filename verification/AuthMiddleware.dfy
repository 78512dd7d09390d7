/** The middleware in front of every admin request. */
module AuthMiddleware {
  import opened Common
  import opened UserStore
  import S = SessionStore
  import opened AuthProtocol
  import opened AuthTheorems

  datatype Decision =
    | Proceed(user: Option<Record>)
    | Unauthorized
    | RedirectToLogin

  function Upper(s: string): string {
    seq(|s|, i requires 0 <= i < |s| => if 'a' <= s[i] <= 'z' then s[i] - 'a' + 'A' else s[i])
  }

  const PUBLIC_EXACT: set<(string, string)> := {
    ("GET", "/healthz"),
    ("GET", "/login"),
    ("GET", "/api/auth/status"),
    ("POST", "/api/auth/login"),
    ("POST", "/api/auth/bootstrap"),
    ("POST", "/api/auth/logout")
  }

  predicate IsPublic(verb: string, path: string) {
    "/assets/" <= path || (Upper(verb), path) in PUBLIC_EXACT
  }

  predicate IsApi(path: string) {
    "/api/" <= path
  }

  /** Of the application interface only the four authentication calls are open. */
  lemma OpenApiCalls(verb: string, path: string)
    requires IsApi(path) && IsPublic(verb, path)
    ensures Upper(verb) == "GET" ==> path == "/api/auth/status"
    ensures Upper(verb) != "GET" ==>
      Upper(verb) == "POST" && path in {"/api/auth/login", "/api/auth/bootstrap", "/api/auth/logout"}
  {
    assert path[2] == "/api/"[2] && "/assets/"[2] == 's';
    assert !("/assets/" <= path);
    assert "/healthz"[1] == 'h' && "/login"[1] == 'l' && path[1] == "/api/"[1];
  }

  /** The stores as a world with no other thread in it. */
  function Quiet(now: int, users: seq<User>, sessions: S.Sessions): World {
    World(now, users, sessions, map[], {}, {})
  }

  class AdminAuthMiddleware {
    const sessionStore: S.SessionStore
    const userStore: MemoryUserStore

    constructor (sessionStore: S.SessionStore, userStore: MemoryUserStore)
      ensures this.sessionStore == sessionStore && this.userStore == userStore
    {
      this.sessionStore := sessionStore;
      this.userStore := userStore;
    }

    /** A request goes through when its path is open or when its token lets
        somebody in; the one it goes through as is then that session's user. */
    method Middleware(verb: string, path: string, cookie: Option<string>, now: int) returns (d: Decision)
      requires Unambiguous(userStore.users)
      modifies sessionStore
      ensures var w := Quiet(now, userStore.users, old(sessionStore.sessions));
        && (d.Proceed? && d.user.Some? ==>
              cookie.Some? && cookie.value in w.sessions && d.user.value == w.sessions[cookie.value]
              && LetsIn(w, 0, cookie.value, d.user.value.userId))
        && (d.Proceed? && d.user.None? ==> IsPublic(verb, path))
        && (!d.Proceed? ==> !IsPublic(verb, path) && (d.Unauthorized? <==> IsApi(path)))
        && (!d.Proceed? || d.user.None? ==>
              cookie.None? || cookie.value == "" || forall id :: !LetsIn(w, 0, cookie.value, id))
      ensures forall sid :: sid in sessionStore.sessions ==>
        sid in old(sessionStore.sessions) && sessionStore.sessions[sid] == old(sessionStore.sessions)[sid]
      ensures forall sid :: sid in old(sessionStore.sessions) && sid !in sessionStore.sessions ==>
        cookie == Some(sid) && forall id :: !LetsIn(Quiet(now, userStore.users, old(sessionStore.sessions)), 0, sid, id)
    {
      var record := None;
      if cookie.Some? && cookie.value != "" {
        record := sessionStore.Get(cookie.value, now);
      }
      if record.Some? {
        var user := userStore.GetById(record.value.userId);
        if user.None? {
          sessionStore.Delete(cookie.value);
          record := None;
        }
      }
      if IsPublic(verb, path) || record.Some? {
        return Proceed(if record.Some? then Some(record.value) else None);
      }
      d := if IsApi(path) then Unauthorized else RedirectToLogin;
    }
  }
}
