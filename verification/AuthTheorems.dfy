/** Who a request can be admitted as, over every interleaving. */
module AuthTheorems {
  import opened Common
  import opened UserStore
  import opened AuthProtocol
  import S = SessionStore

  lemma {:induction false} AfterBoth(w: World, es: seq<Event>, fs: seq<Event>)
    requires Possible(w, es + fs)
    ensures Possible(w, es) && Possible(After(w, es), fs) && After(w, es + fs) == After(After(w, es), fs)
  {
    if fs == [] {
      assert es + fs == es;
    } else {
      var n := |fs| - 1;
      assert (es + fs)[..|es + fs| - 1] == es + fs[..n];
      AfterBoth(w, es, fs[..n]);
    }
  }

  lemma {:induction false} PrefixPossible(w: World, es: seq<Event>, n: nat)
    requires Possible(w, es) && n <= |es|
    ensures Possible(w, es[..n])
  {
    if n < |es| {
      PrefixPossible(w, es[..|es| - 1], n);
      assert es[..|es| - 1][..n] == es[..n];
    } else {
      assert es[..n] == es;
    }
  }

  // ----- safety of deletion -----

  lemma {:induction false} GoneStaysGone(w: World, es: seq<Event>, id: string)
    requires Consistent(w) && Possible(w, es) && id in w.issuedIds && !HasId(w.users, id)
    ensures id in After(w, es).issuedIds && !HasId(After(w, es).users, id)
  {
    if es != [] {
      var n := |es| - 1;
      GoneStaysGone(w, es[..n], id);
      RunsAreConsistent(w, es[..n]);
      StepKeepsUsers(After(w, es[..n]), es[n]);
    }
  }

  /** Once a user is gone no later check admits anybody as that user: not
      through a session that was purged, and not through one that a login still
      in flight created after the purge. */
  lemma DeletedIsNeverAdmitted(es: seq<Event>, more: seq<Event>, check: Event, id: string)
    requires Possible(EMPTY, es) && id in After(EMPTY, es).issuedIds && !HasId(After(EMPTY, es).users, id)
    requires Possible(After(EMPTY, es), more)
    ensures !Admits(After(After(EMPTY, es), more), check, id)
  {
    RunsAreConsistent(EMPTY, es);
    GoneStaysGone(After(EMPTY, es), more, id);
  }

  // ----- where an admission comes from -----

  /** Step i of the run is a login or bootstrap that made this user's thread. */
  predicate LoggedInAt(es: seq<Event>, i: nat, user: User)
    requires Possible(EMPTY, es) && i < |es| && Possible(EMPTY, es[..i])
  {
    var before := After(EMPTY, es[..i]);
    || (es[i].LoginLookup? && es[i].passwordOk && Named(before.users, es[i].username) == Some(user))
    || (es[i].Bootstrap? && before.users == [] && es[i].user == user)
  }

  ghost predicate LoggedIn(es: seq<Event>, user: User)
    requires Possible(EMPTY, es)
  {
    exists i: nat :: i < |es| && Possible(EMPTY, es[..i]) && LoggedInAt(es, i, user)
  }

  /** Step i of the run created this session for a user who had logged in. */
  ghost predicate OpenedAt(es: seq<Event>, i: nat, sid: string, record: Record)
    requires Possible(EMPTY, es) && i < |es| && Possible(EMPTY, es[..i])
  {
    var before := After(EMPTY, es[..i]);
    && es[i].OpenSession? && es[i].token == sid
    && record.expiresAt == before.now + S.SESSION_TTL_SECONDS
    && exists user :: LoggedIn(es[..i], user) && user.id == record.userId && user.username == record.username
  }

  ghost predicate WasOpened(es: seq<Event>, sid: string, record: Record)
    requires Possible(EMPTY, es)
  {
    exists i: nat :: i < |es| && Possible(EMPTY, es[..i]) && OpenedAt(es, i, sid, record)
  }

  lemma LoggedInGrows(es: seq<Event>, e: Event, user: User)
    requires Possible(EMPTY, es + [e]) && Possible(EMPTY, es) && LoggedIn(es, user)
    ensures LoggedIn(es + [e], user)
  {
    var i: nat :| i < |es| && Possible(EMPTY, es[..i]) && LoggedInAt(es, i, user);
    assert (es + [e])[..i] == es[..i] && (es + [e])[i] == es[i];
    assert LoggedInAt(es + [e], i, user);
  }

  lemma WasOpenedGrows(es: seq<Event>, e: Event, sid: string, record: Record)
    requires Possible(EMPTY, es + [e]) && Possible(EMPTY, es) && WasOpened(es, sid, record)
    ensures WasOpened(es + [e], sid, record)
  {
    var i: nat :| i < |es| && Possible(EMPTY, es[..i]) && OpenedAt(es, i, sid, record);
    assert (es + [e])[..i] == es[..i] && (es + [e])[i] == es[i];
    assert OpenedAt(es + [e], i, sid, record);
  }

  lemma LoggedInNow(es: seq<Event>, e: Event, user: User)
    requires Possible(EMPTY, es + [e]) && Possible(EMPTY, es)
    requires
      || (e.LoginLookup? && e.passwordOk && Named(After(EMPTY, es).users, e.username) == Some(user))
      || (e.Bootstrap? && After(EMPTY, es).users == [] && e.user == user)
    ensures LoggedIn(es + [e], user)
  {
    assert (es + [e])[..|es|] == es;
    assert LoggedInAt(es + [e], |es|, user);
  }

  lemma OpenedNow(es: seq<Event>, e: Event, record: Record, user: User)
    requires Possible(EMPTY, es + [e]) && Possible(EMPTY, es)
    requires e.OpenSession? && LoggedIn(es, user)
    requires record == S.SessionRecord(user.id, user.username, After(EMPTY, es).now + S.SESSION_TTL_SECONDS)
    ensures WasOpened(es + [e], e.token, record)
  {
    assert (es + [e])[..|es|] == es;
    assert OpenedAt(es + [e], |es|, e.token, record);
  }

  /** A thread about to create a session belongs to a user who logged in. */
  lemma {:induction false} OpeningHasLoggedIn(es: seq<Event>, t: nat)
    requires Possible(EMPTY, es) && t in After(EMPTY, es).threads && After(EMPTY, es).threads[t].Opening?
    ensures LoggedIn(es, After(EMPTY, es).threads[t].user)
  {
    var n := |es| - 1;
    var q, e, user := es[..n], es[n], After(EMPTY, es).threads[t].user;
    assert es == q + [e];
    if t in After(EMPTY, q).threads && After(EMPTY, q).threads[t] == Opening(user) {
      OpeningHasLoggedIn(q, t);
      LoggedInGrows(q, e, user);
    } else {
      LoggedInNow(q, e, user);
    }
  }

  /** Every stored session was created by a login of its user. */
  lemma {:induction false} SessionWasOpened(es: seq<Event>, sid: string)
    requires Possible(EMPTY, es) && sid in After(EMPTY, es).sessions
    ensures WasOpened(es, sid, After(EMPTY, es).sessions[sid])
  {
    var n := |es| - 1;
    var q, e, record := es[..n], es[n], After(EMPTY, es).sessions[sid];
    var before := After(EMPTY, q);
    assert es == q + [e];
    if e.OpenSession? && e.token == sid {
      OpeningHasLoggedIn(q, e.thread);
      OpenedNow(q, e, record, before.threads[e.thread].user);
    } else {
      assert sid in before.sessions && before.sessions[sid] == record;
      SessionWasOpened(q, sid);
      WasOpenedGrows(q, e, sid, record);
    }
  }

  lemma {:induction false} CheckedWasOpened(es: seq<Event>, t: nat)
    requires Possible(EMPTY, es) && t in After(EMPTY, es).threads && After(EMPTY, es).threads[t].Checking?
    ensures WasOpened(es, After(EMPTY, es).threads[t].sid, After(EMPTY, es).threads[t].record)
  {
    var n := |es| - 1;
    var q, e, thread := es[..n], es[n], After(EMPTY, es).threads[t];
    assert es == q + [e];
    if t in After(EMPTY, q).threads && After(EMPTY, q).threads[t] == thread {
      CheckedWasOpened(q, t);
    } else {
      NowChecking(After(EMPTY, q), e, t);
      SessionWasOpened(q, thread.sid);
    }
    WasOpenedGrows(q, e, thread.sid, thread.record);
  }

  /** A thread starts checking a session by reading it. */
  lemma NowChecking(w: World, e: Event, t: nat)
    requires Enabled(w, e) && t in Next(w, e).threads && Next(w, e).threads[t].Checking?
    requires !(t in w.threads && w.threads[t] == Next(w, e).threads[t])
    ensures Next(w, e).threads[t].sid in w.sessions
    ensures w.sessions[Next(w, e).threads[t].sid] == Next(w, e).threads[t].record
  {
  }

  /** Whoever is admitted as a user presented a token that an earlier step
      created for that user's verified login, at most the session lifetime before
      the token was read, and the user exists when the check is made. */
  lemma AdmissionComesFromLogin(es: seq<Event>, check: Event, id: string)
    returns (start: nat, sid: string, record: Record)
    requires Possible(EMPTY, es) && Admits(After(EMPTY, es), check, id)
    ensures start < |es| && Possible(EMPTY, es[..start]) && OpenedAt(es, start, sid, record)
    ensures record.userId == id && HasId(After(EMPTY, es).users, id)
    ensures var thread := After(EMPTY, es).threads[check.thread];
      && thread.sid == sid && thread.readAt <= After(EMPTY, es).now
      && After(EMPTY, es[..start]).now <= thread.readAt < After(EMPTY, es[..start]).now + S.SESSION_TTL_SECONDS
  {
    var w := After(EMPTY, es);
    RunsAreConsistent(EMPTY, es);
    assert ThreadOk(w, w.threads[check.thread]);
    sid, record := w.threads[check.thread].sid, w.threads[check.thread].record;
    CheckedWasOpened(es, check.thread);
    start :| start < |es| && Possible(EMPTY, es[..start]) && OpenedAt(es, start, sid, record);
  }

  // ----- a session works until it ends -----

  predicate NoLogout(es: seq<Event>, sid: string) {
    forall e :: e in es ==> e != Logout(sid)
  }

  /** One step other than its logout leaves a live session of a living user in
      place. */
  lemma StepKeepsSession(w: World, e: Event, sid: string)
    requires Consistent(w) && Enabled(w, e) && e != Logout(sid)
    requires sid in w.sessions && HasId(w.users, w.sessions[sid].userId) && w.now < w.sessions[sid].expiresAt
    ensures sid in Next(w, e).sessions && Next(w, e).sessions[sid] == w.sessions[sid]
  {
    StepKeepsSessions(w, e);
    if e.Purge? || e.Drop? {
      assert ThreadOk(w, w.threads[e.thread]);
    }
  }

  lemma {:induction false} SessionSurvives(w: World, es: seq<Event>, sid: string)
    requires Consistent(w) && Possible(w, es) && NoLogout(es, sid) && sid in w.sessions
    requires HasId(After(w, es).users, w.sessions[sid].userId) && After(w, es).now < w.sessions[sid].expiresAt
    ensures sid in After(w, es).sessions && After(w, es).sessions[sid] == w.sessions[sid]
  {
    if es != [] {
      var n, id := |es| - 1, w.sessions[sid].userId;
      var before := After(w, es[..n]);
      RunsAreConsistent(w, es[..n]);
      StepKeepsUsers(before, es[n]);
      IssuedStays(w, es[..n], id);
      assert es[n] in es;
      assert HasId(before.users, id);
      assert forall e :: e in es[..n] ==> e in es;
      SessionSurvives(w, es[..n], sid);
      StepKeepsSession(before, es[n], sid);
    }
  }

  lemma {:induction false} IssuedStays(w: World, es: seq<Event>, id: string)
    requires Consistent(w) && Possible(w, es) && id in w.issuedIds
    ensures id in After(w, es).issuedIds
  {
    if es != [] {
      IssuedStays(w, es[..|es| - 1], id);
      RunsAreConsistent(w, es[..|es| - 1]);
      StepKeepsUsers(After(w, es[..|es| - 1]), es[|es| - 1]);
    }
  }

  /** A request that presents the token now and is checked without a step in
      between is let in as the session's user. */
  predicate LetsIn(w: World, t: nat, sid: string, id: string) {
    && Enabled(w, CheckSession(t, sid))
    && Admits(Next(w, CheckSession(t, sid)), CheckUser(t), id)
  }

  lemma {:induction false} UnboundOrSame(w: World, es: seq<Event>, sid: string)
    requires Consistent(w) && Possible(w, es) && sid in w.issuedTokens
    ensures sid in After(w, es).issuedTokens
    ensures sid in After(w, es).sessions ==> sid in w.sessions && After(w, es).sessions[sid] == w.sessions[sid]
  {
    if es != [] {
      UnboundOrSame(w, es[..|es| - 1], sid);
      RunsAreConsistent(w, es[..|es| - 1]);
      StepKeepsSessions(After(w, es[..|es| - 1]), es[|es| - 1]);
    }
  }

  /** Whatever happens after a session exists, short of its own logout, the token
      lets its holder in exactly as long as the session has not expired and the
      user has not been deleted. */
  lemma LetInExactlyWhile(w: World, es: seq<Event>, sid: string, t: nat)
    requires Consistent(w) && sid in w.sessions && Possible(w, es) && NoLogout(es, sid)
    requires t !in After(w, es).threads
    ensures LetsIn(After(w, es), t, sid, w.sessions[sid].userId)
      <==> After(w, es).now < w.sessions[sid].expiresAt && HasId(After(w, es).users, w.sessions[sid].userId)
  {
    UnboundOrSame(w, es, sid);
    if After(w, es).now < w.sessions[sid].expiresAt && HasId(After(w, es).users, w.sessions[sid].userId) {
      SessionSurvives(w, es, sid);
    }
  }

  /** A request that presents the token after its logout is never let in. */
  lemma LoggedOutIsOut(w: World, es: seq<Event>, sid: string, t: nat, id: string)
    requires Consistent(w) && sid in w.issuedTokens && Possible(w, [Logout(sid)] + es)
    ensures !LetsIn(After(w, [Logout(sid)] + es), t, sid, id)
  {
    AfterLogout(w, es, sid);
    UnboundOrSame(Next(w, Logout(sid)), es, sid);
  }

  lemma AfterLogout(w: World, es: seq<Event>, sid: string)
    requires Consistent(w) && Possible(w, [Logout(sid)] + es)
    ensures var w' := Next(w, Logout(sid));
      Consistent(w') && Possible(w', es) && After(w, [Logout(sid)] + es) == After(w', es)
  {
    AfterBoth(w, [Logout(sid)], es);
    assert [Logout(sid)][..0] == [];
    StepKeepsConsistent(w, Logout(sid));
  }

  /** No check of a token begins once its session is gone. */
  lemma {:induction false} NoCheckBegins(w: World, es: seq<Event>, sid: string, t: nat)
    requires Consistent(w) && Possible(w, es) && sid in w.issuedTokens && sid !in w.sessions
    requires t in After(w, es).threads && After(w, es).threads[t].Checking? && After(w, es).threads[t].sid == sid
    ensures t in w.threads && w.threads[t] == After(w, es).threads[t]
  {
    if es != [] {
      var n := |es| - 1;
      var before := After(w, es[..n]);
      UnboundOrSame(w, es[..n], sid);
      if !(t in before.threads && before.threads[t] == After(w, es).threads[t]) {
        NowChecking(before, es[n], t);
      }
      NoCheckBegins(w, es[..n], sid, t);
    }
  }

  /** Whoever is admitted with the token after its logout is admitted by a check
      that had read the session before the logout. */
  lemma AdmittedAfterLogout(w: World, es: seq<Event>, sid: string, check: Event, id: string)
    requires Consistent(w) && sid in w.issuedTokens && Possible(w, [Logout(sid)] + es)
    requires Admits(After(w, [Logout(sid)] + es), check, id)
    requires After(w, [Logout(sid)] + es).threads[check.thread].sid == sid
    ensures check.thread in w.threads
    ensures w.threads[check.thread] == After(w, [Logout(sid)] + es).threads[check.thread]
    ensures w.threads[check.thread].record.userId == id && w.threads[check.thread].readAt <= w.now
  {
    AfterLogout(w, es, sid);
    NoCheckBegins(Next(w, Logout(sid)), es, sid, check.thread);
    assert ThreadOk(w, w.threads[check.thread]);
  }

  /** And such a check is still admitted: a logout between its two reads comes too
      late for it. */
  lemma LogoutBetweenReads(w: World, t: nat, sid: string, id: string)
    requires Consistent(w) && LetsIn(w, t, sid, id)
    ensures Admits(Next(Next(w, CheckSession(t, sid)), Logout(sid)), CheckUser(t), id)
  {
  }
}
