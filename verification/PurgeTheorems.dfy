/** When the purge of a deletion is complete, and the race it can lose. */
module PurgeTheorems {
  import opened Common
  import opened UserStore
  import opened AuthProtocol
  import opened AuthTheorems
  import S = SessionStore

  ghost predicate NoSessionOf(w: World, id: string) {
    forall sid :: sid in w.sessions ==> w.sessions[sid].userId != id
  }

  predicate LogsIn(s: Thread, id: string) {
    s.Opening? && s.user.id == id
  }

  /** No login of the user stands between verifying the password and creating the
      session. */
  ghost predicate NoLoginOf(w: World, id: string) {
    forall t :: t in w.threads ==> !LogsIn(w.threads[t], id)
  }

  ghost predicate Gone(w: World, id: string) {
    id in w.issuedIds && !HasId(w.users, id)
  }

  // ----- a user who is gone starts no login -----

  lemma StepStartsNoLogin(w: World, e: Event, id: string)
    requires Enabled(w, e) && Gone(w, id) && NoLoginOf(w, id)
    ensures NoLoginOf(Next(w, e), id)
  {
    if e.LoginLookup? {
      NamedIsUser(w.users, e.username);
    }
  }

  lemma {:induction false} NoLoginStarts(w: World, es: seq<Event>, id: string)
    requires Consistent(w) && Possible(w, es) && Gone(w, id) && NoLoginOf(w, id)
    ensures Gone(After(w, es), id) && NoLoginOf(After(w, es), id)
  {
    GoneStaysGone(w, es, id);
    if es != [] {
      NoLoginStarts(w, es[..|es| - 1], id);
      StepStartsNoLogin(After(w, es[..|es| - 1]), es[|es| - 1], id);
    }
  }

  lemma StepOpensNoSession(w: World, e: Event, id: string)
    requires Enabled(w, e) && NoLoginOf(w, id) && NoSessionOf(w, id)
    ensures NoSessionOf(Next(w, e), id)
  {
    if e.OpenSession? {
      assert !LogsIn(w.threads[e.thread], id);
    }
  }

  lemma {:induction false} StaysWithoutSession(w: World, es: seq<Event>, id: string)
    requires Consistent(w) && Possible(w, es) && Gone(w, id) && NoLoginOf(w, id) && NoSessionOf(w, id)
    ensures NoSessionOf(After(w, es), id)
  {
    if es != [] {
      NoLoginStarts(w, es[..|es| - 1], id);
      StaysWithoutSession(w, es[..|es| - 1], id);
      StepOpensNoSession(After(w, es[..|es| - 1]), es[|es| - 1], id);
    }
  }

  // ----- when a purge is complete -----

  /** Whatever happens from here on, no session of the user ever exists. */
  ghost predicate ClearForever(w: World, id: string) {
    forall es :: Possible(w, es) ==> NoSessionOf(After(w, es), id)
  }

  lemma FreshToken(tokens: set<string>) returns (token: string)
    ensures token !in tokens
  {
    var n := LongerThanAll(tokens);
    token := seq(n, _ => 'x');
    assert |token| == n;
  }

  /** A login in flight opens a session of the user. */
  lemma LoginOpensSession(w: World, t: nat, id: string) returns (es: seq<Event>)
    requires t in w.threads && LogsIn(w.threads[t], id)
    ensures Possible(w, es) && !NoSessionOf(After(w, es), id)
  {
    var token := FreshToken(w.issuedTokens);
    es := [OpenSession(t, token)];
    assert es[..0] == [] && Enabled(w, es[0]);
    assert token in After(w, es).sessions && After(w, es).sessions[token].userId == id;
  }

  /** Once a user is gone and no session of that user is left, none ever exists
      again if and only if no login of that user is in flight. */
  lemma ClearForeverExactly(w: World, id: string)
    requires Consistent(w) && Gone(w, id) && NoSessionOf(w, id)
    ensures ClearForever(w, id) <==> NoLoginOf(w, id)
  {
    if NoLoginOf(w, id) {
      forall es | Possible(w, es)
        ensures NoSessionOf(After(w, es), id)
      {
        StaysWithoutSession(w, es, id);
      }
    } else {
      var t :| t in w.threads && LogsIn(w.threads[t], id);
      var es := LoginOpensSession(w, t, id);
    }
  }

  lemma PurgeClears(w: World, t: nat)
    requires Consistent(w) && Enabled(w, Purge(t))
    ensures var id := w.threads[t].userId; var w' := Next(w, Purge(t));
      Consistent(w') && Gone(w', id) && NoSessionOf(w', id) && (NoLoginOf(w', id) <==> NoLoginOf(w, id))
  {
    StepKeepsConsistent(w, Purge(t));
    assert ThreadOk(w, w.threads[t]);
    var id, w' := w.threads[t].userId, Next(w, Purge(t));
    forall x | x in w.threads && LogsIn(w.threads[x], id)
      ensures x in w'.threads && LogsIn(w'.threads[x], id)
    {
    }
  }

  /** The purge of a deletion rids the user of sessions for good if and only if no
      login of that user is in flight when it runs. */
  lemma PurgeIsCompleteExactly(w: World, t: nat)
    requires Consistent(w) && Enabled(w, Purge(t))
    ensures ClearForever(Next(w, Purge(t)), w.threads[t].userId) <==> NoLoginOf(w, w.threads[t].userId)
  {
    PurgeClears(w, t);
    ClearForeverExactly(Next(w, Purge(t)), w.threads[t].userId);
  }

  /** Logins that begin later do no harm: if none of that user is in flight when
      the user is deleted, the purge that follows, however late, is complete. */
  lemma QuietDeletionIsComplete(w: World, t: nat, es: seq<Event>)
    requires Consistent(w) && Enabled(w, DeleteUser(t)) && NoLoginOf(w, w.threads[t].userId)
    requires Possible(Next(w, DeleteUser(t)), es)
    requires var w' := After(Next(w, DeleteUser(t)), es);
      t in w'.threads && w'.threads[t] == Purging(w.threads[t].userId)
    ensures ClearForever(Next(After(Next(w, DeleteUser(t)), es), Purge(t)), w.threads[t].userId)
  {
    var id, w1 := w.threads[t].userId, Next(w, DeleteUser(t));
    StepKeepsConsistent(w, DeleteUser(t));
    assert ThreadOk(w, w.threads[t]) && ThreadOk(w1, w1.threads[t]);
    RunsAreConsistent(w1, es);
    NoLoginStarts(w1, es, id);
    PurgeIsCompleteExactly(After(w1, es), t);
  }

  // ----- the race a purge can lose -----

  lemma Extend(es: seq<Event>, e: Event)
    requires Possible(EMPTY, es) && Enabled(After(EMPTY, es), e)
    ensures Possible(EMPTY, es + [e]) && After(EMPTY, es + [e]) == Next(After(EMPTY, es), e)
  {
    assert (es + [e])[..|es|] == es;
  }

  /** The purge of a deletion misses the session of a login that is still in
      flight: this run ends with a session of a user who is gone and with no
      thread left to remove it. */
  lemma PurgeCanMissASession(user: User, token: string) returns (es: seq<Event>)
    ensures Possible(EMPTY, es) && After(EMPTY, es).threads == map[]
    ensures token in After(EMPTY, es).sessions && After(EMPTY, es).sessions[token].userId == user.id
    ensures user.id in After(EMPTY, es).issuedIds && !HasId(After(EMPTY, es).users, user.id)
  {
    es := [];
    Extend(es, AddUser(user));
    es := es + [AddUser(user)];
    assert After(EMPTY, es).users == [user];
    assert Named([user], user.username) == Some(user);
    Extend(es, LoginLookup(0, user.username, true));
    es := es + [LoginLookup(0, user.username, true)];
    Extend(es, DeleteLookup(1, user.id));
    es := es + [DeleteLookup(1, user.id)];
    assert After(EMPTY, es).threads == map[0 := Opening(user), 1 := Deleting(user.id)];
    Extend(es, DeleteUser(1));
    es := es + [DeleteUser(1)];
    assert After(EMPTY, es).users == [];
    Extend(es, Purge(1));
    es := es + [Purge(1)];
    Extend(es, OpenSession(0, token));
    es := es + [OpenSession(0, token)];
  }

  /** The check that meets such a session refuses it and removes it. */
  lemma CheckRemovesOrphan(w: World, sid: string, t: nat)
    requires Consistent(w) && t !in w.threads
    requires sid in w.sessions && w.now < w.sessions[sid].expiresAt && !HasId(w.users, w.sessions[sid].userId)
    ensures Enabled(w, CheckSession(t, sid))
    ensures var w1 := Next(w, CheckSession(t, sid));
      && Enabled(w1, CheckUser(t)) && (forall id :: !Admits(w1, CheckUser(t), id))
      && var w2 := Next(w1, CheckUser(t));
         Enabled(w2, Drop(t)) && Next(w2, Drop(t)) == w.(sessions := w.sessions - {sid})
  {
    var w3 := Next(Next(Next(w, CheckSession(t, sid)), CheckUser(t)), Drop(t));
    assert w3.threads == w.threads;
  }
}
