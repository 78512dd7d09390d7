/** The session store: tokens to records that expire. */
module SessionStore {
  import opened Common

  datatype SessionRecord = SessionRecord(userId: string, username: string, expiresAt: int)

  type Sessions = map<string, SessionRecord>

  const SESSION_TTL_SECONDS: int := 12 * 3600

  function Opened(s: Sessions, sid: string, userId: string, username: string, now: int): Sessions {
    s[sid := SessionRecord(userId, username, now + SESSION_TTL_SECONDS)]
  }

  /** The record a read returns: none for an unknown token and none for one that
      has expired. */
  function Read(s: Sessions, sid: string, now: int): Option<SessionRecord> {
    if sid in s && now < s[sid].expiresAt then Some(s[sid]) else None
  }

  /** An expired session goes away when it is read. */
  function AfterRead(s: Sessions, sid: string, now: int): Sessions {
    if sid in s && now >= s[sid].expiresAt then s - {sid} else s
  }

  function Purged(s: Sessions, userId: string): Sessions {
    map k | k in s && s[k].userId != userId :: s[k]
  }

  class SessionStore {
    var sessions: Sessions

    constructor ()
      ensures sessions == map[]
    {
      sessions := map[];
    }

    method Create(userId: string, username: string, now: int, token: string) returns (sid: string)
      modifies this
      ensures sid == token && sessions == Opened(old(sessions), token, userId, username, now)
    {
      sessions := sessions[token := SessionRecord(userId, username, now + SESSION_TTL_SECONDS)];
      sid := token;
    }

    method Get(sid: string, now: int) returns (r: Option<SessionRecord>)
      modifies this
      ensures r == Read(old(sessions), sid, now) && sessions == AfterRead(old(sessions), sid, now)
    {
      if sid !in sessions {
        return None;
      }
      var record := sessions[sid];
      if now >= record.expiresAt {
        sessions := sessions - {sid};
        return None;
      }
      r := Some(record);
    }

    method Delete(sid: string)
      modifies this
      ensures sessions == old(sessions) - {sid}
    {
      sessions := sessions - {sid};
    }

    /** Collects the tokens of a user, in whatever order the dictionary gives
        them, then drops them one by one. */
    method DeleteByUserId(userId: string)
      modifies this
      ensures sessions == Purged(old(sessions), userId)
    {
      var stale := set k | k in sessions && sessions[k].userId == userId;
      while stale != {}
        invariant forall k :: k in sessions ==> k in old(sessions) && sessions[k] == old(sessions)[k]
        invariant forall k :: k in old(sessions) && old(sessions)[k].userId != userId ==> k in sessions
        invariant forall k :: k in stale <==> k in sessions && sessions[k].userId == userId
        decreases |stale|
      {
        var k :| k in stale;
        stale := stale - {k};
        sessions := sessions - {k};
      }
    }
  }
}
