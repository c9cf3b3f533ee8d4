/**
 The session repository as an object over its three tables, proved to do what the
 functions of module Sessions say
 (services/identity-service/repository/postgres_session_repository.go).
 */
module SessionStore {
  import opened Prelude
  import opened Sessions

  class SessionRepository {
    var users: map<Id, bool>
    var sessions: map<Id, Session>
    var tokens: map<Id, Token>

    function Snapshot(): Db
      reads this
    {
      Db(users, sessions, tokens)
    }

    constructor ()
      ensures Snapshot() == Db(map[], map[], map[])
    {
      users, sessions, tokens := map[], map[], map[];
    }

    method Create(id: Id, user: Id, family: Id, expiresAt: Time, createdAt: Time, hash: Id) returns (reply: Reply)
      modifies this
      ensures Tx(Snapshot(), reply) == Sessions.Create(old(Snapshot()), id, user, family, expiresAt, createdAt, hash)
    {
      if id in sessions || user !in users {
        return Failed(DatabaseError);
      }
      var written := sessions[id := Session(user, family, expiresAt, None, createdAt)];
      if hash in tokens {
        return Failed(DatabaseError);
      }
      tokens := tokens[hash := Token(id, None, None, expiresAt)];
      sessions := written;
      return Done;
    }

    method Rotate(hash: Id, successor: Id, now: Time, prepared: bool) returns (reply: Reply)
      modifies this
      ensures Tx(Snapshot(), reply) == Sessions.Rotate(old(Snapshot()), hash, successor, now, prepared)
    {
      if hash !in tokens || tokens[hash].session !in sessions
          || !Active(Snapshot(), sessions[tokens[hash].session].user) {
        return Failed(TokenInvalid);
      }
      var token := tokens[hash];
      var session := sessions[token.session];
      if token.consumedAt.Some? {
        RevokeFamily(session.family, now);
        return Failed(TokenReused);
      }
      if session.expiresAt <= now {
        return Failed(TokenInvalid);
      }
      if session.revokedAt.Some? {
        return Failed(TokenInvalid);
      }
      if !prepared {
        return Failed(PrepareFailed);
      }
      if successor in tokens {
        return Failed(DatabaseError);
      }
      tokens := tokens[successor := Token(token.session, None, None, session.expiresAt)];
      tokens := tokens[hash := token.(consumedAt := Some(now), replacedBy := Some(successor))];
      sessions := sessions[token.session := session.(lastUsed := now)];
      return Done;
    }

    /** UPDATE ... WHERE family_id = family AND revoked_at IS NULL */
    method RevokeFamily(family: Id, now: Time)
      modifies this`sessions
      ensures sessions == FamilyRevoked(old(sessions), family, now)
    {
      var todo := sessions.Keys;
      ghost var before := sessions;
      while todo != {}
        invariant todo <= sessions.Keys == before.Keys
        invariant forall id :: id in todo ==> sessions[id] == before[id]
        invariant forall id :: id in before && id !in todo ==> sessions[id] == FamilyRevoked(before, family, now)[id]
        decreases |todo|
      {
        var id :| id in todo;
        todo := todo - {id};
        if sessions[id].family == family && sessions[id].revokedAt.None? {
          sessions := sessions[id := sessions[id].(revokedAt := Some(now))];
        }
      }
    }

    method ValidatePrincipal(user: Id, id: Id, now: Time) returns (reply: Reply)
      ensures reply == if Validates(Snapshot(), user, id, now) then Done else Failed(SessionInvalid)
    {
      if id in sessions && sessions[id].user == user && sessions[id].revokedAt.None? && sessions[id].expiresAt > now
          && Active(Snapshot(), user) {
        return Done;
      }
      return Failed(SessionInvalid);
    }

    method Logout(id: Id, now: Time)
      modifies this`sessions
      ensures Snapshot() == Sessions.Logout(old(Snapshot()), id, now)
    {
      if id in sessions && sessions[id].revokedAt.None? {
        sessions := sessions[id := sessions[id].(revokedAt := Some(now))];
      }
    }

    method CleanupExpired(now: Time) returns (removed: nat)
      modifies this
      ensures Snapshot() == Sessions.CleanupExpired(old(Snapshot()), now)
      ensures removed == |old(sessions)| - |sessions|
    {
      removed := DeleteSessions(now);
      tokens := map h | h in tokens && tokens[h].session in sessions :: tokens[h];
    }

    /** DELETE FROM sessions WHERE expires_at <= now */
    method DeleteSessions(now: Time) returns (removed: nat)
      modifies this`sessions
      ensures sessions == map id | id in old(sessions) && now < old(sessions)[id].expiresAt :: old(sessions)[id]
      ensures removed == |old(sessions)| - |sessions|
    {
      var todo := sessions.Keys;
      ghost var before := sessions;
      removed := 0;
      while todo != {}
        invariant todo <= sessions.Keys <= before.Keys && removed + |sessions| == |before|
        invariant forall id :: id in sessions ==> sessions[id] == before[id]
        invariant forall id :: id in before && id !in todo ==> (id in sessions <==> now < before[id].expiresAt)
        decreases |todo|
      {
        var id :| id in todo;
        todo := todo - {id};
        if sessions[id].expiresAt <= now {
          OneFewer(sessions, id);
          sessions := sessions - {id};
          removed := removed + 1;
        }
      }
    }
  }

  lemma OneFewer(sessions: map<Id, Session>, id: Id)
    requires id in sessions
    ensures |sessions - {id}| == |sessions| - 1
  {
    assert (sessions - {id}).Keys == sessions.Keys - {id};
    assert |sessions| == |sessions.Keys|;
  }
}
