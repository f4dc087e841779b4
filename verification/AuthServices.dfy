/** `AuthService` and `AuthSessionRepository` in the source's imperative form, proved against the step functions. */
module AuthServices {
  import opened AccessTokens
  import opened AuthSessions
  import opened Options
  import L = LoginLimiter

  datatype LoginOutcome = RateLimited | InvalidCredentials | LoggedIn(token: RefreshToken, claims: Claims)

  datatype RegisterOutcome = TooManyAttempts | EmailTaken | Registered(token: RefreshToken, claims: Claims)

  class AuthService {
    var sessions: map<Uuid, Session>
    var users: map<Uuid, User>
    var emails: map<string, Uuid>
    var lastLoginAt: map<Uuid, int>
    const life: Lifetimes
    const limiter: L.LoginRateLimiter

    constructor (users: map<Uuid, User>, emails: map<string, Uuid>, life: Lifetimes, limiter: L.LoginRateLimiter)
      ensures State() == Db(map[], users) && this.emails == emails && this.life == life && this.limiter == limiter
    {
      this.sessions, this.lastLoginAt := map[], map[];
      this.users, this.emails := users, emails;
      this.life, this.limiter := life, limiter;
    }

    function State(): Db
      reads this
    {
      Db(sessions, users)
    }

    /** `get_for_update`. */
    method GetForUpdate(sessionId: Uuid) returns (found: Option<Session>)
      ensures found == if sessionId in sessions then Some(sessions[sessionId]) else None
    {
      if sessionId in sessions {
        found := Some(sessions[sessionId]);
      } else {
        found := None;
      }
    }

    method RevokeFamily(familyId: Uuid, now: int)
      modifies this`sessions
      ensures State() == AuthSessions.RevokeFamily(old(State()), familyId, now)
    {
      var todo := sessions.Keys;
      while todo != {}
        invariant todo <= sessions.Keys == old(sessions).Keys
        invariant forall id | id in todo :: sessions[id] == old(sessions)[id]
        invariant forall id | id in sessions && id !in todo ::
          sessions[id] == AuthSessions.RevokeFamily(old(State()), familyId, now).sessions[id]
        decreases todo
      {
        var id :| id in todo;
        todo := todo - {id};
        if sessions[id].familyId == familyId && sessions[id].revokedAt.None? {
          sessions := sessions[id := sessions[id].(revokedAt := Some(now))];
        }
      }
      assert sessions == AuthSessions.RevokeFamily(old(State()), familyId, now).sessions;
    }

    method RevokeUser(userId: Uuid, now: int)
      modifies this`sessions
      ensures State() == AuthSessions.RevokeUser(old(State()), userId, now)
    {
      var todo := sessions.Keys;
      while todo != {}
        invariant todo <= sessions.Keys == old(sessions).Keys
        invariant forall id | id in todo :: sessions[id] == old(sessions)[id]
        invariant forall id | id in sessions && id !in todo ::
          sessions[id] == AuthSessions.RevokeUser(old(State()), userId, now).sessions[id]
        decreases todo
      {
        var id :| id in todo;
        todo := todo - {id};
        if sessions[id].userId == userId && sessions[id].revokedAt.None? {
          sessions := sessions[id := sessions[id].(revokedAt := Some(now))];
        }
      }
      assert sessions == AuthSessions.RevokeUser(old(State()), userId, now).sessions;
    }

    /** `_new_session`, for a user who has just proved their password or registered. */
    method NewSession(userId: Uuid, sessionId: Uuid, familyId: Uuid, secret: Secret, now: int)
      returns (token: RefreshToken, claims: Claims)
      modifies this`sessions
      ensures State() == AuthSessions.NewSession(old(State()), userId, sessionId, familyId, secret, now, life)
      ensures token == RefreshToken(sessionId, secret) && claims == IssueClaims(userId, familyId, now, life)
      ensures userId in users && users[userId].isActive && life.refresh > 0 ==> Live(State(), Some(token), now)
    {
      var row := Session(familyId, userId, Sha256(secret), now + life.refresh, None, None, None);
      sessions := sessions[sessionId := row];
      token, claims := RefreshToken(sessionId, secret), IssueClaims(userId, familyId, now, life);
    }

    /** The user who has this address and password, and may log in. */
    ghost predicate Recognised(email: string, password: Secret)
      reads this
    {
      email in emails && LoginSucceeds(State(), emails[email], password)
    }

    /**
     * `login`, gate and all: the limiter is asked first and told of the outcome, as one attempt of its runs; a
     * recognised user gets a session of a new family, as one call of the session table's runs.
     */
    method Login(email: string, sourceIp: string, password: Secret, sessionId: Uuid, familyId: Uuid, secret: Secret,
                 checkAt: int, now: int)
      returns (outcome: LoginOutcome)
      modifies this`sessions, this`lastLoginAt, limiter
      ensures outcome.RateLimited? <==> L.Refused(old(limiter.counters), email, sourceIp, checkAt, limiter.policy)
      ensures outcome.LoggedIn? <==> !outcome.RateLimited? && old(Recognised(email, password))
      ensures limiter.counters ==
        L.Step(L.State(old(limiter.counters), checkAt, []),
               L.Attempt(email, sourceIp, checkAt, now, now, old(Recognised(email, password))), limiter.policy).counters
      ensures !outcome.LoggedIn? ==> State() == old(State()) && lastLoginAt == old(lastLoginAt)
      ensures outcome.LoggedIn? ==>
        var call := LoginCall(emails[email], password, sessionId, familyId, secret, now);
        State() == Step(old(State()), call, life) && lastLoginAt == old(lastLoginAt)[emails[email] := now]
        && Some(outcome.claims) == Issued(old(State()), call, life) && outcome.token == IssuedToken(call)
      ensures outcome.LoggedIn? && life.refresh > 0 ==> Live(State(), Some(outcome.token), now)
    {
      var limited := limiter.IsLimited(email, sourceIp, checkAt);
      if limited {
        return RateLimited;
      }
      var user := if email in emails then Some(emails[email]) else None;
      if user.None? || user.value !in users || users[user.value].password != Sha256(password)
        || !users[user.value].isActive {
        limiter.RecordFailure(email, sourceIp, now);
        return InvalidCredentials;
      }
      var token, claims := NewSession(user.value, sessionId, familyId, secret, now);
      lastLoginAt := lastLoginAt[user.value := now];
      limiter.ClearAccount(email);
      outcome := LoggedIn(token, claims);
    }

    /**
     * `register`: the limiter's answer is a parameter. A free address gets an active user with that password, and a
     * session of a new family, as one call of the session table's runs.
     */
    method Register(email: string, password: Secret, limited: bool, newUser: Uuid, sessionId: Uuid, familyId: Uuid,
                    secret: Secret, now: int)
      returns (outcome: RegisterOutcome)
      modifies this`sessions, this`users, this`emails, this`lastLoginAt
      ensures outcome.TooManyAttempts? <==> limited
      ensures outcome.EmailTaken? <==> !limited && email in old(emails)
      ensures !outcome.Registered? ==> State() == old(State()) && emails == old(emails) && lastLoginAt == old(lastLoginAt)
      ensures outcome.Registered? ==>
        var call := RegisterCall(newUser, password, sessionId, familyId, secret, now);
        State() == Step(old(State()), call, life) && lastLoginAt == old(lastLoginAt)[newUser := now]
        && emails == old(emails)[email := newUser] && LoginSucceeds(State(), newUser, password)
        && Some(outcome.claims) == Issued(old(State()), call, life) && outcome.token == IssuedToken(call)
    {
      if limited {
        return TooManyAttempts;
      }
      if email in emails {
        return EmailTaken;
      }
      users := users[newUser := User(true, Sha256(password), now)];
      emails := emails[email := newUser];
      lastLoginAt := lastLoginAt[newUser := now];
      var token, claims := NewSession(newUser, sessionId, familyId, secret, now);
      outcome := Registered(token, claims);
    }

    method Refresh(token: Option<RefreshToken>, newId: Uuid, newSecret: Secret, now: int) returns (outcome: Outcome)
      modifies this`sessions
      ensures (State(), outcome) == AuthSessions.Refresh(old(State()), token, newId, newSecret, now, life)
    {
      if token.None? {
        return Rejected;
      }
      var id := token.value.sessionId;
      var found := GetForUpdate(id);
      if found.None? || found.value.tokenHash != Sha256(token.value.secret) {
        return Rejected;
      }
      var session := found.value;
      if session.revokedAt.Some? {
        RevokeFamily(session.familyId, now);
        return Reused;
      }
      if session.expiresAt <= now || session.userId !in users || !users[session.userId].isActive {
        RevokeFamily(session.familyId, now);
        return Rejected;
      }
      var replacement :=
        Session(session.familyId, session.userId, Sha256(newSecret), now + life.refresh, None, None, None);
      session := session.(revokedAt := Some(now));
      session := session.(lastUsedAt := Some(now));
      session := session.(replacedById := Some(newId));
      sessions := sessions[id := session];
      sessions := sessions[newId := replacement];
      var claims := IssueClaims(session.userId, session.familyId, now, life);
      outcome := Rotated(RefreshToken(newId, newSecret), claims);
    }

    method Logout(token: Option<RefreshToken>, now: int)
      modifies this`sessions
      ensures State() == AuthSessions.Logout(old(State()), token, now)
    {
      if token.Some? {
        var found := GetForUpdate(token.value.sessionId);
        if found.Some? && found.value.tokenHash == Sha256(token.value.secret) {
          RevokeFamily(found.value.familyId, now);
        }
      }
    }

    /** Refused when the current password is wrong; `changed` says which. */
    method ChangePassword(userId: Uuid, current: Secret, replacement: Secret, now: int) returns (changed: bool)
      requires userId in users
      modifies this
      ensures State() == AuthSessions.ChangePassword(old(State()), userId, current, replacement, now)
      ensures changed <==> old(users)[userId].password == Sha256(current)
    {
      if users[userId].password != Sha256(current) {
        return false;
      }
      users := users[userId := users[userId].(password := Sha256(replacement))];
      users := users[userId := users[userId].(credentialsChangedAt := now)];
      RevokeUser(userId, now);
      changed := true;
    }

    /** `get_current_user` for a genuine access token: which ones are accepted is what `AccessTokens` is about. */
    method GetCurrentUser(claims: Claims, now: int) returns (accepted: bool)
      ensures accepted <==> AcceptsClaims(State(), claims, now)
    {
      if now < claims.issuedAt * SECOND || claims.expiresAt * SECOND <= now || claims.userId !in users {
        return false;
      }
      var user := users[claims.userId];
      var active := 0;
      var todo := sessions.Keys;
      while todo != {}
        invariant todo <= sessions.Keys
        invariant active > 0 <==> exists id | id in sessions && id !in todo ::
          sessions[id].familyId == claims.familyId && sessions[id].revokedAt.None? && now < sessions[id].expiresAt
        invariant active >= 0
        decreases todo
      {
        var id :| id in todo;
        todo := todo - {id};
        var s := sessions[id];
        if s.familyId == claims.familyId && s.revokedAt.None? && now < s.expiresAt {
          active := active + 1;
        }
      }
      accepted := user.isActive && active > 0 && user.credentialsChangedAt / SECOND <= claims.issuedAt;
    }
  }
}
