/**
 * What the tokens that a call hands out are good for: from the moment they are issued until they expire, over every
 * later run of calls that leaves their family and their user alone. Times are microseconds.
 */
module AccessTokens {
  import opened Options
  import opened AuthSessions

  /** The claims in the answer to a login, a registration or a refresh. */
  function Issued(db: Db, call: Call, life: Lifetimes): Option<Claims> {
    match call
    case LoginCall(userId, password, _, newFamily, _, now) =>
      if LoginSucceeds(db, userId, password) then Some(IssueClaims(userId, newFamily, now, life)) else None
    case RegisterCall(newUser, _, _, newFamily, _, now) => Some(IssueClaims(newUser, newFamily, now, life))
    case RefreshCall(token, newId, newSecret, now) =>
      var outcome := Refresh(db, token, newId, newSecret, now, life).1;
      if outcome.Rotated? then Some(outcome.claims) else None
    case _ => None
  }

  /** Who the answer is for. */
  function Recipient(db: Db, call: Call): Option<Uuid> {
    match call
    case LoginCall(userId, _, _, _, _, _) => Some(userId)
    case RegisterCall(newUser, _, _, _, _, _) => Some(newUser)
    case RefreshCall(token, _, _, _) => if Matches(db, token) then Some(db.sessions[token.value.sessionId].userId) else None
    case _ => None
  }

  /** The refresh token in the answer. */
  function IssuedToken(call: Call): RefreshToken
    requires call.LoginCall? || call.RegisterCall? || call.RefreshCall?
  {
    RefreshToken(call.newId, call.newSecret)
  }

  // ---------------------------------------------------------------- clocks

  /** The clock starts at `from`, never goes back, and ends by `to`. */
  predicate Clocked(from: int, calls: seq<Call>, to: int)
    decreases |calls|
  {
    if calls == [] then from <= to else from <= calls[0].now && Clocked(calls[0].now, calls[1..], to)
  }

  lemma {:induction false} ClockedSpan(from: int, calls: seq<Call>, to: int)
    requires Clocked(from, calls, to)
    ensures from <= to
    decreases |calls|
  {
    if calls != [] {
      ClockedSpan(calls[0].now, calls[1..], to);
    }
  }

  /** Nobody's credentials change in the future. */
  ghost predicate CredentialsPast(db: Db, now: int) {
    forall u | u in db.users :: db.users[u].credentialsChangedAt <= now
  }

  const EMPTY := Db(map[], map[])

  lemma {:induction false} StepKeepsPast(db: Db, call: Call, life: Lifetimes, before: int)
    requires CredentialsPast(db, before) && before <= call.now
    ensures CredentialsPast(Step(db, call, life), call.now)
  {
  }

  lemma {:induction false} RunKeepsPast(db: Db, calls: seq<Call>, life: Lifetimes, from: int, to: int)
    requires CredentialsPast(db, from) && Clocked(from, calls, to)
    ensures CredentialsPast(Run(db, calls, life), to)
    decreases |calls|
  {
    if calls != [] {
      StepKeepsPast(db, calls[0], life, from);
      RunKeepsPast(Step(db, calls[0], life), calls[1..], life, calls[0].now, to);
    }
  }

  // ---------------------------------------------------------------- what ends a family

  /** A call that ends the family, or sets its user aside. */
  ghost predicate Ends(db: Db, call: Call, familyId: Uuid, userId: Uuid) {
    match call
    case RefreshCall(token, _, _, _) =>
      Matches(db, token) && db.sessions[token.value.sessionId].familyId == familyId
      && db.sessions[token.value.sessionId].revokedAt.Some?
    case LogoutCall(token, _) => Matches(db, token) && db.sessions[token.value.sessionId].familyId == familyId
    case ChangePasswordCall(u, current, _, _) =>
      u == userId && u in db.users && db.users[u].password == Sha256(current)
    case UpdateUserCall(u, isActive, roleChanged, _) => u == userId && (isActive == Some(false) || roleChanged)
    case RevokeUserCall(u, _) => u == userId
    case _ => false
  }

  ghost predicate Undisturbed(db: Db, calls: seq<Call>, familyId: Uuid, userId: Uuid, life: Lifetimes)
    decreases |calls|
  {
    calls == []
    || (!Ends(db, calls[0], familyId, userId) && Undisturbed(Step(db, calls[0], life), calls[1..], familyId, userId, life))
  }

  /** The user is active, and nothing about the credentials is newer than the second `issuedAt`. */
  ghost predicate UserStands(db: Db, userId: Uuid, issuedAt: int) {
    userId in db.users && db.users[userId].isActive && db.users[userId].credentialsChangedAt / 1_000_000 <= issuedAt
  }

  /** The session is unrevoked, of that family and user, and lasts until `until` at least. */
  predicate Lasts(db: Db, id: Uuid, familyId: Uuid, userId: Uuid, until: int) {
    id in db.sessions && db.sessions[id].familyId == familyId && db.sessions[id].userId == userId
    && db.sessions[id].revokedAt.None? && until <= db.sessions[id].expiresAt
  }

  ghost predicate FamilyLasts(db: Db, familyId: Uuid, userId: Uuid, until: int) {
    exists id :: Lasts(db, id, familyId, userId, until)
  }

  /** A run of calls in time that leaves the family and the user of the claims alone. */
  ghost predicate LeavesAlone(db: Db, calls: seq<Call>, claims: Claims, from: int, to: int, life: Lifetimes) {
    Admissible(db, calls, life) && Clocked(from, calls, to)
    && Undisturbed(db, calls, claims.familyId, claims.userId, life)
  }

  /** The call is answered with these claims, on a table as all runs leave it. */
  ghost predicate Answers(db: Db, call: Call, claims: Claims, life: Lifetimes) {
    RotationChains(db) && CredentialsPast(db, call.now) && Fresh(db, call) && Issued(db, call, life) == Some(claims)
  }

  /** The user stands, and the family has a session that lasts. */
  ghost predicate Stands(db: Db, claims: Claims, until: int) {
    RotationChains(db) && UserStands(db, claims.userId, claims.issuedAt)
    && FamilyLasts(db, claims.familyId, claims.userId, until)
  }

  /** The claims are fresh: their user and family stand, and they speak of the second of issue. */
  ghost predicate JustIssued(after: Db, claims: Claims, issued: int, life: Lifetimes) {
    Stands(after, claims, issued + life.refresh)
    && claims.issuedAt == issued / 1_000_000 && claims.expiresAt == issued / 1_000_000 + life.access
  }

  // ---------------------------------------------------------------- one call

  lemma {:induction false} StepKeepsUser(db: Db, call: Call, familyId: Uuid, userId: Uuid, issuedAt: int, life: Lifetimes)
    requires UserStands(db, userId, issuedAt) && Fresh(db, call) && !Ends(db, call, familyId, userId)
    ensures UserStands(Step(db, call, life), userId, issuedAt)
  {
  }

  /** A refresh in a living family rotates its one live session, or is of another family. */
  lemma {:induction false} RefreshKeepsFamily(
      db: Db, call: Call, familyId: Uuid, userId: Uuid, id: Uuid, until: int, life: Lifetimes)
    requires RotationChains(db) && Lasts(db, id, familyId, userId, until)
    requires userId in db.users && db.users[userId].isActive
    requires call.RefreshCall? && Fresh(db, call) && !Ends(db, call, familyId, userId)
    requires call.now < until <= call.now + life.refresh
    ensures FamilyLasts(Step(db, call, life), familyId, userId, until)
  {
    var after := Step(db, call, life);
    if Matches(db, call.token) && db.sessions[call.token.value.sessionId].familyId == familyId {
      ChainMeaning(db, id, call.token.value.sessionId);
      assert Lasts(after, call.newId, familyId, userId, until);
    } else {
      assert Lasts(after, id, familyId, userId, until);
    }
  }

  lemma {:induction false} StepKeepsFamily(db: Db, call: Call, familyId: Uuid, userId: Uuid, until: int, life: Lifetimes)
    requires RotationChains(db) && FamilyLasts(db, familyId, userId, until)
    requires userId in db.users && db.users[userId].isActive
    requires Fresh(db, call) && !Ends(db, call, familyId, userId)
    requires call.now < until <= call.now + life.refresh
    ensures FamilyLasts(Step(db, call, life), familyId, userId, until)
  {
    var id :| Lasts(db, id, familyId, userId, until);
    if call.RefreshCall? {
      RefreshKeepsFamily(db, call, familyId, userId, id, until, life);
    } else {
      assert Lasts(Step(db, call, life), id, familyId, userId, until);
    }
  }

  lemma {:induction false} StepStands(db: Db, call: Call, claims: Claims, until: int, life: Lifetimes)
    requires Stands(db, claims, until) && Fresh(db, call) && !Ends(db, call, claims.familyId, claims.userId)
    requires call.now < until <= call.now + life.refresh
    ensures Stands(Step(db, call, life), claims, until)
  {
    StepKeepsFamily(db, call, claims.familyId, claims.userId, until, life);
    StepKeepsUser(db, call, claims.familyId, claims.userId, claims.issuedAt, life);
    StepKeepsChains(db, call, life);
  }

  lemma {:induction false} RunStands(
      db: Db, calls: seq<Call>, claims: Claims, from: int, to: int, until: int, life: Lifetimes)
    requires Stands(db, claims, until) && LeavesAlone(db, calls, claims, from, to, life)
    requires to < until <= from + life.refresh
    ensures Stands(Run(db, calls, life), claims, until)
    decreases |calls|
  {
    if calls != [] {
      ClockedSpan(calls[0].now, calls[1..], to);
      StepStands(db, calls[0], claims, until, life);
      RunStands(Step(db, calls[0], life), calls[1..], claims, calls[0].now, to, until, life);
    }
  }

  /** The claims in an answer are its recipient's, from the second of the call on, for the lifetime of access tokens. */
  lemma {:induction false} IssuedClaimsSay(db: Db, call: Call, claims: Claims, life: Lifetimes)
    requires Answers(db, call, claims, life)
    ensures Recipient(db, call) == Some(claims.userId)
    ensures claims.issuedAt == call.now / 1_000_000 && claims.expiresAt == call.now / 1_000_000 + life.access
  {
  }

  /** What the answering call leaves behind. */
  lemma {:induction false} IssuedStands(db: Db, call: Call, claims: Claims, life: Lifetimes)
    requires Answers(db, call, claims, life)
    ensures Stands(Step(db, call, life), claims, call.now + life.refresh)
  {
    assert Lasts(Step(db, call, life), call.newId, claims.familyId, claims.userId, call.now + life.refresh);
    StepKeepsChains(db, call, life);
  }

  lemma {:induction false} StandingClaims(db: Db, claims: Claims, issued: int, until: int, now: int, life: Lifetimes)
    requires Stands(db, claims, until) && issued <= now < until
    requires claims.issuedAt == issued / 1_000_000 && claims.expiresAt == issued / 1_000_000 + life.access
    ensures AcceptsClaims(db, claims, now) <==> now < (issued / 1_000_000 + life.access) * 1_000_000
  {
    var id :| Lasts(db, id, claims.familyId, claims.userId, until);
    assert FamilyIsActive(db, claims.familyId, now);
  }

  lemma {:induction false} ClaimsWorkAfter(
      after: Db, claims: Claims, later: seq<Call>, issued: int, now: int, life: Lifetimes)
    requires JustIssued(after, claims, issued, life)
    requires LeavesAlone(after, later, claims, issued, now, life) && now < issued + life.refresh
    ensures AcceptsClaims(Run(after, later, life), claims, now) == (now < (issued / 1_000_000 + life.access) * 1_000_000)
  {
    ClockedSpan(issued, later, now);
    RunStands(after, later, claims, issued, now, issued + life.refresh, life);
    StandingClaims(Run(after, later, life), claims, issued, issued + life.refresh, now, life);
  }

  lemma {:induction false} AnswerJustIssued(db: Db, call: Call, claims: Claims, life: Lifetimes)
    requires Answers(db, call, claims, life)
    ensures JustIssued(Step(db, call, life), claims, call.now, life)
  {
    IssuedClaimsSay(db, call, claims, life);
    IssuedStands(db, call, claims, life);
  }

  // ---------------------------------------------------------------- what access tokens are good for

  /**
   * The claims in the answer to a login, a registration or a successful refresh are accepted from that moment until they
   * expire, and not an instant longer: over every later run that does not end their family, set their user aside or
   * change the password, for as long as the session of that answer lasts.
   */
  lemma {:induction false} IssuedClaimsWork(
      db: Db, call: Call, claims: Claims, later: seq<Call>, now: int, life: Lifetimes)
    requires Answers(db, call, claims, life)
    requires LeavesAlone(Step(db, call, life), later, claims, call.now, now, life) && now < call.now + life.refresh
    ensures AcceptsClaims(Run(Step(db, call, life), later, life), claims, now)
         == (now < (call.now / 1_000_000 + life.access) * 1_000_000)
  {
    AnswerJustIssued(db, call, claims, life);
    ClaimsWorkAfter(Step(db, call, life), claims, later, call.now, now, life);
  }

  /** In particular at once, whatever part of a second has passed since the credentials changed. */
  lemma {:induction false} IssuedClaimsWorkAtOnce(
      before: seq<Call>, call: Call, claims: Claims, from: int, life: Lifetimes)
    requires life.access > 0 && life.refresh > 0
    requires Admissible(EMPTY, before, life) && Clocked(from, before, call.now)
    requires Fresh(Run(EMPTY, before, life), call) && Issued(Run(EMPTY, before, life), call, life) == Some(claims)
    ensures AcceptsClaims(Step(Run(EMPTY, before, life), call, life), claims, call.now)
  {
    RunKeepsChains(EMPTY, before, life);
    RunKeepsPast(EMPTY, before, life, from, call.now);
    IssuedClaimsWork(Run(EMPTY, before, life), call, claims, [], call.now, life);
  }

  /** The credentials of the user have changed at `since` or later. */
  ghost predicate ChangedSince(db: Db, userId: Uuid, since: int) {
    userId in db.users && db.users[userId].credentialsChangedAt >= since
  }

  lemma {:induction false} RunKeepsChange(db: Db, calls: seq<Call>, userId: Uuid, since: int, to: int, life: Lifetimes)
    requires ChangedSince(db, userId, since) && Admissible(db, calls, life) && Clocked(since, calls, to)
    ensures ChangedSince(Run(db, calls, life), userId, since)
    decreases |calls|
  {
    if calls != [] {
      assert ChangedSince(Step(db, calls[0], life), userId, since);
      ClockedFromEarlier(since, calls[0].now, calls[1..], to);
      RunKeepsChange(Step(db, calls[0], life), calls[1..], userId, since, to, life);
    }
  }

  lemma {:induction false} ClockedFromEarlier(early: int, from: int, calls: seq<Call>, to: int)
    requires early <= from && Clocked(from, calls, to)
    ensures Clocked(early, calls, to)
  {
  }

  predicate RightPassword(db: Db, userId: Uuid, password: Secret) {
    userId in db.users && db.users[userId].password == Sha256(password)
  }

  /**
   * A password change is the end of every access token of an earlier second, whatever family it names: over every
   * later run, and even where that family has a live session.
   */
  lemma {:induction false} OlderClaimsFail(
      db: Db, call: Call, later: seq<Call>, claims: Claims, to: int, now: int, life: Lifetimes)
    requires call.ChangePasswordCall? && RightPassword(db, call.userId, call.current)
    requires Admissible(Step(db, call, life), later, life) && Clocked(call.now, later, to)
    requires claims.userId == call.userId && claims.issuedAt < call.now / 1_000_000
    ensures !AcceptsClaims(Run(Step(db, call, life), later, life), claims, now)
  {
    RunKeepsChange(Step(db, call, life), later, call.userId, call.now, to, life);
  }

  // ---------------------------------------------------------------- what refresh tokens are good for

  predicate Presents(call: Call, token: RefreshToken) {
    call.RefreshCall? && call.token == Some(token)
  }

  predicate NeverPresented(calls: seq<Call>, token: RefreshToken) {
    forall call | call in calls :: !Presents(call, token)
  }

  /** The token's session is just as it was created. */
  predicate Untouched(db: Db, token: RefreshToken, familyId: Uuid, userId: Uuid, until: int) {
    token.sessionId in db.sessions
    && db.sessions[token.sessionId] == Session(familyId, userId, Sha256(token.secret), until, None, None, None)
  }

  /** Any other token of the family has been revoked. */
  lemma {:induction false} OtherTokens(
      db: Db, token: RefreshToken, familyId: Uuid, userId: Uuid, until: int, other: RefreshToken)
    requires RotationChains(db) && Untouched(db, token, familyId, userId, until) && Matches(db, Some(other))
    ensures other != token && db.sessions[other.sessionId].familyId == familyId ==>
      db.sessions[other.sessionId].revokedAt.Some?
  {
    if db.sessions[other.sessionId].familyId == familyId {
      ChainMeaning(db, token.sessionId, other.sessionId);
    }
  }

  lemma {:induction false} StepKeepsToken(
      db: Db, call: Call, token: RefreshToken, familyId: Uuid, userId: Uuid, until: int, life: Lifetimes)
    requires RotationChains(db) && Untouched(db, token, familyId, userId, until)
    requires Fresh(db, call) && !Ends(db, call, familyId, userId) && !Presents(call, token)
    ensures Untouched(Step(db, call, life), token, familyId, userId, until)
  {
    if call.RefreshCall? && Matches(db, call.token) {
      OtherTokens(db, token, familyId, userId, until, call.token.value);
    }
  }

  lemma {:induction false} RunKeepsToken(
      db: Db, calls: seq<Call>, token: RefreshToken, claims: Claims, from: int, to: int, until: int, life: Lifetimes)
    requires RotationChains(db) && Untouched(db, token, claims.familyId, claims.userId, until)
    requires UserStands(db, claims.userId, claims.issuedAt)
    requires LeavesAlone(db, calls, claims, from, to, life) && NeverPresented(calls, token)
    ensures Untouched(Run(db, calls, life), token, claims.familyId, claims.userId, until)
    ensures UserStands(Run(db, calls, life), claims.userId, claims.issuedAt)
    decreases |calls|
  {
    if calls != [] {
      assert calls[0] in calls && forall call | call in calls[1..] :: call in calls;
      StepKeepsToken(db, calls[0], token, claims.familyId, claims.userId, until, life);
      StepKeepsUser(db, calls[0], claims.familyId, claims.userId, claims.issuedAt, life);
      StepKeepsChains(db, calls[0], life);
      RunKeepsToken(Step(db, calls[0], life), calls[1..], token, claims, calls[0].now, to, until, life);
    }
  }

  lemma {:induction false} IssuedIsUntouched(db: Db, call: Call, claims: Claims, life: Lifetimes)
    requires Answers(db, call, claims, life)
    ensures Untouched(Step(db, call, life), IssuedToken(call), claims.familyId, claims.userId, call.now + life.refresh)
  {
  }

  lemma {:induction false} UntouchedIsLive(db: Db, token: RefreshToken, claims: Claims, until: int, now: int)
    requires Untouched(db, token, claims.familyId, claims.userId, until)
    requires UserStands(db, claims.userId, claims.issuedAt)
    ensures Live(db, Some(token), now) <==> now < until
  {
  }

  /**
   * The refresh token in the answer works, until it is presented, for its lifetime and not longer: over every later run
   * that does not end its family, set its user aside or change the password.
   */
  lemma {:induction false} IssuedTokenWorks(
      db: Db, call: Call, claims: Claims, later: seq<Call>, now: int, life: Lifetimes)
    requires Answers(db, call, claims, life)
    requires LeavesAlone(Step(db, call, life), later, claims, call.now, now, life)
    requires NeverPresented(later, IssuedToken(call))
    ensures Live(Run(Step(db, call, life), later, life), Some(IssuedToken(call)), now) <==> now < call.now + life.refresh
  {
    var after, until := Step(db, call, life), call.now + life.refresh;
    IssuedStands(db, call, claims, life);
    IssuedIsUntouched(db, call, claims, life);
    RunKeepsToken(after, later, IssuedToken(call), claims, call.now, now, until, life);
    UntouchedIsLive(Run(after, later, life), IssuedToken(call), claims, until, now);
  }

  // ---------------------------------------------------------------- passwords

  /** The call does not change the user's password. */
  ghost predicate KeepsPassword(db: Db, call: Call, userId: Uuid) {
    call.ChangePasswordCall? && call.userId == userId ==> !RightPassword(db, userId, call.current)
  }

  ghost predicate PasswordKept(db: Db, calls: seq<Call>, userId: Uuid, life: Lifetimes)
    decreases |calls|
  {
    calls == [] || (KeepsPassword(db, calls[0], userId) && PasswordKept(Step(db, calls[0], life), calls[1..], userId, life))
  }

  lemma {:induction false} RunKeepsPassword(db: Db, calls: seq<Call>, userId: Uuid, password: Secret, life: Lifetimes)
    requires RightPassword(db, userId, password)
    requires Admissible(db, calls, life) && PasswordKept(db, calls, userId, life)
    ensures RightPassword(Run(db, calls, life), userId, password)
    decreases |calls|
  {
    if calls != [] {
      assert RightPassword(Step(db, calls[0], life), userId, password);
      RunKeepsPassword(Step(db, calls[0], life), calls[1..], userId, password, life);
    }
  }

  /** The user and the password that a call sets. */
  ghost predicate Sets(db: Db, call: Call, userId: Uuid, password: Secret) {
    match call
    case RegisterCall(newUser, chosen, _, _, _, _) => newUser == userId && chosen == password
    case ChangePasswordCall(u, current, replacement, _) =>
      u == userId && replacement == password && RightPassword(db, userId, current)
    case _ => false
  }

  /**
   * Over every later run without another change, an active user logs in with the password last set and with no other.
   */
  lemma {:induction false} LastPasswordWorks(
      db: Db, call: Call, later: seq<Call>, userId: Uuid, password: Secret, tried: Secret, life: Lifetimes)
    requires Sets(db, call, userId, password)
    requires var after := Step(db, call, life); Admissible(after, later, life) && PasswordKept(after, later, userId, life)
    ensures var end := Run(Step(db, call, life), later, life);
      LoginSucceeds(end, userId, tried) <==> tried == password && userId in end.users && end.users[userId].isActive
  {
    RunKeepsPassword(Step(db, call, life), later, userId, password, life);
  }

  // ---------------------------------------------------------------- users that are set aside

  predicate SetAside(db: Db, userId: Uuid) {
    userId in db.users && !db.users[userId].isActive
  }

  predicate Reactivates(call: Call, userId: Uuid) {
    call.UpdateUserCall? && call.userId == userId && call.isActive == Some(true)
  }

  lemma {:induction false} RunKeepsSetAside(db: Db, calls: seq<Call>, userId: Uuid, life: Lifetimes)
    requires SetAside(db, userId) && Admissible(db, calls, life)
    requires forall call | call in calls :: !Reactivates(call, userId)
    ensures SetAside(Run(db, calls, life), userId)
    decreases |calls|
  {
    if calls != [] {
      assert calls[0] in calls && forall call | call in calls[1..] :: call in calls;
      assert SetAside(Step(db, calls[0], life), userId);
      RunKeepsSetAside(Step(db, calls[0], life), calls[1..], userId, life);
    }
  }

  /**
   * Once a user is deactivated, and until reactivated, over every run: no login, no live refresh token and no accepted
   * access token of that user.
   */
  lemma {:induction false} DeactivatedIsLockedOut(
      db: Db, call: Call, later: seq<Call>, password: Secret, token: RefreshToken, claims: Claims, now: int, life: Lifetimes)
    requires call.UpdateUserCall? && call.userId in db.users && call.isActive == Some(false)
    requires Admissible(Step(db, call, life), later, life)
    requires forall other | other in later :: !Reactivates(other, call.userId)
    ensures var end := Run(Step(db, call, life), later, life);
      && !LoginSucceeds(end, call.userId, password)
      && (Matches(end, Some(token)) && end.sessions[token.sessionId].userId == call.userId ==> !Live(end, Some(token), now))
      && (claims.userId == call.userId ==> !AcceptsClaims(end, claims, now))
  {
    RunKeepsSetAside(Step(db, call, life), later, call.userId, life);
  }
}
