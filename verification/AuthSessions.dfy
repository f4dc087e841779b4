/**
 * The session table behind rotating refresh tokens: what one service call does to it, as one atomic step, and
 * what every run of such calls keeps. Times are microseconds; token claims carry whole seconds.
 */
module AuthSessions {
  import opened Options

  type Uuid = nat
  type Secret = nat

  /** SHA-256 taken as an injective function of the secret; the table never holds the secret itself. */
  datatype Digest = Sha256(secret: Secret)

  datatype RefreshToken = RefreshToken(sessionId: Uuid, secret: Secret)

  datatype Session = Session(
    familyId: Uuid,
    userId: Uuid,
    tokenHash: Digest,
    expiresAt: int,
    revokedAt: Option<int>,
    lastUsedAt: Option<int>,
    replacedById: Option<Uuid>)

  datatype User = User(isActive: bool, password: Digest, credentialsChangedAt: int)

  datatype Db = Db(sessions: map<Uuid, Session>, users: map<Uuid, User>)

  datatype Claims = Claims(userId: Uuid, familyId: Uuid, issuedAt: int, expiresAt: int)

  /** `Rejected` and `Reused` look the same to the client; only `Reused` is the replay branch. */
  datatype Outcome = Rejected | Reused | Rotated(token: RefreshToken, claims: Claims)

  /** Settings: lifetimes of refresh tokens (microseconds) and access tokens (seconds). */
  datatype Lifetimes = Lifetimes(refresh: int, access: int)

  const SECOND := 1_000_000

  // ---------------------------------------------------------------- one call, one step

  function RevokeFamily(db: Db, familyId: Uuid, now: int): Db {
    db.(sessions := map id | id in db.sessions ::
      var s := db.sessions[id];
      if s.familyId == familyId && s.revokedAt.None? then s.(revokedAt := Some(now)) else s)
  }

  function RevokeUser(db: Db, userId: Uuid, now: int): Db {
    db.(sessions := map id | id in db.sessions ::
      var s := db.sessions[id];
      if s.userId == userId && s.revokedAt.None? then s.(revokedAt := Some(now)) else s)
  }

  /** The presented token names a session and carries its secret. `None` is an absent or unparsable cookie. */
  predicate Matches(db: Db, token: Option<RefreshToken>) {
    token.Some? && token.value.sessionId in db.sessions
    && db.sessions[token.value.sessionId].tokenHash == Sha256(token.value.secret)
  }

  function IssueClaims(userId: Uuid, familyId: Uuid, now: int, life: Lifetimes): Claims {
    Claims(userId, familyId, now / SECOND, now / SECOND + life.access)
  }

  function NewSession(
      db: Db, userId: Uuid, sessionId: Uuid, familyId: Uuid, secret: Secret, now: int, life: Lifetimes): Db
  {
    db.(sessions := db.sessions[sessionId :=
      Session(familyId, userId, Sha256(secret), now + life.refresh, None, None, None)])
  }

  /** A presented token that still works: its session is neither revoked nor expired, its user active. */
  predicate Live(db: Db, token: Option<RefreshToken>, now: int) {
    Matches(db, token)
    && var s := db.sessions[token.value.sessionId];
    s.revokedAt.None? && now < s.expiresAt && s.userId in db.users && db.users[s.userId].isActive
  }

  function Refresh(
      db: Db, token: Option<RefreshToken>, newId: Uuid, newSecret: Secret, now: int, life: Lifetimes): (Db, Outcome)
  {
    if !Matches(db, token) then
      (db, Rejected)
    else
      var id := token.value.sessionId;
      var s := db.sessions[id];
      if s.revokedAt.Some? then
        (RevokeFamily(db, s.familyId, now), Reused)
      else if !Live(db, token, now) then
        (RevokeFamily(db, s.familyId, now), Rejected)
      else
        var rotated := s.(revokedAt := Some(now), lastUsedAt := Some(now), replacedById := Some(newId));
        var replacement := Session(s.familyId, s.userId, Sha256(newSecret), now + life.refresh, None, None, None);
        (db.(sessions := db.sessions[id := rotated][newId := replacement]),
         Rotated(RefreshToken(newId, newSecret), IssueClaims(s.userId, s.familyId, now, life)))
  }

  function Logout(db: Db, token: Option<RefreshToken>, now: int): Db {
    if Matches(db, token) then RevokeFamily(db, db.sessions[token.value.sessionId].familyId, now) else db
  }

  function ChangePassword(db: Db, userId: Uuid, current: Secret, replacement: Secret, now: int): Db {
    if userId in db.users && db.users[userId].password == Sha256(current) then
      var user := db.users[userId].(password := Sha256(replacement), credentialsChangedAt := now);
      RevokeUser(db.(users := db.users[userId := user]), userId, now)
    else
      db
  }

  predicate LoginSucceeds(db: Db, userId: Uuid, password: Secret) {
    userId in db.users && db.users[userId].password == Sha256(password) && db.users[userId].isActive
  }

  /** `family_is_active`. */
  predicate FamilyIsActive(db: Db, familyId: Uuid, now: int) {
    exists id | id in db.sessions ::
      db.sessions[id].familyId == familyId && db.sessions[id].revokedAt.None? && now < db.sessions[id].expiresAt
  }

  /** The acceptance test for a genuine access token. */
  predicate AcceptsClaims(db: Db, claims: Claims, now: int) {
    && claims.issuedAt * SECOND <= now < claims.expiresAt * SECOND
    && claims.userId in db.users
    && db.users[claims.userId].isActive
    && FamilyIsActive(db, claims.familyId, now)
    && db.users[claims.userId].credentialsChangedAt / SECOND <= claims.issuedAt
  }

  datatype Call =
    | LoginCall(userId: Uuid, password: Secret, newId: Uuid, newFamily: Uuid, newSecret: Secret, now: int)
    | RegisterCall(newUser: Uuid, password: Secret, newId: Uuid, newFamily: Uuid, newSecret: Secret, now: int)
    | RefreshCall(token: Option<RefreshToken>, newId: Uuid, newSecret: Secret, now: int)
    | LogoutCall(token: Option<RefreshToken>, now: int)
    | ChangePasswordCall(userId: Uuid, current: Secret, replacement: Secret, now: int)
    | UpdateUserCall(userId: Uuid, isActive: Option<bool>, roleChanged: bool, now: int)
    | RevokeUserCall(userId: Uuid, now: int)

  function Step(db: Db, call: Call, life: Lifetimes): Db {
    match call
    case LoginCall(userId, password, newId, newFamily, newSecret, now) =>
      if LoginSucceeds(db, userId, password) then
        NewSession(db, userId, newId, newFamily, newSecret, now, life)
      else
        db
    case RegisterCall(newUser, password, newId, newFamily, newSecret, now) =>
      NewSession(db.(users := db.users[newUser := User(true, Sha256(password), now)]),
                 newUser, newId, newFamily, newSecret, now, life)
    case RefreshCall(token, newId, newSecret, now) => Refresh(db, token, newId, newSecret, now, life).0
    case LogoutCall(token, now) => Logout(db, token, now)
    case ChangePasswordCall(userId, current, replacement, now) =>
      ChangePassword(db, userId, current, replacement, now)
    case UpdateUserCall(userId, isActive, roleChanged, now) =>
      if userId !in db.users then
        db
      else
        var updated := if isActive.Some? then
          db.(users := db.users[userId := db.users[userId].(isActive := isActive.value)]) else db;
        if isActive == Some(false) || roleChanged then RevokeUser(updated, userId, now) else updated
    case RevokeUserCall(userId, now) => RevokeUser(db, userId, now)
  }

  /** Generated identifiers are new: version 4 UUIDs do not repeat. */
  predicate Fresh(db: Db, call: Call) {
    match call
    case LoginCall(_, _, newId, newFamily, _, _) => FreshSession(db, newId, newFamily)
    case RegisterCall(newUser, _, newId, newFamily, _, _) =>
      newUser !in db.users && (forall id | id in db.sessions :: db.sessions[id].userId != newUser)
      && FreshSession(db, newId, newFamily)
    case RefreshCall(_, newId, _, _) => newId !in db.sessions
    case _ => true
  }

  predicate FreshSession(db: Db, newId: Uuid, newFamily: Uuid) {
    newId !in db.sessions && forall id | id in db.sessions :: db.sessions[id].familyId != newFamily
  }

  function Run(db: Db, calls: seq<Call>, life: Lifetimes): Db
    decreases |calls|
  {
    if calls == [] then db else Run(Step(db, calls[0], life), calls[1..], life)
  }

  predicate Admissible(db: Db, calls: seq<Call>, life: Lifetimes)
    decreases |calls|
  {
    calls == [] || (Fresh(db, calls[0]) && Admissible(Step(db, calls[0], life), calls[1..], life))
  }

  // ---------------------------------------------------------------- what is never undone

  /** Rows stay, a revocation time once set is never cleared or moved, a successor once set never changes. */
  ghost predicate HistoryKept(before: Db, after: Db) {
    forall id | id in before.sessions ::
      id in after.sessions
      && var s, t := before.sessions[id], after.sessions[id];
      t.familyId == s.familyId && t.userId == s.userId && t.tokenHash == s.tokenHash && t.expiresAt == s.expiresAt
      && (s.revokedAt.Some? ==> t.revokedAt == s.revokedAt)
      && (s.replacedById.Some? ==> t.replacedById == s.replacedById)
  }

  /** A session with a successor has been revoked. */
  ghost predicate ReplacedAreRevoked(db: Db) {
    forall id | id in db.sessions :: db.sessions[id].replacedById.Some? ==> db.sessions[id].revokedAt.Some?
  }

  lemma {:induction false} StepKeepsHistory(db: Db, call: Call, life: Lifetimes)
    requires Fresh(db, call) && ReplacedAreRevoked(db)
    ensures HistoryKept(db, Step(db, call, life)) && ReplacedAreRevoked(Step(db, call, life))
  {
  }

  lemma {:induction false} RunKeepsHistory(db: Db, calls: seq<Call>, life: Lifetimes)
    requires Admissible(db, calls, life) && ReplacedAreRevoked(db)
    ensures HistoryKept(db, Run(db, calls, life)) && ReplacedAreRevoked(Run(db, calls, life))
    decreases |calls|
  {
    if calls != [] {
      StepKeepsHistory(db, calls[0], life);
      RunKeepsHistory(Step(db, calls[0], life), calls[1..], life);
    }
  }

  // ---------------------------------------------------------------- rotation chains

  /**
   * The sessions of a family, oldest first: every session of the family occurs, once; all belong to one user;
   * each but the last is revoked and names the next as its replacement; the last names none.
   */
  ghost predicate IsChain(db: Db, familyId: Uuid, chain: seq<Uuid>) {
    && |chain| > 0
    && (forall id :: id in chain <==> id in db.sessions && db.sessions[id].familyId == familyId)
    && (forall i, j | 0 <= i < j < |chain| :: chain[i] != chain[j])
    && (forall i | 0 <= i < |chain| :: db.sessions[chain[i]].userId == db.sessions[chain[0]].userId)
    && (forall i | 0 <= i < |chain| - 1 ::
          db.sessions[chain[i]].revokedAt.Some? && db.sessions[chain[i]].replacedById == Some(chain[i + 1]))
    && db.sessions[chain[|chain| - 1]].replacedById.None?
  }

  ghost predicate HasChain(db: Db, familyId: Uuid) {
    exists chain :: IsChain(db, familyId, chain)
  }

  ghost predicate RotationChains(db: Db) {
    forall id | id in db.sessions :: HasChain(db, db.sessions[id].familyId)
  }

  /** Only revocation times differ, and only by being set. */
  ghost predicate SameLinks(before: Db, after: Db) {
    before.sessions.Keys == after.sessions.Keys
    && forall id | id in before.sessions ::
      var s, t := before.sessions[id], after.sessions[id];
      t.familyId == s.familyId && t.userId == s.userId && t.replacedById == s.replacedById
      && (s.revokedAt.Some? ==> t.revokedAt.Some?)
  }

  lemma {:induction false} SameLinksSameChain(before: Db, after: Db, familyId: Uuid, chain: seq<Uuid>)
    requires SameLinks(before, after) && IsChain(before, familyId, chain)
    ensures IsChain(after, familyId, chain)
  {
    assert forall i | 0 <= i < |chain| :: chain[i] in before.sessions;
  }

  lemma {:induction false} SameLinksSameChains(before: Db, after: Db)
    requires SameLinks(before, after) && RotationChains(before)
    ensures RotationChains(after)
  {
    forall id | id in after.sessions ensures HasChain(after, after.sessions[id].familyId) {
      assert HasChain(before, before.sessions[id].familyId);
      var chain :| IsChain(before, before.sessions[id].familyId, chain);
      SameLinksSameChain(before, after, before.sessions[id].familyId, chain);
    }
  }

  lemma {:induction false} NewFamilyChains(
      db: Db, userId: Uuid, newId: Uuid, newFamily: Uuid, secret: Secret, now: int, life: Lifetimes)
    requires RotationChains(db) && FreshSession(db, newId, newFamily)
    ensures RotationChains(NewSession(db, userId, newId, newFamily, secret, now, life))
  {
    var after := NewSession(db, userId, newId, newFamily, secret, now, life);
    assert IsChain(after, newFamily, [newId]);
    forall id | id in db.sessions ensures HasChain(after, db.sessions[id].familyId) {
      var chain :| IsChain(db, db.sessions[id].familyId, chain);
      assert IsChain(after, db.sessions[id].familyId, chain);
    }
  }

  /** The only session of a chain that can be live is its last one. */
  lemma {:induction false} LiveIsLast(db: Db, familyId: Uuid, chain: seq<Uuid>, id: Uuid)
    requires IsChain(db, familyId, chain)
    requires id in db.sessions && db.sessions[id].familyId == familyId && db.sessions[id].revokedAt.None?
    ensures chain[|chain| - 1] == id
  {
    assert id in chain;
  }

  lemma {:induction false} LongerChain(before: Db, after: Db, familyId: Uuid, chain: seq<Uuid>, newId: Uuid)
    requires IsChain(before, familyId, chain) && newId !in before.sessions
    requires var tip := chain[|chain| - 1];
      after.sessions.Keys == before.sessions.Keys + {newId}
      && (forall id | id in before.sessions && id != tip :: after.sessions[id] == before.sessions[id])
      && after.sessions[tip].familyId == familyId
      && after.sessions[tip].userId == before.sessions[tip].userId
      && after.sessions[tip].revokedAt.Some? && after.sessions[tip].replacedById == Some(newId)
      && after.sessions[newId].familyId == familyId
      && after.sessions[newId].userId == before.sessions[tip].userId
      && after.sessions[newId].replacedById.None?
    ensures IsChain(after, familyId, chain + [newId])
  {
    var longer := chain + [newId];
    assert forall i | 0 <= i < |chain| :: longer[i] == chain[i];
    assert newId !in chain;
    forall id ensures id in longer <==> id in after.sessions && after.sessions[id].familyId == familyId {
      assert id in longer <==> id in chain || id == newId;
    }
  }

  /** Rotation extends the chain of its family by one and leaves the others alone. */
  lemma {:induction false} RotationExtendsChain(
      db: Db, token: Option<RefreshToken>, newId: Uuid, newSecret: Secret, now: int, life: Lifetimes)
    requires RotationChains(db) && newId !in db.sessions && Live(db, token, now)
    ensures RotationChains(Refresh(db, token, newId, newSecret, now, life).0)
  {
    var after := Refresh(db, token, newId, newSecret, now, life).0;
    var tip := token.value.sessionId;
    var familyId := db.sessions[tip].familyId;
    var chain :| IsChain(db, familyId, chain);
    LiveIsLast(db, familyId, chain, tip);
    LongerChain(db, after, familyId, chain, newId);
    forall id | id in after.sessions ensures HasChain(after, after.sessions[id].familyId) {
      if after.sessions[id].familyId != familyId {
        OtherChainsStay(db, after, familyId, after.sessions[id].familyId);
      }
    }
  }

  lemma {:induction false} OtherChainsStay(before: Db, after: Db, touched: Uuid, familyId: Uuid)
    requires touched != familyId && HasChain(before, familyId)
    requires forall id | id in before.sessions && before.sessions[id].familyId == familyId ::
      id in after.sessions && after.sessions[id] == before.sessions[id]
    requires forall id | id in after.sessions && after.sessions[id].familyId == familyId ::
      id in before.sessions && after.sessions[id] == before.sessions[id]
    ensures HasChain(after, familyId)
  {
    var chain :| IsChain(before, familyId, chain);
    assert forall i | 0 <= i < |chain| :: chain[i] in chain;
    assert IsChain(after, familyId, chain);
  }

  /** Every call that creates no session keeps the links. */
  lemma {:induction false} StepKeepsLinks(db: Db, call: Call, life: Lifetimes)
    requires !call.LoginCall? && !call.RegisterCall?
    requires call.RefreshCall? ==> !Live(db, call.token, call.now)
    ensures SameLinks(db, Step(db, call, life))
  {
  }

  lemma {:induction false} StepKeepsChains(db: Db, call: Call, life: Lifetimes)
    requires RotationChains(db) && Fresh(db, call)
    ensures RotationChains(Step(db, call, life))
  {
    if call.LoginCall? {
      NewFamilyChains(db, call.userId, call.newId, call.newFamily, call.newSecret, call.now, life);
    } else if call.RegisterCall? {
      var registered := db.(users := db.users[call.newUser := User(true, Sha256(call.password), call.now)]);
      SameLinksSameChains(db, registered);
      NewFamilyChains(registered, call.newUser, call.newId, call.newFamily, call.newSecret, call.now, life);
    } else if call.RefreshCall? && Live(db, call.token, call.now) {
      RotationExtendsChain(db, call.token, call.newId, call.newSecret, call.now, life);
    } else {
      StepKeepsLinks(db, call, life);
      SameLinksSameChains(db, Step(db, call, life));
    }
  }

  /** In every reachable state each family is one rotation chain. */
  lemma {:induction false} RunKeepsChains(db: Db, calls: seq<Call>, life: Lifetimes)
    requires RotationChains(db) && Admissible(db, calls, life)
    ensures RotationChains(Run(db, calls, life))
    decreases |calls|
  {
    if calls != [] {
      StepKeepsChains(db, calls[0], life);
      RunKeepsChains(Step(db, calls[0], life), calls[1..], life);
    }
  }

  /** What a chain means: one live session at most, one owner, no shared successor, and links that stay. */
  lemma {:induction false} ChainMeaning(db: Db, a: Uuid, b: Uuid)
    requires RotationChains(db) && a in db.sessions && b in db.sessions
    requires db.sessions[a].familyId == db.sessions[b].familyId
    ensures db.sessions[a].userId == db.sessions[b].userId
    ensures db.sessions[a].revokedAt.None? && db.sessions[b].revokedAt.None? ==> a == b
    ensures db.sessions[a].replacedById.Some? && db.sessions[a].replacedById == db.sessions[b].replacedById ==> a == b
    ensures db.sessions[a].replacedById.Some? ==>
      db.sessions[a].replacedById.value in db.sessions
      && db.sessions[db.sessions[a].replacedById.value].familyId == db.sessions[a].familyId
  {
    var chain :| IsChain(db, db.sessions[a].familyId, chain);
    assert a in chain && b in chain;
    var i :| 0 <= i < |chain| && chain[i] == a;
    var j :| 0 <= j < |chain| && chain[j] == b;
    if db.sessions[a].replacedById.Some? {
      assert i < |chain| - 1 && chain[i + 1] in chain;
      if db.sessions[a].replacedById == db.sessions[b].replacedById {
        assert j < |chain| - 1 && chain[i + 1] == chain[j + 1];
      }
    }
  }

  /** The session reached by following `n` replacement links. */
  function Follow(db: Db, id: Uuid, n: nat): Option<Uuid> {
    if n == 0 then
      Some(id)
    else
      var before := Follow(db, id, n - 1);
      if before.Some? && before.value in db.sessions then db.sessions[before.value].replacedById else None
  }

  lemma {:induction false} FollowChain(db: Db, familyId: Uuid, chain: seq<Uuid>, i: nat, n: nat)
    requires IsChain(db, familyId, chain) && i < |chain|
    ensures Follow(db, chain[i], n) == if i + n < |chain| then Some(chain[i + n]) else None
    decreases n
  {
    if n > 0 {
      FollowChain(db, familyId, chain, i, n - 1);
      if i + n - 1 < |chain| {
        assert chain[i + n - 1] in chain;
      }
    }
  }

  /** The links are acyclic: no session is its own replacement, directly or through others. */
  lemma {:induction false} LinksNeverReturn(db: Db, id: Uuid, n: nat)
    requires RotationChains(db) && id in db.sessions && n > 0
    ensures Follow(db, id, n) != Some(id)
  {
    var familyId := db.sessions[id].familyId;
    var chain :| IsChain(db, familyId, chain);
    assert id in chain;
    var i :| 0 <= i < |chain| && chain[i] == id;
    FollowChain(db, familyId, chain, i, n);
  }

  ghost predicate IsRoot(db: Db, id: Uuid) {
    id in db.sessions && forall p | p in db.sessions :: db.sessions[p].replacedById != Some(id)
  }

  lemma {:induction false} OnlyFirstIsRoot(db: Db, familyId: Uuid, chain: seq<Uuid>)
    requires RotationChains(db) && IsChain(db, familyId, chain)
    ensures IsRoot(db, chain[0])
    ensures forall k | 0 < k < |chain| :: !IsRoot(db, chain[k])
  {
    assert chain[0] in chain;
    forall p | p in db.sessions ensures db.sessions[p].replacedById != Some(chain[0]) {
      ChainMeaning(db, p, p);
      if db.sessions[p].familyId == familyId {
        assert p in chain;
        var j :| 0 <= j < |chain| && chain[j] == p;
        assert j < |chain| - 1 ==> chain[j + 1] != chain[0];
      }
    }
    forall k | 0 < k < |chain| ensures !IsRoot(db, chain[k]) {
      assert chain[k - 1] in chain && db.sessions[chain[k - 1]].replacedById == Some(chain[k]);
    }
  }

  lemma {:induction false} PlaceInChain(db: Db, familyId: Uuid, chain: seq<Uuid>, id: Uuid) returns (i: nat)
    requires IsChain(db, familyId, chain) && id in db.sessions && db.sessions[id].familyId == familyId
    ensures i < |chain| && chain[i] == id
  {
    assert id in chain;
    i :| i < |chain| && chain[i] == id;
  }

  /** A family has only one root. */
  lemma {:induction false} OneRoot(db: Db, a: Uuid, b: Uuid)
    requires RotationChains(db) && IsRoot(db, a) && IsRoot(db, b)
    requires db.sessions[a].familyId == db.sessions[b].familyId
    ensures a == b
  {
    var familyId := db.sessions[a].familyId;
    var chain :| IsChain(db, familyId, chain);
    OnlyFirstIsRoot(db, familyId, chain);
    var i := PlaceInChain(db, familyId, chain, a);
    var j := PlaceInChain(db, familyId, chain, b);
  }

  /** Every session is reached from a root of its family by following replacements. */
  lemma {:induction false} ReachedFromRoot(db: Db, id: Uuid)
    requires RotationChains(db) && id in db.sessions
    ensures exists root, steps: nat ::
      Follow(db, root, steps) == Some(id) && IsRoot(db, root) && db.sessions[root].familyId == db.sessions[id].familyId
  {
    var familyId := db.sessions[id].familyId;
    var chain :| IsChain(db, familyId, chain);
    OnlyFirstIsRoot(db, familyId, chain);
    var i := PlaceInChain(db, familyId, chain, id);
    FollowChain(db, familyId, chain, 0, i);
    assert chain[0] in chain;
    assert Follow(db, chain[0], i) == Some(id) && IsRoot(db, chain[0]);
  }

  // ---------------------------------------------------------------- dead families

  /** The family exists and every session of it is revoked. */
  ghost predicate FamilyDead(db: Db, familyId: Uuid) {
    (exists id :: id in db.sessions && db.sessions[id].familyId == familyId)
    && forall id | id in db.sessions && db.sessions[id].familyId == familyId :: db.sessions[id].revokedAt.Some?
  }

  lemma {:induction false} StepKeepsDead(db: Db, call: Call, life: Lifetimes, familyId: Uuid)
    requires FamilyDead(db, familyId) && Fresh(db, call)
    ensures FamilyDead(Step(db, call, life), familyId)
  {
    var id :| id in db.sessions && db.sessions[id].familyId == familyId;
    assert id in Step(db, call, life).sessions && Step(db, call, life).sessions[id].familyId == familyId;
  }

  lemma {:induction false} DeadStaysDead(db: Db, calls: seq<Call>, life: Lifetimes, familyId: Uuid)
    requires FamilyDead(db, familyId) && Admissible(db, calls, life)
    ensures FamilyDead(Run(db, calls, life), familyId)
    decreases |calls|
  {
    if calls != [] {
      StepKeepsDead(db, calls[0], life, familyId);
      DeadStaysDead(Step(db, calls[0], life), calls[1..], life, familyId);
    }
  }

  /** In a dead family no refresh succeeds and no access token is accepted, at any time. */
  lemma {:induction false} DeadFamilyIsUseless(
      db: Db, familyId: Uuid, token: Option<RefreshToken>, newId: Uuid, newSecret: Secret, claims: Claims, now: int,
      life: Lifetimes)
    requires FamilyDead(db, familyId)
    ensures claims.familyId == familyId ==> !AcceptsClaims(db, claims, now)
    ensures Matches(db, token) && db.sessions[token.value.sessionId].familyId == familyId ==>
      Refresh(db, token, newId, newSecret, now, life).1 == Reused
  {
  }

  ghost predicate OwnsFamily(db: Db, userId: Uuid, familyId: Uuid) {
    exists id :: id in db.sessions && db.sessions[id].familyId == familyId && db.sessions[id].userId == userId
  }

  /** The calls that put an end to a family. */
  ghost predicate Kills(db: Db, call: Call, familyId: Uuid) {
    match call
    case RefreshCall(token, _, _, now) =>
      Matches(db, token) && db.sessions[token.value.sessionId].familyId == familyId && !Live(db, token, now)
    case LogoutCall(token, _) => Matches(db, token) && db.sessions[token.value.sessionId].familyId == familyId
    case ChangePasswordCall(userId, current, _, _) =>
      userId in db.users && db.users[userId].password == Sha256(current) && OwnsFamily(db, userId, familyId)
    case UpdateUserCall(userId, isActive, roleChanged, _) =>
      userId in db.users && (isActive == Some(false) || roleChanged) && OwnsFamily(db, userId, familyId)
    case RevokeUserCall(userId, _) => OwnsFamily(db, userId, familyId)
    case _ => false
  }

  lemma {:induction false} RevokedFamilyIsDead(db: Db, familyId: Uuid, now: int, id: Uuid)
    requires id in db.sessions && db.sessions[id].familyId == familyId
    ensures FamilyDead(RevokeFamily(db, familyId, now), familyId)
  {
    assert RevokeFamily(db, familyId, now).sessions[id].familyId == familyId;
  }

  lemma {:induction false} RevokedUserSessions(db: Db, userId: Uuid, familyId: Uuid, now: int, id: Uuid)
    requires RotationChains(db)
    requires id in db.sessions && db.sessions[id].familyId == familyId && db.sessions[id].userId == userId
    ensures FamilyDead(RevokeUser(db, userId, now), familyId)
  {
    var after := RevokeUser(db, userId, now);
    assert after.sessions[id].familyId == familyId;
    forall other | other in db.sessions && db.sessions[other].familyId == familyId
      ensures after.sessions[other].revokedAt.Some?
    {
      ChainMeaning(db, id, other);
    }
  }

  lemma {:induction false} RevokedUserFamilyIsDead(db: Db, userId: Uuid, familyId: Uuid, now: int)
    requires RotationChains(db) && OwnsFamily(db, userId, familyId)
    ensures FamilyDead(RevokeUser(db, userId, now), familyId)
  {
    var id :| id in db.sessions && db.sessions[id].familyId == familyId && db.sessions[id].userId == userId;
    RevokedUserSessions(db, userId, familyId, now, id);
  }

  /** Nothing about sessions depends on what is stored about users. */
  lemma {:induction false} OtherUsersSameChains(db: Db, users: map<Uuid, User>, userId: Uuid, familyId: Uuid)
    requires RotationChains(db) && OwnsFamily(db, userId, familyId)
    ensures RotationChains(db.(users := users)) && OwnsFamily(db.(users := users), userId, familyId)
  {
    SameLinksSameChains(db, db.(users := users));
  }

  lemma {:induction false} KilledIsDead(db: Db, call: Call, life: Lifetimes, familyId: Uuid)
    requires RotationChains(db) && Kills(db, call, familyId)
    ensures FamilyDead(Step(db, call, life), familyId)
  {
    match call
    case RefreshCall(token, _, _, now) => RevokedFamilyIsDead(db, familyId, now, token.value.sessionId);
    case LogoutCall(token, now) => RevokedFamilyIsDead(db, familyId, now, token.value.sessionId);
    case ChangePasswordCall(userId, current, replacement, now) =>
      var users := db.users[userId := db.users[userId].(password := Sha256(replacement), credentialsChangedAt := now)];
      OtherUsersSameChains(db, users, userId, familyId);
      RevokedUserFamilyIsDead(db.(users := users), userId, familyId, now);
    case UpdateUserCall(userId, isActive, roleChanged, now) =>
      var users := if isActive.Some? then db.users[userId := db.users[userId].(isActive := isActive.value)] else db.users;
      OtherUsersSameChains(db, users, userId, familyId);
      RevokedUserFamilyIsDead(db.(users := users), userId, familyId, now);
    case RevokeUserCall(userId, now) => RevokedUserFamilyIsDead(db, userId, familyId, now);
  }

  /**
   * A refresh with a token that no longer works, a logout, a password change, a deactivation, a change of role and a
   * revocation end the affected families for good: over every later run, nothing revives them, no token of theirs
   * refreshes and no access token is accepted.
   */
  lemma {:induction false} KilledFamilyStaysUseless(
      db: Db, call: Call, later: seq<Call>, familyId: Uuid, token: Option<RefreshToken>, newId: Uuid,
      newSecret: Secret, claims: Claims, now: int, life: Lifetimes)
    requires RotationChains(db) && Kills(db, call, familyId)
    requires Fresh(db, call) && Admissible(Step(db, call, life), later, life)
    ensures var end := Run(Step(db, call, life), later, life);
      FamilyDead(end, familyId)
      && (claims.familyId == familyId ==> !AcceptsClaims(end, claims, now))
      && (Matches(end, token) && end.sessions[token.value.sessionId].familyId == familyId ==>
            Refresh(end, token, newId, newSecret, now, life).1 == Reused)
  {
    KilledIsDead(db, call, life, familyId);
    DeadStaysDead(Step(db, call, life), later, life, familyId);
    var end := Run(Step(db, call, life), later, life);
    DeadFamilyIsUseless(end, familyId, token, newId, newSecret, claims, now, life);
  }

  // ---------------------------------------------------------------- a token works once

  function Successes(db: Db, calls: seq<Call>, life: Lifetimes, token: RefreshToken): nat
    decreases |calls|
  {
    if calls == [] then
      0
    else
      var call := calls[0];
      var here := if call.RefreshCall? && call.token == Some(token)
        && Refresh(db, call.token, call.newId, call.newSecret, call.now, life).1.Rotated? then 1 else 0;
      here + Successes(Step(db, call, life), calls[1..], life, token)
  }

  lemma {:induction false} RevokedNeverSucceeds(db: Db, calls: seq<Call>, life: Lifetimes, token: RefreshToken)
    requires Admissible(db, calls, life)
    requires token.sessionId in db.sessions && db.sessions[token.sessionId].revokedAt.Some?
    ensures Successes(db, calls, life, token) == 0
    decreases |calls|
  {
    if calls != [] {
      assert Step(db, calls[0], life).sessions[token.sessionId].revokedAt.Some?;
      RevokedNeverSucceeds(Step(db, calls[0], life), calls[1..], life, token);
    }
  }

  /** Of any number of refreshes presenting one token, at most one succeeds. */
  lemma {:induction false} TokenWorksOnce(db: Db, calls: seq<Call>, life: Lifetimes, token: RefreshToken)
    requires Admissible(db, calls, life)
    ensures Successes(db, calls, life, token) <= 1
    decreases |calls|
  {
    if calls != [] {
      var call, after := calls[0], Step(db, calls[0], life);
      if call.RefreshCall? && call.token == Some(token)
        && Refresh(db, call.token, call.newId, call.newSecret, call.now, life).1.Rotated?
      {
        RevokedNeverSucceeds(after, calls[1..], life, token);
      } else {
        TokenWorksOnce(after, calls[1..], life, token);
      }
    }
  }

  /** A refresh succeeds exactly for a live token, and what it returns is live in turn. */
  lemma {:induction false} RotatedIffLive(
      db: Db, token: Option<RefreshToken>, newId: Uuid, newSecret: Secret, now: int, life: Lifetimes)
    requires newId !in db.sessions && life.refresh > 0
    ensures var r := Refresh(db, token, newId, newSecret, now, life);
      (r.1.Rotated? <==> Live(db, token, now))
      && (r.1.Rotated? ==> Live(r.0, Some(r.1.token), now))
      && (r.1.Rotated? ==> !Live(r.0, token, now))
      && (r.1.Rotated? ==> FamilyIsActive(r.0, r.1.claims.familyId, now))
  {
    var r := Refresh(db, token, newId, newSecret, now, life);
    if r.1.Rotated? {
      assert r.0.sessions[newId].revokedAt.None?;
    }
  }
}
