/**
 * The browser side: tabs that share one cookie jar and refresh through a single-flight `refreshSession` under a
 * browser lock, against a session table that others use too. Sending a request, serving it and receiving its answer
 * are separate steps, for refreshes, sign-ins and logouts alike, and the steps of all tabs interleave freely.
 */
module BrowserRefresh {
  import opened Options
  import opened AuthSessions

  /** How far the refresh behind `refreshPromise` has come; `Idle` is a null promise. */
  datatype Flight =
    | Idle
    | Queued
    | Sent(presented: Option<RefreshToken>)
    | Answered(presented: Option<RefreshToken>, outcome: Outcome)

  /** A login, or the registration of a new user. */
  datatype SignIn = Existing(userId: Uuid, password: Secret) | Registration(password: Secret)

  datatype LoginFlight =
    | NoLogin
    | LoginSent(request: SignIn)
    | LoginAnswered(token: RefreshToken, claims: Claims)
    | LoginRefused

  datatype LogoutFlight =
    | NoLogout
    | LogoutSent(presented: Option<RefreshToken>)
    | LogoutAnswered

  datatype Tab = Tab(accessToken: Option<Claims>, flight: Flight, login: LoginFlight, logout: LogoutFlight)

  /**
   * The table, the browser, and two pieces of history: the families this browser's sign-ins created, and those of
   * which the server has served a logout.
   */
  datatype World = World(
    db: Db,
    cookie: Option<RefreshToken>,
    lock: Option<nat>,
    tabs: seq<Tab>,
    ours: set<Uuid>,
    loggedOut: set<Uuid>)

  /** Whether the browser has `navigator.locks`, and the token lifetimes. */
  datatype Setting = Setting(locks: bool, life: Lifetimes)

  datatype Event =
    | CallRefresh(tab: nat)
    | SendRefresh(tab: nat)
    | ServeRefresh(tab: nat, newId: Uuid, newSecret: Secret, now: int)
    | ReceiveRefresh(tab: nat, clearsCookie: bool)
    | SendLogin(tab: nat, request: SignIn)
    | ServeLogin(tab: nat, call: Call)
    | RefuseLogin(tab: nat)
    | ReceiveLogin(tab: nat)
    | SendLogout(tab: nat)
    | ServeLogout(tab: nat, now: int)
    | ReceiveLogout(tab: nat)
    | Elsewhere(table: Db)

  const NEW_TAB := Tab(None, Idle, NoLogin, NoLogout)

  function Start(db: Db, tabs: nat): World {
    World(db, None, None, seq(tabs, i => NEW_TAB), {}, {})
  }

  predicate InFlight(tab: Tab) {
    tab.flight.Sent? || tab.flight.Answered?
  }

  /**
   * The families in `ours` stay as they are, except those in `touched`, which keep their owners and token hashes.
   * Who owns one of them stays active. Whatever belongs to other families and users is free.
   */
  ghost predicate Spares(db: Db, after: Db, ours: set<Uuid>, touched: set<Uuid>) {
    && (forall id | id in db.sessions && db.sessions[id].familyId in ours ::
          id in after.sessions && SameOwner(db.sessions[id], after.sessions[id])
          && (db.sessions[id].familyId !in touched ==> after.sessions[id] == db.sessions[id]))
    && (forall id | id in after.sessions && after.sessions[id].familyId in ours ::
          id in db.sessions || after.sessions[id].familyId in touched)
    && (forall id | id in after.sessions && id in db.sessions ::
          after.sessions[id].familyId == db.sessions[id].familyId)
    && (forall id | id in db.sessions && db.sessions[id].familyId in ours ::
          Active(db, db.sessions[id].userId) ==> Active(after, db.sessions[id].userId))
  }

  predicate Active(db: Db, userId: Uuid) {
    userId in db.users && db.users[userId].isActive
  }

  /** The call that a sign-in request leads to. */
  predicate Asks(request: SignIn, call: Call) {
    match request
    case Existing(userId, password) => call.LoginCall? && call.userId == userId && call.password == password
    case Registration(password) => call.RegisterCall? && call.password == password
  }

  predicate SignsIn(db: Db, call: Call) {
    call.RegisterCall? || (call.LoginCall? && LoginSucceeds(db, call.userId, call.password))
  }

  function SignedInUser(call: Call): Uuid
    requires call.LoginCall? || call.RegisterCall?
  {
    if call.LoginCall? then call.userId else call.newUser
  }

  predicate SameOwner(s: Session, t: Session) {
    t.familyId == s.familyId && t.userId == s.userId && t.tokenHash == s.tokenHash
  }

  /** When an event can happen. Others may change the table in any way that leaves this browser's families alone. */
  ghost predicate Enabled(w: World, e: Event, setting: Setting) {
    if e.Elsewhere? then
      Spares(w.db, e.table, w.ours, {}) && w.db.sessions.Keys <= e.table.sessions.Keys
    else
      e.tab < |w.tabs|
      && var tab := w.tabs[e.tab];
      match e
      case SendRefresh(_) => tab.flight.Queued? && (setting.locks ==> w.lock.None?)
      case ServeRefresh(_, newId, _, _) => tab.flight.Sent? && newId !in w.db.sessions
      case ReceiveRefresh(_, _) => tab.flight.Answered?
      case SendLogin(_, _) => tab.login.NoLogin?
      case ServeLogin(_, call) =>
        tab.login.LoginSent? && Asks(tab.login.request, call) && Fresh(w.db, call) && call.newFamily !in w.ours
      case RefuseLogin(_) => tab.login.LoginSent?
      case ReceiveLogin(_) => tab.login.LoginAnswered? || tab.login.LoginRefused?
      case SendLogout(_) => tab.logout.NoLogout?
      case ServeLogout(_, _) => tab.logout.LogoutSent?
      case ReceiveLogout(_) => tab.logout.LogoutAnswered?
      case _ => true
  }

  /** A second call while a refresh is pending joins it. */
  function CallRefreshTab(tab: Tab): Tab {
    if tab.flight.Idle? then tab.(flight := Queued) else tab
  }

  /** The answer is published to the tab and the promise is cleared. */
  function ReceiveRefreshTab(tab: Tab): Tab
    requires tab.flight.Answered?
  {
    tab.(flight := Idle,
         accessToken := if tab.flight.outcome.Rotated? then Some(tab.flight.outcome.claims) else None)
  }

  /** The family of a token's session, if the table has the session. */
  function Fams(db: Db, token: Option<RefreshToken>): set<Uuid> {
    if token.Some? && token.value.sessionId in db.sessions then {db.sessions[token.value.sessionId].familyId} else {}
  }

  ghost function Next(w: World, e: Event, setting: Setting): World
    requires Enabled(w, e, setting)
  {
    if e.Elsewhere? then w.(db := e.table) else TabNext(w, e, setting)
  }

  ghost function TabNext(w: World, e: Event, setting: Setting): World
    requires Enabled(w, e, setting) && !e.Elsewhere?
  {
    var i := e.tab;
    var tab := w.tabs[i];
    match e
    case CallRefresh(_) => w.(tabs := w.tabs[i := CallRefreshTab(tab)])
    case SendRefresh(_) =>
      w.(tabs := w.tabs[i := tab.(flight := Sent(w.cookie))], lock := if setting.locks then Some(i) else None)
    case ServeRefresh(_, newId, newSecret, now) =>
      var (db, outcome) := Refresh(w.db, tab.flight.presented, newId, newSecret, now, setting.life);
      w.(db := db, tabs := w.tabs[i := tab.(flight := Answered(tab.flight.presented, outcome))])
    case ReceiveRefresh(_, clearsCookie) =>
      var cookie := if tab.flight.outcome.Rotated? then Some(tab.flight.outcome.token)
                    else if clearsCookie then None else w.cookie;
      w.(cookie := cookie, lock := None, tabs := w.tabs[i := ReceiveRefreshTab(tab)])
    case SendLogin(_, request) => w.(tabs := w.tabs[i := tab.(login := LoginSent(request))])
    case ServeLogin(_, call) =>
      if SignsIn(w.db, call) then
        var claims := IssueClaims(SignedInUser(call), call.newFamily, call.now, setting.life);
        w.(db := Step(w.db, call, setting.life), ours := w.ours + {call.newFamily},
           tabs := w.tabs[i := tab.(login := LoginAnswered(RefreshToken(call.newId, call.newSecret), claims))])
      else
        w.(tabs := w.tabs[i := tab.(login := LoginRefused)])
    case RefuseLogin(_) => w.(tabs := w.tabs[i := tab.(login := LoginRefused)])
    case ReceiveLogin(_) =>
      if tab.login.LoginAnswered? then
        w.(cookie := Some(tab.login.token),
           tabs := w.tabs[i := tab.(login := NoLogin, accessToken := Some(tab.login.claims))])
      else
        w.(tabs := w.tabs[i := tab.(login := NoLogin)])
    case SendLogout(_) => w.(tabs := w.tabs[i := tab.(logout := LogoutSent(w.cookie))])
    case ServeLogout(_, now) =>
      w.(db := Logout(w.db, tab.logout.presented, now),
         loggedOut := w.loggedOut + (if Matches(w.db, tab.logout.presented) then Fams(w.db, tab.logout.presented) else {}),
         tabs := w.tabs[i := tab.(logout := LogoutAnswered)])
    case ReceiveLogout(_) =>
      w.(cookie := None, tabs := w.tabs[i := tab.(logout := NoLogout, accessToken := None)])
  }

  /** The tokens in play are presented before their session expires. */
  ghost predicate Honest(w: World, e: Event, setting: Setting) {
    Enabled(w, e, setting)
    && (e.ServeRefresh? ==>
          var presented := w.tabs[e.tab].flight.presented;
          Matches(w.db, presented) ==> e.now < w.db.sessions[presented.value.sessionId].expiresAt)
  }

  /**
   * A logout does not overtake a refresh: it is not served while a refresh of the same family is on its way to the
   * server, and no refresh is sent with a cookie whose logout the server has already served.
   */
  ghost predicate Safe(w: World, e: Event, setting: Setting)
    requires Enabled(w, e, setting)
  {
    && (e.ServeLogout? && Matches(w.db, w.tabs[e.tab].logout.presented) ==>
          forall j | 0 <= j < |w.tabs| && w.tabs[j].flight.Sent? ::
            Fams(w.db, w.tabs[j].flight.presented) !! Fams(w.db, w.tabs[e.tab].logout.presented))
    && (e.SendRefresh? ==> Fams(w.db, w.cookie) !! w.loggedOut)
  }

  ghost predicate HonestRun(w: World, events: seq<Event>, setting: Setting)
    decreases |events|
  {
    events == []
    || (Honest(w, events[0], setting) && HonestRun(Next(w, events[0], setting), events[1..], setting))
  }

  ghost predicate SafeRun(w: World, events: seq<Event>, setting: Setting)
    requires HonestRun(w, events, setting)
    decreases |events|
  {
    events == []
    || (Safe(w, events[0], setting) && SafeRun(Next(w, events[0], setting), events[1..], setting))
  }

  /** What a refresh presents when it reaches the server: no cookie at all, or a token that works. */
  ghost predicate PresentsLive(w: World, e: Event, setting: Setting)
    requires Enabled(w, e, setting) && e.ServeRefresh?
  {
    var presented := w.tabs[e.tab].flight.presented;
    presented.None? || Live(w.db, presented, e.now)
  }

  /** Along the whole run, every refresh presents a live token or none, so the replay branch is never taken. */
  ghost predicate ReplayFree(w: World, events: seq<Event>, setting: Setting)
    requires HonestRun(w, events, setting)
    decreases |events|
  {
    events == []
    || ((events[0].ServeRefresh? ==> PresentsLive(w, events[0], setting))
        && ReplayFree(Next(w, events[0], setting), events[1..], setting))
  }

  ghost function RunEvents(w: World, events: seq<Event>, setting: Setting): World
    requires HonestRun(w, events, setting)
    decreases |events|
  {
    if events == [] then w else RunEvents(Next(w, events[0], setting), events[1..], setting)
  }

  // ---------------------------------------------------------------- the invariant

  /** The token works as far as the table is concerned: not revoked, its user active. */
  predicate Usable(db: Db, token: RefreshToken) {
    Matches(db, Some(token))
    && var s := db.sessions[token.sessionId];
    s.revokedAt.None? && Active(db, s.userId)
  }

  /** A genuine token of one of this browser's families. */
  predicate Owned(db: Db, ours: set<Uuid>, token: Option<RefreshToken>) {
    token.Some? ==> Matches(db, token) && db.sessions[token.value.sessionId].familyId in ours
  }

  /** The token works, or its family has been logged out. */
  predicate Good(db: Db, loggedOut: set<Uuid>, token: RefreshToken) {
    Usable(db, token) || !(Fams(db, Some(token)) !! loggedOut)
  }

  /** The families of a refresh token a tab has sent, or is about to receive. */
  function FlightFams(db: Db, tab: Tab): set<Uuid> {
    match tab.flight
    case Sent(presented) => Fams(db, presented)
    case Answered(_, outcome) => if outcome.Rotated? then Fams(db, Some(outcome.token)) else {}
    case _ => {}
  }

  /** The family of a login answer on its way to the tab. */
  function LoginFams(db: Db, tab: Tab): set<Uuid> {
    if tab.login.LoginAnswered? then Fams(db, Some(tab.login.token)) else {}
  }

  function LogoutFams(db: Db, tab: Tab): set<Uuid> {
    if tab.logout.LogoutSent? then Fams(db, tab.logout.presented) else {}
  }

  ghost predicate FlightFine(db: Db, ours: set<Uuid>, loggedOut: set<Uuid>, tab: Tab) {
    match tab.flight
    case Sent(presented) => Owned(db, ours, presented) && (presented.Some? ==> Usable(db, presented.value))
    case Answered(presented, outcome) =>
      !outcome.Reused? && (outcome.Rejected? ==> presented.None?)
      && (outcome.Rotated? ==> Owned(db, ours, Some(outcome.token)) && Good(db, loggedOut, outcome.token))
    case _ => true
  }

  ghost predicate TabFine(db: Db, ours: set<Uuid>, loggedOut: set<Uuid>, tab: Tab) {
    && FlightFine(db, ours, loggedOut, tab)
    && (tab.login.LoginAnswered? ==>
          Owned(db, ours, Some(tab.login.token)) && Usable(db, tab.login.token))
    && (tab.logout.LogoutSent? ==> Owned(db, ours, tab.logout.presented))
  }

  ghost predicate TabsFine(w: World) {
    forall i | 0 <= i < |w.tabs| :: TabFine(w.db, w.ours, w.loggedOut, w.tabs[i])
  }

  /** At most one refresh is between sending and receiving; with locks, by the holder of the lock. */
  ghost predicate Exclusive(w: World, setting: Setting) {
    && (setting.locks || |w.tabs| <= 1)
    && (forall i | 0 <= i < |w.tabs| :: InFlight(w.tabs[i]) && setting.locks ==> w.lock == Some(i))
  }

  /** The cookie is stale only while the refresh that rotated it is on its way back, or after a logout. */
  ghost predicate CookieFine(w: World) {
    Owned(w.db, w.ours, w.cookie)
    && (w.cookie.Some? ==>
          Good(w.db, w.loggedOut, w.cookie.value)
          || exists i | 0 <= i < |w.tabs| :: RotatedCookie(w.cookie, w.tabs[i]))
  }

  predicate RotatedCookie(cookie: Option<RefreshToken>, tab: Tab) {
    tab.flight.Answered? && tab.flight.outcome.Rotated? && tab.flight.presented == cookie
  }

  /** A login answer on its way is of a family that nothing else in the browser knows yet. */
  ghost predicate LoginsApart(w: World) {
    && (forall i | 0 <= i < |w.tabs| :: LoginFams(w.db, w.tabs[i]) !! Fams(w.db, w.cookie) + w.loggedOut)
    && (forall i, j | 0 <= i < |w.tabs| && 0 <= j < |w.tabs| ::
          LoginFams(w.db, w.tabs[i]) !! FlightFams(w.db, w.tabs[j]) + LogoutFams(w.db, w.tabs[j]))
    && (forall i, j | 0 <= i < j < |w.tabs| :: LoginFams(w.db, w.tabs[i]) !! LoginFams(w.db, w.tabs[j]))
  }

  ghost predicate FamilyAlive(db: Db, familyId: Uuid) {
    exists id | id in db.sessions :: db.sessions[id].familyId == familyId && db.sessions[id].revokedAt.None?
  }

  /** Of this browser's families exactly those that were logged out are dead. */
  ghost predicate FamiliesFine(w: World) {
    && w.loggedOut <= w.ours
    && (forall f | f in w.ours && f !in w.loggedOut :: FamilyAlive(w.db, f))
    && (forall id | id in w.db.sessions && w.db.sessions[id].familyId in w.loggedOut ::
      w.db.sessions[id].revokedAt.Some?)
  }

  ghost predicate Inv(w: World, setting: Setting) {
    Exclusive(w, setting) && CookieFine(w) && TabsFine(w) && LoginsApart(w) && FamiliesFine(w)
  }

  // ---------------------------------------------------------------- a change to the table

  /** What an untouched token, and one that is only still genuine, keep. */
  lemma {:induction false} TokenSpared(
      db: Db, after: Db, ours: set<Uuid>, touched: set<Uuid>, token: Option<RefreshToken>)
    requires Spares(db, after, ours, touched) && Owned(db, ours, token)
    ensures Owned(after, ours, token) && Fams(after, token) == Fams(db, token)
    ensures token.Some? && Usable(db, token.value) && Fams(db, token) !! touched ==> Usable(after, token.value)
  {
  }

  lemma {:induction false} TabSpared(w: World, after: World, touched: set<Uuid>, tab: Tab)
    requires Spares(w.db, after.db, w.ours, touched) && w.ours <= after.ours && w.loggedOut <= after.loggedOut
    requires TabFine(w.db, w.ours, w.loggedOut, tab)
    requires LoginFams(w.db, tab) !! touched
    requires tab.flight.Sent? ==> FlightFams(w.db, tab) !! touched
    requires tab.flight.Answered? ==> FlightFams(w.db, tab) * touched <= after.loggedOut
    ensures TabFine(after.db, after.ours, after.loggedOut, tab) && SameFams(w.db, after.db, tab)
  {
    if tab.flight.Sent? {
      TokenSpared(w.db, after.db, w.ours, touched, tab.flight.presented);
    } else if tab.flight.Answered? && tab.flight.outcome.Rotated? {
      TokenSpared(w.db, after.db, w.ours, touched, Some(tab.flight.outcome.token));
    }
    if tab.login.LoginAnswered? {
      TokenSpared(w.db, after.db, w.ours, touched, Some(tab.login.token));
    }
    if tab.logout.LogoutSent? {
      TokenSpared(w.db, after.db, w.ours, touched, tab.logout.presented);
    }
  }

  ghost predicate SameFams(db: Db, after: Db, tab: Tab) {
    && FlightFams(after, tab) == FlightFams(db, tab)
    && LoginFams(after, tab) == LoginFams(db, tab)
    && LogoutFams(after, tab) == LogoutFams(db, tab)
  }

  /** Everything the acting tab brings into play that was not in play elsewhere. */
  function Known(w: World, i: nat): set<Uuid> {
    Fams(w.db, w.cookie) + w.loggedOut
    + (if i < |w.tabs| then FlightFams(w.db, w.tabs[i]) + LogoutFams(w.db, w.tabs[i]) else {})
  }

  /** An event brings no login answer closer to anything else, unless it serves or receives one. */
  lemma {:induction false} ApartKept(w: World, after: World, i: nat)
    requires LoginsApart(w) && |after.tabs| == |w.tabs|
    requires Fams(after.db, after.cookie) + after.loggedOut <= Known(w, i)
    requires forall j | 0 <= j < |w.tabs| :: LoginFams(after.db, after.tabs[j]) <= LoginFams(w.db, w.tabs[j])
    requires forall j | 0 <= j < |w.tabs| && j != i :: SameFams(w.db, after.db, w.tabs[j]) && after.tabs[j] == w.tabs[j]
    requires i < |w.tabs| ==> FlightFams(after.db, after.tabs[i]) + LogoutFams(after.db, after.tabs[i]) <= Known(w, i)
    ensures LoginsApart(after)
  {
    forall j | 0 <= j < |w.tabs| ensures LoginFams(after.db, after.tabs[j]) !! Known(w, i) {
      assert LoginFams(w.db, w.tabs[j]) !! Fams(w.db, w.cookie) + w.loggedOut;
    }
    forall j, k | 0 <= j < |w.tabs| && 0 <= k < |w.tabs|
      ensures LoginFams(after.db, after.tabs[j]) !! FlightFams(after.db, after.tabs[k]) + LogoutFams(after.db, after.tabs[k])
    {
      if k != i {
        assert LoginFams(w.db, w.tabs[j]) !! FlightFams(w.db, w.tabs[k]) + LogoutFams(w.db, w.tabs[k]);
      }
    }
    forall j, k | 0 <= j < k < |w.tabs| ensures LoginFams(after.db, after.tabs[j]) !! LoginFams(after.db, after.tabs[k]) {
      assert LoginFams(w.db, w.tabs[j]) !! LoginFams(w.db, w.tabs[k]);
    }
  }

  // ---------------------------------------------------------------- events that leave the table alone

  lemma {:induction false} TabStepKeepsInv(w: World, after: World, i: nat, tab: Tab, setting: Setting)
    requires Inv(w, setting) && i < |w.tabs|
    requires after == w.(cookie := after.cookie, tabs := w.tabs[i := tab]) && (after.cookie == w.cookie || after.cookie.None?)
    requires tab.flight == w.tabs[i].flight || (!InFlight(w.tabs[i]) && !InFlight(tab))
    requires TabFine(w.db, w.ours, w.loggedOut, tab)
    requires LoginFams(w.db, tab) <= LoginFams(w.db, w.tabs[i])
    requires LogoutFams(w.db, tab) <= LogoutFams(w.db, w.tabs[i]) + Fams(w.db, w.cookie)
    ensures Inv(after, setting)
  {
    if w.cookie.Some? && after.cookie == w.cookie && !Good(w.db, w.loggedOut, w.cookie.value) {
      var j :| 0 <= j < |w.tabs| && RotatedCookie(w.cookie, w.tabs[j]);
      assert RotatedCookie(after.cookie, after.tabs[j]);
    }
    ApartKept(w, after, i);
  }

  /** With nothing in flight a cookie works, or has been logged out. */
  lemma {:induction false} QuietCookie(w: World)
    requires CookieFine(w) && w.cookie.Some? && forall j | 0 <= j < |w.tabs| :: !InFlight(w.tabs[j])
    ensures Good(w.db, w.loggedOut, w.cookie.value)
  {
  }

  lemma {:induction false} SendKeepsInv(w: World, e: Event, setting: Setting)
    requires Inv(w, setting) && Honest(w, e, setting) && Safe(w, e, setting) && e.SendRefresh?
    ensures Inv(Next(w, e, setting), setting)
  {
    var after := Next(w, e, setting);
    assert forall j | 0 <= j < |w.tabs| :: !InFlight(w.tabs[j]);
    if w.cookie.Some? {
      QuietCookie(w);
    }
    assert TabFine(w.db, w.ours, w.loggedOut, after.tabs[e.tab]) by {
      assert TabFine(w.db, w.ours, w.loggedOut, w.tabs[e.tab]);
    }
    ApartKept(w, after, e.tab);
  }

  lemma {:induction false} ReceiveKeepsInv(w: World, e: Event, setting: Setting)
    requires Inv(w, setting) && Honest(w, e, setting) && e.ReceiveRefresh?
    ensures Inv(Next(w, e, setting), setting)
  {
    var after := Next(w, e, setting);
    assert TabFine(w.db, w.ours, w.loggedOut, w.tabs[e.tab]);
    assert forall j | 0 <= j < |w.tabs| && j != e.tab :: !InFlight(w.tabs[j]);
    assert forall j | 0 <= j < |w.tabs| :: !InFlight(after.tabs[j]);
    ApartKept(w, after, e.tab);
    if w.cookie.Some? && !Good(w.db, w.loggedOut, w.cookie.value) {
      var j :| 0 <= j < |w.tabs| && RotatedCookie(w.cookie, w.tabs[j]);
      assert j == e.tab;
    }
  }

  /** The cookie becomes the token of the login, which nothing else in the browser has. */
  lemma {:induction false} ReceiveLoginKeepsInv(w: World, e: Event, setting: Setting)
    requires Inv(w, setting) && Honest(w, e, setting) && e.ReceiveLogin? && w.tabs[e.tab].login.LoginAnswered?
    ensures Inv(Next(w, e, setting), setting)
  {
    var after, i := Next(w, e, setting), e.tab;
    assert TabFine(w.db, w.ours, w.loggedOut, w.tabs[i]);
    assert LoginFams(w.db, after.tabs[i]) == {};
    assert Fams(w.db, after.cookie) == LoginFams(w.db, w.tabs[i]);
    assert FlightFams(w.db, after.tabs[i]) == FlightFams(w.db, w.tabs[i]);
    assert LogoutFams(w.db, after.tabs[i]) == LogoutFams(w.db, w.tabs[i]);
  }

  // ---------------------------------------------------------------- events that change the table

  lemma {:induction false} FamiliesSpared(w: World, after: World, touched: set<Uuid>)
    requires FamiliesFine(w) && Spares(w.db, after.db, w.ours, touched) && w.ours <= after.ours
    requires w.loggedOut <= after.loggedOut <= after.ours && after.loggedOut <= w.loggedOut + touched
    requires forall f | f in after.ours && f !in after.loggedOut && (f in touched || f !in w.ours) ::
      FamilyAlive(after.db, f)
    requires forall id | id in after.db.sessions && after.db.sessions[id].familyId in touched * after.loggedOut ::
      after.db.sessions[id].revokedAt.Some?
    ensures FamiliesFine(after)
  {
    forall f | f in after.ours && f !in after.loggedOut ensures FamilyAlive(after.db, f) {
      if f in w.ours && f !in touched {
        assert FamilyAlive(w.db, f);
        var id :| id in w.db.sessions && w.db.sessions[id].familyId == f && w.db.sessions[id].revokedAt.None?;
        assert after.db.sessions[id] == w.db.sessions[id];
      }
    }
  }

  /** A cookie stays fine when no refresh moves, and families only die when they are logged out. */
  lemma {:induction false} CookieKept(w: World, after: World, touched: set<Uuid>)
    requires CookieFine(w) && Spares(w.db, after.db, w.ours, touched) && after.cookie == w.cookie
    requires w.ours <= after.ours && w.loggedOut + touched <= after.loggedOut && |after.tabs| == |w.tabs|
    requires forall j | 0 <= j < |w.tabs| :: after.tabs[j].flight == w.tabs[j].flight
    ensures CookieFine(after) && Fams(after.db, after.cookie) == Fams(w.db, w.cookie)
  {
    TokenSpared(w.db, after.db, w.ours, touched, w.cookie);
    if w.cookie.Some? && !Good(w.db, w.loggedOut, w.cookie.value) {
      var j :| 0 <= j < |w.tabs| && RotatedCookie(w.cookie, w.tabs[j]);
      assert RotatedCookie(after.cookie, after.tabs[j]);
    }
  }

  lemma {:induction false} RotationSpares(
      db: Db, ours: set<Uuid>, token: RefreshToken, newId: Uuid, newSecret: Secret, now: int, life: Lifetimes)
    requires Usable(db, token) && now < db.sessions[token.sessionId].expiresAt && newId !in db.sessions
    ensures var r := Refresh(db, Some(token), newId, newSecret, now, life);
      && r.1.Rotated? && Usable(r.0, r.1.token) && Matches(r.0, Some(r.1.token))
      && Fams(r.0, Some(r.1.token)) == Fams(db, Some(token))
      && Spares(db, r.0, ours, Fams(db, Some(token)))
      && (forall other | Usable(db, other) && other.sessionId != token.sessionId :: Usable(r.0, other))
  {
  }

  lemma {:induction false} ServeShape(w: World, e: Event, setting: Setting)
    requires Enabled(w, e, setting) && e.ServeRefresh?
    ensures var after, presented := Next(w, e, setting), w.tabs[e.tab].flight.presented;
      var r := Refresh(w.db, presented, e.newId, e.newSecret, e.now, setting.life);
      after == w.(db := r.0, tabs := w.tabs[e.tab := w.tabs[e.tab].(flight := Answered(presented, r.1))])
  {
  }

  /** What a served refresh leaves: the token's family touched, one tab answered, and the cookie perhaps rotated. */
  lemma {:induction false} RotationKeepsInv(
      w: World, db: Db, i: nat, token: RefreshToken, outcome: Outcome, setting: Setting)
    requires Inv(w, setting) && i < |w.tabs| && w.tabs[i].flight == Sent(Some(token)) && outcome.Rotated?
    requires Usable(db, outcome.token) && Fams(db, Some(outcome.token)) == Fams(w.db, Some(token))
    requires Spares(w.db, db, w.ours, Fams(w.db, Some(token)))
    requires forall other | Usable(w.db, other) && other.sessionId != token.sessionId :: Usable(db, other)
    ensures Inv(w.(db := db, tabs := w.tabs[i := w.tabs[i].(flight := Answered(Some(token), outcome))]), setting)
  {
    var after := w.(db := db, tabs := w.tabs[i := w.tabs[i].(flight := Answered(Some(token), outcome))]);
    var touched := Fams(w.db, Some(token));
    assert TabFine(w.db, w.ours, w.loggedOut, w.tabs[i]);
    assert touched !! w.loggedOut;
    forall j | 0 <= j < |w.tabs| && j != i
      ensures TabFine(db, w.ours, w.loggedOut, w.tabs[j]) && SameFams(w.db, db, w.tabs[j])
    {
      assert LoginFams(w.db, w.tabs[j]) !! FlightFams(w.db, w.tabs[i]);
      assert !InFlight(w.tabs[j]);
      TabSpared(w, after, touched, w.tabs[j]);
    }
    ActingTabSpared(w, after, touched, i);
    TokenSpared(w.db, db, w.ours, touched, w.cookie);
    ApartKept(w, after, i);
    RotatedFamilies(w, after, touched, outcome.token);
    if w.cookie.Some? {
      assert forall j | 0 <= j < |w.tabs| :: !RotatedCookie(w.cookie, w.tabs[j]);
      if w.cookie.value.sessionId == token.sessionId {
        assert RotatedCookie(after.cookie, after.tabs[i]);
      }
    }
  }

  lemma {:induction false} RotatedFamilies(w: World, after: World, touched: set<Uuid>, token: RefreshToken)
    requires FamiliesFine(w) && Spares(w.db, after.db, w.ours, touched)
    requires after.ours == w.ours && after.loggedOut == w.loggedOut && touched !! w.loggedOut
    requires Usable(after.db, token) && Fams(after.db, Some(token)) == touched
    ensures FamiliesFine(after)
  {
    assert forall f | f in touched :: FamilyAlive(after.db, f);
    FamiliesSpared(w, after, touched);
  }

  /** The login and logout of the tab whose refresh was served. */
  lemma {:induction false} ActingTabSpared(w: World, after: World, touched: set<Uuid>, i: nat)
    requires i < |w.tabs| == |after.tabs| && TabsFine(w) && LoginsApart(w)
    requires Spares(w.db, after.db, w.ours, touched) && w.ours == after.ours
    requires touched == FlightFams(w.db, w.tabs[i])
    requires after.tabs[i] == w.tabs[i].(flight := after.tabs[i].flight)
    requires FlightFine(after.db, after.ours, after.loggedOut, after.tabs[i])
    ensures TabFine(after.db, after.ours, after.loggedOut, after.tabs[i])
    ensures LoginFams(after.db, after.tabs[i]) == LoginFams(w.db, w.tabs[i])
    ensures LogoutFams(after.db, after.tabs[i]) == LogoutFams(w.db, w.tabs[i])
  {
    assert TabFine(w.db, w.ours, w.loggedOut, w.tabs[i]);
    assert LoginFams(w.db, w.tabs[i]) !! FlightFams(w.db, w.tabs[i]);
    if w.tabs[i].login.LoginAnswered? {
      TokenSpared(w.db, after.db, w.ours, touched, Some(w.tabs[i].login.token));
    }
    if w.tabs[i].logout.LogoutSent? {
      TokenSpared(w.db, after.db, w.ours, touched, w.tabs[i].logout.presented);
    }
  }

  /** A refresh without a cookie is rejected and changes nothing. */
  lemma {:induction false} RejectionKeepsInv(w: World, i: nat, setting: Setting)
    requires Inv(w, setting) && i < |w.tabs| && w.tabs[i].flight == Sent(None)
    ensures Inv(w.(tabs := w.tabs[i := w.tabs[i].(flight := Answered(None, Rejected))]), setting)
  {
    var after := w.(tabs := w.tabs[i := w.tabs[i].(flight := Answered(None, Rejected))]);
    assert TabFine(w.db, w.ours, w.loggedOut, w.tabs[i]);
    assert forall j | 0 <= j < |w.tabs| && j != i :: !InFlight(w.tabs[j]);
    ApartKept(w, after, i);
  }

  lemma {:induction false} ServeKeepsInv(w: World, e: Event, setting: Setting)
    requires Inv(w, setting) && Honest(w, e, setting) && e.ServeRefresh?
    ensures Inv(Next(w, e, setting), setting) && PresentsLive(w, e, setting)
  {
    var presented := w.tabs[e.tab].flight.presented;
    assert TabFine(w.db, w.ours, w.loggedOut, w.tabs[e.tab]);
    ServeShape(w, e, setting);
    if presented.Some? {
      var r := Refresh(w.db, presented, e.newId, e.newSecret, e.now, setting.life);
      RotationSpares(w.db, w.ours, presented.value, e.newId, e.newSecret, e.now, setting.life);
      RotationKeepsInv(w, r.0, e.tab, presented.value, r.1, setting);
    } else {
      RejectionKeepsInv(w, e.tab, setting);
    }
  }

  lemma {:induction false} SignInSpares(db: Db, ours: set<Uuid>, call: Call, life: Lifetimes)
    requires Fresh(db, call) && SignsIn(db, call) && call.newFamily !in ours
    ensures var after, token := Step(db, call, life), RefreshToken(call.newId, call.newSecret);
      Spares(db, after, ours, {}) && Usable(after, token) && Fams(after, Some(token)) == {call.newFamily}
      && FamilyAlive(after, call.newFamily)
  {
    var after := Step(db, call, life);
    assert call.newId in after.sessions && after.sessions[call.newId].revokedAt.None?;
  }

  lemma {:induction false} SignInShape(w: World, e: Event, setting: Setting)
    requires Enabled(w, e, setting) && e.ServeLogin? && SignsIn(w.db, e.call)
    ensures var token := RefreshToken(e.call.newId, e.call.newSecret);
      var claims := IssueClaims(SignedInUser(e.call), e.call.newFamily, e.call.now, setting.life);
      Next(w, e, setting) ==
        w.(db := Step(w.db, e.call, setting.life), ours := w.ours + {e.call.newFamily},
           tabs := w.tabs[e.tab := w.tabs[e.tab].(login := LoginAnswered(token, claims))])
  {
  }

  /** A sign-in adds a living family that the browser did not have. */
  lemma {:induction false} SignInKeepsInv(
      w: World, i: nat, db: Db, newFamily: Uuid, token: RefreshToken, claims: Claims, setting: Setting)
    requires Inv(w, setting) && i < |w.tabs| && newFamily !in w.ours && Spares(w.db, db, w.ours, {})
    requires Usable(db, token) && Fams(db, Some(token)) == {newFamily} && FamilyAlive(db, newFamily)
    ensures Inv(w.(db := db, ours := w.ours + {newFamily},
                   tabs := w.tabs[i := w.tabs[i].(login := LoginAnswered(token, claims))]), setting)
  {
    var after := w.(db := db, ours := w.ours + {newFamily},
                    tabs := w.tabs[i := w.tabs[i].(login := LoginAnswered(token, claims))]);
    forall j | 0 <= j < |w.tabs|
      ensures TabFine(db, after.ours, w.loggedOut, w.tabs[j]) && SameFams(w.db, db, w.tabs[j])
    {
      assert TabFine(w.db, w.ours, w.loggedOut, w.tabs[j]);
      TabSpared(w, after, {}, w.tabs[j]);
    }
    CookieKept(w, after, {});
    FamiliesSpared(w, after, {});
    NewLoginApart(w, after, i, newFamily);
  }

  lemma {:induction false} ServeLoginKeepsInv(w: World, e: Event, setting: Setting)
    requires Inv(w, setting) && Honest(w, e, setting) && e.ServeLogin? && SignsIn(w.db, e.call)
    ensures Inv(Next(w, e, setting), setting)
  {
    SignInShape(w, e, setting);
    SignInSpares(w.db, w.ours, e.call, setting.life);
    var claims := IssueClaims(SignedInUser(e.call), e.call.newFamily, e.call.now, setting.life);
    SignInKeepsInv(w, e.tab, Step(w.db, e.call, setting.life), e.call.newFamily,
                   RefreshToken(e.call.newId, e.call.newSecret), claims, setting);
  }

  /** Nothing the browser has is of a family it did not know. */
  lemma {:induction false} FamsAreOurs(w: World, j: nat)
    requires TabsFine(w) && CookieFine(w) && j < |w.tabs|
    ensures FlightFams(w.db, w.tabs[j]) + LogoutFams(w.db, w.tabs[j]) + LoginFams(w.db, w.tabs[j]) <= w.ours
    ensures Fams(w.db, w.cookie) <= w.ours
  {
    assert TabFine(w.db, w.ours, w.loggedOut, w.tabs[j]);
  }

  lemma {:induction false} NewLoginApart(w: World, after: World, i: nat, newFamily: Uuid)
    requires i < |w.tabs| == |after.tabs| && LoginsApart(w) && TabsFine(w) && CookieFine(w) && w.loggedOut <= w.ours
    requires newFamily !in w.ours && after.loggedOut == w.loggedOut && Fams(after.db, after.cookie) == Fams(w.db, w.cookie)
    requires forall j | 0 <= j < |w.tabs| && j != i :: SameFams(w.db, after.db, w.tabs[j]) && after.tabs[j] == w.tabs[j]
    requires FlightFams(after.db, after.tabs[i]) == FlightFams(w.db, w.tabs[i])
    requires LogoutFams(after.db, after.tabs[i]) == LogoutFams(w.db, w.tabs[i])
    requires LoginFams(after.db, after.tabs[i]) <= {newFamily}
    ensures LoginsApart(after)
  {
    forall j | 0 <= j < |w.tabs|
      ensures newFamily !in FlightFams(w.db, w.tabs[j]) + LogoutFams(w.db, w.tabs[j]) + LoginFams(w.db, w.tabs[j])
    {
      FamsAreOurs(w, j);
    }
    FamsAreOurs(w, i);
  }

  lemma {:induction false} LogoutSpares(db: Db, ours: set<Uuid>, token: RefreshToken, now: int)
    requires Matches(db, Some(token))
    ensures Spares(db, Logout(db, Some(token), now), ours, Fams(db, Some(token)))
    ensures var after := Logout(db, Some(token), now);
      forall id | id in after.sessions && after.sessions[id].familyId in Fams(db, Some(token)) ::
        after.sessions[id].revokedAt.Some?
  {
  }

  lemma {:induction false} LogoutShape(w: World, e: Event, setting: Setting)
    requires Enabled(w, e, setting) && e.ServeLogout? && Matches(w.db, w.tabs[e.tab].logout.presented)
    ensures var presented := w.tabs[e.tab].logout.presented;
      Next(w, e, setting) ==
      w.(db := Logout(w.db, presented, e.now), loggedOut := w.loggedOut + Fams(w.db, presented),
         tabs := w.tabs[e.tab := w.tabs[e.tab].(logout := LogoutAnswered)])
  {
  }

  /** The tabs after a logout of families that no refresh is presenting. */
  lemma {:induction false} LogoutSparesTabs(w: World, after: World, touched: set<Uuid>)
    requires TabsFine(w) && Spares(w.db, after.db, w.ours, touched) && after.ours == w.ours
    requires after.loggedOut == w.loggedOut + touched
    requires forall j | 0 <= j < |w.tabs| :: LoginFams(w.db, w.tabs[j]) !! touched
    requires forall j | 0 <= j < |w.tabs| && w.tabs[j].flight.Sent? :: FlightFams(w.db, w.tabs[j]) !! touched
    ensures forall j | 0 <= j < |w.tabs| ::
      TabFine(after.db, after.ours, after.loggedOut, w.tabs[j]) && SameFams(w.db, after.db, w.tabs[j])
  {
    forall j | 0 <= j < |w.tabs|
      ensures TabFine(after.db, after.ours, after.loggedOut, w.tabs[j]) && SameFams(w.db, after.db, w.tabs[j])
    {
      TabSpared(w, after, touched, w.tabs[j]);
    }
  }

  lemma {:induction false} LogoutKeepsInv(w: World, i: nat, db: Db, touched: set<Uuid>, setting: Setting)
    requires Inv(w, setting) && i < |w.tabs| && Spares(w.db, db, w.ours, touched)
    requires touched <= LogoutFams(w.db, w.tabs[i])
    requires forall j | 0 <= j < |w.tabs| && w.tabs[j].flight.Sent? :: FlightFams(w.db, w.tabs[j]) !! touched
    requires forall id | id in db.sessions && db.sessions[id].familyId in touched :: db.sessions[id].revokedAt.Some?
    ensures Inv(w.(db := db, loggedOut := w.loggedOut + touched,
                   tabs := w.tabs[i := w.tabs[i].(logout := LogoutAnswered)]), setting)
  {
    var after := w.(db := db, loggedOut := w.loggedOut + touched,
                    tabs := w.tabs[i := w.tabs[i].(logout := LogoutAnswered)]);
    forall j | 0 <= j < |w.tabs| ensures LoginFams(w.db, w.tabs[j]) !! touched {
      assert LoginFams(w.db, w.tabs[j]) !! LogoutFams(w.db, w.tabs[i]);
    }
    FamsAreOurs(w, i);
    LogoutSparesTabs(w, after, touched);
    CookieKept(w, after, touched);
    ApartKept(w, after, i);
    FamiliesSpared(w, after, touched);
  }

  lemma {:induction false} ServeLogoutKeepsInv(w: World, e: Event, setting: Setting)
    requires Inv(w, setting) && Honest(w, e, setting) && Safe(w, e, setting)
    requires e.ServeLogout? && w.tabs[e.tab].logout.presented.Some?
    ensures Inv(Next(w, e, setting), setting)
  {
    var presented := w.tabs[e.tab].logout.presented;
    assert TabFine(w.db, w.ours, w.loggedOut, w.tabs[e.tab]);
    LogoutSpares(w.db, w.ours, presented.value, e.now);
    LogoutShape(w, e, setting);
    LogoutKeepsInv(w, e.tab, Logout(w.db, presented, e.now), Fams(w.db, presented), setting);
  }

  lemma {:induction false} ElsewhereKeepsInv(w: World, table: Db, setting: Setting)
    requires Inv(w, setting) && Spares(w.db, table, w.ours, {})
    ensures Inv(w.(db := table), setting)
  {
    var after := w.(db := table);
    forall j | 0 <= j < |w.tabs| ensures TabFine(table, w.ours, w.loggedOut, w.tabs[j]) && SameFams(w.db, table, w.tabs[j]) {
      TabSpared(w, after, {}, w.tabs[j]);
    }
    CookieKept(w, after, {});
    ApartKept(w, after, |w.tabs|);
    FamiliesSpared(w, after, {});
  }

  // ---------------------------------------------------------------- every event, every run

  lemma {:induction false} LocalEventKeepsInv(w: World, e: Event, setting: Setting)
    requires Inv(w, setting) && Honest(w, e, setting)
    requires e.CallRefresh? || e.SendLogin? || e.RefuseLogin? || e.SendLogout? || e.ReceiveLogout?
      || (e.ReceiveLogin? && w.tabs[e.tab].login.LoginRefused?)
      || (e.ServeLogin? && !SignsIn(w.db, e.call))
      || (e.ServeLogout? && w.tabs[e.tab].logout.presented.None?)
    ensures Inv(Next(w, e, setting), setting)
  {
    var after := Next(w, e, setting);
    assert TabFine(w.db, w.ours, w.loggedOut, w.tabs[e.tab]);
    TabStepKeepsInv(w, after, e.tab, after.tabs[e.tab], setting);
  }

  lemma {:induction false} EventKeepsInv(w: World, e: Event, setting: Setting)
    requires Inv(w, setting) && Honest(w, e, setting) && Safe(w, e, setting)
    ensures Inv(Next(w, e, setting), setting)
    ensures e.ServeRefresh? ==> PresentsLive(w, e, setting)
  {
    if e.Elsewhere? {
      ElsewhereKeepsInv(w, e.table, setting);
    } else if e.SendRefresh? {
      SendKeepsInv(w, e, setting);
    } else if e.ServeRefresh? {
      ServeKeepsInv(w, e, setting);
    } else if e.ReceiveRefresh? {
      ReceiveKeepsInv(w, e, setting);
    } else if e.ServeLogin? && SignsIn(w.db, e.call) {
      ServeLoginKeepsInv(w, e, setting);
    } else if e.ReceiveLogin? && w.tabs[e.tab].login.LoginAnswered? {
      ReceiveLoginKeepsInv(w, e, setting);
    } else if e.ServeLogout? && w.tabs[e.tab].logout.presented.Some? {
      ServeLogoutKeepsInv(w, e, setting);
    } else {
      LocalEventKeepsInv(w, e, setting);
    }
  }

  lemma {:induction false} RunKeepsInv(w: World, events: seq<Event>, setting: Setting)
    requires Inv(w, setting) && HonestRun(w, events, setting) && SafeRun(w, events, setting)
    ensures Inv(RunEvents(w, events, setting), setting) && ReplayFree(w, events, setting)
    decreases |events|
  {
    if events != [] {
      EventKeepsInv(w, events[0], setting);
      RunKeepsInv(Next(w, events[0], setting), events[1..], setting);
    }
  }

  lemma {:induction false} StartInv(db: Db, tabs: nat, setting: Setting)
    requires setting.locks || tabs <= 1
    ensures Inv(Start(db, tabs), setting)
  {
  }

  /**
   * Honest browsers never trip replay detection: on any session table, shared with anybody, for any number of tabs
   * under the browser lock (or a single tab without it), in every interleaving of calls, sign-ins, refreshes and
   * logouts that do not overtake a refresh, each refresh presents a live token or no cookie at all, and of the families
   * that this browser's sign-ins created only those it logged out ever die.
   */
  lemma {:induction false} HonestBrowserNeverReplays(db: Db, tabs: nat, events: seq<Event>, setting: Setting)
    requires setting.locks || tabs <= 1
    requires HonestRun(Start(db, tabs), events, setting) && SafeRun(Start(db, tabs), events, setting)
    ensures ReplayFree(Start(db, tabs), events, setting)
    ensures var w := RunEvents(Start(db, tabs), events, setting);
      forall f | f in w.ours && f !in w.loggedOut :: FamilyAlive(w.db, f)
  {
    StartInv(db, tabs, setting);
    RunKeepsInv(Start(db, tabs), events, setting);
  }

  /** The user has a session in one of this browser's families. */
  ghost predicate OwnsOurs(w: World, userId: Uuid) {
    exists id | id in w.db.sessions :: w.db.sessions[id].familyId in w.ours && w.db.sessions[id].userId == userId
  }

  lemma {:induction false} UserCallSpares(db: Db, ours: set<Uuid>, call: Call, life: Lifetimes)
    requires call.ChangePasswordCall? || call.UpdateUserCall? || call.RevokeUserCall?
    requires forall id | id in db.sessions && db.sessions[id].familyId in ours :: db.sessions[id].userId != call.userId
    ensures Spares(db, Step(db, call, life), ours, {}) && Step(db, call, life).sessions.Keys == db.sessions.Keys
  {
  }

  lemma {:induction false} TokenCallSpares(db: Db, ours: set<Uuid>, call: Call, life: Lifetimes)
    requires Fresh(db, call) && (call.RefreshCall? || call.LogoutCall?) && Fams(db, call.token) !! ours
    ensures Spares(db, Step(db, call, life), ours, {}) && db.sessions.Keys <= Step(db, call, life).sessions.Keys
  {
  }

  /** Any call of another client that names neither this browser's families nor their owners is an event of this kind. */
  lemma {:induction false} OtherCallsAreElsewhere(w: World, call: Call, setting: Setting)
    requires Fresh(w.db, call)
    requires call.LoginCall? || call.RegisterCall? ==> call.newFamily !in w.ours
    requires call.RefreshCall? || call.LogoutCall? ==> Fams(w.db, call.token) !! w.ours
    requires call.ChangePasswordCall? || call.UpdateUserCall? || call.RevokeUserCall? ==> !OwnsOurs(w, call.userId)
    ensures Enabled(w, Elsewhere(Step(w.db, call, setting.life)), setting)
  {
    if call.ChangePasswordCall? || call.UpdateUserCall? || call.RevokeUserCall? {
      UserCallSpares(w.db, w.ours, call, setting.life);
    } else if call.RefreshCall? || call.LogoutCall? {
      TokenCallSpares(w.db, w.ours, call, setting.life);
    } else if SignsIn(w.db, call) {
      SignInSpares(w.db, w.ours, call, setting.life);
    }
  }
}
