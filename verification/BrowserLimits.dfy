/**
 * Where the guarantee of the browser's refresh protocol ends: which events can lead to a replay, which logouts are
 * harmless, and what happens without the lock.
 */
module BrowserLimits {
  import opened Options
  import opened AuthSessions
  import opened BrowserRefresh

  // ---------------------------------------------------------------- where the guarantee ends

  /** A safe honest run that presents a token which no longer works. */
  ghost predicate Replays(w: World, events: seq<Event>, setting: Setting) {
    HonestRun(w, events, setting) && SafeRun(w, events, setting) && !ReplayFree(w, events, setting)
  }

  lemma {:induction false} Prepend(w: World, e: Event, rest: seq<Event>, setting: Setting)
    requires Honest(w, e, setting) && Safe(w, e, setting) && Replays(Next(w, e, setting), rest, setting)
    ensures Replays(w, [e] + rest, setting)
  {
    assert ([e] + rest)[1..] == rest;
  }

  lemma {:induction false} FreshId(used: set<Uuid>) returns (id: Uuid)
    ensures forall other | other in used :: other < id
  {
    if used == {} {
      id := 0;
    } else {
      var some :| some in used;
      var below := FreshId(used - {some});
      id := if some < below then below else some + 1;
      assert used == (used - {some}) + {some};
    }
  }

  /** A refresh on its way to the server with a token that has been revoked is a replay. */
  lemma {:induction false} DeadTokenReplays(w: World, j: nat, setting: Setting) returns (e: Event)
    requires j < |w.tabs| && w.tabs[j].flight.Sent? && Matches(w.db, w.tabs[j].flight.presented)
    requires w.db.sessions[w.tabs[j].flight.presented.value.sessionId].revokedAt.Some?
    ensures e.ServeRefresh? && Replays(w, [e], setting)
  {
    var id := w.tabs[j].flight.presented.value.sessionId;
    var unused := FreshId(w.db.sessions.Keys);
    e := ServeRefresh(j, unused, 0, w.db.sessions[id].expiresAt - 1);
    assert Honest(w, e, setting) && !PresentsLive(w, e, setting);
    assert [e][1..] == [];
  }

  /**
   * The limits of safety are exact: in any state that honest and safe runs reach, an event is safe if and only if no
   * safe continuation of it replays.
   */
  lemma {:induction false} SafeIff(w: World, e: Event, setting: Setting)
    requires Inv(w, setting) && Honest(w, e, setting)
    ensures Safe(w, e, setting) <==> forall rest :: !Replays(Next(w, e, setting), rest, setting)
  {
    if Safe(w, e, setting) {
      EventKeepsInv(w, e, setting);
      forall rest ensures !Replays(Next(w, e, setting), rest, setting) {
        if HonestRun(Next(w, e, setting), rest, setting) && SafeRun(Next(w, e, setting), rest, setting) {
          RunKeepsInv(Next(w, e, setting), rest, setting);
        }
      }
    } else if e.SendRefresh? {
      var serve := SentDeadCookieReplays(w, e, setting);
    } else {
      var serve := OvertakenRefreshReplays(w, e, setting);
    }
  }

  lemma {:induction false} SentDeadCookieReplays(w: World, e: Event, setting: Setting) returns (serve: Event)
    requires Inv(w, setting) && Honest(w, e, setting) && e.SendRefresh? && !Safe(w, e, setting)
    ensures Replays(Next(w, e, setting), [serve], setting)
  {
    serve := DeadTokenReplays(Next(w, e, setting), e.tab, setting);
  }

  /** After a logout, a genuine token of a logged-out family is still genuine, and revoked. */
  lemma {:induction false} LogoutKills(
      w: World, presented: Option<RefreshToken>, now: int, token: Option<RefreshToken>, loggedOut: set<Uuid>)
    requires Matches(w.db, presented) && FamiliesFine(w) && loggedOut == w.loggedOut + Fams(w.db, presented)
    requires token.Some? && Owned(w.db, w.ours, token) && !(Fams(w.db, token) !! loggedOut)
    ensures var db := Logout(w.db, presented, now);
      Matches(db, token) && db.sessions[token.value.sessionId].revokedAt.Some?
  {
    assert w.db.sessions[token.value.sessionId].familyId in loggedOut;
  }

  lemma {:induction false} OvertakenRefreshReplays(w: World, e: Event, setting: Setting) returns (serve: Event)
    requires Inv(w, setting) && Honest(w, e, setting) && e.ServeLogout? && !Safe(w, e, setting)
    ensures Replays(Next(w, e, setting), [serve], setting)
  {
    var presented := w.tabs[e.tab].logout.presented;
    LogoutShape(w, e, setting);
    var j :| 0 <= j < |w.tabs| && w.tabs[j].flight.Sent?
      && !(Fams(w.db, w.tabs[j].flight.presented) !! Fams(w.db, presented));
    assert TabFine(w.db, w.ours, w.loggedOut, w.tabs[j]);
    LogoutKills(w, presented, e.now, w.tabs[j].flight.presented, w.loggedOut + Fams(w.db, presented));
    serve := DeadTokenReplays(Next(w, e, setting), j, setting);
  }

  // ---------------------------------------------------------------- where families can go

  /** Where the families a tab has in flight, and the cookie's, come from. */
  ghost predicate FamsMove(w: World, after: World, e: Event) {
    && |after.tabs| == |w.tabs|
    && (forall j | 0 <= j < |w.tabs| ::
          FlightFams(after.db, after.tabs[j])
          <= FlightFams(w.db, w.tabs[j]) + (if e == SendRefresh(j) then Fams(w.db, w.cookie) else {}))
    && Fams(after.db, after.cookie) <= Fams(w.db, w.cookie)
         + (if e.ReceiveRefresh? && e.tab < |w.tabs| then FlightFams(w.db, w.tabs[e.tab]) else {})
         + (if e.ReceiveLogin? && e.tab < |w.tabs| then LoginFams(w.db, w.tabs[e.tab]) else {})
  }

  lemma {:induction false} FamsStay(w: World, after: World, e: Event, touched: set<Uuid>)
    requires TabsFine(w) && CookieFine(w) && |after.tabs| == |w.tabs| && after.cookie == w.cookie
    requires Spares(w.db, after.db, w.ours, touched)
    requires forall j | 0 <= j < |w.tabs| ::
      after.tabs[j].flight == w.tabs[j].flight || FlightFams(after.db, after.tabs[j]) <= FlightFams(w.db, w.tabs[j])
    ensures FamsMove(w, after, e)
  {
    TokenSpared(w.db, after.db, w.ours, touched, w.cookie);
    forall j | 0 <= j < |w.tabs| ensures FlightFams(after.db, after.tabs[j]) <= FlightFams(w.db, w.tabs[j]) {
      assert TabFine(w.db, w.ours, w.loggedOut, w.tabs[j]);
      if after.tabs[j].flight == w.tabs[j].flight {
        if w.tabs[j].flight.Sent? {
          TokenSpared(w.db, after.db, w.ours, touched, w.tabs[j].flight.presented);
        } else if w.tabs[j].flight.Answered? && w.tabs[j].flight.outcome.Rotated? {
          TokenSpared(w.db, after.db, w.ours, touched, Some(w.tabs[j].flight.outcome.token));
        }
      }
    }
  }

  lemma {:induction false} ServeMovesFams(w: World, e: Event, setting: Setting)
    requires Inv(w, setting) && Honest(w, e, setting) && e.ServeRefresh?
    ensures FamsMove(w, Next(w, e, setting), e)
  {
    var presented := w.tabs[e.tab].flight.presented;
    assert TabFine(w.db, w.ours, w.loggedOut, w.tabs[e.tab]);
    ServeShape(w, e, setting);
    if presented.Some? {
      RotationSpares(w.db, w.ours, presented.value, e.newId, e.newSecret, e.now, setting.life);
    }
    FamsStay(w, Next(w, e, setting), e, Fams(w.db, presented));
  }

  /** What the acting tab does to its own flight and to the cookie decides, when the table stays. */
  lemma {:induction false} TabMovesFams(w: World, after: World, e: Event, tab: Tab)
    requires !e.Elsewhere? && e.tab < |w.tabs| && after.db == w.db && after.tabs == w.tabs[e.tab := tab]
    requires FlightFams(w.db, tab) <= FlightFams(w.db, w.tabs[e.tab]) + (if e.SendRefresh? then Fams(w.db, w.cookie) else {})
    requires Fams(w.db, after.cookie) <= Fams(w.db, w.cookie)
      + (if e.ReceiveRefresh? then FlightFams(w.db, w.tabs[e.tab]) else {})
      + (if e.ReceiveLogin? then LoginFams(w.db, w.tabs[e.tab]) else {})
    ensures FamsMove(w, after, e)
  {
    assert e.SendRefresh? ==> e == SendRefresh(e.tab);
  }

  lemma {:induction false} LocalMovesFams(w: World, e: Event, setting: Setting)
    requires Inv(w, setting) && Enabled(w, e, setting)
    requires e.CallRefresh? || e.SendRefresh? || e.ReceiveRefresh? || e.SendLogin? || e.RefuseLogin? || e.ReceiveLogin?
      || e.SendLogout? || e.ReceiveLogout? || (e.ServeLogout? && w.tabs[e.tab].logout.presented.None?)
    ensures FamsMove(w, Next(w, e, setting), e)
  {
    var after := Next(w, e, setting);
    TabMovesFams(w, after, e, after.tabs[e.tab]);
  }

  lemma {:induction false} EventMovesFams(w: World, e: Event, setting: Setting)
    requires Inv(w, setting) && Honest(w, e, setting)
    ensures FamsMove(w, Next(w, e, setting), e)
  {
    if e.ServeRefresh? {
      ServeMovesFams(w, e, setting);
    } else if e.Elsewhere? {
      FamsStay(w, Next(w, e, setting), e, {});
    } else if e.ServeLogin? {
      if SignsIn(w.db, e.call) {
        SignInShape(w, e, setting);
        SignInSpares(w.db, w.ours, e.call, setting.life);
      }
      FamsStay(w, Next(w, e, setting), e, {});
    } else if e.ServeLogout? && w.tabs[e.tab].logout.presented.Some? {
      assert TabFine(w.db, w.ours, w.loggedOut, w.tabs[e.tab]);
      LogoutSpares(w.db, w.ours, w.tabs[e.tab].logout.presented.value, e.now);
      LogoutShape(w, e, setting);
      FamsStay(w, Next(w, e, setting), e, Fams(w.db, w.tabs[e.tab].logout.presented));
    } else {
      LocalMovesFams(w, e, setting);
    }
  }

  // ---------------------------------------------------------------- which logouts are harmless

  ghost predicate NothingDeadInFlight(w: World) {
    forall j | 0 <= j < |w.tabs| :: FlightFams(w.db, w.tabs[j]) !! w.loggedOut
  }

  predicate LogoutFree(events: seq<Event>) {
    forall e | e in events :: !e.ServeLogout?
  }

  /** Once nothing in the browser is of a logged-out family, that stays so until the next logout. */
  lemma {:induction false} NothingDeadNeverReplays(w: World, events: seq<Event>, setting: Setting)
    requires Inv(w, setting) && NothingDeadInFlight(w) && Fams(w.db, w.cookie) !! w.loggedOut
    requires HonestRun(w, events, setting) && LogoutFree(events)
    ensures ReplayFree(w, events, setting)
    decreases |events|
  {
    if events != [] {
      var e := events[0];
      assert e in events && forall other | other in events[1..] :: other in events;
      EventMovesFams(w, e, setting);
      EventKeepsInv(w, e, setting);
      NothingDeadNeverReplays(Next(w, e, setting), events[1..], setting);
    }
  }

  /** A logout served and answered with nothing in between. */
  ghost function AfterLogout(w: World, i: nat, now: int, setting: Setting): World
    requires Enabled(w, ServeLogout(i, now), setting)
  {
    Next(Next(w, ServeLogout(i, now), setting), ReceiveLogout(i), setting)
  }

  ghost predicate Breaks(w: World, events: seq<Event>, setting: Setting) {
    HonestRun(w, events, setting) && LogoutFree(events) && !ReplayFree(w, events, setting)
  }

  lemma {:induction false} PrependBreak(w: World, e: Event, rest: seq<Event>, setting: Setting)
    requires Honest(w, e, setting) && !e.ServeLogout? && Breaks(Next(w, e, setting), rest, setting)
    ensures Breaks(w, [e] + rest, setting)
  {
    assert ([e] + rest)[1..] == rest;
  }

  /** A rotated token whose family has died meanwhile: its tab installs it, and the next refresh replays it. */
  lemma {:induction false} InstalledDeadTokenBreaks(w: World, j: nat, setting: Setting) returns (events: seq<Event>)
    requires j < |w.tabs| && w.tabs[j].flight.Answered? && w.tabs[j].flight.outcome.Rotated?
    requires Matches(w.db, Some(w.tabs[j].flight.outcome.token))
    requires w.db.sessions[w.tabs[j].flight.outcome.token.sessionId].revokedAt.Some?
    ensures Breaks(w, events, setting)
  {
    var w1 := Next(w, ReceiveRefresh(j, false), setting);
    var w2 := Next(w1, CallRefresh(j), setting);
    var w3 := Next(w2, SendRefresh(j), setting);
    var serve := DeadTokenReplays(w3, j, setting);
    events := [serve];
    PrependBreak(w2, SendRefresh(j), events, setting);
    events := [SendRefresh(j)] + events;
    PrependBreak(w1, CallRefresh(j), events, setting);
    events := [CallRefresh(j)] + events;
    PrependBreak(w, ReceiveRefresh(j, false), events, setting);
    events := [ReceiveRefresh(j, false)] + events;
  }

  ghost predicate Carried(w: World, j: nat, families: set<Uuid>)
    requires j < |w.tabs|
  {
    !(FlightFams(w.db, w.tabs[j]) !! families)
  }

  lemma {:induction false} AfterLogoutShape(w: World, i: nat, now: int, setting: Setting)
    requires Enabled(w, ServeLogout(i, now), setting) && Matches(w.db, w.tabs[i].logout.presented)
    ensures var presented := w.tabs[i].logout.presented;
      AfterLogout(w, i, now, setting) ==
        w.(db := Logout(w.db, presented, now), cookie := None, loggedOut := w.loggedOut + Fams(w.db, presented),
           tabs := w.tabs[i := w.tabs[i].(logout := NoLogout, accessToken := None)])
  {
    LogoutShape(w, ServeLogout(i, now), setting);
    var w1 := Next(w, ServeLogout(i, now), setting);
    assert w1.tabs[i := w1.tabs[i].(logout := NoLogout, accessToken := None)]
      == w.tabs[i := w.tabs[i].(logout := NoLogout, accessToken := None)];
  }

  lemma {:induction false} CarriedLogoutBreaks(w: World, i: nat, now: int, j: nat, setting: Setting)
      returns (events: seq<Event>)
    requires Inv(w, setting) && Enabled(w, ServeLogout(i, now), setting) && Matches(w.db, w.tabs[i].logout.presented)
    requires j < |w.tabs| && Carried(w, j, w.loggedOut + Fams(w.db, w.tabs[i].logout.presented))
    ensures Breaks(AfterLogout(w, i, now, setting), events, setting)
  {
    var presented, families := w.tabs[i].logout.presented, w.loggedOut + Fams(w.db, w.tabs[i].logout.presented);
    AfterLogoutShape(w, i, now, setting);
    assert TabFine(w.db, w.ours, w.loggedOut, w.tabs[j]);
    if w.tabs[j].flight.Sent? {
      LogoutKills(w, presented, now, w.tabs[j].flight.presented, families);
      var serve := DeadTokenReplays(AfterLogout(w, i, now, setting), j, setting);
      events := [serve];
    } else {
      LogoutKills(w, presented, now, Some(w.tabs[j].flight.outcome.token), families);
      events := InstalledDeadTokenBreaks(AfterLogout(w, i, now, setting), j, setting);
    }
  }

  /** After an uncarried logout nothing in the browser is of a logged-out family. */
  lemma {:induction false} UncarriedLogoutLeavesNothing(w: World, i: nat, now: int, setting: Setting)
    requires Inv(w, setting) && Enabled(w, ServeLogout(i, now), setting) && Matches(w.db, w.tabs[i].logout.presented)
    requires forall j | 0 <= j < |w.tabs| :: !Carried(w, j, w.loggedOut + Fams(w.db, w.tabs[i].logout.presented))
    ensures var w1 := Next(w, ServeLogout(i, now), setting); Inv(w1, setting) && NothingDeadInFlight(w1)
  {
    var e, families := ServeLogout(i, now), w.loggedOut + Fams(w.db, w.tabs[i].logout.presented);
    forall j | 0 <= j < |w.tabs| ensures FlightFams(w.db, w.tabs[j]) !! families {
      assert !Carried(w, j, families);
    }
    LogoutShape(w, e, setting);
    EventMovesFams(w, e, setting);
    EventKeepsInv(w, e, setting);
  }

  lemma {:induction false} UncarriedLogoutIsHarmless(w: World, i: nat, now: int, events: seq<Event>, setting: Setting)
    requires Inv(w, setting) && Enabled(w, ServeLogout(i, now), setting) && Matches(w.db, w.tabs[i].logout.presented)
    requires forall j | 0 <= j < |w.tabs| :: !Carried(w, j, w.loggedOut + Fams(w.db, w.tabs[i].logout.presented))
    requires HonestRun(AfterLogout(w, i, now, setting), events, setting) && LogoutFree(events)
    ensures ReplayFree(AfterLogout(w, i, now, setting), events, setting)
  {
    UncarriedLogoutLeavesNothing(w, i, now, setting);
    var w1 := Next(w, ServeLogout(i, now), setting);
    EventMovesFams(w1, ReceiveLogout(i), setting);
    EventKeepsInv(w1, ReceiveLogout(i), setting);
    NothingDeadNeverReplays(AfterLogout(w, i, now, setting), events, setting);
  }

  /**
   * Which logouts are harmless, exactly. In any state that honest and safe runs reach, a logout that is served and
   * answered at once is never followed by a replay, as long as nobody logs out again, if and only if no tab has a
   * refresh of the same family (or of one logged out before) in flight: neither a token on its way to the server nor
   * a rotated one on its way back.
   */
  lemma {:induction false} LogoutHarmlessIff(w: World, i: nat, now: int, setting: Setting)
    requires Inv(w, setting) && Enabled(w, ServeLogout(i, now), setting) && Matches(w.db, w.tabs[i].logout.presented)
    ensures (forall events :: !Breaks(AfterLogout(w, i, now, setting), events, setting))
       <==> forall j | 0 <= j < |w.tabs| :: !Carried(w, j, w.loggedOut + Fams(w.db, w.tabs[i].logout.presented))
  {
    var families := w.loggedOut + Fams(w.db, w.tabs[i].logout.presented);
    if j :| 0 <= j < |w.tabs| && Carried(w, j, families) {
      var events := CarriedLogoutBreaks(w, i, now, j, setting);
    } else {
      forall events ensures !Breaks(AfterLogout(w, i, now, setting), events, setting) {
        if HonestRun(AfterLogout(w, i, now, setting), events, setting) && LogoutFree(events) {
          UncarriedLogoutIsHarmless(w, i, now, events, setting);
        }
      }
    }
  }

  // ---------------------------------------------------------------- logouts that wait their turn

  /** No refresh of a family is in flight while its logout is served, and none is sent before the answer is back. */
  ghost predicate Courteous(w: World, e: Event, setting: Setting)
    requires Enabled(w, e, setting)
  {
    && (e.ServeLogout? && Matches(w.db, w.tabs[e.tab].logout.presented) ==>
          forall j | 0 <= j < |w.tabs| :: FlightFams(w.db, w.tabs[j]) !! Fams(w.db, w.tabs[e.tab].logout.presented))
    && (e.SendRefresh? ==> forall j | 0 <= j < |w.tabs| :: !w.tabs[j].logout.LogoutAnswered?)
  }

  ghost predicate CourteousRun(w: World, events: seq<Event>, setting: Setting)
    requires HonestRun(w, events, setting)
    decreases |events|
  {
    events == []
    || (Courteous(w, events[0], setting) && CourteousRun(Next(w, events[0], setting), events[1..], setting))
  }

  /** A dead cookie is about to be cleared. */
  ghost predicate DeadCookieAwaited(w: World) {
    Fams(w.db, w.cookie) !! w.loggedOut || exists j | 0 <= j < |w.tabs| :: w.tabs[j].logout.LogoutAnswered?
  }

  lemma {:induction false} AnsweredLogoutStays(w: World, e: Event, j: nat, setting: Setting)
    requires Enabled(w, e, setting) && j < |w.tabs| && w.tabs[j].logout.LogoutAnswered? && !e.ReceiveLogout?
    ensures j < |Next(w, e, setting).tabs| && Next(w, e, setting).tabs[j].logout.LogoutAnswered?
  {
  }

  lemma {:induction false} CourteousIsSafe(w: World, e: Event, setting: Setting)
    requires Inv(w, setting) && Honest(w, e, setting) && Courteous(w, e, setting) && DeadCookieAwaited(w)
    ensures Safe(w, e, setting)
  {
  }

  lemma {:induction false} CourteousKeepsFlights(w: World, e: Event, setting: Setting)
    requires Inv(w, setting) && Honest(w, e, setting) && Courteous(w, e, setting)
    requires NothingDeadInFlight(w) && DeadCookieAwaited(w)
    ensures NothingDeadInFlight(Next(w, e, setting))
  {
    EventMovesFams(w, e, setting);
    CourteousIsSafe(w, e, setting);
    var after := Next(w, e, setting);
    assert after.loggedOut <= w.loggedOut + (if e.ServeLogout? then Fams(w.db, w.tabs[e.tab].logout.presented) else {});
  }

  lemma {:induction false} CourteousKeepsAwaited(w: World, e: Event, setting: Setting)
    requires Inv(w, setting) && Honest(w, e, setting) && Courteous(w, e, setting)
    requires NothingDeadInFlight(w) && DeadCookieAwaited(w)
    ensures DeadCookieAwaited(Next(w, e, setting))
  {
    var after := Next(w, e, setting);
    if e.ServeLogout? {
      assert after.tabs[e.tab].logout.LogoutAnswered?;
    } else if e.ReceiveLogout? {
      assert after.cookie.None?;
    } else if !(Fams(w.db, w.cookie) !! w.loggedOut) {
      var j :| 0 <= j < |w.tabs| && w.tabs[j].logout.LogoutAnswered?;
      AnsweredLogoutStays(w, e, j, setting);
    } else {
      EventMovesFams(w, e, setting);
    }
  }

  lemma {:induction false} CourteousRunIsReplayFree(w: World, events: seq<Event>, setting: Setting)
    requires Inv(w, setting) && NothingDeadInFlight(w) && DeadCookieAwaited(w)
    requires HonestRun(w, events, setting) && CourteousRun(w, events, setting)
    ensures ReplayFree(w, events, setting)
    decreases |events|
  {
    if events != [] {
      CourteousIsSafe(w, events[0], setting);
      CourteousKeepsFlights(w, events[0], setting);
      CourteousKeepsAwaited(w, events[0], setting);
      EventKeepsInv(w, events[0], setting);
      CourteousRunIsReplayFree(Next(w, events[0], setting), events[1..], setting);
    }
  }

  /** Were logouts to take turns with refreshes, any number of them would do no harm. */
  lemma {:induction false} CourteousLogoutsNeverReplay(db: Db, tabs: nat, events: seq<Event>, setting: Setting)
    requires setting.locks || tabs <= 1
    requires HonestRun(Start(db, tabs), events, setting) && CourteousRun(Start(db, tabs), events, setting)
    ensures ReplayFree(Start(db, tabs), events, setting)
  {
    StartInv(db, tabs, setting);
    CourteousRunIsReplayFree(Start(db, tabs), events, setting);
  }

  // ---------------------------------------------------------------- without the lock

  /** Both tabs have sent the same live token: the second to be served replays it. */
  lemma {:induction false} BothServed(w: World, setting: Setting) returns (events: seq<Event>)
    requires |w.tabs| >= 2 && w.cookie.Some? && Live(w.db, w.cookie, 0)
    requires w.tabs[0].flight == Sent(w.cookie) && w.tabs[1].flight == Sent(w.cookie)
    ensures Replays(w, events, setting)
  {
    var unused := FreshId(w.db.sessions.Keys);
    var e1 := ServeRefresh(0, unused, 1, 0);
    var w1 := Next(w, e1, setting);
    assert w1.tabs[1].flight == Sent(w.cookie) && w1.db.sessions[w.cookie.value.sessionId].revokedAt.Some?;
    var e2 := DeadTokenReplays(w1, 1, setting);
    Prepend(w, e1, [e2], setting);
    events := [e1] + [e2];
  }

  /** Without the lock two idle tabs send the same cookie before either answer is back. */
  lemma {:induction false} BothSent(w: World, setting: Setting) returns (events: seq<Event>)
    requires !setting.locks && |w.tabs| >= 2 && w.cookie.Some? && Live(w.db, w.cookie, 0) && w.loggedOut == {}
    requires w.tabs[0].flight.Idle? && w.tabs[1].flight.Idle?
    ensures Replays(w, events, setting)
  {
    var w1 := Next(w, CallRefresh(0), setting);
    var w2 := Next(w1, CallRefresh(1), setting);
    var w3 := Next(w2, SendRefresh(0), setting);
    var w4 := Next(w3, SendRefresh(1), setting);
    events := BothServed(w4, setting);
    Prepend(w3, SendRefresh(1), events, setting);
    Prepend(w2, SendRefresh(0), [SendRefresh(1)] + events, setting);
    events := [SendRefresh(0)] + ([SendRefresh(1)] + events);
    Prepend(w1, CallRefresh(1), events, setting);
    Prepend(w, CallRefresh(0), [CallRefresh(1)] + events, setting);
    events := [CallRefresh(0)] + ([CallRefresh(1)] + events);
  }

  /** A call that registers a user in whatever table. */
  lemma {:induction false} Registers(db: Db, password: Secret, now: int) returns (call: Call)
    ensures call.RegisterCall? && call.password == password && call.now == now && Fresh(db, call)
  {
    var owners := set id | id in db.sessions :: db.sessions[id].userId;
    var families := set id | id in db.sessions :: db.sessions[id].familyId;
    var newUser := FreshId(db.users.Keys + owners);
    var newId := FreshId(db.sessions.Keys);
    var newFamily := FreshId(families);
    forall id | id in db.sessions ensures db.sessions[id].userId != newUser && db.sessions[id].familyId != newFamily {
      assert db.sessions[id].userId in owners && db.sessions[id].familyId in families;
    }
    call := RegisterCall(newUser, password, newId, newFamily, 0, now);
  }

  /** A tab registers a user: the three events, and the state with a live cookie and nothing else under way. */
  lemma {:induction false} SignUp(db: Db, tabs: nat, setting: Setting) returns (e2: Event, w3: World)
    requires tabs >= 1 && setting.life.refresh > 0
    ensures var w, e1 := Start(db, tabs), SendLogin(0, Registration(0));
      && Honest(w, e1, setting) && e2.ServeLogin? && Honest(Next(w, e1, setting), e2, setting)
      && Honest(Next(Next(w, e1, setting), e2, setting), ReceiveLogin(0), setting)
      && w3 == Next(Next(Next(w, e1, setting), e2, setting), ReceiveLogin(0), setting)
    ensures w3.cookie.Some? && Live(w3.db, w3.cookie, 0) && w3.loggedOut == {} && w3.lock.None?
    ensures |w3.tabs| == tabs && forall j | 0 <= j < tabs :: w3.tabs[j].flight.Idle? && w3.tabs[j].logout.NoLogout?
  {
    var w1 := Next(Start(db, tabs), SendLogin(0, Registration(0)), setting);
    var call := Registers(db, 0, 0);
    e2 := ServeLogin(0, call);
    SignInShape(w1, e2, setting);
    SignInSpares(db, {}, call, setting.life);
    w3 := Next(Next(w1, e2, setting), ReceiveLogin(0), setting);
  }

  lemma {:induction false} WithoutLockTwoTabsReplay(db: Db, tabs: nat, setting: Setting) returns (events: seq<Event>)
    requires !setting.locks && tabs >= 2 && setting.life.refresh > 0
    ensures Replays(Start(db, tabs), events, setting)
  {
    var w, e1 := Start(db, tabs), SendLogin(0, Registration(0));
    var e2, w3 := SignUp(db, tabs, setting);
    events := BothSent(w3, setting);
    var w1 := Next(w, e1, setting);
    Prepend(Next(w1, e2, setting), ReceiveLogin(0), events, setting);
    Prepend(w1, e2, [ReceiveLogin(0)] + events, setting);
    Prepend(w, e1, [e2] + ([ReceiveLogin(0)] + events), setting);
    events := [e1] + ([e2] + ([ReceiveLogin(0)] + events));
  }

  /**
   * Exactly when the guarantee holds over all safe runs, from any table: if the browser has locks, or only one tab is
   * open.
   */
  lemma {:induction false} NeverReplaysIff(db: Db, tabs: nat, setting: Setting)
    requires setting.life.refresh > 0
    ensures (forall events :: !Replays(Start(db, tabs), events, setting)) <==> (setting.locks || tabs <= 1)
  {
    var w := Start(db, tabs);
    if setting.locks || tabs <= 1 {
      forall events ensures !Replays(w, events, setting) {
        if HonestRun(w, events, setting) && SafeRun(w, events, setting) {
          HonestBrowserNeverReplays(db, tabs, events, setting);
        }
      }
    } else {
      var events := WithoutLockTwoTabsReplay(db, tabs, setting);
    }
  }

  // ---------------------------------------------------------------- a logout beside a refresh

  ghost predicate Unsafe(w: World, events: seq<Event>, setting: Setting) {
    HonestRun(w, events, setting) && !ReplayFree(w, events, setting)
  }

  lemma {:induction false} PrependUnsafe(w: World, e: Event, rest: seq<Event>, setting: Setting)
    requires Honest(w, e, setting) && Unsafe(Next(w, e, setting), rest, setting)
    ensures Unsafe(w, [e] + rest, setting)
  {
    assert ([e] + rest)[1..] == rest;
  }

  /** The client sends a logout without the lock, so one tab is enough to race its own refresh into a replay. */
  lemma {:induction false} LogoutRacesRefresh(db: Db, tabs: nat, setting: Setting) returns (events: seq<Event>)
    requires tabs >= 1 && setting.life.refresh > 0
    ensures Unsafe(Start(db, tabs), events, setting)
  {
    var w, e1 := Start(db, tabs), SendLogin(0, Registration(0));
    var e2, w3 := SignUp(db, tabs, setting);
    events := LogoutOvertakes(w3, setting);
    var w1 := Next(w, e1, setting);
    PrependUnsafe(Next(w1, e2, setting), ReceiveLogin(0), events, setting);
    events := [ReceiveLogin(0)] + events;
    PrependUnsafe(w1, e2, events, setting);
    events := [e2] + events;
    PrependUnsafe(w, e1, events, setting);
    events := [e1] + events;
  }

  lemma {:induction false} LogoutOvertakes(w: World, setting: Setting) returns (events: seq<Event>)
    requires |w.tabs| >= 1 && w.cookie.Some? && Live(w.db, w.cookie, 0) && w.lock.None?
    requires w.tabs[0].flight.Idle? && w.tabs[0].logout.NoLogout?
    ensures Unsafe(w, events, setting)
  {
    var w1 := Next(w, CallRefresh(0), setting);
    var w2 := Next(w1, SendRefresh(0), setting);
    var w3 := Next(w2, SendLogout(0), setting);
    var w4 := Next(w3, ServeLogout(0, 0), setting);
    LogoutSpares(w.db, Fams(w.db, w.cookie), w.cookie.value, 0);
    var serve := DeadTokenReplays(w4, 0, setting);
    events := [serve];
    PrependUnsafe(w3, ServeLogout(0, 0), events, setting);
    events := [ServeLogout(0, 0)] + events;
    PrependUnsafe(w2, SendLogout(0), events, setting);
    events := [SendLogout(0)] + events;
    PrependUnsafe(w1, SendRefresh(0), events, setting);
    events := [SendRefresh(0)] + events;
    PrependUnsafe(w, CallRefresh(0), events, setting);
    events := [CallRefresh(0)] + events;
  }
}
