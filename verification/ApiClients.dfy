/** The API client of one tab in its imperative form: module variables, single-flight refresh, listeners. */
module ApiClients {
  import opened Options
  import opened AuthSessions
  import opened BrowserRefresh

  /** The module variables of the API client. `heard` holds, for each listener, the sessions it has been told of. */
  class ApiClient {
    var accessToken: Option<Claims>
    var refreshPromise: Flight
    var login: LoginFlight
    var logout: LogoutFlight
    var heard: map<nat, seq<Option<Claims>>>

    constructor ()
      ensures View() == NEW_TAB && heard == map[]
    {
      accessToken, refreshPromise, login, logout, heard := None, Idle, NoLogin, NoLogout, map[];
    }

    function View(): Tab
      reads this
    {
      Tab(accessToken, refreshPromise, login, logout)
    }

    /** The token is replaced and every listener is told, once. */
    method PublishSession(session: Option<Claims>)
      modifies this`accessToken, this`heard
      ensures accessToken == session
      ensures heard.Keys == old(heard).Keys && forall l | l in heard :: heard[l] == old(heard)[l] + [session]
    {
      accessToken := session;
      var todo := heard.Keys;
      while exists l: nat :: l in todo
        invariant accessToken == session && todo <= heard.Keys == old(heard).Keys
        invariant forall l | l in heard :: heard[l] == if l in todo then old(heard)[l] else old(heard)[l] + [session]
        decreases todo
      {
        var l: nat :| l in todo;
        heard := heard[l := heard[l] + [session]];
        todo := todo - {l};
      }
    }

    /** `refreshSession`: a pending refresh is joined, never doubled. */
    method RefreshSession() returns (started: bool)
      modifies this`refreshPromise
      ensures View() == CallRefreshTab(old(View()))
      ensures started <==> old(refreshPromise).Idle?
    {
      started := false;
      if refreshPromise.Idle? {
        refreshPromise := Queued;
        started := true;
      }
    }

    /**
     * The end of `performRefresh`: publish what the server answered, then clear the promise. On an error other than a
     * rejection nothing is published.
     */
    method FinishRefresh(failed: bool)
      requires refreshPromise.Answered?
      modifies this`accessToken, this`refreshPromise, this`heard
      ensures !failed ==> View() == ReceiveRefreshTab(old(View()))
      ensures refreshPromise == Idle
      ensures accessToken ==
        if failed then old(accessToken)
        else if old(refreshPromise).outcome.Rotated? then Some(old(refreshPromise).outcome.claims)
        else None
      ensures !failed ==> heard.Keys == old(heard).Keys && forall l | l in heard ::
        heard[l] == old(heard)[l] + [accessToken]
      ensures failed ==> View() == old(View()).(flight := Idle) && heard == old(heard)
    {
      if !failed {
        if refreshPromise.outcome.Rotated? {
          PublishSession(Some(refreshPromise.outcome.claims));
        } else {
          PublishSession(None);
        }
      }
      refreshPromise := Idle;
    }

    /** The end of `logoutSession`, whatever the answer. */
    method FinishLogout()
      requires logout.LogoutAnswered?
      modifies this`accessToken, this`logout, this`heard
      ensures View() == old(View()).(accessToken := None, logout := NoLogout)
      ensures heard.Keys == old(heard).Keys && forall l | l in heard :: heard[l] == old(heard)[l] + [None]
    {
      PublishSession(None);
      logout := NoLogout;
    }
  }
}
