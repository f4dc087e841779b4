/** What every feature column says about the window, in its own words: sizes of sets of events, sums of bytes, yes or no. */
module EventColumns {
  import opened EventFeatures
  import opened Options
  import opened Texts
  import opened Totals

  // ---------------------------------------------------------------- counting

  lemma {:induction false} CountIsSize(window: seq<Event>, p: Event -> bool)
    ensures Count(window, p) == |set i | 0 <= i < |window| && p(window[i])|
    decreases |window|
  {
    var all := set i | 0 <= i < |window| && p(window[i]);
    if window == [] {
      assert all == {};
    } else {
      var front, n := window[..|window| - 1], |window| - 1;
      CountIsSize(front, p);
      var before := set i | 0 <= i < |front| && p(front[i]);
      assert forall i :: i in all <==> i in before || (i == n && p(window[n]));
      assert all == if p(window[n]) then before + {n} else before;
    }
  }

  lemma {:induction false} SameTotal(window: seq<Event>, f: Event -> int, g: Event -> int)
    requires forall e: Event :: f(e) == g(e)
    ensures Total(window, f) == Total(window, g)
    decreases |window|
  {
    if window != [] {
      SameTotal(window[..|window| - 1], f, g);
    }
  }

  // ---------------------------------------------------------------- the columns

  /** The counts of events of one type or category. */
  ghost predicate TypeColumns(f: Features, event: Event, window: seq<Event>) {
    && f.eventTypeCount == |set i | 0 <= i < |window| && window[i].eventType == event.eventType|
    && f.categoryCount == |set i | 0 <= i < |window| && window[i].category == event.category|
    && f.loginFailureCount == |set i | 0 <= i < |window| && window[i].eventType == "login_failure"|
    && f.loginSuccessCount == |set i | 0 <= i < |window| && window[i].eventType == "login_success"|
    && f.privilegeChangeCount == |set i | 0 <= i < |window| && window[i].eventType == "privilege_change"|
    && f.fileDownloadCount ==
         |set i | 0 <= i < |window| && (window[i].eventType == "file_download" || window[i].eventType == "resource_access")|
    && f.apiErrorCount == |set i | 0 <= i < |window| && window[i].eventType == "api_error"|
  }

  /** A text that is there and not empty, and the same one. */
  predicate SameText(a: Option<string>, b: Option<string>) {
    a.Some? && b.Some? && a.value == b.value && a.value != ""
  }

  /** The events of the same source or user, and the distinct users and sources among them. */
  ghost predicate ActorColumns(f: Features, event: Event, window: seq<Event>) {
    && f.sourceIpEventCount == |set i | 0 <= i < |window| && SameText(window[i].sourceIp, event.sourceIp)|
    && f.usernameEventCount == |set i | 0 <= i < |window| && SameText(window[i].username, event.username)|
    && f.sourceIpDistinctUsernames ==
         |set i | 0 <= i < |window| && SameText(window[i].sourceIp, event.sourceIp)
            && window[i].username.Some? && window[i].username.value != "" :: window[i].username.value|
    && f.usernameDistinctSourceIps ==
         |set i | 0 <= i < |window| && SameText(window[i].username, event.username)
            && window[i].sourceIp.Some? && window[i].sourceIp.value != "" :: window[i].sourceIp.value|
  }

  function Bytes(amount: Option<int>): int {
    if amount.Some? then amount.value else 0
  }

  /** The bytes of all events of the window together; an absent amount is nothing. */
  ghost predicate ByteColumns(f: Features, window: seq<Event>) {
    && f.bytesSentSum == Total(window, (e: Event) => Bytes(e.bytesSent))
    && f.bytesReceivedSum == Total(window, (e: Event) => Bytes(e.bytesReceived))
  }

  /** Equal, but for the case of ASCII letters in the first. */
  predicate Spells(text: string, word: string) {
    |text| == |word|
    && forall i | 0 <= i < |word| :: text[i] == word[i] || ('A' <= text[i] <= 'Z' && word[i] == text[i] - 'A' + 'a')
  }

  /** What the event itself is. */
  ghost predicate EventIndicators(f: Features, event: Event) {
    && (f.isAuthenticationEvent <==> event.category == "authentication")
    && (f.isFileAccessEvent <==> event.category == "file_access")
    && (f.isPrivilegeChangeEvent <==> event.eventType == "privilege_change")
    && (f.isApiEvent <==> event.category == "api")
    && (f.isFailureStatus <==>
          event.status.Some?
          && (Spells(event.status.value, "failed") || Spells(event.status.value, "failure")
              || Spells(event.status.value, "denied") || Spells(event.status.value, "error")))
  }

  ghost predicate Describes(f: Features, event: Event, window: seq<Event>) {
    TypeColumns(f, event, window) && ActorColumns(f, event, window) && ByteColumns(f, window) && EventIndicators(f, event)
  }

  lemma {:induction false} TypeColumnsHold(event: Event, window: seq<Event>)
    ensures TypeColumns(BuildFeatures(event, window), event, window)
  {
    TypeCount(window, event.eventType);
    CategoryCount(window, event.category);
    TypeCount(window, "login_failure");
    TypeCount(window, "login_success");
    TypeCount(window, "privilege_change");
    DownloadCount(window);
    TypeCount(window, "api_error");
  }

  lemma {:induction false} CategoryCount(window: seq<Event>, category: string)
    ensures Count(window, CategoryIs(category)) == |set i | 0 <= i < |window| && window[i].category == category|
  {
    CountIsSize(window, CategoryIs(category));
    assert (set i | 0 <= i < |window| && CategoryIs(category)(window[i]))
        == set i | 0 <= i < |window| && window[i].category == category;
  }

  lemma {:induction false} DownloadCount(window: seq<Event>)
    ensures Count(window, TypeIn({"file_download", "resource_access"})) ==
      |set i | 0 <= i < |window| && (window[i].eventType == "file_download" || window[i].eventType == "resource_access")|
  {
    var downloads := {"file_download", "resource_access"};
    CountIsSize(window, TypeIn(downloads));
    assert (set i | 0 <= i < |window| && TypeIn(downloads)(window[i])) ==
      set i | 0 <= i < |window| && (window[i].eventType == "file_download" || window[i].eventType == "resource_access");
  }

  lemma {:induction false} TypeCount(window: seq<Event>, eventType: string)
    ensures Count(window, TypeIn({eventType})) == |set i | 0 <= i < |window| && window[i].eventType == eventType|
  {
    CountIsSize(window, TypeIn({eventType}));
    assert (set i | 0 <= i < |window| && TypeIn({eventType})(window[i]))
        == set i | 0 <= i < |window| && window[i].eventType == eventType;
  }

  lemma {:induction false} ActorColumnsHold(event: Event, window: seq<Event>)
    ensures ActorColumns(BuildFeatures(event, window), event, window)
  {
    CountIsSize(window, SameSource(event));
    CountIsSize(window, SameUser(event));
    assert (set i | 0 <= i < |window| && SameSource(event)(window[i]))
        == set i | 0 <= i < |window| && SameText(window[i].sourceIp, event.sourceIp);
    assert (set i | 0 <= i < |window| && SameUser(event)(window[i]))
        == set i | 0 <= i < |window| && SameText(window[i].username, event.username);
    SameUsernames(event, window);
    SameSources(event, window);
  }

  lemma {:induction false} SameUsernames(event: Event, window: seq<Event>)
    ensures DistinctUsernames(window, SameSource(event)) ==
      set i | 0 <= i < |window| && SameText(window[i].sourceIp, event.sourceIp)
        && window[i].username.Some? && window[i].username.value != "" :: window[i].username.value
  {
    forall name | name in DistinctUsernames(window, SameSource(event))
      ensures exists i :: (0 <= i < |window| && SameText(window[i].sourceIp, event.sourceIp)
        && window[i].username.Some? && window[i].username.value != "" && window[i].username.value == name)
    {
      var e :| e in window && SameSource(event)(e) && Given(e.username) && e.username.value == name;
      var i :| 0 <= i < |window| && window[i] == e;
    }
  }

  lemma {:induction false} SameSources(event: Event, window: seq<Event>)
    ensures DistinctSources(window, SameUser(event)) ==
      set i | 0 <= i < |window| && SameText(window[i].username, event.username)
        && window[i].sourceIp.Some? && window[i].sourceIp.value != "" :: window[i].sourceIp.value
  {
    forall source | source in DistinctSources(window, SameUser(event))
      ensures exists i :: (0 <= i < |window| && SameText(window[i].username, event.username)
        && window[i].sourceIp.Some? && window[i].sourceIp.value != "" && window[i].sourceIp.value == source)
    {
      var e :| e in window && SameUser(event)(e) && Given(e.sourceIp) && e.sourceIp.value == source;
      var i :| 0 <= i < |window| && window[i] == e;
    }
  }

  lemma {:induction false} ByteColumnsHold(event: Event, window: seq<Event>)
    ensures ByteColumns(BuildFeatures(event, window), window)
  {
    SameTotal(window, Sent(), (e: Event) => Bytes(e.bytesSent));
    SameTotal(window, Received(), (e: Event) => Bytes(e.bytesReceived));
  }

  lemma {:induction false} LowerIffSpells(text: string, word: string)
    requires forall i | 0 <= i < |word| :: !('A' <= word[i] <= 'Z')
    ensures Lower(text) == word <==> Spells(text, word)
    decreases |text|
  {
    LowerEach(text);
    if Spells(text, word) {
      assert forall i | 0 <= i < |word| :: Lower(text)[i] == word[i];
      assert Lower(text) == word;
    }
  }

  lemma {:induction false} EventIndicatorsHold(event: Event, window: seq<Event>)
    ensures EventIndicators(BuildFeatures(event, window), event)
  {
    if event.status.Some? {
      LowerIffSpells(event.status.value, "failed");
      LowerIffSpells(event.status.value, "failure");
      LowerIffSpells(event.status.value, "denied");
      LowerIffSpells(event.status.value, "error");
    }
  }

  /** Every column, by name, for every event and window. */
  lemma {:induction false} FeaturesDescribe(event: Event, window: seq<Event>)
    ensures Describes(BuildFeatures(event, window), event, window)
  {
    TypeColumnsHold(event, window);
    ActorColumnsHold(event, window);
    ByteColumnsHold(event, window);
    EventIndicatorsHold(event, window);
  }

  /** The columns leave nothing open: there is only one vector of that description. */
  lemma {:induction false} DescriptionIsUnique(f: Features, g: Features, event: Event, window: seq<Event>)
    requires Describes(f, event, window) && Describes(g, event, window)
    ensures f == g
  {
  }
}
