/** `build_feature_vector`: counts, sums and distinct values over the events of a window. Times are microseconds. */
module EventFeatures {
  import opened Options
  import opened Texts
  import opened Totals

  datatype Event = Event(
    timestamp: int,
    createdAt: int,
    sourceIp: Option<string>,
    username: Option<string>,
    eventType: string,
    category: string,
    status: Option<string>,
    bytesSent: Option<int>,
    bytesReceived: Option<int>)

  datatype Features = Features(
    eventTypeCount: int,
    categoryCount: int,
    sourceIpEventCount: int,
    usernameEventCount: int,
    sourceIpDistinctUsernames: int,
    usernameDistinctSourceIps: int,
    loginFailureCount: int,
    loginSuccessCount: int,
    privilegeChangeCount: int,
    fileDownloadCount: int,
    apiErrorCount: int,
    bytesSentSum: int,
    bytesReceivedSum: int,
    isAuthenticationEvent: bool,
    isFileAccessEvent: bool,
    isPrivilegeChangeEvent: bool,
    isApiEvent: bool,
    isFailureStatus: bool)

  /** Python truthiness of an optional string. */
  predicate Given(s: Option<string>) {
    s.Some? && s.value != ""
  }

  function Indicator(p: Event -> bool): Event -> int {
    (e: Event) => if p(e) then 1 else 0
  }

  function Count(events: seq<Event>, p: Event -> bool): int {
    Total(events, Indicator(p))
  }

  function TypeIn(types: set<string>): Event -> bool {
    (e: Event) => e.eventType in types
  }

  function CategoryIs(category: string): Event -> bool {
    (e: Event) => e.category == category
  }

  function SameSource(event: Event): Event -> bool {
    (e: Event) => Given(event.sourceIp) && e.sourceIp == event.sourceIp
  }

  function SameUser(event: Event): Event -> bool {
    (e: Event) => Given(event.username) && e.username == event.username
  }

  function Sent(): Event -> int {
    (e: Event) => if e.bytesSent.Some? then e.bytesSent.value else 0
  }

  function Received(): Event -> int {
    (e: Event) => if e.bytesReceived.Some? then e.bytesReceived.value else 0
  }

  function DistinctUsernames(events: seq<Event>, p: Event -> bool): set<string> {
    set e | e in events && p(e) && Given(e.username) :: e.username.value
  }

  function DistinctSources(events: seq<Event>, p: Event -> bool): set<string> {
    set e | e in events && p(e) && Given(e.sourceIp) :: e.sourceIp.value
  }

  function BuildFeatures(event: Event, window: seq<Event>): Features {
    Features(
      Count(window, TypeIn({event.eventType})),
      Count(window, CategoryIs(event.category)),
      Count(window, SameSource(event)),
      Count(window, SameUser(event)),
      |DistinctUsernames(window, SameSource(event))|,
      |DistinctSources(window, SameUser(event))|,
      Count(window, TypeIn({"login_failure"})),
      Count(window, TypeIn({"login_success"})),
      Count(window, TypeIn({"privilege_change"})),
      Count(window, TypeIn({"file_download", "resource_access"})),
      Count(window, TypeIn({"api_error"})),
      Total(window, Sent()),
      Total(window, Received()),
      event.category == "authentication",
      event.category == "file_access",
      event.eventType == "privilege_change",
      event.category == "api",
      event.status.Some? && Lower(event.status.value) in {"failed", "failure", "denied", "error"})
  }

  // ---------------------------------------------------------------- order does not matter

  lemma {:induction false} SameMembers(a: seq<Event>, b: seq<Event>)
    requires multiset(a) == multiset(b)
    ensures forall e :: e in a <==> e in b
  {
    forall e ensures e in a <==> e in b {
      assert e in multiset(a) <==> e in multiset(b);
    }
  }

  /** The vector depends on the window's events and how often each occurs, not on their order. */
  lemma {:induction false} FeaturesOfMultiset(event: Event, a: seq<Event>, b: seq<Event>)
    requires multiset(a) == multiset(b)
    ensures BuildFeatures(event, a) == BuildFeatures(event, b)
  {
    SameMembers(a, b);
    forall p: Event -> bool | p in Predicates(event) ensures Count(a, p) == Count(b, p) {
      TotalOfMultiset(a, b, Indicator(p));
    }
    TotalOfMultiset(a, b, Sent());
    TotalOfMultiset(a, b, Received());
    assert DistinctUsernames(a, SameSource(event)) == DistinctUsernames(b, SameSource(event));
    assert DistinctSources(a, SameUser(event)) == DistinctSources(b, SameUser(event));
  }

  ghost function Predicates(event: Event): seq<Event -> bool> {
    [TypeIn({event.eventType}), CategoryIs(event.category), SameSource(event), SameUser(event),
     TypeIn({"login_failure"}), TypeIn({"login_success"}), TypeIn({"privilege_change"}),
     TypeIn({"file_download", "resource_access"}), TypeIn({"api_error"})]
  }
}
