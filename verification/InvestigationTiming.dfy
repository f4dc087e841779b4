/**
 * When promoters release retries. A promoter removes what its scan saw, and the entry it removes may have been
 * scheduled anew since: every release is on time exactly when scans do not overlap.
 */
module InvestigationTiming {
  import opened Options
  import opened InvestigationJobs

  /** What clocks have shown so far: to each agent at its last scan, and to anybody at the latest. */
  datatype Clocks = Clocks(scans: map<nat, int>, latest: Option<int>)

  const UNREAD := Clocks(map[], None)

  function Reading(e: Event): Option<int> {
    match e
    case Request(_, _, _, _, now) => Some(now)
    case PushFails(_, now, _) => Some(now)
    case Claim(_, now) => Some(now)
    case Complete(_, now, _) => Some(now)
    case Fail(_, now, _) => Some(now)
    case Retry(_, now, _, _) => Some(now)
    case Scan(_, now, _) => Some(now)
    case _ => None
  }

  function Later(a: Option<int>, b: Option<int>): Option<int> {
    if a.None? || (b.Some? && a.value < b.value) then b else a
  }

  function Read(c: Clocks, e: Event): Clocks {
    Clocks(if e.Scan? then c.scans[e.agent := e.now] else c.scans, Later(c.latest, Reading(e)))
  }

  function ReadAll(c: Clocks, events: seq<Event>): Clocks
    decreases |events|
  {
    if events == [] then c else ReadAll(Read(c, events[0]), events[1..])
  }

  /** The event takes its entry out of the delayed set. */
  ghost predicate Releases(w: World, e: Event) {
    Enabled(w, e) && e.Remove? && w.agents[e.agent].items[0] in w.delayed
  }

  ghost function DueTime(w: World, e: Event): int
    requires Releases(w, e)
  {
    w.delayed[w.agents[e.agent].items[0]]
  }

  /** What is released was due when the agent scanned. */
  ghost predicate StepOnTime(w: World, c: Clocks, e: Event) {
    Releases(w, e) ==> e.agent in c.scans && DueTime(w, e) <= c.scans[e.agent]
  }

  /** What is released is not due yet by any clock that anybody has read. */
  ghost predicate Early(w: World, c: Clocks, e: Event) {
    Releases(w, e) && (c.latest.Some? ==> c.latest.value < DueTime(w, e))
  }

  ghost predicate OnTime(w: World, c: Clocks, events: seq<Event>)
    requires IsRun(w, events)
    decreases |events|
  {
    events == [] || (StepOnTime(w, c, events[0]) && OnTime(Next(w, events[0]), Read(c, events[0]), events[1..]))
  }

  ghost predicate NeverEarly(w: World, c: Clocks, events: seq<Event>)
    requires IsRun(w, events)
    decreases |events|
  {
    events == [] || (!Early(w, c, events[0]) && NeverEarly(Next(w, events[0]), Read(c, events[0]), events[1..]))
  }

  ghost predicate Coherent(c: Clocks) {
    forall i | i in c.scans :: c.latest.Some? && c.scans[i] <= c.latest.value
  }

  /** What was due at a scan is due by the latest reading. */
  lemma {:induction false} OnTimeIsNeverEarly(w: World, c: Clocks, events: seq<Event>)
    requires Coherent(c) && IsRun(w, events) && OnTime(w, c, events)
    ensures NeverEarly(w, c, events)
    decreases |events|
  {
    if events != [] {
      OnTimeIsNeverEarly(Next(w, events[0]), Read(c, events[0]), events[1..]);
    }
  }

  // ---------------------------------------------------------------- promoters that take turns

  ghost predicate Scanning(a: Agent) {
    a.Promoting? || a.Promoted?
  }

  /** A scan begins only while nobody else works through one. */
  ghost predicate InTurn(w: World, e: Event) {
    e.Scan? ==> forall j | 0 <= j < |w.agents| && j != e.agent :: !Scanning(w.agents[j])
  }

  ghost predicate TakesTurns(w: World, events: seq<Event>)
    requires IsRun(w, events)
    decreases |events|
  {
    events == [] || (InTurn(w, events[0]) && TakesTurns(Next(w, events[0]), events[1..]))
  }

  /** What is left of a scan is still in the delayed set, with the time the scan saw. */
  ghost predicate StillDue(delayed: map<Id, int>, items: seq<Id>, now: int) {
    && (forall k | 0 <= k < |items| :: items[k] in delayed && delayed[items[k]] <= now)
    && (forall j, k | 0 <= j < k < |items| :: items[j] != items[k])
  }

  ghost predicate ScanHolds(w: World, c: Clocks, i: nat) {
    i < |w.agents| && Scanning(w.agents[i]) ==> i in c.scans && StillDue(w.delayed, w.agents[i].items, c.scans[i])
  }

  ghost predicate OneScan(w: World) {
    forall i, j | 0 <= i < j < |w.agents| :: !(Scanning(w.agents[i]) && Scanning(w.agents[j]))
  }

  ghost predicate Turns(w: World, c: Clocks) {
    OneScan(w) && forall i: nat :: ScanHolds(w, c, i)
  }

  /** An id on its way into the delayed set is not in it yet. */
  lemma {:induction false} PendingIsNotDelayed(w: World, i: nat)
    requires OneCopy(w) && i < |w.agents| && w.agents[i].PendingDelay?
    ensures w.agents[i].id !in w.delayed
  {
    var id := w.agents[i].id;
    UpdateCounts(w.agents, i, Idle, id);
    assert OneCopyOf(w, id);
  }

  /** Apart from removals, nothing leaves the delayed set, and what enters it was not in it. */
  lemma {:induction false} OthersKeepEntries(w: World, e: Event, id: Id)
    requires OneCopy(w) && Enabled(w, e) && !e.Remove? && id in w.delayed
    ensures id in Next(w, e).delayed && Next(w, e).delayed[id] == w.delayed[id]
  {
    if e.Delay? {
      PendingIsNotDelayed(w, e.agent);
    }
  }

  /** Only a scan makes an agent work through a list, and only removals shorten it. */
  lemma {:induction false} WhoScansNext(w: World, e: Event)
    requires Enabled(w, e) && !e.Scan? && Scanning(Next(w, e).agents[e.agent])
    ensures Scanning(w.agents[e.agent])
    ensures Next(w, e).agents[e.agent].items
      == (if e.Remove? then w.agents[e.agent].items[1..] else w.agents[e.agent].items)
  {
  }

  lemma {:induction false} EventKeepsOneScan(w: World, e: Event)
    requires OneScan(w) && Enabled(w, e) && InTurn(w, e)
    ensures OneScan(Next(w, e))
  {
    OthersStay(w, e);
    if !e.Scan? && Scanning(Next(w, e).agents[e.agent]) {
      WhoScansNext(w, e);
    }
  }

  /** While scans take turns, a removal takes the first entry left of the only scan there is. */
  lemma {:induction false} RemovalKeepsScan(w: World, c: Clocks, e: Event, i: nat)
    requires Turns(w, c) && Enabled(w, e) && e.Remove?
    ensures ScanHolds(Next(w, e), Read(c, e), i)
  {
    assert ScanHolds(w, c, i) && ScanHolds(w, c, e.agent);
    OthersStay(w, e);
    if i < |w.agents| {
      WhoScansNext(w, e);
      var items := w.agents[e.agent].items;
      assert items[0] in w.delayed;
      assert Next(w, e).delayed == w.delayed - {items[0]};
    }
  }

  lemma {:induction false} OthersKeepScan(w: World, c: Clocks, e: Event, i: nat)
    requires OneCopy(w) && Turns(w, c) && Enabled(w, e) && !e.Remove? && !(e.Scan? && i == e.agent)
    ensures ScanHolds(Next(w, e), Read(c, e), i)
  {
    OthersStay(w, e);
    if i < |w.agents| {
      assert ScanHolds(w, c, i);
      if Scanning(Next(w, e).agents[i]) {
        if i == e.agent {
          WhoScansNext(w, e);
        }
        var items := w.agents[i].items;
        forall k | 0 <= k < |items|
          ensures items[k] in Next(w, e).delayed && Next(w, e).delayed[items[k]] == w.delayed[items[k]]
        {
          OthersKeepEntries(w, e, items[k]);
        }
      }
    }
  }

  lemma {:induction false} EventKeepsTurns(w: World, c: Clocks, e: Event)
    requires OneCopy(w) && Turns(w, c) && Enabled(w, e) && InTurn(w, e)
    ensures Turns(Next(w, e), Read(c, e)) && StepOnTime(w, c, e)
  {
    EventKeepsOneScan(w, e);
    forall i: nat ensures ScanHolds(Next(w, e), Read(c, e), i) {
      if e.Remove? {
        RemovalKeepsScan(w, c, e, i);
      } else if !(e.Scan? && i == e.agent) {
        OthersKeepScan(w, c, e, i);
      }
    }
    assert ScanHolds(w, c, e.agent);
  }

  lemma {:induction false} TurnsKeepTime(w: World, c: Clocks, events: seq<Event>)
    requires Inv(w) && Turns(w, c) && IsRun(w, events) && TakesTurns(w, events)
    ensures OnTime(w, c, events)
    decreases |events|
  {
    if events != [] {
      EventKeepsTurns(w, c, events[0]);
      EventKeepsInv(w, events[0]);
      TurnsKeepTime(Next(w, events[0]), Read(c, events[0]), events[1..]);
    }
  }

  /**
   * If promoters take turns, then in every interleaving with requesters, workers and retries every release is on time:
   * the entry taken was due when its promoter scanned.
   */
  lemma {:induction false} TurnsReleaseOnTime(agents: nat, events: seq<Event>)
    requires IsRun(Start(agents), events) && TakesTurns(Start(agents), events)
    ensures OnTime(Start(agents), UNREAD, events)
  {
    StartInv(agents);
    TurnsKeepTime(Start(agents), UNREAD, events);
  }

  // ---------------------------------------------------------------- one promoter

  ghost predicate ScansBy(events: seq<Event>, promoters: set<nat>) {
    forall k | 0 <= k < |events| :: events[k].Scan? ==> events[k].agent in promoters
  }

  ghost predicate ScannersAmong(w: World, promoters: set<nat>) {
    forall i | 0 <= i < |w.agents| && Scanning(w.agents[i]) :: i in promoters
  }

  lemma {:induction false} OnePromoterTakesTurns(w: World, promoters: set<nat>, events: seq<Event>)
    requires IsRun(w, events) && ScansBy(events, promoters) && ScannersAmong(w, promoters)
    requires forall p, q | p in promoters && q in promoters :: p == q
    ensures TakesTurns(w, events)
    decreases |events|
  {
    if events != [] {
      var e := events[0];
      assert e.Scan? ==> e.agent in promoters;
      OthersStay(w, e);
      if !e.Scan? && Scanning(Next(w, e).agents[e.agent]) {
        WhoScansNext(w, e);
      }
      assert forall k | 0 <= k < |events[1..]| :: events[1..][k] == events[k + 1];
      OnePromoterTakesTurns(Next(w, e), promoters, events[1..]);
    }
  }

  // ---------------------------------------------------------------- two promoters

  lemma {:induction false} RunJoins(w: World, first: seq<Event>, second: seq<Event>)
    requires IsRun(w, first) && IsRun(Run(w, first), second)
    ensures IsRun(w, first + second) && Run(w, first + second) == Run(Run(w, first), second)
    decreases |first|
  {
    if first == [] {
      assert first + second == second;
    } else {
      assert (first + second)[1..] == first[1..] + second;
      RunJoins(Next(w, first[0]), first[1..], second);
    }
  }

  lemma {:induction false} NeverEarlyToTheEnd(w: World, c: Clocks, events: seq<Event>, last: Event)
    requires IsRun(w, events + [last]) && NeverEarly(w, c, events + [last])
    ensures IsRun(w, events) && !Early(Run(w, events), ReadAll(c, events), last)
    decreases |events|
  {
    if events == [] {
      assert events + [last] == [last];
    } else {
      assert (events + [last])[1..] == events[1..] + [last];
      assert (events + [last])[0] == events[0];
      NeverEarlyToTheEnd(Next(w, events[0]), Read(c, events[0]), events[1..], last);
    }
  }

  const ANY_LLM := Llm("", "")
  const ANY_FAILURE := Failure("", None, [])

  /** A worker takes the only ready job, and schedules a retry one tick from `now`. */
  function RetryEvents(p: nat, now: int): seq<Event> {
    [Pop(p), Claim(p, now), Retry(p, now, 1, ANY_FAILURE), Delay(p)]
  }

  ghost predicate OneReady(w: World, p: nat) {
    p < |w.agents| && w.agents[p].Idle? && w.ready == [0] && w.delayed == map[] && HasStatus(w, 0, Queued)
  }

  ghost predicate OneDelayed(w: World, p: nat, readyAt: int) {
    p < |w.agents| && w.agents[p].Idle? && w.ready == [] && w.delayed == map[0 := readyAt] && HasStatus(w, 0, Queued)
  }

  lemma {:induction false} RetryRun(w: World, p: nat, now: int)
    requires OneReady(w, p)
    ensures IsRun(w, RetryEvents(p, now)) && OneDelayed(Run(w, RetryEvents(p, now)), p, now + 1)
    ensures var after := Run(w, RetryEvents(p, now)).agents;
      |after| == |w.agents| && forall j | 0 <= j < |after| && j != p :: after[j] == w.agents[j]
  {
    var w1 := Next(w, Pop(p));
    var w2 := Next(w1, Claim(p, now));
    var w3 := Next(w2, Retry(p, now, 1, ANY_FAILURE));
    var w4 := Next(w3, Delay(p));
    RunTwo(w2, Retry(p, now, 1, ANY_FAILURE), Delay(p), []);
    RunTwo(w, Pop(p), Claim(p, now), [Retry(p, now, 1, ANY_FAILURE), Delay(p)]);
  }

  function RequestEvents(p: nat): seq<Event> {
    [Request(p, 0, ANY_LLM, 0, 0), Push(p)]
  }

  lemma {:induction false} RequestRun(agents: nat, p: nat)
    requires p < agents
    ensures IsRun(Start(agents), RequestEvents(p))
    ensures var w := Run(Start(agents), RequestEvents(p));
      OneReady(w, p) && |w.agents| == agents && forall j | 0 <= j < agents :: w.agents[j].Idle?
  {
    RunTwo(Start(agents), Request(p, 0, ANY_LLM, 0, 0), Push(p), []);
  }

  /** Two promoters scan the same entry, and one of them promotes it. */
  function ScanEvents(p: nat, q: nat): seq<Event> {
    [Scan(q, 1, [0]), Scan(p, 1, [0])] + PromotionEvents(p, [0])
  }

  lemma {:induction false} ScanRun(w: World, p: nat, q: nat)
    requires OneDelayed(w, p, 1) && q < |w.agents| && q != p && w.agents[q].Idle?
    ensures IsRun(w, ScanEvents(p, q))
    ensures var after := Run(w, ScanEvents(p, q));
      OneReady(after, p) && |after.agents| == |w.agents| && after.agents[q] == Promoting([0])
  {
    var w1 := Next(w, Scan(q, 1, [0]));
    var w2 := Next(w1, Scan(p, 1, [0]));
    UndisturbedPromotion(w2, p, [0]);
    RunTwo(w, Scan(q, 1, [0]), Scan(p, 1, [0]), PromotionEvents(p, [0]));
  }

  function EarlyEvents(p: nat, q: nat): seq<Event> {
    RequestEvents(p) + (RetryEvents(p, 0) + (ScanEvents(p, q) + RetryEvents(p, 1)))
  }

  lemma {:induction false} EarlyRun(agents: nat, p: nat, q: nat)
    requires p < agents && q < agents && p != q
    ensures IsRun(Start(agents), EarlyEvents(p, q))
    ensures var w := Run(Start(agents), EarlyEvents(p, q));
      OneDelayed(w, p, 2) && q < |w.agents| && w.agents[q] == Promoting([0])
  {
    RequestRun(agents, p);
    var w1 := Run(Start(agents), RequestEvents(p));
    RetryRun(w1, p, 0);
    var w2 := Run(w1, RetryEvents(p, 0));
    ScanRun(w2, p, q);
    var w3 := Run(w2, ScanEvents(p, q));
    RetryRun(w3, p, 1);
    RunJoins(w2, ScanEvents(p, q), RetryEvents(p, 1));
    RunJoins(w1, RetryEvents(p, 0), ScanEvents(p, q) + RetryEvents(p, 1));
    RunJoins(Start(agents), RequestEvents(p), RetryEvents(p, 0) + (ScanEvents(p, q) + RetryEvents(p, 1)));
  }

  ghost predicate Bounded(c: Clocks, t: int) {
    c.latest.Some? ==> c.latest.value <= t
  }

  ghost predicate ReadsUpTo(events: seq<Event>, t: int) {
    forall k | 0 <= k < |events| :: Reading(events[k]).Some? ==> Reading(events[k]).value <= t
  }

  lemma {:induction false} ReadAllBounded(c: Clocks, events: seq<Event>, t: int)
    requires Bounded(c, t) && ReadsUpTo(events, t)
    ensures Bounded(ReadAll(c, events), t)
    decreases |events|
  {
    if events != [] {
      assert forall k | 0 <= k < |events[1..]| :: events[1..][k] == events[k + 1];
      ReadAllBounded(Read(c, events[0]), events[1..], t);
    }
  }

  lemma {:induction false} EarlyEventsReadings(p: nat, q: nat)
    ensures ReadsUpTo(EarlyEvents(p, q), 1) && ScansBy(EarlyEvents(p, q), {p, q})
  {
    assert PromotionEvents(p, [0]) == [Remove(p), PushPromoted(p), EndScan(p)];
  }

  /**
   * Two promoters: a retry scheduled one tick after the latest time anybody has read is released. The second promoter
   * removes on a scan from before the job's first retry was promoted, claimed and put off again.
   */
  lemma {:induction false} TwoPromotersReleaseEarly(agents: nat, p: nat, q: nat)
    requires p < agents && q < agents && p != q
    ensures IsRun(Start(agents), EarlyEvents(p, q)) && ScansBy(EarlyEvents(p, q), {p, q})
    ensures var w, c := Run(Start(agents), EarlyEvents(p, q)), ReadAll(UNREAD, EarlyEvents(p, q));
      Early(w, c, Remove(q))
  {
    EarlyRun(agents, p, q);
    EarlyEventsReadings(p, q);
    ReadAllBounded(UNREAD, EarlyEvents(p, q), 1);
  }

  lemma {:induction false} TwoPromotersAreNotInTime(agents: nat, p: nat, q: nat)
    requires p < agents && q < agents && p != q
    ensures var events := EarlyEvents(p, q) + [Remove(q)];
      IsRun(Start(agents), events) && ScansBy(events, {p, q})
      && !NeverEarly(Start(agents), UNREAD, events) && !OnTime(Start(agents), UNREAD, events)
  {
    TwoPromotersReleaseEarly(agents, p, q);
    RunJoins(Start(agents), EarlyEvents(p, q), [Remove(q)]);
    var events := EarlyEvents(p, q) + [Remove(q)];
    if NeverEarly(Start(agents), UNREAD, events) {
      NeverEarlyToTheEnd(Start(agents), UNREAD, EarlyEvents(p, q), Remove(q));
    }
    if OnTime(Start(agents), UNREAD, events) {
      OnTimeIsNeverEarly(Start(agents), UNREAD, events);
    }
  }

  // ---------------------------------------------------------------- the exact condition

  lemma {:induction false} AtMostOneIff(promoters: set<nat>)
    ensures |promoters| <= 1 <==> forall p, q | p in promoters && q in promoters :: p == q
  {
    if p, q :| p in promoters && q in promoters && p != q {
      assert |promoters - {p}| == |promoters| - 1 && q in promoters - {p};
    } else if promoters != {} {
      var p :| p in promoters;
      assert promoters == {p};
    }
  }

  /**
   * Whatever else requesters, workers and promoters do: at most one agent promotes if and only if no run releases a
   * retry before some clock has shown its time, and if and only if every run releases what its promoter saw due.
   */
  lemma {:induction false} ReleasesOnTimeIff(agents: nat, promoters: set<nat>)
    requires forall p | p in promoters :: p < agents
    ensures |promoters| <= 1 <==>
      (forall events | IsRun(Start(agents), events) && ScansBy(events, promoters) ::
        NeverEarly(Start(agents), UNREAD, events))
    ensures |promoters| <= 1 <==>
      (forall events | IsRun(Start(agents), events) && ScansBy(events, promoters) ::
        OnTime(Start(agents), UNREAD, events))
  {
    AtMostOneIff(promoters);
    if |promoters| <= 1 {
      forall events | IsRun(Start(agents), events) && ScansBy(events, promoters)
        ensures OnTime(Start(agents), UNREAD, events) && NeverEarly(Start(agents), UNREAD, events)
      {
        OnePromoterTakesTurns(Start(agents), promoters, events);
        TurnsReleaseOnTime(agents, events);
        OnTimeIsNeverEarly(Start(agents), UNREAD, events);
      }
    } else {
      var p, q :| p in promoters && q in promoters && p != q;
      TwoPromotersAreNotInTime(agents, p, q);
      var events := EarlyEvents(p, q) + [Remove(q)];
      assert ScansBy(events, promoters);
    }
  }
}
