/** The windows of `build_dataset`: for each event of the sorted log the recent earlier ones, found by two pointers. */
module FeatureWindows {
  import opened EventFeatures

  // ---------------------------------------------------------------- the order of the log

  predicate Before(a: Event, b: Event) {
    a.timestamp < b.timestamp || (a.timestamp == b.timestamp && a.createdAt <= b.createdAt)
  }

  ghost predicate Ordered(events: seq<Event>) {
    |events| <= 1 || (Before(events[0], events[1]) && Ordered(events[1..]))
  }

  lemma {:induction false} OrderedPair(events: seq<Event>, i: nat, j: nat)
    requires Ordered(events) && i <= j < |events|
    ensures Before(events[i], events[j])
    decreases |events|, j
  {
    if i > 0 {
      OrderedPair(events[1..], i - 1, j - 1);
    } else if j > 0 {
      OrderedPair(events[1..], 0, j - 1);
    }
  }

  /** Python's sort is stable: an event goes in front of the later ones it ties with. */
  function Insert(e: Event, events: seq<Event>): (r: seq<Event>)
    ensures multiset(r) == multiset{e} + multiset(events)
  {
    if events == [] || Before(e, events[0]) then
      [e] + events
    else
      assert events == [events[0]] + events[1..];
      [events[0]] + Insert(e, events[1..])
  }

  function Sort(events: seq<Event>): (r: seq<Event>)
    ensures multiset(r) == multiset(events)
  {
    if events == [] then
      []
    else
      assert events == [events[0]] + events[1..];
      Insert(events[0], Sort(events[1..]))
  }

  lemma {:induction false} InsertOrders(e: Event, events: seq<Event>)
    requires Ordered(events)
    ensures Ordered(Insert(e, events))
    decreases |events|
  {
    if events != [] && !Before(e, events[0]) {
      InsertOrders(e, events[1..]);
    }
  }

  lemma {:induction false} SortOrders(events: seq<Event>)
    ensures Ordered(Sort(events))
    decreases |events|
  {
    if events != [] {
      SortOrders(events[1..]);
      InsertOrders(events[0], Sort(events[1..]));
    }
  }

  /** By time, and by time of creation where times are equal. */
  lemma {:induction false} SortedByTimeThenCreation(events: seq<Event>, i: nat, j: nat)
    requires i < j < |Sort(events)|
    ensures var a, b := Sort(events)[i], Sort(events)[j];
      a.timestamp < b.timestamp || (a.timestamp == b.timestamp && a.createdAt <= b.createdAt)
  {
    SortOrders(events);
    OrderedPair(Sort(events), i, j);
  }

  /** A log that was written in order is not reordered. */
  lemma {:induction false} SortOfOrdered(events: seq<Event>)
    requires Ordered(events)
    ensures Sort(events) == events
    decreases |events|
  {
    if events != [] {
      SortOfOrdered(events[1..]);
    }
  }

  // ---------------------------------------------------------------- the naive window

  /** The events not older than `cutoff`, in their order. */
  function NotBefore(events: seq<Event>, cutoff: int): seq<Event> {
    if events == [] then []
    else (if events[0].timestamp >= cutoff then [events[0]] else []) + NotBefore(events[1..], cutoff)
  }

  /** What each row should look at: the event itself and the earlier ones that are recent enough. */
  function NaiveWindow(ordered: seq<Event>, index: nat, window: int): seq<Event>
    requires index < |ordered|
  {
    NotBefore(ordered[..index], ordered[index].timestamp - window) + [ordered[index]]
  }

  lemma {:induction false} NotBeforeIsSuffix(events: seq<Event>, cutoff: int, left: nat)
    requires left <= |events|
    requires forall i | 0 <= i < left :: events[i].timestamp < cutoff
    requires forall i | left <= i < |events| :: cutoff <= events[i].timestamp
    ensures NotBefore(events, cutoff) == events[left..]
    decreases |events|
  {
    if events != [] {
      NotBeforeIsSuffix(events[1..], cutoff, if left == 0 then 0 else left - 1);
    }
  }

  lemma {:induction false} RecentFrom(ordered: seq<Event>, index: nat, left: nat, cutoff: int)
    requires Ordered(ordered) && left < index < |ordered| && ordered[left].timestamp >= cutoff
    ensures forall i | left <= i < index :: ordered[i].timestamp >= cutoff
  {
    forall i | left <= i < index ensures ordered[i].timestamp >= cutoff {
      OrderedPair(ordered, left, i);
    }
  }

  lemma {:induction false} WindowFound(ordered: seq<Event>, index: nat, left: nat, window: int)
    requires Ordered(ordered) && left <= index < |ordered|
    requires AllBelow(ordered, left, ordered[index].timestamp - window)
    requires left == index || ordered[left].timestamp >= ordered[index].timestamp - window
    ensures ordered[left..index + 1] == NaiveWindow(ordered, index, window)
    ensures index + 1 < |ordered| ==> AllBelow(ordered, left, ordered[index + 1].timestamp - window)
  {
    if left < index {
      RecentFrom(ordered, index, left, ordered[index].timestamp - window);
    }
    NotBeforeIsSuffix(ordered[..index], ordered[index].timestamp - window, left);
    assert ordered[left..index + 1] == ordered[..index][left..] + [ordered[index]];
    if index + 1 < |ordered| {
      OrderedPair(ordered, index, index + 1);
    }
  }

  ghost predicate AllBelow(ordered: seq<Event>, left: nat, cutoff: int) {
    left <= |ordered| && forall i | 0 <= i < left :: ordered[i].timestamp < cutoff
  }

  /** The loop over the sorted events. `left` only moves forward, so the inner loop takes at most a step per event. */
  method SlideWindow<Row>(ordered: seq<Event>, window: int, build: (Event, seq<Event>) -> Row)
    returns (rows: seq<Row>, ghost innerSteps: nat)
    requires Ordered(ordered)
    ensures |rows| == |ordered|
    ensures forall i | 0 <= i < |rows| :: rows[i] == build(ordered[i], NaiveWindow(ordered, i, window))
    ensures innerSteps <= |ordered|
  {
    rows := [];
    innerSteps := 0;
    var left := 0;
    for index := 0 to |ordered|
      invariant 0 <= left <= index && innerSteps == left
      invariant |rows| == index
      invariant forall i | 0 <= i < index :: rows[i] == build(ordered[i], NaiveWindow(ordered, i, window))
      invariant index < |ordered| ==> AllBelow(ordered, left, ordered[index].timestamp - window)
    {
      var event := ordered[index];
      var cutoff := event.timestamp - window;
      while left < index && ordered[left].timestamp < cutoff
        invariant left <= index && innerSteps == left
        invariant AllBelow(ordered, left, cutoff)
      {
        left := left + 1;
        innerSteps := innerSteps + 1;
      }
      WindowFound(ordered, index, left, window);
      rows := rows + [build(event, ordered[left..index + 1])];
    }
  }
}
