/** `build_dataset`: one row per event, over the windows that two pointers find; and the vectors that serving computes. */
module FeatureDataset {
  import opened EventColumns
  import opened EventFeatures
  import opened FeatureWindows
  import opened Totals

  /** The row the training set holds for an event. */
  function TrainingRow(events: seq<Event>, index: nat, window: int): Features
    requires index < |events|
  {
    var ordered := Sort(events);
    assert |multiset(ordered)| == |multiset(events)|;
    BuildFeatures(ordered[index], NaiveWindow(ordered, index, window))
  }

  /** The two pointers find exactly the naive windows, for any window length, and each row describes its event's. */
  method BuildDataset(events: seq<Event>, window: int) returns (rows: seq<Features>, ghost innerSteps: nat)
    ensures |rows| == |events|
    ensures forall i | 0 <= i < |events| :: rows[i] == TrainingRow(events, i, window)
    ensures |Sort(events)| == |events|
    ensures forall i | 0 <= i < |events| ::
      Describes(rows[i], Sort(events)[i], NaiveWindow(Sort(events), i, window))
    ensures innerSteps <= |events|
  {
    var ordered := Sort(events);
    assert |multiset(ordered)| == |multiset(events)|;
    SortOrders(events);
    forall i | 0 <= i < |events|
      ensures Describes(
        BuildFeatures(ordered[i], NaiveWindow(ordered, i, window)), ordered[i], NaiveWindow(ordered, i, window))
    {
      FeaturesDescribe(ordered[i], NaiveWindow(ordered, i, window));
    }
    rows, innerSteps := SlideWindow(ordered, window, BuildFeatures);
  }

  // ---------------------------------------------------------------- training equals serving

  /** What `list_between` selects, as a multiset: the order of ties is the database's choice. */
  ghost predicate Answers(log: seq<Event>, start: int, end: int, answer: seq<Event>) {
    forall e :: multiset(answer)[e] == if start <= e.timestamp <= end then multiset(log)[e] else 0
  }

  lemma {:induction false} NotBeforeCounts(events: seq<Event>, cutoff: int, e: Event)
    ensures multiset(NotBefore(events, cutoff))[e] == if cutoff <= e.timestamp then multiset(events)[e] else 0
    decreases |events|
  {
    if events != [] {
      NotBeforeCounts(events[1..], cutoff, e);
      assert events == [events[0]] + events[1..];
    }
  }

  lemma {:induction false} ServedWindow(log: seq<Event>, index: nat, window: int, answer: seq<Event>)
    requires Ordered(log) && index < |log| && window >= 0
    requires Answers(log[..index + 1], log[index].timestamp - window, log[index].timestamp, answer)
    ensures multiset(answer) == multiset(NaiveWindow(log, index, window))
  {
    forall e ensures multiset(answer)[e] == multiset(NaiveWindow(log, index, window))[e] {
      ServedCount(log, index, window, e);
    }
  }

  lemma {:induction false} ServedCount(log: seq<Event>, index: nat, window: int, e: Event)
    requires Ordered(log) && index < |log| && window >= 0
    ensures multiset(NaiveWindow(log, index, window))[e]
         == if log[index].timestamp - window <= e.timestamp <= log[index].timestamp
            then multiset(log[..index + 1])[e] else 0
  {
    var earlier, last := log[..index], [log[index]];
    NotBeforeCounts(earlier, log[index].timestamp - window, e);
    assert log[..index + 1] == earlier + last;
    assert multiset(log[..index + 1])[e] == multiset(earlier)[e] + multiset(last)[e];
    if e.timestamp > log[index].timestamp {
      NothingLater(log, index, e);
    }
  }

  lemma {:induction false} NothingLater(log: seq<Event>, index: nat, e: Event)
    requires Ordered(log) && index < |log| && e.timestamp > log[index].timestamp
    ensures multiset(log[..index + 1])[e] == 0
  {
    forall i | 0 <= i <= index ensures log[i] != e {
      OrderedPair(log, i, index);
    }
    assert e !in log[..index + 1];
  }

  /** Of a negative window the database answers with nothing, while training still counts the event itself. */
  lemma {:induction false} NegativeWindow(log: seq<Event>, index: nat, window: int, answer: seq<Event>)
    requires Ordered(log) && index < |log| && window < 0
    requires Answers(log[..index + 1], log[index].timestamp - window, log[index].timestamp, answer)
    ensures BuildFeatures(log[index], answer) != BuildFeatures(log[index], NaiveWindow(log, index, window))
  {
    assert multiset(answer) == multiset{};
    assert |multiset(answer)| == 0;
    forall i | 0 <= i < index ensures log[..index][i].timestamp < log[index].timestamp - window {
      OrderedPair(log, i, index);
    }
    NotBeforeIsSuffix(log[..index], log[index].timestamp - window, index);
    assert NaiveWindow(log, index, window) == [log[index]];
    CountOne(log[index], TypeIn({log[index].eventType}));
  }

  lemma {:induction false} CountOne(e: Event, p: Event -> bool)
    ensures Count([e], p) == if p(e) then 1 else 0
  {
    assert Total([e][1..], Indicator(p)) == 0;
    assert Total([e], Indicator(p)) == Indicator(p)(e);
  }

  /**
   * When events are ingested in (timestamp, created_at) order, the vector computed when an event arrives, over the
   * log so far, equals that event's row when the dataset is later built over the whole log: exactly when the window
   * is not negative.
   */
  lemma {:induction false} TrainingEqualsServing(log: seq<Event>, index: nat, window: int, answer: seq<Event>)
    requires Ordered(log) && index < |log|
    requires Answers(log[..index + 1], log[index].timestamp - window, log[index].timestamp, answer)
    ensures BuildFeatures(log[index], answer) == TrainingRow(log, index, window) <==> window >= 0
  {
    SortOfOrdered(log);
    if window >= 0 {
      ServedWindow(log, index, window, answer);
      FeaturesOfMultiset(log[index], answer, NaiveWindow(log, index, window));
    } else {
      NegativeWindow(log, index, window, answer);
    }
  }
}
