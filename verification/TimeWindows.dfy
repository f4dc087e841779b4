/** How many moments of a log fall into a window of time, both ends included. */
module TimeWindows {
  function CountIn(log: seq<int>, from: int, to: int): nat {
    if log == [] then
      0
    else
      var last := log[|log| - 1];
      CountIn(log[..|log| - 1], from, to) + (if from <= last <= to then 1 else 0)
  }

  function CountFrom(log: seq<int>, from: int): nat {
    if log == [] then 0 else CountFrom(log[..|log| - 1], from) + (if from <= log[|log| - 1] then 1 else 0)
  }

  lemma {:induction false} CountInAtMostFrom(log: seq<int>, from: int, to: int, since: int)
    requires since <= from
    ensures CountIn(log, from, to) <= CountFrom(log, since)
    decreases |log|
  {
    if log != [] {
      CountInAtMostFrom(log[..|log| - 1], from, to, since);
    }
  }

  lemma {:induction false} CountInAtMostLength(log: seq<int>, from: int, to: int)
    ensures CountIn(log, from, to) <= |log|
    decreases |log|
  {
    if log != [] {
      CountInAtMostLength(log[..|log| - 1], from, to);
    }
  }

  /** A tail adds at most its own length, and a head that lies before the bound adds nothing. */
  lemma {:induction false} CountFromSplit(log: seq<int>, p: nat, from: int, since: int)
    requires p <= |log| && since <= from
    ensures CountFrom(log, from) <= CountFrom(log[..p], since) + |log| - p
    ensures (forall j | 0 <= j < p :: log[j] < from) ==> CountFrom(log, from) <= |log| - p
    decreases |log|
  {
    if p < |log| {
      var front := log[..|log| - 1];
      CountFromSplit(front, p, from, since);
      assert front[..p] == log[..p];
    } else if log != [] {
      var front := log[..|log| - 1];
      CountFromSplit(front, p - 1, from, since);
      assert front[..p - 1] == front && log[..p] == log;
    }
  }

  lemma {:induction false} NothingIn(log: seq<int>, from: int, to: int)
    requires forall i | 0 <= i < |log| :: log[i] < from
    ensures CountIn(log, from, to) == 0
    decreases |log|
  {
    if log != [] {
      NothingIn(log[..|log| - 1], from, to);
    }
  }

  lemma {:induction false} CountInSplit(log: seq<int>, from: int, mid: int, to: int)
    requires from <= mid <= to
    ensures CountIn(log, from, to) == CountIn(log, from, mid - 1) + CountIn(log, mid, to)
    decreases |log|
  {
    if log != [] {
      CountInSplit(log[..|log| - 1], from, mid, to);
    }
  }

  /** A narrower window holds no more. */
  lemma {:induction false} CountNarrows(log: seq<int>, a: int, b: int, from: int, to: int)
    requires from <= a && b <= to
    ensures CountIn(log, a, b) <= CountIn(log, from, to)
    decreases |log|
  {
    if log != [] {
      CountNarrows(log[..|log| - 1], a, b, from, to);
    }
  }

  lemma CountOneMore(log: seq<int>, last: int, from: int, to: int)
    ensures CountIn(log + [last], from, to) == CountIn(log, from, to) + (if from <= last <= to then 1 else 0)
  {
    assert (log + [last])[..|log|] == log;
  }
}
