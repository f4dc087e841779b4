/**
 * Recovery sweeps with everything else going on: other workers, other sweeps, queue entries, proposals and rejections
 * in between. Only new approvals can keep the approved actions from being drained.
 */
module ResponseSweeps {
  import opened Options
  import opened ResponseActions

  predicate NoApproval(events: seq<Event>) {
    forall e | e in events :: !(e.Decide? && e.approve)
  }

  /** Whether the agent's present work came from a sweep, after one more event. */
  predicate SweepingAfter(e: Event, agent: nat, sweeping: bool) {
    if e.Propose? || e.agent != agent then sweeping
    else if e.Sweep? then true
    else if e.Pop? || e.Done? then false
    else sweeping
  }

  /** How many sweeps the agent brings to their end. */
  function Completed(events: seq<Event>, agent: nat, sweeping: bool): nat {
    if events == [] then
      0
    else
      (if sweeping && events[0] == Done(agent) then 1 else 0)
      + Completed(events[1..], agent, SweepingAfter(events[0], agent, sweeping))
  }

  /** The ids an agent still has to try. */
  function Remaining(w: World, agent: nat): set<Id> {
    if agent >= |w.agents| then {}
    else match w.agents[agent]
      case Draining(ids) => Ids(ids)
      case Executing(_, ids) => Ids(ids)
      case _ => {}
  }

  /** What one more complete sweep of the agent cannot reach. */
  function Beyond(w: World, agent: nat, sweeping: bool): set<Id> {
    if sweeping then ApprovedIds(w.actions) - Remaining(w, agent) else ApprovedIds(w.actions)
  }

  function Less(k: nat, sweeps: nat): nat {
    if k <= 100 * sweeps then 0 else k - 100 * sweeps
  }

  /** At most how many of `approved` actions stay so when an agent, which now leaves `beyond`, completes `n` sweeps. */
  function BoundOf(approved: nat, beyond: nat, sweeping: bool, n: nat): nat {
    if sweeping && n > 0 then Less(beyond, n - 1) else Less(approved, n)
  }

  function Bound(w: World, agent: nat, sweeping: bool, n: nat): nat {
    BoundOf(|ApprovedIds(w.actions)|, |Beyond(w, agent, sweeping)|, sweeping, n)
  }

  /** An agent that sweeps is draining a page, or executing one of its actions. */
  predicate Busy(w: World, agent: nat, sweeping: bool) {
    sweeping ==> agent < |w.agents| && (w.agents[agent].Draining? || w.agents[agent].Executing?)
  }

  lemma {:induction false} Smaller(a: set<Id>, b: set<Id>)
    requires a <= b
    ensures |a| <= |b|
  {
    if a != b {
      assert b == a + (b - a);
    }
  }

  /** Without an approval nothing becomes approved, and nothing escapes what an agent has to try. */
  lemma {:induction false} ApprovedShrink(w: World, e: Event)
    requires Enabled(w, e) && !(e.Decide? && e.approve)
    requires e.Finish? ==> HasStatus(w, w.agents[e.agent].id, Running)
    ensures ApprovedIds(Next(w, e).actions) <= ApprovedIds(w.actions)
  {
  }

  /** The acting agent takes from its ids only what it has tried: that is no longer approved. */
  lemma {:induction false} BeyondShrinks(w: World, e: Event, agent: nat)
    requires Inv(w) && Enabled(w, e) && !(e.Decide? && e.approve)
    requires agent < |w.agents| && (w.agents[agent].Draining? || w.agents[agent].Executing?) && e != Done(agent)
    ensures Beyond(Next(w, e), agent, true) <= Beyond(w, agent, true)
  {
    if e.Finish? {
      ExecutingIsRunning(w, e.agent);
    }
    ApprovedShrink(w, e);
    if e == Claim(agent) {
      var ids := w.agents[agent].ids;
      assert Ids(ids) <= {ids[0]} + Ids(ids[1..]) by {
        assert ids == [ids[0]] + ids[1..];
      }
    }
  }

  /** A sweep takes a full page, or everything there is. */
  lemma {:induction false} SweepReaches(w: World, agent: nat, page: seq<Id>)
    requires Enabled(w, Sweep(agent, page))
    ensures |Beyond(Next(w, Sweep(agent, page)), agent, true)| == Less(|ApprovedIds(w.actions)|, 1)
  {
    PageSize(page);
    assert Ids(page) <= ApprovedIds(w.actions);
    assert Beyond(Next(w, Sweep(agent, page)), agent, true) == ApprovedIds(w.actions) - Ids(page);
  }

  lemma {:induction false} LessAgain(k: nat, sweeps: nat)
    requires sweeps > 0
    ensures Less(Less(k, 1), sweeps - 1) == Less(k, sweeps)
  {
  }

  lemma {:induction false} StaysBusy(w: World, e: Event, agent: nat, sweeping: bool)
    requires Enabled(w, e) && Busy(w, agent, sweeping)
    ensures Busy(Next(w, e), agent, SweepingAfter(e, agent, sweeping))
  {
  }

  lemma {:induction false} ApprovedStayFew(w: World, e: Event)
    requires Inv(w) && Enabled(w, e) && !(e.Decide? && e.approve)
    ensures |ApprovedIds(Next(w, e).actions)| <= |ApprovedIds(w.actions)|
  {
    if e.Finish? {
      ExecutingIsRunning(w, e.agent);
    }
    ApprovedShrink(w, e);
    Smaller(ApprovedIds(Next(w, e).actions), ApprovedIds(w.actions));
  }

  lemma {:induction false} BeyondStaysFew(w: World, e: Event, agent: nat)
    requires Inv(w) && Enabled(w, e) && !(e.Decide? && e.approve) && Busy(w, agent, true) && e != Done(agent)
    ensures |Beyond(Next(w, e), agent, true)| <= |Beyond(w, agent, true)|
  {
    BeyondShrinks(w, e, agent);
    Smaller(Beyond(Next(w, e), agent, true), Beyond(w, agent, true));
  }

  lemma {:induction false} DoneReachedAll(w: World, agent: nat)
    requires Enabled(w, Done(agent))
    ensures Beyond(w, agent, true) == ApprovedIds(w.actions)
  {
  }

  lemma {:induction false} BoundFalls(approved: nat, beyond: nat, fewer: nat, less: nat, sweeping: bool, n: nat)
    requires fewer <= approved && (sweeping ==> less <= beyond)
    ensures BoundOf(fewer, less, sweeping, n) <= BoundOf(approved, beyond, sweeping, n)
  {
  }

  /** Beginning a sweep, or ending one, changes how the same bound is counted. */
  lemma {:induction false} BoundTurns(approved: nat, n: nat)
    ensures BoundOf(approved, Less(approved, 1), true, n) == Less(approved, n)
    ensures BoundOf(approved, approved, true, n + 1) == Less(approved, n)
  {
    if n > 0 {
      LessAgain(approved, n);
    }
  }

  lemma {:induction false} SweepKeepsBound(w: World, agent: nat, page: seq<Id>, sweeping: bool, n: nat)
    requires Inv(w) && Enabled(w, Sweep(agent, page)) && Busy(w, agent, sweeping)
    ensures Bound(Next(w, Sweep(agent, page)), agent, true, n) <= Bound(w, agent, sweeping, n)
  {
    SweepReaches(w, agent, page);
    BoundTurns(|ApprovedIds(w.actions)|, n);
  }

  lemma {:induction false} DoneKeepsBound(w: World, agent: nat, n: nat)
    requires Enabled(w, Done(agent))
    ensures Bound(Next(w, Done(agent)), agent, false, n) <= Bound(w, agent, true, n + 1)
  {
    DoneReachedAll(w, agent);
    BoundTurns(|ApprovedIds(w.actions)|, n);
  }

  lemma {:induction false} MoveKeepsBound(w: World, e: Event, agent: nat, sweeping: bool, n: nat)
    requires Inv(w) && Enabled(w, e) && !(e.Decide? && e.approve) && Busy(w, agent, sweeping)
    requires sweeping ==> e != Done(agent)
    ensures Bound(Next(w, e), agent, sweeping, n) <= Bound(w, agent, sweeping, n)
  {
    var after := Next(w, e);
    ApprovedStayFew(w, e);
    if sweeping {
      BeyondStaysFew(w, e, agent);
    }
    BoundFalls(|ApprovedIds(w.actions)|, |Beyond(w, agent, sweeping)|,
               |ApprovedIds(after.actions)|, |Beyond(after, agent, sweeping)|, sweeping, n);
  }

  lemma {:induction false} StepKeepsBound(w: World, e: Event, agent: nat, sweeping: bool, n: nat)
    requires Inv(w) && Enabled(w, e) && !(e.Decide? && e.approve) && Busy(w, agent, sweeping)
    ensures Bound(Next(w, e), agent, SweepingAfter(e, agent, sweeping), n)
         <= Bound(w, agent, sweeping, n + (if sweeping && e == Done(agent) then 1 else 0))
  {
    if e.Sweep? && e.agent == agent {
      SweepKeepsBound(w, agent, e.page, sweeping, n);
    } else if sweeping && e == Done(agent) {
      DoneKeepsBound(w, agent, n);
    } else {
      MoveKeepsBound(w, e, agent, sweeping, n);
    }
  }

  lemma {:induction false} RunKeepsBound(w: World, events: seq<Event>, agent: nat, sweeping: bool)
    requires Inv(w) && IsRun(w, events) && NoApproval(events) && Busy(w, agent, sweeping)
    ensures |ApprovedIds(Run(w, events).actions)| <= Bound(w, agent, sweeping, Completed(events, agent, sweeping))
    decreases |events|
  {
    if events == [] {
    } else {
      var e, rest := events[0], events[1..];
      assert e in events && forall other | other in rest :: other in events;
      var now := SweepingAfter(e, agent, sweeping);
      StaysBusy(w, e, agent, sweeping);
      StepKeepsBound(w, e, agent, sweeping, Completed(rest, agent, now));
      EventKeepsInv(w, e);
      RunKeepsBound(Next(w, e), rest, agent, now);
    }
  }

  /**
   * In every reachable state and every run from it without an approval, however the events of other agents fall
   * between: if one worker completes n sweeps, at most max(0, k - 100 n) of the k approved actions are left.
   */
  lemma {:induction false} InterleavedSweepsDrain(agents: nat, before: seq<Event>, events: seq<Event>, agent: nat)
    requires IsRun(Start(agents), before) && IsRun(Run(Start(agents), before), events) && NoApproval(events)
    ensures var w := Run(Start(agents), before);
      |ApprovedIds(Run(w, events).actions)| <= Less(|ApprovedIds(w.actions)|, Completed(events, agent, false))
  {
    StartInv(agents);
    RunKeepsInv(Start(agents), before);
    RunKeepsBound(Run(Start(agents), before), events, agent, false);
  }
}
