/** What the status of a response action says about its past: who proposed and decided it, and how its effect ended. */
module ResponseHistory {
  import opened Options
  import opened ResponseActions

  /** What one event does for an action. */
  datatype Deed = Approving | Rejecting | Succeeding | Failing

  /** A decision that counts: of a proposed action, not by its proposer, and not to use AWS where that is disabled. */
  predicate Decides(w: World, e: Event, id: Id, approve: bool) {
    e.Decide? && e.id == id && e.approve == approve && id in w.actions
    && w.actions[id].status == Proposed && w.actions[id].proposedBy != e.user
    && (approve && w.actions[id].actionType != RevokeAppSessions ==> e.awsEnabled)
  }

  /** The agent that is executing the action ends its effect. */
  predicate Ends(w: World, e: Event, id: Id, ok: bool) {
    e.Finish? && e.ok == ok && e.agent < |w.agents| && w.agents[e.agent].Executing? && w.agents[e.agent].id == id
  }

  predicate Does(w: World, e: Event, id: Id, deed: Deed) {
    match deed
    case Approving => Decides(w, e, id, true)
    case Rejecting => Decides(w, e, id, false)
    case Succeeding => Ends(w, e, id, true)
    case Failing => Ends(w, e, id, false)
  }

  ghost predicate Happens(w: World, events: seq<Event>, id: Id, deed: Deed)
    requires IsRun(w, events)
    decreases |events|
  {
    events != [] && (Does(w, events[0], id, deed) || Happens(Next(w, events[0]), events[1..], id, deed))
  }

  /** The statuses that an action has from then on. */
  predicate Shows(w: World, id: Id, deed: Deed) {
    match deed
    case Approving =>
      HasStatus(w, id, Approved) || HasStatus(w, id, Running) || HasStatus(w, id, Succeeded) || HasStatus(w, id, Failed)
    case Rejecting => HasStatus(w, id, Rejected)
    case Succeeding => HasStatus(w, id, Succeeded)
    case Failing => HasStatus(w, id, Failed)
  }

  lemma {:induction false} DecisionShows(w: World, e: Event, id: Id, deed: Deed)
    requires Inv(w) && Enabled(w, e) && (deed.Approving? || deed.Rejecting?)
    ensures Shows(Next(w, e), id, deed) <==> Shows(w, id, deed) || Does(w, e, id, deed)
  {
    if e.Finish? {
      ExecutingIsRunning(w, e.agent);
    }
  }

  lemma {:induction false} EffectShows(w: World, e: Event, id: Id, deed: Deed)
    requires Inv(w) && Enabled(w, e) && (deed.Succeeding? || deed.Failing?)
    ensures Shows(Next(w, e), id, deed) <==> Shows(w, id, deed) || Does(w, e, id, deed)
  {
    if e.Finish? {
      ExecutingIsRunning(w, e.agent);
    }
  }

  lemma {:induction false} EventShows(w: World, e: Event, id: Id, deed: Deed)
    requires Inv(w) && Enabled(w, e)
    ensures Shows(Next(w, e), id, deed) <==> Shows(w, id, deed) || Does(w, e, id, deed)
  {
    if deed.Approving? || deed.Rejecting? {
      DecisionShows(w, e, id, deed);
    } else {
      EffectShows(w, e, id, deed);
    }
  }

  lemma {:induction false} RunShows(w: World, events: seq<Event>, id: Id, deed: Deed)
    requires Inv(w) && IsRun(w, events)
    ensures Shows(Run(w, events), id, deed) <==> Shows(w, id, deed) || Happens(w, events, id, deed)
    decreases |events|
  {
    if events != [] {
      EventShows(w, events[0], id, deed);
      EventKeepsInv(w, events[0]);
      RunShows(Next(w, events[0]), events[1..], id, deed);
    }
  }

  /**
   * Over every run: an action is succeeded if and only if the agent that was executing it ended its effect well, failed
   * if and only if that agent ended it badly, rejected if and only if somebody else than its proposer rejected it while
   * it was proposed, and approved or further if and only if such a person approved it.
   */
  lemma {:induction false} StatusTellsPast(agents: nat, events: seq<Event>, id: Id)
    requires IsRun(Start(agents), events)
    ensures var w := Run(Start(agents), events);
      && (HasStatus(w, id, Succeeded) <==> Happens(Start(agents), events, id, Succeeding))
      && (HasStatus(w, id, Failed) <==> Happens(Start(agents), events, id, Failing))
      && (HasStatus(w, id, Rejected) <==> Happens(Start(agents), events, id, Rejecting))
      && (HasStatus(w, id, Approved) || HasStatus(w, id, Running) || HasStatus(w, id, Succeeded) || HasStatus(w, id, Failed)
          <==> Happens(Start(agents), events, id, Approving))
  {
    StartInv(agents);
    RunShows(Start(agents), events, id, Succeeding);
    RunShows(Start(agents), events, id, Failing);
    RunShows(Start(agents), events, id, Rejecting);
    RunShows(Start(agents), events, id, Approving);
  }

  // ---------------------------------------------------------------- who and what

  /** A valid proposal under a key that has no action yet. */
  predicate Proposes(w: World, e: Event, id: Id, action: Action) {
    e.Propose? && e.newId == id && e.valid && e.key !in w.byKey
    && action.key == e.key && action.actionType == e.actionType && action.target == e.target && action.proposedBy == e.user
  }

  ghost predicate ProposedIn(w: World, events: seq<Event>, id: Id, action: Action)
    requires IsRun(w, events)
    decreases |events|
  {
    events != []
    && (Proposes(w, events[0], id, action) || ProposedIn(Next(w, events[0]), events[1..], id, action))
  }

  /** The action as far as its proposal fixed it. */
  predicate SameProposal(a: Action, b: Action) {
    a.key == b.key && a.actionType == b.actionType && a.target == b.target && a.proposedBy == b.proposedBy
  }

  predicate Stored(w: World, id: Id, action: Action) {
    id in w.actions && SameProposal(w.actions[id], action)
  }

  lemma {:induction false} EventStores(w: World, e: Event, id: Id, action: Action)
    requires Inv(w) && Enabled(w, e)
    ensures Stored(Next(w, e), id, action) <==> Stored(w, id, action) || Proposes(w, e, id, action)
  {
    if id in w.actions {
      EventMovesStatus(w, e, id);
    }
  }

  lemma {:induction false} RunStores(w: World, events: seq<Event>, id: Id, action: Action)
    requires Inv(w) && IsRun(w, events)
    ensures Stored(Run(w, events), id, action) <==> Stored(w, id, action) || ProposedIn(w, events, id, action)
    decreases |events|
  {
    if events != [] {
      EventStores(w, events[0], id, action);
      EventKeepsInv(w, events[0]);
      RunStores(Next(w, events[0]), events[1..], id, action);
    }
  }

  /** Over every run an action is stored exactly if it was proposed, with the content and proposer of that proposal. */
  lemma {:induction false} StoredIffProposed(agents: nat, events: seq<Event>, id: Id, action: Action)
    requires IsRun(Start(agents), events)
    ensures Stored(Run(Start(agents), events), id, action) <==> ProposedIn(Start(agents), events, id, action)
  {
    StartInv(agents);
    RunStores(Start(agents), events, id, action);
  }
}
