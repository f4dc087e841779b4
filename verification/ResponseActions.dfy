/**
 * The life of a response action: proposed by one analyst, decided by another, queued, and executed by workers that
 * also sweep for approved actions the queue may have lost. Events of all agents interleave freely; ids may sit in
 * the queue and in several workers' hands at once.
 */
module ResponseActions {
  import opened Options

  type Id = nat
  type UserId = nat

  datatype ActionType = RevokeAppSessions | DisableAwsAccessKey | BlockS3PublicAccess

  datatype Status = Proposed | Approved | Rejected | Running | Succeeded | Failed

  datatype Key = Key(incident: nat, idempotencyKey: string)

  datatype Action = Action(
    key: Key,
    actionType: ActionType,
    target: string,
    status: Status,
    proposedBy: UserId,
    approvedBy: Option<UserId>)

  const SWEEP_LIMIT := 100

  datatype Agent =
    | Idle
    | PendingPush(id: Id)                   // an approval is committed and not yet in the queue
    | Draining(ids: seq<Id>)                // a worker has these ids still to try
    | Executing(id: Id, ids: seq<Id>)       // a worker has claimed `id` and runs its effect

  /** `started` is history: the effects that have begun, in order. */
  datatype World = World(
    actions: map<Id, Action>,
    byKey: map<Key, Id>,
    queue: seq<Id>,
    agents: seq<Agent>,
    started: seq<Id>)

  /** `valid` covers what a proposal is checked for outside this table: incident, evidence and target exist. */
  datatype Event =
    | Propose(key: Key, actionType: ActionType, target: string, user: UserId, newId: Id, valid: bool)
    | Decide(agent: nat, id: Id, user: UserId, approve: bool, awsEnabled: bool)
    | Push(agent: nat)
    | PushLost(agent: nat)
    | Pop(agent: nat)
    | Sweep(agent: nat, page: seq<Id>)
    | Claim(agent: nat)
    | Finish(agent: nat, ok: bool)
    | Done(agent: nat)

  function Start(agents: nat): World {
    World(map[], map[], [], seq(agents, i => Idle), [])
  }

  /** `decide` raises unless all of this holds. */
  predicate CanDecide(action: Action, user: UserId, approve: bool, awsEnabled: bool) {
    action.status == Proposed && action.proposedBy != user
    && (approve && action.actionType != RevokeAppSessions ==> awsEnabled)
  }

  function Decided(action: Action, user: UserId, approve: bool): Action {
    action.(status := if approve then Approved else Rejected, approvedBy := Some(user))
  }

  function Finished(action: Action, ok: bool): Action {
    action.(status := if ok then Succeeded else Failed)
  }

  function ApprovedIds(actions: map<Id, Action>): set<Id> {
    set id | id in actions && actions[id].status == Approved
  }

  /** What the sweep's query answers: up to the limit of the approved actions, in no particular order. */
  ghost predicate IsPage(actions: map<Id, Action>, page: seq<Id>) {
    && (forall i | 0 <= i < |page| :: page[i] in ApprovedIds(actions))
    && (forall i, j | 0 <= i < j < |page| :: page[i] != page[j])
    && |page| == if |ApprovedIds(actions)| <= 100 then |ApprovedIds(actions)| else 100
  }

  ghost predicate Enabled(w: World, e: Event) {
    if e.Propose? then
      e.newId !in w.actions
    else
      e.agent < |w.agents|
      && var a := w.agents[e.agent];
      match e
      case Decide(_, _, _, _, _) => a.Idle?
      case Push(_) => a.PendingPush?
      case PushLost(_) => a.PendingPush?
      case Pop(_) => a.Idle? && w.queue != []
      case Sweep(_, page) => a.Idle? && IsPage(w.actions, page)
      case Claim(_) => a.Draining? && a.ids != []
      case Finish(_, _) => a.Executing? && a.id in w.actions
      case Done(_) => a.Draining? && a.ids == []
      case _ => false
  }

  function Next(w: World, e: Event): World
    requires Enabled(w, e)
  {
    match e
    case Propose(key, actionType, target, user, newId, valid) =>
      if key in w.byKey || !valid then
        w
      else
        w.(actions := w.actions[newId := Action(key, actionType, target, Proposed, user, None)],
           byKey := w.byKey[key := newId])
    case Decide(i, id, user, approve, awsEnabled) =>
      if id in w.actions && CanDecide(w.actions[id], user, approve, awsEnabled) then
        w.(actions := w.actions[id := Decided(w.actions[id], user, approve)],
           agents := if approve then w.agents[i := PendingPush(id)] else w.agents)
      else
        w
    case Push(i) => w.(queue := w.queue + [w.agents[i].id], agents := w.agents[i := Idle])
    case PushLost(i) => w.(agents := w.agents[i := Idle])
    case Pop(i) => w.(queue := w.queue[1..], agents := w.agents[i := Draining([w.queue[0]])])
    case Sweep(i, page) => w.(agents := w.agents[i := Draining(page)])
    case Claim(i) =>
      var id, rest := w.agents[i].ids[0], w.agents[i].ids[1..];
      if id in w.actions && w.actions[id].status == Approved then
        w.(actions := w.actions[id := w.actions[id].(status := Running)],
           agents := w.agents[i := Executing(id, rest)], started := w.started + [id])
      else
        w.(agents := w.agents[i := Draining(rest)])
    case Finish(i, ok) =>
      var a := w.agents[i];
      w.(actions := w.actions[a.id := Finished(w.actions[a.id], ok)], agents := w.agents[i := Draining(a.ids)])
    case Done(i) => w.(agents := w.agents[i := Idle])
  }

  // ---------------------------------------------------------------- the invariant

  function Executes(a: Agent, id: Id): nat {
    if a.Executing? && a.id == id then 1 else 0
  }

  function Executors(agents: seq<Agent>, id: Id): nat {
    if agents == [] then 0 else Executes(agents[0], id) + Executors(agents[1..], id)
  }

  lemma {:induction false} UpdateExecutors(agents: seq<Agent>, i: nat, a: Agent, id: Id)
    requires i < |agents|
    ensures Executors(agents[i := a], id) == Executors(agents, id) - Executes(agents[i], id) + Executes(a, id)
    decreases |agents|
  {
    if i == 0 {
      assert agents[i := a][1..] == agents[1..];
    } else {
      assert agents[i := a][1..] == agents[1..][i - 1 := a];
      UpdateExecutors(agents[1..], i - 1, a, id);
    }
  }

  predicate HasStatus(w: World, id: Id, status: Status) {
    id in w.actions && w.actions[id].status == status
  }

  predicate HasStarted(w: World, id: Id) {
    HasStatus(w, id, Running) || HasStatus(w, id, Succeeded) || HasStatus(w, id, Failed)
  }

  /** The effect has begun once exactly when the action is running or ended; it has an executor while it runs. */
  ghost predicate StartedOnce(w: World, id: Id) {
    multiset(w.started)[id] == (if HasStarted(w, id) then 1 else 0)
    && Executors(w.agents, id) == (if HasStatus(w, id, Running) then 1 else 0)
  }

  /** Whatever has left the proposed state was decided by someone other than its proposer. */
  ghost predicate TwoPersons(action: Action) {
    action.status != Proposed ==> action.approvedBy.Some? && action.approvedBy.value != action.proposedBy
  }

  ghost predicate Inv(w: World) {
    && (forall id :: StartedOnce(w, id))
    && (forall id | id in w.actions :: TwoPersons(w.actions[id]))
    && (forall key | key in w.byKey :: w.byKey[key] in w.actions && w.actions[w.byKey[key]].key == key)
    && (forall id | id in w.actions :: w.actions[id].key in w.byKey && w.byKey[w.actions[id].key] == id)
  }

  lemma {:induction false} StartInv(agents: nat)
    ensures Inv(Start(agents))
  {
    forall id ensures StartedOnce(Start(agents), id) {
      IdleExecutors(Start(agents).agents, id);
    }
  }

  lemma {:induction false} IdleExecutors(agents: seq<Agent>, id: Id)
    requires forall i | 0 <= i < |agents| :: agents[i].Idle?
    ensures Executors(agents, id) == 0
    decreases |agents|
  {
    if agents != [] {
      IdleExecutors(agents[1..], id);
    }
  }

  lemma {:induction false} ExecutingIsRunning(w: World, i: nat)
    requires Inv(w) && i < |w.agents| && w.agents[i].Executing?
    ensures HasStatus(w, w.agents[i].id, Running)
  {
    UpdateExecutors(w.agents, i, Idle, w.agents[i].id);
    assert StartedOnce(w, w.agents[i].id);
  }

  lemma {:induction false} ClaimKeepsStartedOnce(w: World, i: nat, id: Id)
    requires StartedOnce(w, id) && Enabled(w, Claim(i))
    ensures StartedOnce(Next(w, Claim(i)), id)
  {
    UpdateExecutors(w.agents, i, Next(w, Claim(i)).agents[i], id);
  }

  lemma {:induction false} FinishKeepsStartedOnce(w: World, i: nat, ok: bool, id: Id)
    requires Inv(w) && Enabled(w, Finish(i, ok))
    ensures StartedOnce(Next(w, Finish(i, ok)), id)
  {
    assert StartedOnce(w, id);
    ExecutingIsRunning(w, i);
    UpdateExecutors(w.agents, i, Next(w, Finish(i, ok)).agents[i], id);
  }

  lemma {:induction false} MoveKeepsStartedOnce(w: World, e: Event, id: Id)
    requires StartedOnce(w, id) && Enabled(w, e) && !e.Propose? && !e.Claim? && !e.Finish?
    ensures StartedOnce(Next(w, e), id)
  {
    UpdateExecutors(w.agents, e.agent, Next(w, e).agents[e.agent], id);
  }

  lemma {:induction false} EventKeepsStartedOnce(w: World, e: Event, id: Id)
    requires Inv(w) && Enabled(w, e)
    ensures StartedOnce(Next(w, e), id)
  {
    assert StartedOnce(w, id);
    if e.Claim? {
      ClaimKeepsStartedOnce(w, e.agent, id);
    } else if e.Finish? {
      FinishKeepsStartedOnce(w, e.agent, e.ok, id);
    } else if !e.Propose? {
      MoveKeepsStartedOnce(w, e, id);
    }
  }

  lemma {:induction false} EventKeepsInv(w: World, e: Event)
    requires Inv(w) && Enabled(w, e)
    ensures Inv(Next(w, e))
  {
    forall id ensures StartedOnce(Next(w, e), id) {
      EventKeepsStartedOnce(w, e, id);
    }
    if e.Finish? {
      ExecutingIsRunning(w, e.agent);
    }
  }

  // ---------------------------------------------------------------- where an action can go

  /** One step of the life cycle. */
  predicate StatusStep(before: Status, after: Status) {
    match before
    case Proposed => after == Approved || after == Rejected
    case Approved => after == Running
    case Running => after == Succeeded || after == Failed
    case _ => false
  }

  /** Any number of steps. */
  predicate CanBecome(before: Status, after: Status) {
    match before
    case Proposed => true
    case Approved => after != Proposed && after != Rejected
    case Running => after == Running || after == Succeeded || after == Failed
    case _ => after == before
  }

  /** Everything but the status, and the decider once there is one, is fixed at the proposal. */
  ghost predicate SameAction(before: Action, after: Action) {
    after.key == before.key && after.actionType == before.actionType && after.target == before.target
    && after.proposedBy == before.proposedBy
    && (before.status != Proposed ==> after.approvedBy == before.approvedBy)
  }

  lemma {:induction false} EventMovesStatus(w: World, e: Event, id: Id)
    requires Inv(w) && Enabled(w, e) && id in w.actions
    ensures id in Next(w, e).actions && SameAction(w.actions[id], Next(w, e).actions[id])
    ensures var before, after := w.actions[id].status, Next(w, e).actions[id].status;
      before == after || StatusStep(before, after)
    ensures w.actions[id].status == Proposed && Next(w, e).actions[id].status != Proposed ==>
      e.Decide? && e.id == id && e.user != w.actions[id].proposedBy && Next(w, e).actions[id].approvedBy == Some(e.user)
  {
    if e.Finish? {
      ExecutingIsRunning(w, e.agent);
    }
  }

  ghost predicate IsRun(w: World, events: seq<Event>)
    decreases |events|
  {
    events == [] || (Enabled(w, events[0]) && IsRun(Next(w, events[0]), events[1..]))
  }

  ghost function Run(w: World, events: seq<Event>): World
    requires IsRun(w, events)
    decreases |events|
  {
    if events == [] then w else Run(Next(w, events[0]), events[1..])
  }

  lemma {:induction false} RunKeepsInv(w: World, events: seq<Event>)
    requires Inv(w) && IsRun(w, events)
    ensures Inv(Run(w, events))
    decreases |events|
  {
    if events != [] {
      EventKeepsInv(w, events[0]);
      RunKeepsInv(Next(w, events[0]), events[1..]);
    }
  }

  /** Over any run an action keeps its content and moves forward only; a final status never changes. */
  lemma {:induction false} RunMovesForward(w: World, events: seq<Event>, id: Id)
    requires Inv(w) && IsRun(w, events) && id in w.actions
    ensures id in Run(w, events).actions && SameAction(w.actions[id], Run(w, events).actions[id])
    ensures CanBecome(w.actions[id].status, Run(w, events).actions[id].status)
    decreases |events|
  {
    if events != [] {
      EventMovesStatus(w, events[0], id);
      EventKeepsInv(w, events[0]);
      RunMovesForward(Next(w, events[0]), events[1..], id);
    }
  }

  /**
   * In every run, with any number of workers, duplicated queue entries, lost pushes and overlapping sweeps: an
   * action's effect begins at most once, only for an action that someone other than its proposer approved; and it
   * has begun exactly when the action is running or ended.
   */
  lemma {:induction false} AtMostOnceByTwoPersons(agents: nat, events: seq<Event>, id: Id)
    requires IsRun(Start(agents), events)
    ensures var w := Run(Start(agents), events);
      multiset(w.started)[id] <= 1
      && (id in w.started <==> HasStarted(w, id))
      && (id in w.started ==> w.actions[id].approvedBy.Some?)
      && (id in w.started ==> w.actions[id].approvedBy.value != w.actions[id].proposedBy)
  {
    StartInv(agents);
    RunKeepsInv(Start(agents), events);
    assert StartedOnce(Run(Start(agents), events), id);
  }

  /** Proposals with one idempotency key are one action. */
  lemma {:induction false} OneActionPerKey(agents: nat, events: seq<Event>, a: Id, b: Id)
    requires IsRun(Start(agents), events)
    requires var w := Run(Start(agents), events); a in w.actions && b in w.actions && w.actions[a].key == w.actions[b].key
    ensures a == b
  {
    StartInv(agents);
    RunKeepsInv(Start(agents), events);
  }

  // ---------------------------------------------------------------- draining by sweeps

  function SweepEvents(agent: nat, page: seq<Id>, oks: seq<bool>): seq<Event>
    requires |oks| == |page|
  {
    if page == [] then
      [Done(agent)]
    else
      [Claim(agent), Finish(agent, oks[0])] + SweepEvents(agent, page[1..], oks[1..])
  }

  function Ids(page: seq<Id>): set<Id> {
    set id | id in page
  }

  lemma {:induction false} ExecuteFirst(w: World, agent: nat, page: seq<Id>, ok: bool)
    requires agent < |w.agents| && w.agents[agent] == Draining(page)
    requires page != [] && page[0] in ApprovedIds(w.actions)
    ensures Enabled(w, Claim(agent)) && Enabled(Next(w, Claim(agent)), Finish(agent, ok))
    ensures var after := Next(Next(w, Claim(agent)), Finish(agent, ok));
      ApprovedIds(after.actions) == ApprovedIds(w.actions) - {page[0]}
      && after.agents == w.agents[agent := Draining(page[1..])] && after.started == w.started + [page[0]]
  {
  }

  lemma {:induction false} RunTwo(w: World, e1: Event, e2: Event, rest: seq<Event>)
    requires Enabled(w, e1) && Enabled(Next(w, e1), e2) && IsRun(Next(Next(w, e1), e2), rest)
    ensures IsRun(w, [e1, e2] + rest)
    ensures Run(w, [e1, e2] + rest) == Run(Next(Next(w, e1), e2), rest)
  {
    var events := [e1, e2] + rest;
    assert events[1..] == [e2] + rest;
    assert events[1..][1..] == rest;
  }

  lemma {:induction false} SweepExecutesPage(w: World, agent: nat, page: seq<Id>, oks: seq<bool>)
    requires agent < |w.agents| && w.agents[agent] == Draining(page) && |oks| == |page|
    requires forall i | 0 <= i < |page| :: page[i] in ApprovedIds(w.actions)
    requires forall i, j | 0 <= i < j < |page| :: page[i] != page[j]
    ensures IsRun(w, SweepEvents(agent, page, oks))
    ensures var after := Run(w, SweepEvents(agent, page, oks));
      ApprovedIds(after.actions) == ApprovedIds(w.actions) - Ids(page)
      && after.agents == w.agents[agent := Idle] && after.started == w.started + page
    decreases |page|
  {
    if page == [] {
      EmptySweep(w, agent);
    } else {
      ExecuteFirst(w, agent, page, oks[0]);
      var w2 := Next(Next(w, Claim(agent)), Finish(agent, oks[0]));
      RestOfPage(w, w2, page);
      SweepExecutesPage(w2, agent, page[1..], oks[1..]);
      RunTwo(w, Claim(agent), Finish(agent, oks[0]), SweepEvents(agent, page[1..], oks[1..]));
    }
  }

  lemma {:induction false} EmptySweep(w: World, agent: nat)
    requires agent < |w.agents| && w.agents[agent] == Draining([])
    ensures IsRun(w, [Done(agent)]) && Run(w, [Done(agent)]) == w.(agents := w.agents[agent := Idle])
  {
    assert [Done(agent)][1..] == [];
  }

  lemma {:induction false} RestOfPage(w: World, w2: World, page: seq<Id>)
    requires page != []
    requires forall i | 0 <= i < |page| :: page[i] in ApprovedIds(w.actions)
    requires forall i, j | 0 <= i < j < |page| :: page[i] != page[j]
    requires ApprovedIds(w2.actions) == ApprovedIds(w.actions) - {page[0]} && w2.started == w.started + [page[0]]
    ensures forall i | 0 <= i < |page[1..]| :: page[1..][i] in ApprovedIds(w2.actions)
    ensures Ids(page) == {page[0]} + Ids(page[1..])
    ensures w2.started + page[1..] == w.started + page
  {
    forall i | 0 <= i < |page[1..]| ensures page[1..][i] in ApprovedIds(w2.actions) {
      assert page[1..][i] == page[i + 1];
    }
  }

  lemma {:induction false} PageSize(page: seq<Id>)
    requires forall i, j | 0 <= i < j < |page| :: page[i] != page[j]
    ensures |Ids(page)| == |page|
    decreases |page|
  {
    if page != [] {
      PageSize(page[1..]);
      assert page[0] !in page[1..];
      assert Ids(page) == {page[0]} + Ids(page[1..]);
    }
  }

  /** A sequence of complete sweeps by one worker with nothing else going on, each page chosen by the database. */
  ghost predicate Sweeps(w: World, agent: nat, pages: seq<seq<Id>>, oks: seq<seq<bool>>, end: World)
    decreases |pages|
  {
    if pages == [] then
      end == w
    else
      oks != [] && |oks[0]| == |pages[0]| && Enabled(w, Sweep(agent, pages[0]))
      && var begun := Next(w, Sweep(agent, pages[0]));
      IsRun(begun, SweepEvents(agent, pages[0], oks[0]))
      && Sweeps(Run(begun, SweepEvents(agent, pages[0], oks[0])), agent, pages[1..], oks[1..], end)
  }

  /**
   * However the database chooses its pages, n sweeps leave exactly max(0, k - 100 n) of k approved actions: the
   * approved actions are drained if and only if there were at least ceil(k / 100) sweeps.
   */
  lemma {:induction false} SweepsDrain(w: World, agent: nat, pages: seq<seq<Id>>, oks: seq<seq<bool>>, end: World)
    requires Sweeps(w, agent, pages, oks, end)
    ensures var k := |ApprovedIds(w.actions)|;
      |ApprovedIds(end.actions)| == (if k <= 100 * |pages| then 0 else k - 100 * |pages|)
    decreases |pages|
  {
    if pages != [] {
      var page := pages[0];
      var begun := Next(w, Sweep(agent, page));
      SweepExecutesPage(begun, agent, page, oks[0]);
      PageSize(page);
      var after := Run(begun, SweepEvents(agent, page, oks[0]));
      assert |ApprovedIds(after.actions)| == |ApprovedIds(w.actions)| - |page| by {
        assert Ids(page) <= ApprovedIds(w.actions);
      }
      SweepsDrain(after, agent, pages[1..], oks[1..], end);
    }
  }

  // ---------------------------------------------------------------- the service and the worker, imperatively

  /** These actions have ended as their effects did; the others are as before. */
  ghost predicate Swept(before: map<Id, Action>, after: map<Id, Action>, done: seq<Id>, ok: Id -> bool) {
    after.Keys == before.Keys
    && forall id | id in after ::
      after[id] == if id in done then before[id].(status := if ok(id) then Succeeded else Failed) else before[id]
  }

  /** The next action of a page is still approved, and executing it is one action more. */
  lemma {:induction false} SweptOneMore(
      original: map<Id, Action>, before: map<Id, Action>, after: map<Id, Action>, page: seq<Id>, i: nat, ok: Id -> bool)
    requires IsPage(original, page) && i < |page| && Swept(original, before, page[..i], ok)
    requires page[i] in ApprovedIds(before) ==>
      after == before[page[i] := before[page[i]].(status := if ok(page[i]) then Succeeded else Failed)]
    ensures page[i] in ApprovedIds(before) && Swept(original, after, page[..i + 1], ok)
  {
    assert page[i] in ApprovedIds(original) && page[i] !in page[..i];
    assert page[..i + 1] == page[..i] + [page[i]];
  }

  lemma {:induction false} SweptApproved(before: map<Id, Action>, after: map<Id, Action>, done: seq<Id>, ok: Id -> bool)
    requires Swept(before, after, done, ok)
    ensures ApprovedIds(after) == ApprovedIds(before) - Ids(done)
  {
    forall id | id in after ensures id in ApprovedIds(after) <==> id in ApprovedIds(before) && id !in done {
      assert after[id] == if id in done then before[id].(status := if ok(id) then Succeeded else Failed) else before[id];
    }
  }

  class ResponseActionService {
    var actions: map<Id, Action>
    var byKey: map<Key, Id>
    var started: seq<Id>

    constructor ()
      ensures actions == map[] && byKey == map[] && started == []
    {
      actions, byKey, started := map[], map[], [];
    }

    /** As a world with one idle agent. */
    ghost function View(): World
      reads this
    {
      World(actions, byKey, [], [Idle], started)
    }

    /** The same key returns the action it already stands for, or raises when the request differs. */
    method Propose(key: Key, actionType: ActionType, target: string, user: UserId, newId: Id, valid: bool)
      returns (id: Option<Id>)
      requires newId !in actions
      requires forall k | k in byKey :: byKey[k] in actions
      modifies this`actions, this`byKey
      ensures View() == Next(old(View()), Event.Propose(key, actionType, target, user, newId, valid))
      ensures id.Some? ==> key in byKey && byKey[key] == id.value && id.value in actions
      ensures id.Some? ==> actions[id.value].actionType == actionType && actions[id.value].target == target
      ensures id.None? <==>
        if key in old(byKey) then
          var existing := old(actions)[old(byKey)[key]]; existing.actionType != actionType || existing.target != target
        else
          !valid
    {
      if key in byKey {
        var existing := actions[byKey[key]];
        if existing.actionType != actionType || existing.target != target {
          return None;
        }
        return Some(byKey[key]);
      }
      if !valid {
        return None;
      }
      actions := actions[newId := Action(key, actionType, target, Proposed, user, None)];
      byKey := byKey[key := newId];
      id := Some(newId);
    }

    method Decide(id: Id, user: UserId, approve: bool, awsEnabled: bool) returns (decided: bool)
      modifies this`actions
      ensures View() == Next(old(View()), Event.Decide(0, id, user, approve, awsEnabled)).(agents := [Idle])
      ensures decided <==>
        (id in old(actions) && old(actions)[id].status == Proposed && old(actions)[id].proposedBy != user
         && (approve && old(actions)[id].actionType != RevokeAppSessions ==> awsEnabled))
      ensures decided ==>
        actions == old(actions)[id :=
          old(actions)[id].(status := if approve then Approved else Rejected, approvedBy := Some(user))]
      ensures !decided ==> actions == old(actions)
    {
      if id !in actions {
        return false;
      }
      var action := actions[id];
      if action.status != Proposed || action.proposedBy == user {
        return false;
      }
      if approve && action.actionType != RevokeAppSessions && !awsEnabled {
        return false;
      }
      action := action.(status := if approve then Approved else Rejected);
      action := action.(approvedBy := Some(user));
      actions := actions[id := action];
      decided := true;
    }

    /** Claim, run the effect, record how it ended. Anything not approved is left alone. */
    method ExecuteAction(id: Id, ok: bool)
      modifies this`actions, this`started
      ensures id in ApprovedIds(old(actions)) ==>
        actions == old(actions)[id := old(actions)[id].(status := if ok then Succeeded else Failed)]
        && started == old(started) + [id]
      ensures id in ApprovedIds(old(actions)) ==>
        View() == Next(Next(old(View()).(agents := [Draining([id])]), Claim(0)), Finish(0, ok)).(agents := [Idle])
      ensures id !in ApprovedIds(old(actions)) ==> actions == old(actions) && started == old(started)
    {
      if id !in actions || actions[id].status != Approved {
        return;
      }
      actions := actions[id := actions[id].(status := Running)];
      started := started + [id];
      actions := actions[id := Finished(actions[id], ok)];
    }

    /** The worker's sweep: read a page of approved ids, then execute them one by one. */
    method RecoverySweep(ok: Id -> bool) returns (page: seq<Id>)
      modifies this`actions, this`started
      ensures IsPage(old(actions), page) && Swept(old(actions), actions, page, ok)
      ensures ApprovedIds(actions) == ApprovedIds(old(actions)) - Ids(page)
      ensures started == old(started) + page
    {
      page := ReadPage();
      for i := 0 to |page|
        invariant Swept(old(actions), actions, page[..i], ok)
        invariant started == old(started) + page[..i]
      {
        ghost var before := actions;
        ExecuteAction(page[i], ok(page[i]));
        SweptOneMore(old(actions), before, actions, page, i, ok);
        assert page[..i + 1] == page[..i] + [page[i]];
      }
      assert page[..|page|] == page;
      SweptApproved(old(actions), actions, page, ok);
    }

    /** The sweep's query. */
    method ReadPage() returns (page: seq<Id>)
      ensures IsPage(actions, page)
    {
      page := [];
      var todo := ApprovedIds(actions);
      while todo != {} && |page| < SWEEP_LIMIT
        invariant todo <= ApprovedIds(actions) && |page| <= SWEEP_LIMIT
        invariant |page| + |todo| == |ApprovedIds(actions)|
        invariant forall i | 0 <= i < |page| :: page[i] in ApprovedIds(actions) && page[i] !in todo
        invariant forall i, j | 0 <= i < j < |page| :: page[i] != page[j]
        decreases todo
      {
        var id :| id in todo;
        todo := todo - {id};
        page := page + [id];
      }
    }
  }
}
