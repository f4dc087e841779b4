/**
 * The life of an investigation across its database row, the ready list and the delayed set. Requesters, workers and
 * promoters are agents; what each does between two commits or two queue commands is one event, and events interleave
 * freely.
 */
module InvestigationJobs {
  import opened Options

  type Id = nat
  type Context = nat

  datatype Status = Queued | Running | Completed | Failed

  /** What a completed run of the workflow hands over; texts stand for JSON. */
  datatype Answer = Answer(snapshot: string, result: string, responseIds: seq<string>, inputTokens: int, outputTokens: int)

  datatype Failure = Failure(error: string, errorClass: Option<string>, validationErrors: seq<string>)

  datatype Llm = Llm(provider: string, model: string)

  datatype Row = Row(
    context: Context,
    llm: Llm,
    status: Status,
    attempts: nat,
    queuedAt: int,
    startedAt: Option<int>,
    completedAt: Option<int>,
    nextRetryAt: Option<int>,
    error: Option<string>,
    errorClass: Option<string>,
    validationErrors: seq<string>,
    answer: Option<Answer>,
    updatedAt: int)

  // ---------------------------------------------------------------- what the repository writes

  function CreatedRow(context: Context, llm: Llm, now: int): Row {
    Row(context, llm, Queued, 0, now, None, None, None, None, None, [], None, now)
  }

  function ClaimedRow(row: Row, now: int): Row {
    row.(status := Running, startedAt := Some(now), completedAt := None, error := None, errorClass := None,
         nextRetryAt := None, attempts := row.attempts + 1, updatedAt := now)
  }

  function RequeuedRow(row: Row, now: int, resetAttempts: bool): Row {
    row.(status := Queued, queuedAt := now, startedAt := None, completedAt := None, error := None, errorClass := None,
         nextRetryAt := None, validationErrors := [], attempts := if resetAttempts then 0 else row.attempts,
         updatedAt := now)
  }

  function RetriedRow(row: Row, now: int, delay: int, failure: Failure): Row {
    row.(status := Queued, queuedAt := now + delay, nextRetryAt := Some(now + delay), error := Some(Cut(failure.error)),
         errorClass := failure.errorClass, startedAt := None, completedAt := None, updatedAt := now)
  }

  function CompletedRow(row: Row, now: int, answer: Answer): Row {
    row.(status := Completed, answer := Some(answer), validationErrors := [], error := None, errorClass := None,
         nextRetryAt := None, completedAt := Some(now), updatedAt := now)
  }

  function FailedRow(row: Row, now: int, failure: Failure): Row {
    row.(status := Failed, error := Some(Cut(failure.error)), errorClass := failure.errorClass, nextRetryAt := None,
         validationErrors := failure.validationErrors, completedAt := Some(now), updatedAt := now)
  }

  function Cut(error: string): string {
    if |error| <= 4000 then error else error[..4000]
  }

  /** The time columns agree with the status. */
  ghost predicate RowFine(row: Row) {
    match row.status
    case Queued => row.startedAt.None? && row.completedAt.None?
    case Running =>
      row.startedAt.Some? && row.completedAt.None? && row.nextRetryAt.None? && row.error.None? && row.errorClass.None?
    case Completed =>
      row.completedAt.Some? && row.answer.Some? && row.nextRetryAt.None? && row.error.None? && row.errorClass.None?
    case Failed => row.completedAt.Some? && row.nextRetryAt.None? && row.error.Some?
  }

  // ---------------------------------------------------------------- the world

  datatype Agent =
    | Idle
    | PendingPush(id: Id)                      // a requester has committed and not yet pushed
    | Popped(id: Id)                           // a worker has popped and not yet claimed
    | Working(id: Id)                          // a worker runs a claimed job
    | PendingDelay(id: Id, readyAt: int)       // a retry is committed and not yet in the delayed set
    | Promoting(items: seq<Id>)                // a promoter works through its scan
    | Promoted(id: Id, items: seq<Id>)         // a promoter has removed an entry and not yet pushed it

  /** `submitted` and `abandoned` are history: how often a job was committed as queued, how often its push failed. */
  datatype World = World(
    rows: map<Id, Row>,
    byContext: map<Context, Id>,
    ready: seq<Id>,
    delayed: map<Id, int>,
    agents: seq<Agent>,
    submitted: multiset<Id>,
    abandoned: multiset<Id>)

  datatype Event =
    | Request(agent: nat, context: Context, llm: Llm, newId: Id, now: int)
    | Push(agent: nat)
    | PushFails(agent: nat, now: int, failure: Failure)
    | Pop(agent: nat)
    | Claim(agent: nat, now: int)
    | Complete(agent: nat, now: int, answer: Answer)
    | Fail(agent: nat, now: int, failure: Failure)
    | Retry(agent: nat, now: int, delay: int, failure: Failure)
    | Delay(agent: nat)
    | Scan(agent: nat, now: int, items: seq<Id>)
    | Remove(agent: nat)
    | PushPromoted(agent: nat)
    | EndScan(agent: nat)

  function Start(agents: nat): World {
    World(map[], map[], [], map[], seq(agents, i => Idle), multiset{}, multiset{})
  }

  /** What `zrangebyscore 0 now` answers: the due members, each once, by ascending score. */
  ghost predicate IsScan(delayed: map<Id, int>, now: int, items: seq<Id>) {
    && (forall id :: id in items <==> id in delayed && 0 <= delayed[id] <= now)
    && (forall i, j | 0 <= i < j < |items| :: items[i] != items[j] && delayed[items[i]] <= delayed[items[j]])
  }

  ghost predicate Enabled(w: World, e: Event) {
    e.agent < |w.agents|
    && var a := w.agents[e.agent];
    match e
    case Request(_, _, _, newId, _) => a.Idle? && newId !in w.rows
    case Push(_) => a.PendingPush?
    case PushFails(_, _, _) => a.PendingPush?
    case Pop(_) => a.Idle? && w.ready != []
    case Claim(_, _) => a.Popped?
    case Complete(_, _, _) => a.Working? && a.id in w.rows
    case Fail(_, _, _) => a.Working? && a.id in w.rows
    case Retry(_, _, _, _) => a.Working? && a.id in w.rows
    case Delay(_) => a.PendingDelay?
    case Scan(_, now, items) => a.Idle? && IsScan(w.delayed, now, items)
    case Remove(_) => a.Promoting? && a.items != []
    case PushPromoted(_) => a.Promoted?
    case EndScan(_) => a.Promoting? && a.items == []
  }

  ghost function Next(w: World, e: Event): World
    requires Enabled(w, e)
  {
    var i := e.agent;
    var a := w.agents[i];
    match e
    case Request(_, context, llm, newId, now) =>
      if context !in w.byContext then
        w.(rows := w.rows[newId := CreatedRow(context, llm, now)], byContext := w.byContext[context := newId],
           agents := w.agents[i := PendingPush(newId)], submitted := w.submitted + multiset{newId})
      else
        var id := w.byContext[context];
        if id in w.rows && w.rows[id].status == Failed then
          w.(rows := w.rows[id := RequeuedRow(w.rows[id].(llm := llm), now, false)],
             agents := w.agents[i := PendingPush(id)], submitted := w.submitted + multiset{id})
        else
          w
    case Push(_) => w.(ready := w.ready + [a.id], agents := w.agents[i := Idle])
    case PushFails(_, now, failure) =>
      if a.id in w.rows then
        w.(rows := w.rows[a.id := FailedRow(w.rows[a.id], now, failure)], agents := w.agents[i := Idle],
           abandoned := w.abandoned + multiset{a.id})
      else
        w.(agents := w.agents[i := Idle])
    case Pop(_) => w.(ready := w.ready[1..], agents := w.agents[i := Popped(w.ready[0])])
    case Claim(_, now) =>
      if a.id in w.rows && w.rows[a.id].status == Queued then
        w.(rows := w.rows[a.id := ClaimedRow(w.rows[a.id], now)], agents := w.agents[i := Working(a.id)])
      else
        w.(agents := w.agents[i := Idle])
    case Complete(_, now, answer) =>
      w.(rows := w.rows[a.id := CompletedRow(w.rows[a.id], now, answer)], agents := w.agents[i := Idle])
    case Fail(_, now, failure) =>
      w.(rows := w.rows[a.id := FailedRow(w.rows[a.id], now, failure)], agents := w.agents[i := Idle])
    case Retry(_, now, delay, failure) =>
      w.(rows := w.rows[a.id := RetriedRow(w.rows[a.id], now, delay, failure)],
         agents := w.agents[i := PendingDelay(a.id, now + delay)], submitted := w.submitted + multiset{a.id})
    case Delay(_) => w.(delayed := w.delayed[a.id := a.readyAt], agents := w.agents[i := Idle])
    case Scan(_, _, items) => w.(agents := w.agents[i := Promoting(items)])
    case Remove(_) =>
      var id := a.items[0];
      if id in w.delayed then
        w.(delayed := w.delayed - {id}, agents := w.agents[i := Promoted(id, a.items[1..])])
      else
        w.(agents := w.agents[i := Promoting(a.items[1..])])
    case PushPromoted(_) => w.(ready := w.ready + [a.id], agents := w.agents[i := Promoting(a.items)])
    case EndScan(_) => w.(agents := w.agents[i := Idle])
  }

  /** Agents other than the acting one are left alone. */
  lemma {:induction false} OthersStay(w: World, e: Event)
    requires Enabled(w, e)
    ensures |Next(w, e).agents| == |w.agents|
    ensures forall i | 0 <= i < |w.agents| && i != e.agent :: Next(w, e).agents[i] == w.agents[i]
  {
  }

  // ---------------------------------------------------------------- counting copies

  /** One if the agent holds a copy of the job that is in neither queue. */
  function Holds(a: Agent, id: Id): nat {
    if (a.PendingPush? || a.Popped? || a.PendingDelay? || a.Promoted?) && a.id == id then 1 else 0
  }

  function Runs(a: Agent, id: Id): nat {
    if a.Working? && a.id == id then 1 else 0
  }

  function Held(agents: seq<Agent>, id: Id): nat {
    if agents == [] then 0 else Holds(agents[0], id) + Held(agents[1..], id)
  }

  function Runners(agents: seq<Agent>, id: Id): nat {
    if agents == [] then 0 else Runs(agents[0], id) + Runners(agents[1..], id)
  }

  function Copies(w: World, id: Id): nat {
    multiset(w.ready)[id] + (if id in w.delayed then 1 else 0) + Held(w.agents, id)
  }

  lemma {:induction false} UpdateCounts(agents: seq<Agent>, i: nat, a: Agent, id: Id)
    requires i < |agents|
    ensures Held(agents[i := a], id) == Held(agents, id) - Holds(agents[i], id) + Holds(a, id)
    ensures Runners(agents[i := a], id) == Runners(agents, id) - Runs(agents[i], id) + Runs(a, id)
    decreases |agents|
  {
    if i == 0 {
      assert agents[i := a][1..] == agents[1..];
    } else {
      assert agents[i := a][1..] == agents[1..][i - 1 := a];
      UpdateCounts(agents[1..], i - 1, a, id);
    }
  }

  lemma {:induction false} TwoRunnersCountTwo(agents: seq<Agent>, i: nat, j: nat, id: Id)
    requires i < j < |agents|
    ensures Runs(agents[i], id) + Runs(agents[j], id) <= Runners(agents, id)
    ensures Holds(agents[i], id) + Holds(agents[j], id) <= Held(agents, id)
  {
    UpdateCounts(agents, i, Idle, id);
    UpdateCounts(agents[i := Idle], j, Idle, id);
  }

  // ---------------------------------------------------------------- the invariant

  predicate HasStatus(w: World, id: Id, status: Status) {
    id in w.rows && w.rows[id].status == status
  }

  /** Exactly one copy of each queued job, exactly one worker on each running one, and nothing else anywhere. */
  ghost predicate OneCopy(w: World) {
    forall id :: OneCopyOf(w, id)
  }

  ghost predicate OneCopyOf(w: World, id: Id) {
    Copies(w, id) == (if HasStatus(w, id, Queued) then 1 else 0)
    && Runners(w.agents, id) == (if HasStatus(w, id, Running) then 1 else 0)
  }

  /** One row per context, as the unique constraint has it. */
  ghost predicate Indexed(w: World) {
    && (forall c | c in w.byContext :: w.byContext[c] in w.rows && w.rows[w.byContext[c]].context == c)
    && (forall id | id in w.rows :: w.rows[id].context in w.byContext && w.byContext[w.rows[id].context] == id)
  }

  /** Every submission has been claimed once, was abandoned, or is still queued. */
  ghost predicate Accounted(w: World) {
    forall id :: AccountedFor(w, id)
  }

  ghost predicate AccountedFor(w: World, id: Id) {
    if id in w.rows then
      w.submitted[id] == w.rows[id].attempts + w.abandoned[id] + (if w.rows[id].status == Queued then 1 else 0)
    else
      w.submitted[id] == 0 && w.abandoned[id] == 0
  }

  ghost predicate Inv(w: World) {
    OneCopy(w) && Indexed(w) && Accounted(w) && forall id | id in w.rows :: RowFine(w.rows[id])
  }

  lemma {:induction false} StartInv(agents: nat)
    ensures Inv(Start(agents))
  {
    forall id ensures Held(Start(agents).agents, id) == 0 && Runners(Start(agents).agents, id) == 0 {
      IdleCounts(Start(agents).agents, id);
    }
  }

  lemma {:induction false} IdleCounts(agents: seq<Agent>, id: Id)
    requires forall i | 0 <= i < |agents| :: agents[i].Idle?
    ensures Held(agents, id) == 0 && Runners(agents, id) == 0
    decreases |agents|
  {
    if agents != [] {
      IdleCounts(agents[1..], id);
    }
  }

  /** The agent's job is queued when it holds a copy, running when it works on it. */
  lemma {:induction false} AgentStatus(w: World, i: nat)
    requires OneCopy(w) && i < |w.agents|
    ensures var a := w.agents[i];
      (a.PendingPush? || a.Popped? || a.PendingDelay? || a.Promoted? ==> HasStatus(w, a.id, Queued))
      && (a.Working? ==> HasStatus(w, a.id, Running))
  {
    var a := w.agents[i];
    if !a.Idle? && !a.Promoting? {
      UpdateCounts(w.agents, i, Idle, a.id);
      assert OneCopyOf(w, a.id);
    }
  }

  lemma {:induction false} PopMovesCopy(w: World, e: Event, id: Id)
    requires OneCopyOf(w, id) && Enabled(w, e) && e.Pop?
    ensures OneCopyOf(Next(w, e), id)
  {
    UpdateCounts(w.agents, e.agent, Popped(w.ready[0]), id);
    assert w.ready == [w.ready[0]] + w.ready[1..];
  }

  lemma {:induction false} AppendCounts(ready: seq<Id>, x: Id, id: Id)
    ensures multiset(ready + [x])[id] == multiset(ready)[id] + (if x == id then 1 else 0)
  {
  }

  lemma {:induction false} AppendMovesCopy(w: World, i: nat, x: Id, next: Agent, id: Id)
    requires i < |w.agents| && OneCopyOf(w, id)
    requires Holds(w.agents[i], id) == (if x == id then 1 else 0) && Runs(w.agents[i], id) == 0
    requires Holds(next, id) == Runs(next, id) == 0
    ensures OneCopyOf(w.(ready := w.ready + [x], agents := w.agents[i := next]), id)
  {
    UpdateCounts(w.agents, i, next, id);
    AppendCounts(w.ready, x, id);
  }

  lemma {:induction false} PushMovesCopy(w: World, e: Event, id: Id)
    requires OneCopyOf(w, id) && Enabled(w, e) && (e.Push? || e.PushPromoted?)
    ensures OneCopyOf(Next(w, e), id)
  {
    var a := w.agents[e.agent];
    AppendMovesCopy(w, e.agent, a.id, if e.Push? then Idle else Promoting(a.items), id);
  }

  lemma {:induction false} DelayMovesCopy(w: World, e: Event, id: Id)
    requires OneCopy(w) && Enabled(w, e) && e.Delay?
    ensures OneCopyOf(Next(w, e), id)
  {
    var a := w.agents[e.agent];
    AgentStatus(w, e.agent);
    assert OneCopyOf(w, a.id) && OneCopyOf(w, id);
    UpdateCounts(w.agents, e.agent, Idle, a.id);
    UpdateCounts(w.agents, e.agent, Idle, id);
  }

  lemma {:induction false} ScanMovesCopy(w: World, e: Event, id: Id)
    requires OneCopyOf(w, id) && Enabled(w, e) && (e.Scan? || e.Remove? || e.EndScan?)
    ensures OneCopyOf(Next(w, e), id)
  {
    UpdateCounts(w.agents, e.agent, Next(w, e).agents[e.agent], id);
  }

  /** Queue commands move a copy from one place to another. */
  lemma {:induction false} QueueEventKeepsCopies(w: World, e: Event, id: Id)
    requires OneCopy(w) && Enabled(w, e)
    requires e.Push? || e.Pop? || e.Delay? || e.Scan? || e.Remove? || e.PushPromoted? || e.EndScan?
    ensures OneCopyOf(Next(w, e), id)
  {
    assert OneCopyOf(w, id);
    if e.Pop? {
      PopMovesCopy(w, e, id);
    } else if e.Push? || e.PushPromoted? {
      PushMovesCopy(w, e, id);
    } else if e.Delay? {
      DelayMovesCopy(w, e, id);
    } else {
      ScanMovesCopy(w, e, id);
    }
  }

  /** A request puts one copy in its agent's hand exactly when it makes the job queued. */
  lemma {:induction false} RequestKeepsCopies(w: World, e: Event, id: Id)
    requires OneCopy(w) && Indexed(w) && Enabled(w, e) && e.Request?
    ensures OneCopyOf(Next(w, e), id)
  {
    UpdateCounts(w.agents, e.agent, Next(w, e).agents[e.agent], id);
    assert OneCopyOf(w, id);
  }

  /** A change of status takes the copy, or the worker, away or brings it back. */
  lemma {:induction false} StatusEventKeepsCopies(w: World, e: Event, id: Id)
    requires OneCopy(w) && Enabled(w, e)
    requires e.PushFails? || e.Claim? || e.Complete? || e.Fail? || e.Retry?
    ensures OneCopyOf(Next(w, e), id)
  {
    AgentStatus(w, e.agent);
    UpdateCounts(w.agents, e.agent, Next(w, e).agents[e.agent], id);
    assert OneCopyOf(w, id);
  }

  lemma {:induction false} EventKeepsOneCopy(w: World, e: Event)
    requires OneCopy(w) && Indexed(w) && Enabled(w, e)
    ensures OneCopy(Next(w, e))
  {
    forall id ensures OneCopyOf(Next(w, e), id) {
      if e.Request? {
        RequestKeepsCopies(w, e, id);
      } else if e.PushFails? || e.Claim? || e.Complete? || e.Fail? || e.Retry? {
        StatusEventKeepsCopies(w, e, id);
      } else {
        QueueEventKeepsCopies(w, e, id);
      }
    }
  }

  lemma {:induction false} RequestKeepsIndex(w: World, e: Event)
    requires Indexed(w) && Enabled(w, e) && e.Request?
    ensures Indexed(Next(w, e))
  {
  }

  /** Only a request adds a row; no event moves a row to another context. */
  lemma {:induction false} EventKeepsContexts(w: World, e: Event)
    requires Enabled(w, e) && !e.Request?
    ensures Next(w, e).byContext == w.byContext && Next(w, e).rows.Keys == w.rows.Keys
    ensures forall id | id in w.rows :: Next(w, e).rows[id].context == w.rows[id].context
  {
  }

  lemma {:induction false} EventKeepsIndex(w: World, e: Event)
    requires Indexed(w) && Enabled(w, e)
    ensures Indexed(Next(w, e))
  {
    if e.Request? {
      RequestKeepsIndex(w, e);
    } else {
      EventKeepsContexts(w, e);
    }
  }

  lemma {:induction false} EventKeepsAccounts(w: World, e: Event)
    requires OneCopy(w) && Indexed(w) && Accounted(w) && Enabled(w, e)
    ensures Accounted(Next(w, e))
  {
    AgentStatus(w, e.agent);
    forall id ensures AccountedFor(Next(w, e), id) {
      assert AccountedFor(w, id);
      if e.Request? {
        RequestAccounted(w, e, id);
      } else {
        StatusAccounted(w, e, id);
      }
    }
  }

  lemma {:induction false} RequestAccounted(w: World, e: Event, id: Id)
    requires Indexed(w) && AccountedFor(w, id) && Enabled(w, e) && e.Request?
    ensures AccountedFor(Next(w, e), id)
  {
  }

  lemma {:induction false} StatusAccounted(w: World, e: Event, id: Id)
    requires AccountedFor(w, id) && Enabled(w, e) && !e.Request?
    requires e.PushFails? ==> HasStatus(w, w.agents[e.agent].id, Queued)
    requires e.Complete? || e.Fail? || e.Retry? ==> HasStatus(w, w.agents[e.agent].id, Running)
    ensures AccountedFor(Next(w, e), id)
  {
  }

  lemma {:induction false} EventKeepsRowsFine(w: World, e: Event)
    requires OneCopy(w) && Indexed(w) && Enabled(w, e)
    requires forall id | id in w.rows :: RowFine(w.rows[id])
    ensures forall id | id in Next(w, e).rows :: RowFine(Next(w, e).rows[id])
  {
    AgentStatus(w, e.agent);
    forall id | id in Next(w, e).rows ensures RowFine(Next(w, e).rows[id]) {
      assert id in w.rows ==> RowFine(w.rows[id]);
    }
  }

  lemma {:induction false} EventKeepsInv(w: World, e: Event)
    requires Inv(w) && Enabled(w, e)
    ensures Inv(Next(w, e))
  {
    EventKeepsOneCopy(w, e);
    EventKeepsIndex(w, e);
    EventKeepsAccounts(w, e);
    EventKeepsRowsFine(w, e);
  }

  // ---------------------------------------------------------------- over whole runs

  ghost predicate IsRun(w: World, events: seq<Event>)
    decreases |events|
  {
    events == [] || (Enabled(w, events[0]) && IsRun(Next(w, events[0]), events[1..]))
  }

  ghost function Run(w: World, events: seq<Event>): World
    requires IsRun(w, events)
    decreases |events|
  {
    if events == [] then w else Run(Next(w, events[0]), events[1..])
  }

  lemma {:induction false} RunKeepsInv(w: World, events: seq<Event>)
    requires Inv(w) && IsRun(w, events)
    ensures Inv(Run(w, events))
    decreases |events|
  {
    if events != [] {
      EventKeepsInv(w, events[0]);
      RunKeepsInv(Next(w, events[0]), events[1..]);
    }
  }

  /**
   * In every interleaving of any number of requesters, workers and promoters, at every point: a queued job has
   * exactly one copy (ready, delayed, or in somebody's hand) and no worker; a running job has exactly one worker and
   * no copy; any other job has neither. Each submission is claimed at most once.
   */
  lemma {:induction false} ExactlyOneCopy(agents: nat, events: seq<Event>, id: Id)
    requires IsRun(Start(agents), events)
    ensures var w := Run(Start(agents), events);
      Copies(w, id) == (if HasStatus(w, id, Queued) then 1 else 0)
      && Runners(w.agents, id) == (if HasStatus(w, id, Running) then 1 else 0)
      && (id in w.rows ==> w.rows[id].attempts <= w.submitted[id])
  {
    StartInv(agents);
    RunKeepsInv(Start(agents), events);
    var w := Run(Start(agents), events);
    assert OneCopyOf(w, id) && AccountedFor(w, id);
  }

  /** No two workers ever run the same job, and no two promoters ever hold the same entry. */
  lemma {:induction false} NeverTwice(agents: nat, events: seq<Event>, i: nat, j: nat)
    requires IsRun(Start(agents), events)
    requires var w := Run(Start(agents), events); i < j < |w.agents|
    ensures var a, b := Run(Start(agents), events).agents[i], Run(Start(agents), events).agents[j];
      !(a.Working? && b.Working? && a.id == b.id) && !(a.Promoted? && b.Promoted? && a.id == b.id)
  {
    var w := Run(Start(agents), events);
    var a := w.agents[i];
    if a.Working? || a.Promoted? {
      ExactlyOneCopy(agents, events, a.id);
      TwoRunnersCountTwo(w.agents, i, j, a.id);
    }
  }

  /** Whatever a worker pops, it claims: no popped job has been taken or finished by anyone else. */
  lemma {:induction false} PoppedIsClaimed(agents: nat, events: seq<Event>, i: nat, now: int)
    requires IsRun(Start(agents), events)
    requires var w := Run(Start(agents), events); i < |w.agents| && w.agents[i].Popped?
    ensures var w := Run(Start(agents), events);
      Next(w, Claim(i, now)).agents[i] == Working(w.agents[i].id)
  {
    StartInv(agents);
    RunKeepsInv(Start(agents), events);
    AgentStatus(Run(Start(agents), events), i);
  }

  /** A queued job is never lost: it is in the ready list, in the delayed set, or in some agent's hand. */
  lemma {:induction false} QueuedIsSomewhere(agents: nat, events: seq<Event>, id: Id)
    requires IsRun(Start(agents), events) && HasStatus(Run(Start(agents), events), id, Queued)
    ensures var w := Run(Start(agents), events);
      id in w.ready || id in w.delayed || exists i | 0 <= i < |w.agents| :: Holds(w.agents[i], id) == 1
  {
    ExactlyOneCopy(agents, events, id);
    var w := Run(Start(agents), events);
    if Held(w.agents, id) > 0 {
      SomeoneHolds(w.agents, id);
    }
  }

  lemma {:induction false} SomeoneHolds(agents: seq<Agent>, id: Id)
    requires Held(agents, id) > 0
    ensures exists i | 0 <= i < |agents| :: Holds(agents[i], id) == 1
    decreases |agents|
  {
    if Holds(agents[0], id) == 0 {
      SomeoneHolds(agents[1..], id);
      var i :| 0 <= i < |agents[1..]| && Holds(agents[1..][i], id) == 1;
      assert Holds(agents[i + 1], id) == 1;
    } else {
      assert Holds(agents[0], id) == 1;
    }
  }

  // ---------------------------------------------------------------- one promoter, undisturbed

  function PromotionEvents(agent: nat, items: seq<Id>): seq<Event> {
    if items == [] then [EndScan(agent)] else [Remove(agent), PushPromoted(agent)] + PromotionEvents(agent, items[1..])
  }

  lemma {:induction false} PromoteFirst(w: World, agent: nat, items: seq<Id>)
    requires agent < |w.agents| && w.agents[agent] == Promoting(items) && items != [] && items[0] in w.delayed
    ensures Enabled(w, Remove(agent)) && Enabled(Next(w, Remove(agent)), PushPromoted(agent))
    ensures Next(Next(w, Remove(agent)), PushPromoted(agent)) ==
      w.(ready := w.ready + [items[0]], delayed := w.delayed - {items[0]}, agents := w.agents[agent := Promoting(items[1..])])
  {
  }

  lemma {:induction false} RunTwo(w: World, e1: Event, e2: Event, rest: seq<Event>)
    requires Enabled(w, e1) && Enabled(Next(w, e1), e2) && IsRun(Next(Next(w, e1), e2), rest)
    ensures IsRun(w, [e1, e2] + rest)
    ensures Run(w, [e1, e2] + rest) == Run(Next(Next(w, e1), e2), rest)
  {
    var events := [e1, e2] + rest;
    assert events[1..] == [e2] + rest;
    assert events[1..][1..] == rest;
  }

  /** What is left after the first of the due members moved, and after all of them did. */
  lemma {:induction false} PromotedSoFar(w: World, items: seq<Id>)
    requires items != []
    ensures w.ready + [items[0]] + items[1..] == w.ready + items
    ensures w.delayed - {items[0]} - (set id | id in items[1..]) == w.delayed - (set id | id in items)
  {
    assert items == [items[0]] + items[1..];
  }

  /** Left alone, a promoter moves its whole scan, in order, from the delayed set to the end of the ready list. */
  lemma {:induction false} UndisturbedPromotion(w: World, agent: nat, items: seq<Id>)
    requires agent < |w.agents| && w.agents[agent] == Promoting(items)
    requires forall i | 0 <= i < |items| :: items[i] in w.delayed
    requires forall i, j | 0 <= i < j < |items| :: items[i] != items[j]
    ensures IsRun(w, PromotionEvents(agent, items))
    ensures Run(w, PromotionEvents(agent, items)) ==
      w.(ready := w.ready + items, delayed := w.delayed - (set id | id in items), agents := w.agents[agent := Idle])
    decreases |items|
  {
    if items == [] {
      assert [EndScan(agent)][1..] == [];
      assert w.ready + items == w.ready;
      assert w.delayed - (set id | id in items) == w.delayed;
    } else {
      var rest := items[1..];
      PromoteFirst(w, agent, items);
      var w2 := Next(Next(w, Remove(agent)), PushPromoted(agent));
      forall i | 0 <= i < |rest| ensures rest[i] in w2.delayed {
        assert rest[i] == items[i + 1];
      }
      UndisturbedPromotion(w2, agent, rest);
      RunTwo(w, Remove(agent), PushPromoted(agent), PromotionEvents(agent, rest));
      PromotedSoFar(w, items);
    }
  }
}
