/**
 * What may happen to one investigation over a run: which event takes it from which status to which, what that leaves in
 * its row, and what a request starts again.
 */
module InvestigationHistory {
  import opened Options
  import opened InvestigationJobs

  // ---------------------------------------------------------------- requests

  /** The job of a context, if there is one. */
  function JobOf(w: World, context: Context): Option<Id> {
    if context in w.byContext then Some(w.byContext[context]) else None
  }

  /** There is nothing to show for the context: no investigation at all, or one that failed. */
  predicate Wanting(w: World, context: Context) {
    context !in w.byContext || HasStatus(w, w.byContext[context], Failed)
  }

  /**
   * A request starts the investigation of its context exactly when there is none or it has failed: that job is then
   * queued, submitted once more and in the requester's hand. Otherwise the request changes nothing. Either way the
   * context has a job afterwards, and it has not failed.
   */
  lemma {:induction false} RequestRevives(w: World, e: Event)
    requires Indexed(w) && Enabled(w, e) && e.Request?
    ensures var after, job := Next(w, e), JobOf(Next(w, e), e.context);
      && job.Some? && job.value in after.rows && after.rows[job.value].status != Failed
      && job.value == (if e.context in w.byContext then w.byContext[e.context] else e.newId)
      && (if Wanting(w, e.context) then
            after.rows[job.value].status == Queued && after.rows[job.value].llm == e.llm
            && after.submitted == w.submitted + multiset{job.value}
            && after.agents == w.agents[e.agent := PendingPush(job.value)]
          else
            after == w)
    ensures forall id | id in w.rows && Some(id) != JobOf(w, e.context) ::
      id in Next(w, e).rows && Next(w, e).rows[id] == w.rows[id]
  {
  }

  // ---------------------------------------------------------------- one event

  /** The first 4000 characters of an error. */
  ghost predicate Recorded(stored: Option<string>, error: string) {
    stored.Some? && stored.value <= error && |stored.value| == (if |error| < 4000 then |error| else 4000)
  }

  /** The agent that acts holds, or works on, this job. */
  predicate Concerns(w: World, e: Event, id: Id) {
    e.agent < |w.agents|
    && match w.agents[e.agent]
       case PendingPush(held) => held == id
       case Popped(held) => held == id
       case Working(held) => held == id
       case _ => false
  }

  /** The row has failed with this failure. */
  ghost predicate FailedWith(after: Row, now: int, failure: Failure) {
    after.status == Failed && after.completedAt == Some(now) && after.updatedAt == now && after.nextRetryAt.None?
    && Recorded(after.error, failure.error) && after.errorClass == failure.errorClass
    && after.validationErrors == failure.validationErrors
  }

  /** Nothing is left of an earlier failure. */
  predicate NoFailure(after: Row) {
    after.error.None? && after.errorClass.None? && after.nextRetryAt.None?
  }

  /** What a queued job can become: claimed, or failed because its push did. */
  ghost predicate QueuedMoves(w: World, e: Event, id: Id, after: Row)
    requires id in w.rows
  {
    var before := w.rows[id];
    Concerns(w, e, id) && after.answer == before.answer && after.llm == before.llm && after.queuedAt == before.queuedAt
    && match e
       case Claim(_, now) =>
         after.status == Running && after.startedAt == Some(now) && after.completedAt.None? && after.updatedAt == now
         && after.attempts == before.attempts + 1 && NoFailure(after) && after.validationErrors == before.validationErrors
       case PushFails(_, now, failure) => FailedWith(after, now, failure) && after.attempts == before.attempts
       case _ => false
  }

  /** What a running job can become: completed with its worker's answer, failed, or queued for a retry. */
  ghost predicate RunningMoves(w: World, e: Event, id: Id, after: Row)
    requires id in w.rows
  {
    var before := w.rows[id];
    Concerns(w, e, id) && after.attempts == before.attempts && after.llm == before.llm
    && match e
       case Complete(_, now, answer) =>
         after.status == Completed && after.answer == Some(answer) && after.completedAt == Some(now)
         && after.updatedAt == now && NoFailure(after) && after.validationErrors == []
       case Fail(_, now, failure) => FailedWith(after, now, failure) && after.answer == before.answer
       case Retry(_, now, delay, failure) =>
         after.status == Queued && after.queuedAt == now + delay && after.nextRetryAt == Some(now + delay)
         && after.startedAt.None? && after.completedAt.None? && after.updatedAt == now
         && Recorded(after.error, failure.error) && after.errorClass == failure.errorClass && after.answer == before.answer
       case _ => false
  }

  /** What a failed job can become: queued again, by a request for its context, with its attempts kept. */
  ghost predicate FailedMoves(w: World, e: Event, id: Id, after: Row)
    requires id in w.rows
  {
    var before := w.rows[id];
    e.Request? && e.context == before.context && after.status == Queued && after.llm == e.llm
    && after.queuedAt == e.now && after.updatedAt == e.now && after.startedAt.None? && after.completedAt.None?
    && NoFailure(after) && after.validationErrors == [] && after.attempts == before.attempts && after.answer == before.answer
  }

  /** Every way in which an event changes a row. */
  ghost predicate RowMoves(w: World, e: Event, id: Id, after: Row)
    requires id in w.rows
  {
    after.context == w.rows[id].context
    && match w.rows[id].status
       case Queued => after == w.rows[id] || QueuedMoves(w, e, id, after)
       case Running => after == w.rows[id] || RunningMoves(w, e, id, after)
       case Completed => after == w.rows[id]
       case Failed => after == w.rows[id] || FailedMoves(w, e, id, after)
  }

  lemma {:induction false} RequestMovesRow(w: World, e: Event, id: Id)
    requires Indexed(w) && Enabled(w, e) && e.Request? && id in w.rows
    ensures id in Next(w, e).rows && RowMoves(w, e, id, Next(w, e).rows[id])
  {
  }

  lemma {:induction false} HeldMovesRow(w: World, e: Event, id: Id)
    requires OneCopy(w) && Enabled(w, e) && (e.Claim? || e.PushFails?) && id in w.rows
    ensures id in Next(w, e).rows && RowMoves(w, e, id, Next(w, e).rows[id])
  {
    AgentStatus(w, e.agent);
  }

  lemma {:induction false} WorkMovesRow(w: World, e: Event, id: Id)
    requires OneCopy(w) && Enabled(w, e) && (e.Complete? || e.Fail? || e.Retry?) && id in w.rows
    ensures id in Next(w, e).rows && RowMoves(w, e, id, Next(w, e).rows[id])
  {
    AgentStatus(w, e.agent);
  }

  lemma {:induction false} EventMovesRow(w: World, e: Event, id: Id)
    requires Inv(w) && Enabled(w, e) && id in w.rows
    ensures id in Next(w, e).rows && RowMoves(w, e, id, Next(w, e).rows[id])
  {
    if e.Request? {
      RequestMovesRow(w, e, id);
    } else if e.Claim? || e.PushFails? {
      HeldMovesRow(w, e, id);
    } else if e.Complete? || e.Fail? || e.Retry? {
      WorkMovesRow(w, e, id);
    }
  }

  /** Only a request adds a row, and it adds a queued one. */
  lemma {:induction false} NewRowIsQueued(w: World, e: Event, id: Id)
    requires Enabled(w, e) && id !in w.rows && id in Next(w, e).rows
    ensures e.Request? && Next(w, e).rows[id].status == Queued && Next(w, e).rows[id].attempts == 0
  {
  }

  // ---------------------------------------------------------------- over whole runs

  /** Over any run a completed investigation stays exactly as it is, answer and all. */
  lemma {:induction false} CompletedForGood(w: World, events: seq<Event>, id: Id)
    requires Inv(w) && IsRun(w, events) && HasStatus(w, id, Completed)
    ensures id in Run(w, events).rows && Run(w, events).rows[id] == w.rows[id]
    decreases |events|
  {
    if events != [] {
      EventMovesRow(w, events[0], id);
      EventKeepsInv(w, events[0]);
      CompletedForGood(Next(w, events[0]), events[1..], id);
    }
  }

  /** Over any run without a request for its context a failed investigation stays exactly as it is. */
  lemma {:induction false} FailedWaits(w: World, events: seq<Event>, id: Id)
    requires Inv(w) && IsRun(w, events) && HasStatus(w, id, Failed)
    requires forall e | e in events :: e.Request? ==> e.context != w.rows[id].context
    ensures id in Run(w, events).rows && Run(w, events).rows[id] == w.rows[id]
    decreases |events|
  {
    if events != [] {
      assert events[0] in events && forall e | e in events[1..] :: e in events;
      EventMovesRow(w, events[0], id);
      EventKeepsInv(w, events[0]);
      FailedWaits(Next(w, events[0]), events[1..], id);
    }
  }

  /** Here a worker completes the job with this answer. */
  predicate CompletesHere(w: World, e: Event, id: Id, answer: Answer) {
    e.Complete? && e.agent < |w.agents| && w.agents[e.agent] == Working(id) && e.answer == answer
  }

  ghost predicate CompletesIn(w: World, events: seq<Event>, id: Id, answer: Answer)
    requires IsRun(w, events)
    decreases |events|
  {
    events != [] && (CompletesHere(w, events[0], id, answer) || CompletesIn(Next(w, events[0]), events[1..], id, answer))
  }

  predicate Answered(w: World, id: Id, answer: Answer) {
    HasStatus(w, id, Completed) && w.rows[id].answer == Some(answer)
  }

  lemma {:induction false} CompletionAnswers(w: World, e: Event, id: Id, answer: Answer)
    requires Enabled(w, e) && CompletesHere(w, e, id, answer)
    ensures Answered(Next(w, e), id, answer)
  {
  }

  lemma {:induction false} EventAnswers(w: World, e: Event, id: Id, answer: Answer)
    requires Inv(w) && Enabled(w, e)
    ensures Answered(Next(w, e), id, answer) <==> Answered(w, id, answer) || CompletesHere(w, e, id, answer)
  {
    if CompletesHere(w, e, id, answer) {
      CompletionAnswers(w, e, id, answer);
    } else if id in w.rows {
      EventMovesRow(w, e, id);
    } else if id in Next(w, e).rows {
      NewRowIsQueued(w, e, id);
    }
  }

  lemma {:induction false} RunAnswers(w: World, events: seq<Event>, id: Id, answer: Answer)
    requires Inv(w) && IsRun(w, events)
    ensures Answered(Run(w, events), id, answer) <==> Answered(w, id, answer) || CompletesIn(w, events, id, answer)
    decreases |events|
  {
    if events != [] {
      EventAnswers(w, events[0], id, answer);
      EventKeepsInv(w, events[0]);
      RunAnswers(Next(w, events[0]), events[1..], id, answer);
    }
  }

  /** An investigation is completed with an answer if and only if a worker that ran it completed it with that answer. */
  lemma {:induction false} CompletedIffAnswered(agents: nat, events: seq<Event>, id: Id, answer: Answer)
    requires IsRun(Start(agents), events)
    ensures Answered(Run(Start(agents), events), id, answer) <==> CompletesIn(Start(agents), events, id, answer)
  {
    StartInv(agents);
    RunAnswers(Start(agents), events, id, answer);
  }

  /** How often a worker claims the job it has popped. */
  ghost function Claims(w: World, events: seq<Event>, id: Id): nat
    requires IsRun(w, events)
    decreases |events|
  {
    if events == [] then
      0
    else
      (if events[0].Claim? && w.agents[events[0].agent] == Popped(id) then 1 else 0)
      + Claims(Next(w, events[0]), events[1..], id)
  }

  function AttemptsOf(w: World, id: Id): nat {
    if id in w.rows then w.rows[id].attempts else 0
  }

  lemma {:induction false} ClaimCountsAttempt(w: World, e: Event, id: Id)
    requires OneCopy(w) && Enabled(w, e) && e.Claim? && w.agents[e.agent] == Popped(id)
    ensures AttemptsOf(Next(w, e), id) == AttemptsOf(w, id) + 1
  {
    AgentStatus(w, e.agent);
  }

  lemma {:induction false} EventCountsAttempts(w: World, e: Event, id: Id)
    requires Inv(w) && Enabled(w, e)
    ensures AttemptsOf(Next(w, e), id)
         == AttemptsOf(w, id) + (if e.Claim? && w.agents[e.agent] == Popped(id) then 1 else 0)
  {
    if e.Claim? && w.agents[e.agent] == Popped(id) {
      ClaimCountsAttempt(w, e, id);
    } else if id in w.rows {
      EventMovesRow(w, e, id);
    } else if id in Next(w, e).rows {
      NewRowIsQueued(w, e, id);
    }
  }

  lemma {:induction false} RunCountsAttempts(w: World, events: seq<Event>, id: Id)
    requires Inv(w) && IsRun(w, events)
    ensures AttemptsOf(Run(w, events), id) == AttemptsOf(w, id) + Claims(w, events, id)
    decreases |events|
  {
    if events != [] {
      EventCountsAttempts(w, events[0], id);
      EventKeepsInv(w, events[0]);
      RunCountsAttempts(Next(w, events[0]), events[1..], id);
    }
  }

  /** Over every run the attempts of a job are its claims. */
  lemma {:induction false} AttemptsAreClaims(agents: nat, events: seq<Event>, id: Id)
    requires IsRun(Start(agents), events)
    ensures AttemptsOf(Run(Start(agents), events), id) == Claims(Start(agents), events, id)
  {
    StartInv(agents);
    RunCountsAttempts(Start(agents), events, id);
  }

  // ---------------------------------------------------------------- the delayed set and the table

  /** The table has the job queued for that time. */
  predicate ScheduledFor(w: World, id: Id, time: int) {
    HasStatus(w, id, Queued) && w.rows[id].queuedAt == time && w.rows[id].nextRetryAt == Some(time)
  }

  /** What is delayed, or about to be, is scheduled in the table for the same time. */
  ghost predicate Scheduled(w: World) {
    && (forall id | id in w.delayed :: ScheduledFor(w, id, w.delayed[id]))
    && (forall i | 0 <= i < |w.agents| && w.agents[i].PendingDelay? ::
          ScheduledFor(w, w.agents[i].id, w.agents[i].readyAt))
  }

  /** A job that is delayed, or about to be, has no other copy and no worker. */
  lemma {:induction false} DelayedAlone(w: World, i: nat, id: Id)
    requires OneCopy(w) && i < |w.agents| && id in w.delayed
    ensures Holds(w.agents[i], id) == 0 && Runs(w.agents[i], id) == 0
  {
    UpdateCounts(w.agents, i, Idle, id);
    assert OneCopyOf(w, id);
  }

  lemma {:induction false} PendingAlone(w: World, i: nat, j: nat)
    requires OneCopy(w) && i < |w.agents| && j < |w.agents| && i != j && w.agents[i].PendingDelay?
    ensures Holds(w.agents[j], w.agents[i].id) == 0 && Runs(w.agents[j], w.agents[i].id) == 0
  {
    var id := w.agents[i].id;
    UpdateCounts(w.agents, j, Idle, id);
    UpdateCounts(w.agents[j := Idle], i, Idle, id);
    assert OneCopyOf(w, id);
  }

  /** An event leaves a queued job's row alone unless its agent holds that job. */
  lemma {:induction false} RowStays(w: World, e: Event, id: Id, time: int)
    requires Inv(w) && Enabled(w, e) && ScheduledFor(w, id, time) && !Concerns(w, e, id)
    ensures ScheduledFor(Next(w, e), id, time)
  {
    EventMovesRow(w, e, id);
  }

  /** An entry of the delayed set was there before, or comes from the agent's pending retry. */
  lemma {:induction false} WhereEntriesComeFrom(w: World, e: Event, id: Id)
    requires Enabled(w, e) && id in Next(w, e).delayed
    ensures (id in w.delayed && Next(w, e).delayed[id] == w.delayed[id])
      || (e.Delay? && w.agents[e.agent] == PendingDelay(id, Next(w, e).delayed[id]))
    ensures e.Delay? ==> Next(w, e).rows == w.rows
  {
  }

  lemma {:induction false} EventKeepsDelayedScheduled(w: World, e: Event, id: Id)
    requires Inv(w) && Scheduled(w) && Enabled(w, e) && id in Next(w, e).delayed
    ensures ScheduledFor(Next(w, e), id, Next(w, e).delayed[id])
  {
    WhereEntriesComeFrom(w, e, id);
    if id in w.delayed && Next(w, e).delayed[id] == w.delayed[id] {
      DelayedAlone(w, e.agent, id);
      RowStays(w, e, id, w.delayed[id]);
    }
  }

  lemma {:induction false} RetrySchedules(w: World, e: Event)
    requires Enabled(w, e) && Next(w, e).agents[e.agent].PendingDelay? && !w.agents[e.agent].PendingDelay?
    ensures var a := Next(w, e).agents[e.agent]; ScheduledFor(Next(w, e), a.id, a.readyAt)
  {
  }

  lemma {:induction false} PendingMoves(w: World, e: Event)
    requires Enabled(w, e) && w.agents[e.agent].PendingDelay?
    ensures Next(w, e).agents[e.agent] == Idle
  {
  }

  lemma {:induction false} EventKeepsPendingScheduled(w: World, e: Event, i: nat)
    requires Inv(w) && Scheduled(w) && Enabled(w, e)
    requires i < |w.agents| == |Next(w, e).agents| && Next(w, e).agents[i].PendingDelay?
    ensures ScheduledFor(Next(w, e), Next(w, e).agents[i].id, Next(w, e).agents[i].readyAt)
  {
    OthersStay(w, e);
    if i != e.agent {
      PendingAlone(w, i, e.agent);
      RowStays(w, e, w.agents[i].id, w.agents[i].readyAt);
    } else {
      if w.agents[i].PendingDelay? {
        PendingMoves(w, e);
      }
      RetrySchedules(w, e);
    }
  }

  lemma {:induction false} EventKeepsScheduled(w: World, e: Event)
    requires Inv(w) && Scheduled(w) && Enabled(w, e)
    ensures Scheduled(Next(w, e))
  {
    forall id | id in Next(w, e).delayed ensures ScheduledFor(Next(w, e), id, Next(w, e).delayed[id]) {
      EventKeepsDelayedScheduled(w, e, id);
    }
    OthersStay(w, e);
    forall i | 0 <= i < |Next(w, e).agents| && Next(w, e).agents[i].PendingDelay?
      ensures ScheduledFor(Next(w, e), Next(w, e).agents[i].id, Next(w, e).agents[i].readyAt)
    {
      EventKeepsPendingScheduled(w, e, i);
    }
  }

  lemma {:induction false} RunKeepsScheduled(w: World, events: seq<Event>)
    requires Inv(w) && Scheduled(w) && IsRun(w, events)
    ensures Scheduled(Run(w, events))
    decreases |events|
  {
    if events != [] {
      EventKeepsScheduled(w, events[0]);
      EventKeepsInv(w, events[0]);
      RunKeepsScheduled(Next(w, events[0]), events[1..]);
    }
  }

  /** In every reachable state, whatever is in the delayed set is queued in the table, to be retried at that very time. */
  lemma {:induction false} DelayedAsScheduled(agents: nat, events: seq<Event>, id: Id)
    requires IsRun(Start(agents), events) && id in Run(Start(agents), events).delayed
    ensures var w := Run(Start(agents), events);
      HasStatus(w, id, Queued) && w.rows[id].nextRetryAt == Some(w.delayed[id])
  {
    StartInv(agents);
    RunKeepsScheduled(Start(agents), events);
  }
}
