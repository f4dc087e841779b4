/**
 * The requester, the worker and the promoter over the two stores. Each call, undisturbed, is a sequence of the events
 * that the protocol interleaves.
 */
module InvestigationActors {
  import opened Options
  import opened Texts
  import opened InvestigationHistory
  import opened InvestigationJobs
  import opened InvestigationStores

  datatype Settings = Settings(enabled: bool, provider: string, model: string, apiKey: string)

  const PROVIDERS := {"openai", "google", "google_ai_studio", "gemini", "mock"}

  datatype Reply = Disabled | NoIncident | QueueError | Accepted(id: Id)

  /** How the workflow of a claimed job ends. */
  datatype Outcome = Done(answer: Answer) | Raised(failure: Failure)

  class InvestigationSystem {
    const repository: InvestigationRepository
    const queue: InvestigationQueue

    constructor ()
      ensures fresh(repository) && fresh(queue)
      ensures repository.rows == map[] && repository.byContext == map[] && queue.ready == [] && queue.delayed == map[]
    {
      repository := new InvestigationRepository();
      queue := new InvestigationQueue();
    }

    /** The stores as the world of a single agent. */
    ghost function View(agent: Agent): World
      reads repository, queue
    {
      World(repository.rows, repository.byContext, queue.ready, queue.delayed, [agent], multiset{}, multiset{})
    }

    /** The stores are where a run of events leaves them. */
    ghost predicate Shows(w: World)
      reads repository, queue
    {
      repository.rows == w.rows && repository.byContext == w.byContext && queue.ready == w.ready && queue.delayed == w.delayed
    }

    /**
     * `request_investigation`: one request event, followed by a push or a failed push exactly when the request made one
     * due. A refused request changes nothing.
     */
    method RequestInvestigation(
        settings: Settings, context: Option<Context>, newId: Id, now: int, pushError: Option<Failure>)
      returns (reply: Reply)
      requires Indexed(View(Idle)) && newId !in repository.rows
      modifies repository, queue
      ensures var name := Lower(settings.provider);
        reply.Disabled? <==>
          !settings.enabled || name !in {"openai", "google", "google_ai_studio", "gemini", "mock"}
          || (name != "mock" && settings.apiKey == "")
      ensures reply.NoIncident? <==> !reply.Disabled? && context.None?
      ensures reply.Disabled? || reply.NoIncident? ==> Shows(old(View(Idle)))
      ensures reply.QueueError? || reply.Accepted? ==>
        var request := Request(0, context.value, Llm(settings.provider, settings.model), newId, now);
        var requested := Next(old(View(Idle)), request);
        if requested.agents[0].PendingPush? then
          Shows(Next(requested, if pushError.None? then Push(0) else PushFails(0, now, pushError.value)))
        else
          Shows(requested)
      ensures reply.Accepted? ==> reply.id in repository.rows && repository.rows[reply.id].context == context.value
      ensures reply.Accepted? ==>
        if Wanting(old(View(Idle)), context.value) then
          repository.rows[reply.id].status == Queued && queue.ready == old(queue.ready) + [reply.id]
        else
          Shows(old(View(Idle))) && repository.rows[reply.id].status != Failed
      ensures reply.QueueError? <==>
        !reply.Disabled? && context.Some? && pushError.Some? && Wanting(old(View(Idle)), context.value)
      ensures reply.QueueError? ==>
        queue.ready == old(queue.ready) && repository.byContext[context.value] in repository.rows
        && repository.rows[repository.byContext[context.value]].status == Failed
    {
      var name := Lower(settings.provider);
      if !settings.enabled || name == "disabled" {
        return Disabled;
      }
      if name !in PROVIDERS {
        return Disabled;
      }
      if name != "mock" && settings.apiKey == "" {
        return Disabled;
      }
      if context.None? {
        return NoIncident;
      }
      var llm := Llm(settings.provider, settings.model);
      var found := repository.FindForContext(context.value);
      var id, shouldEnqueue := newId, false;
      if found.None? {
        repository.Create(newId, context.value, llm, now);
        shouldEnqueue := true;
      } else {
        id := found.value;
        if repository.rows[id].status == Failed {
          repository.Requeue(id, llm, now, false);
          shouldEnqueue := true;
        }
      }
      if shouldEnqueue {
        if pushError.Some? {
          repository.Fail(id, now, pushError.value);
          return QueueError;
        }
        queue.Enqueue(id);
      }
      reply := Accepted(id);
    }

    /** `process_investigation` of a popped id: a claim, and the end of the work if the claim was won. */
    method ProcessInvestigation(id: Id, claimedAt: int, endedAt: int, outcome: Outcome) returns (completed: bool)
      modifies repository
      ensures var claimed := Next(old(View(Popped(id))), Claim(0, claimedAt));
        if claimed.agents[0].Working? then
          Enabled(claimed, EndOf(outcome, endedAt)) && Shows(Next(claimed, EndOf(outcome, endedAt)))
        else
          Shows(claimed)
      ensures completed <==> id in old(repository.rows) && old(repository.rows)[id].status == Queued && outcome.Done?
      ensures completed ==>
        id in repository.rows && repository.rows[id].status == Completed && repository.rows[id].answer == Some(outcome.answer)
      ensures id in old(repository.rows) && old(repository.rows)[id].status == Queued && outcome.Raised? ==>
        id in repository.rows && repository.rows[id].status == Failed
        && Recorded(repository.rows[id].error, outcome.failure.error)
      ensures id !in old(repository.rows) || old(repository.rows)[id].status != Queued ==>
        repository.rows == old(repository.rows)
    {
      completed := false;
      var row := repository.Claim(id, claimedAt);
      if row.None? {
        return;
      }
      match outcome
      case Done(answer) =>
        repository.Complete(id, endedAt, answer);
        completed := true;
      case Raised(failure) =>
        repository.Fail(id, endedAt, failure);
    }

    /** One turn of the worker's loop: a pop, if there is anything to pop, and the processing of what was popped. */
    method WorkerTurn(claimedAt: int, endedAt: int, outcome: Outcome) returns (id: Option<Id>)
      modifies repository, queue
      ensures id.None? <==> old(queue.ready) == []
      ensures id.None? ==> Shows(old(View(Idle)))
      ensures id.Some? ==>
        var claimed := Next(Next(old(View(Idle)), Pop(0)), Claim(0, claimedAt));
        if claimed.agents[0].Working? then Shows(Next(claimed, EndOf(outcome, endedAt))) else Shows(claimed)
    {
      id := queue.Dequeue();
      if id.Some? {
        var completed := ProcessInvestigation(id.value, claimedAt, endedAt, outcome);
      }
    }

    /** A retry as the stores offer it: commit the schedule, then enter the delayed set. */
    method RetryLater(id: Id, now: int, delay: int, failure: Failure)
      requires id in repository.rows
      modifies repository, queue
      ensures Shows(Next(Next(old(View(Working(id))), Retry(0, now, delay, failure)), Delay(0)))
    {
      repository.ScheduleRetry(id, now, delay, failure);
      queue.EnqueueDelayed(id, now, delay);
    }

    /** `promote_delayed`, undisturbed: a scan, and for each due entry a removal and a push. */
    method Promote(now: int) returns (promoted: nat)
      modifies queue
      ensures exists items ::
        IsScan(old(queue.delayed), now, items) && promoted == |items|
        && IsRun(old(View(Idle)), [Scan(0, now, items)] + PromotionEvents(0, items))
        && Shows(Run(old(View(Idle)), [Scan(0, now, items)] + PromotionEvents(0, items)))
    {
      ghost var before := View(Idle);
      promoted := queue.PromoteDelayed(now);
      ghost var items := queue.ready[|before.ready|..];
      PromotionRuns(before, now, items);
      assert queue.ready == before.ready + items;
      assert queue.delayed == before.delayed - (set id | id in items);
    }
  }

  function EndOf(outcome: Outcome, now: int): Event {
    match outcome
    case Done(answer) => Complete(0, now, answer)
    case Raised(failure) => Fail(0, now, failure)
  }

  lemma {:induction false} PromotionRuns(w: World, now: int, items: seq<Id>)
    requires |w.agents| == 1 && w.agents[0].Idle? && IsScan(w.delayed, now, items)
    ensures var events := [Scan(0, now, items)] + PromotionEvents(0, items);
      IsRun(w, events)
      && Run(w, events) == w.(ready := w.ready + items, delayed := w.delayed - (set id | id in items))
  {
    var events, scanned := [Scan(0, now, items)] + PromotionEvents(0, items), Next(w, Scan(0, now, items));
    assert events[1..] == PromotionEvents(0, items);
    UndisturbedPromotion(scanned, 0, items);
    assert scanned.agents[0 := Idle] == w.agents;
  }
}
