/** The Redis queue and the repository of investigations, in the source's imperative form. */
module InvestigationStores {
  import opened Options
  import opened InvestigationJobs

  class InvestigationQueue {
    var ready: seq<Id>
    var delayed: map<Id, int>

    constructor ()
      ensures ready == [] && delayed == map[]
    {
      ready, delayed := [], map[];
    }

    method Enqueue(id: Id)
      modifies this`ready
      ensures ready == old(ready) + [id]
    {
      ready := ready + [id];
    }

    /** A second entry for the same job overwrites its time: the delayed set holds each member once. */
    method EnqueueDelayed(id: Id, now: int, delay: int)
      modifies this`delayed
      ensures delayed == old(delayed)[id := now + delay]
    {
      var readyAt := now + delay;
      delayed := delayed[id := readyAt];
    }

    method Dequeue() returns (id: Option<Id>)
      modifies this`ready
      ensures old(ready) == [] ==> id == None && ready == []
      ensures old(ready) != [] ==> id == Some(old(ready)[0]) && ready == old(ready)[1..]
    {
      if ready == [] {
        return None;
      }
      id := Some(ready[0]);
      ready := ready[1..];
    }

    /** `zrangebyscore`, by repeatedly taking a smallest member that is left. */
    method ZRangeByScore(now: int) returns (items: seq<Id>)
      ensures IsScan(delayed, now, items)
    {
      items := [];
      var todo := set id | id in delayed && 0 <= delayed[id] <= now;
      while todo != {}
        invariant todo <= delayed.Keys
        invariant forall id :: id in delayed && 0 <= delayed[id] <= now <==> id in todo || id in items
        invariant forall id | id in todo :: id !in items
        invariant forall i | 0 <= i < |items| :: items[i] in delayed
        invariant forall i, id | 0 <= i < |items| && id in todo :: delayed[items[i]] <= delayed[id]
        invariant forall i, j | 0 <= i < j < |items| ::
          items[i] != items[j] && delayed[items[i]] <= delayed[items[j]]
        decreases todo
      {
        var next := Earliest(todo);
        todo := todo - {next};
        items := items + [next];
      }
    }

    method Earliest(todo: set<Id>) returns (id: Id)
      requires todo != {} && todo <= delayed.Keys
      ensures id in todo && forall other | other in todo :: delayed[id] <= delayed[other]
    {
      id :| id in todo;
      var rest := todo - {id};
      while rest != {}
        invariant rest <= todo && id in todo
        invariant forall other | other in todo && other !in rest :: delayed[id] <= delayed[other]
        decreases rest
      {
        var other :| other in rest;
        rest := rest - {other};
        if delayed[other] < delayed[id] {
          id := other;
        }
      }
    }

    /** Every due entry moves to the end of the ready list once, by ascending time; nothing else moves. */
    method PromoteDelayed(now: int) returns (promoted: nat)
      modifies this
      ensures |ready| == |old(ready)| + promoted && old(ready) <= ready
      ensures IsScan(old(delayed), now, ready[|old(ready)|..])
      ensures delayed == map id | id in old(delayed) && !(0 <= old(delayed)[id] <= now) :: old(delayed)[id]
    {
      var items := ZRangeByScore(now);
      promoted := 0;
      for i := 0 to |items|
        invariant promoted == i
        invariant ready == old(ready) + items[..i]
        invariant forall id :: id in delayed <==> id in old(delayed) && id !in items[..i]
        invariant forall id | id in delayed :: delayed[id] == old(delayed)[id]
      {
        if items[i] in delayed {
          delayed := delayed - {items[i]};
          ready := ready + [items[i]];
          promoted := promoted + 1;
        }
      }
      assert items[..|items|] == items;
      assert ready[|old(ready)|..] == items;
    }
  }

  /** The table, with the index its unique constraint keeps. */
  class InvestigationRepository {
    var rows: map<Id, Row>
    var byContext: map<Context, Id>

    constructor ()
      ensures rows == map[] && byContext == map[]
    {
      rows, byContext := map[], map[];
    }

    method FindForContext(context: Context) returns (id: Option<Id>)
      ensures id == if context in byContext then Some(byContext[context]) else None
    {
      if context in byContext {
        return Some(byContext[context]);
      }
      id := None;
    }

    method Create(id: Id, context: Context, llm: Llm, now: int)
      requires id !in rows && context !in byContext
      modifies this
      ensures rows == old(rows)[id := CreatedRow(context, llm, now)] && RowFine(rows[id])
      ensures byContext == old(byContext)[context := id]
    {
      rows := rows[id := Row(context, llm, Queued, 0, now, None, None, None, None, None, [], None, now)];
      byContext := byContext[context := id];
    }

    /** The conditional update: only a queued row can be claimed, and the caller learns whether it was. */
    method Claim(id: Id, now: int) returns (claimed: Option<Row>)
      modifies this`rows
      ensures claimed.Some? <==> id in old(rows) && old(rows)[id].status == Queued
      ensures claimed.Some? ==> rows == old(rows)[id := ClaimedRow(old(rows)[id], now)] && claimed.value == rows[id]
      ensures claimed.None? ==> rows == old(rows)
    {
      if id !in rows || rows[id].status != Queued {
        return None;
      }
      var row := rows[id];
      row := row.(status := Running, startedAt := Some(now), completedAt := None);
      row := row.(error := None, errorClass := None, nextRetryAt := None);
      row := row.(attempts := row.attempts + 1, updatedAt := now);
      rows := rows[id := row];
      claimed := Some(row);
    }

    method Requeue(id: Id, llm: Llm, now: int, resetAttempts: bool)
      requires id in rows
      modifies this`rows
      ensures rows == old(rows)[id := RequeuedRow(old(rows)[id].(llm := llm), now, resetAttempts)] && RowFine(rows[id])
    {
      var row := rows[id].(llm := llm);
      row := row.(status := Queued, queuedAt := now, startedAt := None, completedAt := None);
      row := row.(error := None, errorClass := None, nextRetryAt := None, validationErrors := []);
      if resetAttempts {
        row := row.(attempts := 0);
      }
      rows := rows[id := row.(updatedAt := now)];
    }

    method ScheduleRetry(id: Id, now: int, delay: int, failure: Failure)
      requires id in rows
      modifies this`rows
      ensures rows == old(rows)[id := RetriedRow(old(rows)[id], now, delay, failure)] && RowFine(rows[id])
    {
      var scheduled := now + delay;
      var row := rows[id].(status := Queued, queuedAt := scheduled, nextRetryAt := Some(scheduled));
      row := row.(error := Some(Cut(failure.error)), errorClass := failure.errorClass);
      row := row.(startedAt := None, completedAt := None, updatedAt := now);
      rows := rows[id := row];
    }

    method Complete(id: Id, now: int, answer: Answer)
      requires id in rows
      modifies this`rows
      ensures rows == old(rows)[id := CompletedRow(old(rows)[id], now, answer)] && RowFine(rows[id])
    {
      var row := rows[id].(status := Completed, answer := Some(answer), validationErrors := []);
      row := row.(error := None, errorClass := None, nextRetryAt := None);
      row := row.(completedAt := Some(now), updatedAt := now);
      rows := rows[id := row];
    }

    method Fail(id: Id, now: int, failure: Failure)
      requires id in rows
      modifies this`rows
      ensures rows == old(rows)[id := FailedRow(old(rows)[id], now, failure)] && RowFine(rows[id])
    {
      var row := rows[id].(status := Failed, error := Some(Cut(failure.error)), errorClass := failure.errorClass);
      row := row.(nextRetryAt := None, validationErrors := failure.validationErrors);
      row := row.(completedAt := Some(now), updatedAt := now);
      rows := rows[id := row];
    }
  }
}
