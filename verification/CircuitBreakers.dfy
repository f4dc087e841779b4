/** The in-memory circuit breaker: a pruned history, two hourly caps and a kill switch. Times are seconds. */
module CircuitBreakers {
  import opened TimeWindows

  const HOUR := 3600

  datatype Entry = Entry(at: int, disruptive: bool)

  datatype Limits = Limits(actions: int, disruptive: int)

  datatype Verdict = Clear | KillSwitch | ActionCap(count: nat) | DisruptiveCap(count: nat)

  /** The entries at or after `since`, in order. */
  function Recent(log: seq<Entry>, since: int): seq<Entry> {
    if log == [] then
      []
    else
      Recent(log[..|log| - 1], since) + (if log[|log| - 1].at >= since then [log[|log| - 1]] else [])
  }

  function DisruptiveCount(log: seq<Entry>): nat {
    if log == [] then 0
    else DisruptiveCount(log[..|log| - 1]) + (if log[|log| - 1].disruptive then 1 else 0)
  }

  /** What the breaker says, given everything it still remembers. */
  function VerdictOf(killSwitch: bool, history: seq<Entry>, now: int, limits: Limits): Verdict {
    var recent := Recent(history, now - HOUR);
    if killSwitch then KillSwitch
    else if |recent| >= limits.actions then ActionCap(|recent|)
    else if DisruptiveCount(recent) >= limits.disruptive then DisruptiveCap(DisruptiveCount(recent))
    else Clear
  }

  // ---------------------------------------------------------------- runs

  datatype Op = Check(now: int) | Record(now: int, disruptive: bool) | SetKill(now: int, enabled: bool)

  /**
   * The breaker together with history: the full log that was never pruned, the latest clock reading, the point up to
   * which entries have been pruned, and the time of a clear check no execution has used up yet.
   */
  datatype State = State(
    killSwitch: bool,
    history: seq<Entry>,
    log: seq<Entry>,
    clock: int,
    floor: int,
    armed: bool,
    checkedAt: int)

  function Start(now: int): State {
    State(false, [], [], now, now - HOUR, false, now)
  }

  function Step(s: State, op: Op, limits: Limits): State {
    match op
    case Check(now) =>
      var clear := VerdictOf(s.killSwitch, s.history, now, limits).Clear?;
      s.(history := if s.killSwitch then s.history else Recent(s.history, now - HOUR), clock := now,
         floor := if s.killSwitch then s.floor else now - HOUR, armed := clear, checkedAt := now)
    case Record(now, disruptive) =>
      s.(history := s.history + [Entry(now, disruptive)], log := s.log + [Entry(now, disruptive)], clock := now,
         armed := false)
    case SetKill(now, enabled) => s.(killSwitch := enabled, clock := now)
  }

  /** The clock never goes back, and every execution follows a clear check of its own. */
  predicate Disciplined(s: State, ops: seq<Op>, limits: Limits)
    decreases |ops|
  {
    ops == []
    || (s.clock <= ops[0].now && (ops[0].Record? ==> s.armed) && Disciplined(Step(s, ops[0], limits), ops[1..], limits))
  }

  function Run(s: State, ops: seq<Op>, limits: Limits): State
    decreases |ops|
  {
    if ops == [] then s else Run(Step(s, ops[0], limits), ops[1..], limits)
  }

  // ---------------------------------------------------------------- counting

  /** The times of all entries, or of the disruptive ones. */
  function Times(log: seq<Entry>, onlyDisruptive: bool): seq<int> {
    if log == [] then
      []
    else
      var last := log[|log| - 1];
      Times(log[..|log| - 1], onlyDisruptive) + (if onlyDisruptive ==> last.disruptive then [last.at] else [])
  }

  /** How many entries, or disruptive entries, lie between two times, both included. */
  function EntriesIn(log: seq<Entry>, from: int, to: int, onlyDisruptive: bool): nat {
    CountIn(Times(log, onlyDisruptive), from, to)
  }

  lemma EntriesOneMore(log: seq<Entry>, last: Entry, from: int, to: int, onlyDisruptive: bool)
    ensures EntriesIn(log + [last], from, to, onlyDisruptive) == EntriesIn(log, from, to, onlyDisruptive)
      + (if from <= last.at <= to && (onlyDisruptive ==> last.disruptive) then 1 else 0)
  {
    LastOf(log, last);
    assert Times(log, onlyDisruptive) + [] == Times(log, onlyDisruptive);
    CountOneMore(Times(log, onlyDisruptive), last.at, from, to);
  }

  lemma {:induction false} RecentCounts(log: seq<Entry>, since: int, to: int)
    requires forall i | 0 <= i < |log| :: log[i].at <= to
    ensures |Recent(log, since)| == EntriesIn(log, since, to, false)
    ensures DisruptiveCount(Recent(log, since)) == EntriesIn(log, since, to, true)
    decreases |log|
  {
    if log != [] {
      var front, last := log[..|log| - 1], log[|log| - 1];
      RecentCounts(front, since, to);
      assert log == front + [last];
      EntriesOneMore(front, last, since, to, false);
      EntriesOneMore(front, last, since, to, true);
      if last.at >= since {
        LastOf(Recent(front, since), last);
      } else {
        assert Recent(log, since) == Recent(front, since);
      }
    }
  }

  lemma LastOf(front: seq<Entry>, last: Entry)
    ensures (front + [last])[|front + [last]| - 1] == last && (front + [last])[..|front + [last]| - 1] == front
  {
  }

  lemma {:induction false} RecentOfRecent(log: seq<Entry>, floor: int, since: int)
    requires floor <= since
    ensures Recent(Recent(log, floor), since) == Recent(log, since)
    decreases |log|
  {
    if log != [] {
      var front, last := log[..|log| - 1], log[|log| - 1];
      RecentOfRecent(front, floor, since);
      if last.at >= floor {
        LastOf(Recent(front, floor), last);
      } else {
        assert Recent(log, floor) == Recent(front, floor);
        assert Recent(log, since) == Recent(front, since);
      }
    }
  }

  /** Entries recorded in the hour that starts at `from`, both ends included. */
  function InHour(log: seq<Entry>, from: int, onlyDisruptive: bool): nat {
    EntriesIn(log, from, from + 3600, onlyDisruptive)
  }

  ghost predicate Capped(log: seq<Entry>, limit: int, onlyDisruptive: bool) {
    forall from :: InHour(log, from, onlyDisruptive) <= (if limit < 0 then 0 else limit)
  }

  // ---------------------------------------------------------------- the invariant

  /** What the breaker remembers is the unpruned log from `floor` on. */
  ghost predicate Faithful(s: State) {
    && (forall i | 0 <= i < |s.log| :: s.log[i].at <= s.clock)
    && s.floor <= s.clock - HOUR
    && s.history == Recent(s.log, s.floor)
  }

  ghost predicate RoomLeft(s: State, limit: int, onlyDisruptive: bool) {
    EntriesIn(s.log, s.checkedAt - HOUR, s.clock, onlyDisruptive) < limit
  }

  ghost predicate Inv(s: State, limits: Limits) {
    && Faithful(s)
    && (s.armed ==> s.checkedAt <= s.clock && RoomLeft(s, limits.actions, false) && RoomLeft(s, limits.disruptive, true))
    && Capped(s.log, limits.actions, false)
    && Capped(s.log, limits.disruptive, true)
  }

  /** Forgetting old entries never changes a verdict: it is what the full log would give. */
  lemma PruningIsInvisible(s: State, now: int, limits: Limits)
    requires Faithful(s) && s.clock <= now
    ensures VerdictOf(s.killSwitch, s.history, now, limits) == VerdictOf(s.killSwitch, s.log, now, limits)
  {
    RecentOfRecent(s.log, s.floor, now - HOUR);
  }

  lemma CheckIsFaithful(s: State, now: int, limits: Limits)
    requires Faithful(s) && s.clock <= now
    ensures Faithful(Step(s, Check(now), limits))
  {
    RecentOfRecent(s.log, s.floor, now - HOUR);
  }

  lemma ClearMeansRoom(s: State, now: int, limits: Limits)
    requires Faithful(s) && s.clock <= now && VerdictOf(s.killSwitch, s.history, now, limits).Clear?
    ensures EntriesIn(s.log, now - HOUR, now, false) < limits.actions
    ensures EntriesIn(s.log, now - HOUR, now, true) < limits.disruptive
  {
    RecentOfRecent(s.log, s.floor, now - HOUR);
    RecentCounts(s.log, now - HOUR, now);
  }

  lemma CheckKeepsInv(s: State, now: int, limits: Limits)
    requires Inv(s, limits) && s.clock <= now
    ensures Inv(Step(s, Check(now), limits), limits)
  {
    CheckIsFaithful(s, now, limits);
    if VerdictOf(s.killSwitch, s.history, now, limits).Clear? {
      ClearMeansRoom(s, now, limits);
    }
  }

  /** An execution after a clear check fits in every hour that contains it. */
  lemma RecordKeepsCap(s: State, entry: Entry, limit: int, onlyDisruptive: bool)
    requires Faithful(s) && s.clock <= entry.at && s.checkedAt <= s.clock
    requires RoomLeft(s, limit, onlyDisruptive) && Capped(s.log, limit, onlyDisruptive)
    ensures Capped(s.log + [entry], limit, onlyDisruptive)
  {
    forall from ensures InHour(s.log + [entry], from, onlyDisruptive) <= (if limit < 0 then 0 else limit) {
      RecordFits(s, entry, from, limit, onlyDisruptive);
    }
  }

  /** Nothing lies beyond the clock. */
  lemma SameEntries(s: State, from: int, to: int, onlyDisruptive: bool)
    requires Faithful(s) && s.clock <= to
    ensures EntriesIn(s.log, from, to, onlyDisruptive) == EntriesIn(s.log, from, s.clock, onlyDisruptive)
  {
    RecentCounts(s.log, from, to);
    RecentCounts(s.log, from, s.clock);
  }

  lemma RecordFits(s: State, entry: Entry, from: int, limit: int, onlyDisruptive: bool)
    requires Faithful(s) && s.clock <= entry.at && s.checkedAt <= s.clock && RoomLeft(s, limit, onlyDisruptive)
    requires InHour(s.log, from, onlyDisruptive) <= (if limit < 0 then 0 else limit)
    ensures InHour(s.log + [entry], from, onlyDisruptive) <= (if limit < 0 then 0 else limit)
  {
    EntriesOneMore(s.log, entry, from, from + HOUR, onlyDisruptive);
    if from <= entry.at <= from + HOUR {
      CountNarrows(Times(s.log, onlyDisruptive), from, from + HOUR, s.checkedAt - HOUR, from + HOUR);
      SameEntries(s, s.checkedAt - HOUR, from + HOUR, onlyDisruptive);
    }
  }

  lemma RecordKeepsInv(s: State, now: int, disruptive: bool, limits: Limits)
    requires Inv(s, limits) && s.clock <= now && s.armed
    ensures Inv(Step(s, Record(now, disruptive), limits), limits)
  {
    var entry := Entry(now, disruptive);
    LastOf(s.log, entry);
    RecordKeepsCap(s, entry, limits.actions, false);
    RecordKeepsCap(s, entry, limits.disruptive, true);
  }

  /** The kill switch, like any later clock reading, leaves the room that a check found. */
  lemma SetKillKeepsInv(s: State, now: int, enabled: bool, limits: Limits)
    requires Inv(s, limits) && s.clock <= now
    ensures Inv(Step(s, SetKill(now, enabled), limits), limits)
  {
    SameEntries(s, s.checkedAt - HOUR, now, false);
    SameEntries(s, s.checkedAt - HOUR, now, true);
  }

  lemma StepKeepsInv(s: State, op: Op, limits: Limits)
    requires Inv(s, limits) && s.clock <= op.now && (op.Record? ==> s.armed)
    ensures Inv(Step(s, op, limits), limits)
  {
    match op
    case Check(now) => CheckKeepsInv(s, now, limits);
    case Record(now, disruptive) => RecordKeepsInv(s, now, disruptive, limits);
    case SetKill(now, enabled) => SetKillKeepsInv(s, now, enabled, limits);
  }

  lemma {:induction false} RunKeepsInv(s: State, ops: seq<Op>, limits: Limits)
    requires Inv(s, limits) && Disciplined(s, ops, limits)
    ensures Inv(Run(s, ops, limits), limits)
    decreases |ops|
  {
    if ops != [] {
      StepKeepsInv(s, ops[0], limits);
      RunKeepsInv(Step(s, ops[0], limits), ops[1..], limits);
    }
  }

  // ---------------------------------------------------------------- main results

  /**
   * In every run whose executions each follow a clear check of their own, no hour, wherever it starts, holds more
   * executions or more disruptive ones than the caps allow.
   */
  lemma SlidingHourCap(now: int, ops: seq<Op>, limits: Limits, from: int)
    requires Disciplined(Start(now), ops, limits)
    ensures var log := Run(Start(now), ops, limits).log;
      && InHour(log, from, false) <= (if limits.actions < 0 then 0 else limits.actions)
      && InHour(log, from, true) <= (if limits.disruptive < 0 then 0 else limits.disruptive)
  {
    RunKeepsInv(Start(now), ops, limits);
  }

  /** The clock never goes back. Executions may follow any check, or none. */
  predicate Ordered(clock: int, ops: seq<Op>)
    decreases |ops|
  {
    ops == [] || (clock <= ops[0].now && Ordered(ops[0].now, ops[1..]))
  }

  function EndClock(clock: int, ops: seq<Op>): int {
    if ops == [] then clock else ops[|ops| - 1].now
  }

  lemma StepIsFaithful(s: State, op: Op, limits: Limits)
    requires Faithful(s) && s.clock <= op.now
    ensures Faithful(Step(s, op, limits)) && Step(s, op, limits).clock == op.now
  {
    match op
    case Check(now) => CheckIsFaithful(s, now, limits);
    case Record(now, disruptive) => LastOf(s.log, Entry(now, disruptive));
    case SetKill(_, _) =>
  }

  lemma {:induction false} RunIsFaithful(s: State, ops: seq<Op>, limits: Limits)
    requires Faithful(s) && Ordered(s.clock, ops)
    ensures Faithful(Run(s, ops, limits)) && Run(s, ops, limits).clock == EndClock(s.clock, ops)
    decreases |ops|
  {
    if ops != [] {
      StepIsFaithful(s, ops[0], limits);
      RunIsFaithful(Step(s, ops[0], limits), ops[1..], limits);
    }
  }

  /** After any run at all, the pruned history answers as the never-pruned log would. */
  lemma PrunedRunAnswersLikeFullLog(start: int, ops: seq<Op>, now: int, limits: Limits)
    requires Ordered(start, ops) && EndClock(start, ops) <= now
    ensures var s := Run(Start(start), ops, limits);
      VerdictOf(s.killSwitch, s.history, now, limits) == VerdictOf(s.killSwitch, s.log, now, limits)
  {
    RunIsFaithful(Start(start), ops, limits);
    PruningIsInvisible(Run(Start(start), ops, limits), now, limits);
  }

  // ---------------------------------------------------------------- the breaker, imperatively

  class CircuitBreaker {
    const limits: Limits
    var killSwitch: bool
    var history: seq<Entry>
    /** The run so far, with everything the breaker has forgotten. */
    ghost var state: State

    ghost predicate Valid()
      reads this
    {
      state.killSwitch == killSwitch && state.history == history
    }

    constructor (limits: Limits, ghost now: int)
      ensures Valid() && this.limits == limits && state == Start(now)
    {
      this.limits := limits;
      killSwitch, history, state := false, [], Start(now);
    }

    /** Prune, count, answer. */
    method Answer(now: int) returns (verdict: Verdict)
      modifies this`history
      ensures verdict == VerdictOf(killSwitch, old(history), now, limits)
      ensures history == if killSwitch then old(history) else Recent(old(history), now - HOUR)
    {
      if killSwitch {
        return KillSwitch;
      }
      var oneHourAgo := now - HOUR;
      var kept: seq<Entry> := [];
      for i := 0 to |history|
        invariant kept == Recent(history[..i], oneHourAgo)
      {
        assert history[..i + 1][..i] == history[..i];
        if history[i].at >= oneHourAgo {
          kept := kept + [history[i]];
        }
      }
      assert history[..|history|] == history;
      history := kept;
      var total := |history|;
      if total >= limits.actions {
        return ActionCap(total);
      }
      var disruptive := 0;
      for i := 0 to |history|
        invariant disruptive == DisruptiveCount(history[..i])
      {
        assert history[..i + 1][..i] == history[..i];
        if history[i].disruptive {
          disruptive := disruptive + 1;
        }
      }
      assert history[..|history|] == history;
      if disruptive >= limits.disruptive {
        return DisruptiveCap(disruptive);
      }
      verdict := Clear;
    }

    /** The verdict is what the full, never pruned log would give, and the call is one step of the run. */
    method IsTripped(now: int) returns (verdict: Verdict)
      requires Valid()
      modifies this`history, this`state
      ensures Valid() && state == Step(old(state), Check(now), limits)
      ensures Faithful(old(state)) && old(state).clock <= now ==>
        Faithful(state) && verdict == VerdictOf(killSwitch, state.log, now, limits)
      ensures verdict.Clear? <==> state.armed
    {
      ghost var before := state;
      verdict := Answer(now);
      state := Step(state, Check(now), limits);
      if Faithful(before) && before.clock <= now {
        PruningIsInvisible(before, now, limits);
        CheckIsFaithful(before, now, limits);
      }
    }

    /** After a clear check the caps of every hour still hold once the execution is recorded. */
    method RecordExecution(now: int, disruptive: bool)
      requires Valid()
      modifies this`history, this`state
      ensures Valid() && state == Step(old(state), Record(now, disruptive), limits)
      ensures Inv(old(state), limits) && old(state).armed && old(state).clock <= now ==>
        Inv(state, limits) && Capped(state.log, limits.actions, false) && Capped(state.log, limits.disruptive, true)
    {
      if Inv(state, limits) && state.armed && state.clock <= now {
        RecordKeepsInv(state, now, disruptive, limits);
      }
      state := Step(state, Record(now, disruptive), limits);
      history := history + [Entry(now, disruptive)];
    }

    /** While the switch is on, no check is clear. */
    method SetKillSwitch(enabled: bool, ghost now: int)
      requires Valid()
      modifies this`killSwitch, this`state
      ensures Valid() && state == Step(old(state), SetKill(now, enabled), limits)
      ensures enabled ==> forall later :: VerdictOf(killSwitch, history, later, limits) == KillSwitch
    {
      state := Step(state, SetKill(now, enabled), limits);
      killSwitch := enabled;
    }
  }
}
