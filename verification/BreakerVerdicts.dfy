/** When the circuit breaker trips: what a check answers after any run, in terms of the calls of that run. */
module BreakerVerdicts {
  import opened CircuitBreakers

  /** The executions that a run records, in order. */
  function Recorded(ops: seq<Op>): seq<Entry> {
    if ops == [] then []
    else (if ops[0].Record? then [Entry(ops[0].now, ops[0].disruptive)] else []) + Recorded(ops[1..])
  }

  /** The switch as the run leaves it. */
  function SwitchAfter(on: bool, ops: seq<Op>): bool
    decreases |ops|
  {
    if ops == [] then on else SwitchAfter(if ops[0].SetKill? then ops[0].enabled else on, ops[1..])
  }

  lemma {:induction false} RunRecords(s: State, ops: seq<Op>, limits: Limits)
    ensures Run(s, ops, limits).log == s.log + Recorded(ops)
    ensures Run(s, ops, limits).killSwitch == SwitchAfter(s.killSwitch, ops)
    decreases |ops|
  {
    if ops != [] {
      RunRecords(Step(s, ops[0], limits), ops[1..], limits);
    }
  }

  // ---------------------------------------------------------------- counts as sizes

  /** The executions of the last hour. */
  function LastHour(log: seq<Entry>, now: int): set<int> {
    set i | 0 <= i < |log| && now - 3600 <= log[i].at
  }

  function DisruptiveInLastHour(log: seq<Entry>, now: int): set<int> {
    set i | 0 <= i < |log| && now - 3600 <= log[i].at && log[i].disruptive
  }

  lemma {:induction false} RecentSize(log: seq<Entry>, now: int)
    ensures |Recent(log, now - 3600)| == |LastHour(log, now)|
    decreases |log|
  {
    var all := LastHour(log, now);
    if log == [] {
      assert all == {};
    } else {
      var front, n := log[..|log| - 1], |log| - 1;
      RecentSize(front, now);
      assert all == if now - 3600 <= log[n].at then LastHour(front, now) + {n} else LastHour(front, now);
    }
  }

  lemma {:induction false} DisruptiveOneMore(front: seq<Entry>, more: seq<Entry>)
    requires |more| <= 1
    ensures DisruptiveCount(front + more) == DisruptiveCount(front) + (if more != [] && more[0].disruptive then 1 else 0)
  {
    if more == [] {
      assert front + more == front;
    } else {
      assert more == [more[0]];
      LastOf(front, more[0]);
    }
  }

  lemma {:induction false} DisruptiveSize(log: seq<Entry>, now: int)
    ensures DisruptiveCount(Recent(log, now - 3600)) == |DisruptiveInLastHour(log, now)|
    decreases |log|
  {
    var disruptive := DisruptiveInLastHour(log, now);
    if log == [] {
      assert disruptive == {};
    } else {
      var front, n := log[..|log| - 1], |log| - 1;
      var kept := now - 3600 <= log[n].at;
      DisruptiveSize(front, now);
      DisruptiveOneMore(Recent(front, now - 3600), if kept then [log[n]] else []);
      assert disruptive ==
        if kept && log[n].disruptive then DisruptiveInLastHour(front, now) + {n} else DisruptiveInLastHour(front, now);
    }
  }

  // ---------------------------------------------------------------- verdicts

  /** The verdict over a log, with the counts that tripped it. */
  function VerdictOver(on: bool, log: seq<Entry>, now: int, limits: Limits): Verdict {
    var executions, disruptive := |LastHour(log, now)|, |DisruptiveInLastHour(log, now)|;
    if on then KillSwitch
    else if executions >= limits.actions then ActionCap(executions)
    else if disruptive >= limits.disruptive then DisruptiveCap(disruptive)
    else Clear
  }

  lemma {:induction false} VerdictCounts(on: bool, log: seq<Entry>, now: int, limits: Limits)
    ensures VerdictOf(on, log, now, limits) == VerdictOver(on, log, now, limits)
  {
    RecentSize(log, now);
    DisruptiveSize(log, now);
  }

  /**
   * After any run with a clock that does not go back, a check is clear if and only if the switch was last turned off, or
   * never on, and the executions that the run recorded in the last hour are below their cap, and the disruptive ones
   * below theirs; otherwise it names the first of these that fails, with its count.
   */
  lemma {:induction false} ClearIffBelowCaps(start: int, ops: seq<Op>, now: int, limits: Limits)
    requires Ordered(start, ops) && EndClock(start, ops) <= now
    ensures var s := Run(Start(start), ops, limits);
      VerdictOf(s.killSwitch, s.history, now, limits) == VerdictOver(SwitchAfter(false, ops), Recorded(ops), now, limits)
    ensures var s := Run(Start(start), ops, limits);
      VerdictOf(s.killSwitch, s.history, now, limits).Clear? <==>
        !SwitchAfter(false, ops) && |LastHour(Recorded(ops), now)| < limits.actions
        && |DisruptiveInLastHour(Recorded(ops), now)| < limits.disruptive
  {
    PrunedRunAnswersLikeFullLog(start, ops, now, limits);
    RunRecords(Start(start), ops, limits);
    assert [] + Recorded(ops) == Recorded(ops);
    VerdictCounts(SwitchAfter(false, ops), Recorded(ops), now, limits);
  }
}
