/**
 * The login throttle: counters that expire one fixed window after their first failure, checked before a password is
 * verified. Times are seconds; a key is gone from the instant its expiry is reached.
 */
module LoginLimiter {
  import opened TimeWindows

  /** The two digest keys of an attempt. */
  datatype Key = Account(email: string) | Ip(address: string)

  datatype Counter = Counter(count: nat, expiresAt: int)

  type Counters = map<Key, Counter>

  /** The configured window and limits, with the lower bounds the settings enforce. */
  datatype Policy = Policy(window: int, accountLimit: int, ipLimit: int) {
    predicate Configurable() {
      window >= 60 && accountLimit >= 1 && ipLimit >= 1
    }

    function Limit(key: Key): int {
      if key.Account? then accountLimit else ipLimit
    }
  }

  predicate Alive(counters: Counters, key: Key, now: int) {
    key in counters && now < counters[key].expiresAt
  }

  function Reading(counters: Counters, key: Key, now: int): nat {
    if Alive(counters, key, now) then counters[key].count else 0
  }

  /** One more failure: an expired or missing counter starts again at one, a live one keeps its expiry. */
  function Bumped(counters: Counters, key: Key, now: int, window: int): Counters {
    if Alive(counters, key, now) then
      counters[key := Counter(counters[key].count + 1, counters[key].expiresAt)]
    else
      counters[key := Counter(1, now + window)]
  }

  class LoginRateLimiter {
    const policy: Policy
    var counters: Counters

    constructor (policy: Policy)
      ensures this.policy == policy && counters == map[]
    {
      this.policy := policy;
      counters := map[];
    }

    method IsLimited(email: string, sourceIp: string, now: int) returns (limited: bool)
      ensures limited <==> Refused(counters, email, sourceIp, now, policy)
    {
      var account, ip := 0, 0;
      if Account(email) in counters && now < counters[Account(email)].expiresAt {
        account := counters[Account(email)].count;
      }
      if Ip(sourceIp) in counters && now < counters[Ip(sourceIp)].expiresAt {
        ip := counters[Ip(sourceIp)].count;
      }
      limited := account >= policy.accountLimit || ip >= policy.ipLimit;
    }

    method RecordFailure(email: string, sourceIp: string, now: int)
      modifies this`counters
      ensures counters == AfterFailure(old(counters), email, sourceIp, now, policy.window)
    {
      var keys := [Account(email), Ip(sourceIp)];
      var i := 0;
      while i < |keys|
        invariant 0 <= i <= 2
        invariant i == 0 ==> counters == old(counters)
        invariant i == 1 ==> counters == Bumped(old(counters), Account(email), now, policy.window)
        invariant i == 2 ==> counters == AfterFailure(old(counters), email, sourceIp, now, policy.window)
      {
        var key := keys[i];
        var first := !(key in counters && now < counters[key].expiresAt);
        var count := 1;
        if !first {
          count := counters[key].count + 1;
        }
        // INCR keeps the expiry; EXPIRE is sent only for the first failure.
        counters := counters[key := Counter(count, if first then now + policy.window else counters[key].expiresAt)];
        i := i + 1;
      }
    }

    method ClearAccount(email: string)
      modifies this`counters
      ensures counters == old(counters) - {Account(email)}
    {
      counters := map key | key in counters && key != Account(email) :: counters[key];
    }
  }

  // ---------------------------------------------------------------- runs

  predicate Refused(counters: Counters, email: string, ip: string, now: int, policy: Policy) {
    Reading(counters, Account(email), now) >= policy.accountLimit || Reading(counters, Ip(ip), now) >= policy.ipLimit
  }

  function AfterFailure(counters: Counters, email: string, ip: string, now: int, window: int): Counters {
    Bumped(Bumped(counters, Account(email), now, window), Ip(ip), now, window)
  }

  /**
   * One login attempt: the limiter is asked at `checkAt`, the password is verified at `at`, and the outcome is
   * recorded at `recordAt`. `valid` says the user exists, is active and gave the right password.
   */
  datatype Attempt = Attempt(email: string, ip: string, checkAt: int, at: int, recordAt: int, valid: bool)

  /** The counters, the latest time, and every failed attempt that reached the password check. */
  datatype State = State(counters: Counters, clock: int, failures: seq<Attempt>)

  function Step(s: State, a: Attempt, policy: Policy): State {
    if Refused(s.counters, a.email, a.ip, a.checkAt, policy) then
      s.(clock := a.checkAt)
    else if a.valid then
      s.(counters := s.counters - {Account(a.email)}, clock := a.recordAt)
    else
      State(AfterFailure(s.counters, a.email, a.ip, a.recordAt, policy.window), a.recordAt, s.failures + [a])
  }

  function Run(s: State, attempts: seq<Attempt>, policy: Policy): State
    decreases |attempts|
  {
    if attempts == [] then s else Run(Step(s, attempts[0], policy), attempts[1..], policy)
  }

  /** One attempt after another, each taking its steps in order. */
  predicate Sequential(clock: int, attempts: seq<Attempt>)
    decreases |attempts|
  {
    attempts == []
    || (var a := attempts[0];
        clock <= a.checkAt <= a.at <= a.recordAt && Sequential(a.recordAt, attempts[1..]))
  }

  predicate Concerns(a: Attempt, key: Key) {
    if key.Account? then a.email == key.email else a.ip == key.address
  }

  /** No login with the right password clears this counter. Nothing ever clears an address. */
  predicate NeverCleared(attempts: seq<Attempt>, key: Key) {
    key.Account? ==> forall a | a in attempts :: a.valid ==> a.email != key.email
  }

  /** When the password was verified, for each failure that concerns the key. */
  function Moments(failures: seq<Attempt>, key: Key): seq<int> {
    if failures == [] then
      []
    else
      var last := failures[|failures| - 1];
      Moments(failures[..|failures| - 1], key) + (if Concerns(last, key) then [last.at] else [])
  }

  // ---------------------------------------------------------------- one counter

  function Hits(log: seq<int>, from: int, window: int): nat {
    CountIn(log, from, from + window)
  }

  ghost predicate Bounded(log: seq<int>, window: int, limit: int) {
    forall from :: Hits(log, from, window) <= 2 * limit
  }

  /**
   * How a counter accounts for its log: the last `count` failures are those of its own window, all earlier ones came
   * before the window opened, and at most `limit` of those came in the window's length before it.
   */
  ghost predicate Accounts(log: seq<int>, c: Counter, clock: int, window: int, limit: int) {
    && 1 <= c.count <= |log|
    && c.count <= limit
    && c.expiresAt - window <= clock
    && (forall j | 0 <= j < |log| :: log[j] < c.expiresAt)
    && (forall j | 0 <= j < |log| - c.count :: log[j] < c.expiresAt - window)
    && CountFrom(log[..|log| - c.count], c.expiresAt - window - window) <= limit
  }

  /** One more failure keeps every interval within twice the limit. */
  lemma FailureStaysBounded(log: seq<int>, c: Counter, clock: int, a: Attempt, window: int, limit: int)
    requires Accounts(log, c, clock, window, limit) && Bounded(log, window, limit)
    requires clock <= a.checkAt <= a.at
    requires a.checkAt < c.expiresAt ==> c.count < limit
    ensures Bounded(log + [a.at], window, limit)
  {
    forall from ensures Hits(log + [a.at], from, window) <= 2 * limit {
      assert (log + [a.at])[..|log|] == log;
      assert Hits(log, from, window) <= 2 * limit;
      if from <= a.at <= from + window {
        CountInAtMostFrom(log, from, from + window, from);
        CountFromSplit(log, |log| - c.count, from, if from < c.expiresAt - 2 * window then from else c.expiresAt - 2 * window);
      }
    }
  }

  lemma SameWindow(log: seq<int>, c: Counter, clock: int, a: Attempt, window: int, limit: int)
    requires Accounts(log, c, clock, window, limit)
    requires clock <= a.checkAt <= a.at <= a.recordAt < c.expiresAt && c.count < limit
    ensures Accounts(log + [a.at], Counter(c.count + 1, c.expiresAt), a.recordAt, window, limit)
  {
    var p := |log| - c.count;
    assert (log + [a.at])[..p] == log[..p];
  }

  lemma NextWindow(log: seq<int>, c: Counter, clock: int, a: Attempt, window: int, limit: int)
    requires Accounts(log, c, clock, window, limit) && window > 0
    requires clock <= a.checkAt <= a.at <= a.recordAt && c.expiresAt <= a.recordAt
    ensures Accounts(log + [a.at], Counter(1, a.recordAt + window), a.recordAt, window, limit)
  {
    var next := log + [a.at];
    assert next[..|next| - 1] == log;
    CountFromSplit(log, |log| - c.count, a.recordAt - window, a.recordAt - window);
  }

  // ---------------------------------------------------------------- whole runs

  ghost predicate CounterInv(log: seq<int>, counters: Counters, key: Key, clock: int, window: int, limit: int) {
    && (key !in counters ==> log == [])
    && (key in counters ==> Accounts(log, counters[key], clock, window, limit))
    && Bounded(log, window, limit)
  }

  ghost predicate KeyInv(s: State, key: Key, policy: Policy) {
    CounterInv(Moments(s.failures, key), s.counters, key, s.clock, policy.window, policy.Limit(key))
  }

  lemma CounterAfterFailure(counters: Counters, a: Attempt, key: Key, now: int, window: int)
    requires Concerns(a, key)
    ensures AfterFailure(counters, a.email, a.ip, now, window)[key] == Bumped(counters, key, now, window)[key]
  {
    assert key == Account(a.email) || key == Ip(a.ip);
  }

  lemma FirstFailure(a: Attempt, window: int, limit: int)
    requires limit >= 1 && window > 0 && a.at <= a.recordAt
    ensures Accounts([a.at], Counter(1, a.recordAt + window), a.recordAt, window, limit)
    ensures Bounded([a.at], window, limit)
  {
    forall from ensures Hits([a.at], from, window) <= 2 * limit {
      CountInAtMostLength([a.at], from, from + window);
    }
  }

  function NextCounter(c: Counter, now: int, window: int): Counter {
    if now < c.expiresAt then Counter(c.count + 1, c.expiresAt) else Counter(1, now + window)
  }

  lemma NextFailure(log: seq<int>, c: Counter, clock: int, a: Attempt, window: int, limit: int)
    requires Accounts(log, c, clock, window, limit) && window > 0
    requires clock <= a.checkAt <= a.at <= a.recordAt
    requires a.checkAt < c.expiresAt ==> c.count < limit
    ensures Accounts(log + [a.at], NextCounter(c, a.recordAt, window), a.recordAt, window, limit)
  {
    if a.recordAt < c.expiresAt {
      SameWindow(log, c, clock, a, window, limit);
    } else {
      NextWindow(log, c, clock, a, window, limit);
    }
  }

  lemma FailureKeepsInv(s: State, a: Attempt, key: Key, policy: Policy)
    requires KeyInv(s, key, policy) && policy.Configurable() && s.clock <= a.checkAt <= a.at <= a.recordAt
    requires Concerns(a, key) && !Refused(s.counters, a.email, a.ip, a.checkAt, policy) && !a.valid
    ensures KeyInv(Step(s, a, policy), key, policy)
  {
    var next := Step(s, a, policy);
    assert next.failures[..|next.failures| - 1] == s.failures;
    assert key == Account(a.email) || key == Ip(a.ip);
    assert Moments(next.failures, key) == Moments(s.failures, key) + [a.at];
    var log, window, limit := Moments(s.failures, key), policy.window, policy.Limit(key);
    CounterAfterFailure(s.counters, a, key, a.recordAt, window);
    var c := next.counters[key];
    if key in s.counters {
      assert c == NextCounter(s.counters[key], a.recordAt, window);
      NextFailure(log, s.counters[key], s.clock, a, window, limit);
      FailureStaysBounded(log, s.counters[key], s.clock, a, window, limit);
    } else {
      assert log + [a.at] == [a.at];
      assert c == Counter(1, a.recordAt + window);
      FirstFailure(a, window, limit);
    }
    assert Accounts(log + [a.at], c, a.recordAt, window, limit);
  }

  lemma LaterClock(log: seq<int>, counters: Counters, next: Counters, key: Key, clock: int, later: int, policy: Policy)
    requires CounterInv(log, counters, key, clock, policy.window, policy.Limit(key)) && clock <= later
    requires (key in next <==> key in counters) && (key in counters ==> next[key] == counters[key])
    ensures CounterInv(log, next, key, later, policy.window, policy.Limit(key))
  {
  }

  lemma OtherFailureKeepsInv(s: State, a: Attempt, key: Key, policy: Policy)
    requires KeyInv(s, key, policy) && s.clock <= a.recordAt
    requires !Concerns(a, key) && !Refused(s.counters, a.email, a.ip, a.checkAt, policy) && !a.valid
    ensures KeyInv(Step(s, a, policy), key, policy)
  {
    var next := Step(s, a, policy);
    assert next.failures[..|next.failures| - 1] == s.failures;
    assert Moments(next.failures, key) == Moments(s.failures, key);
    LaterClock(Moments(s.failures, key), s.counters, next.counters, key, s.clock, a.recordAt, policy);
  }

  lemma StepKeepsInv(s: State, a: Attempt, key: Key, policy: Policy)
    requires KeyInv(s, key, policy) && policy.Configurable() && s.clock <= a.checkAt <= a.at <= a.recordAt
    requires NeverCleared([a], key)
    ensures KeyInv(Step(s, a, policy), key, policy)
  {
    var next, log := Step(s, a, policy), Moments(s.failures, key);
    if Refused(s.counters, a.email, a.ip, a.checkAt, policy) || a.valid {
      assert a in [a];
      LaterClock(log, s.counters, next.counters, key, s.clock, next.clock, policy);
      assert next.failures == s.failures;
    } else if Concerns(a, key) {
      FailureKeepsInv(s, a, key, policy);
    } else {
      OtherFailureKeepsInv(s, a, key, policy);
    }
  }

  lemma {:induction false} RunKeepsInv(s: State, attempts: seq<Attempt>, key: Key, policy: Policy)
    requires KeyInv(s, key, policy) && policy.Configurable()
    requires Sequential(s.clock, attempts) && NeverCleared(attempts, key)
    ensures KeyInv(Run(s, attempts, policy), key, policy)
    decreases |attempts|
  {
    if attempts != [] {
      var a := attempts[0];
      assert a in attempts;
      StepKeepsInv(s, a, key, policy);
      SequentialFromEarlier(Step(s, a, policy).clock, a.recordAt, attempts[1..]);
      RunKeepsInv(Step(s, a, policy), attempts[1..], key, policy);
    }
  }

  lemma SequentialFromEarlier(early: int, clock: int, attempts: seq<Attempt>)
    requires early <= clock && Sequential(clock, attempts)
    ensures Sequential(early, attempts)
  {
  }

  // ---------------------------------------------------------------- main results

  function Start(now: int): State {
    State(map[], now, [])
  }

  /**
   * However attempts are spread over accounts and addresses, no interval of one window's length sees more than twice
   * the limit of failed password checks for one address, nor for one account that no successful login cleared.
   */
  lemma ThrottleBound(now: int, attempts: seq<Attempt>, key: Key, policy: Policy, from: int)
    requires policy.Configurable() && Sequential(now, attempts) && NeverCleared(attempts, key)
    ensures Hits(Moments(Run(Start(now), attempts, policy).failures, key), from, policy.window)
      <= 2 * (if key.Account? then policy.accountLimit else policy.ipLimit)
  {
    RunKeepsInv(Start(now), attempts, key, policy);
  }

  // ---------------------------------------------------------------- the bound is tight

  /** Distinct words. */
  function Word(n: nat): string {
    seq(n, i => 'x')
  }

  /** The other key of the `i`-th attempt in a row: each attempt on an account comes from an address of its own. */
  function Other(key: Key, i: nat): Key {
    if key.Account? then Ip(Word(i)) else Account(Word(i))
  }

  /** A wrong password, everything at one instant. */
  function Wrong(key: Key, at: int, i: nat): Attempt {
    if key.Account? then Attempt(key.email, Word(i), at, at, at, false) else Attempt(Word(i), key.address, at, at, at, false)
  }

  function Burst(key: Key, at: int, first: nat, n: nat): seq<Attempt>
    decreases n
  {
    if n == 0 then [] else [Wrong(key, at, first)] + Burst(key, at, first + 1, n - 1)
  }

  ghost predicate UnusedFrom(counters: Counters, key: Key, first: nat) {
    forall i: nat | first <= i :: Other(key, i) !in counters
  }

  lemma WordsDiffer(i: nat, j: nat)
    requires i != j
    ensures Word(i) != Word(j)
  {
    assert |Word(i)| != |Word(j)|;
  }

  /** When the key's counter runs out, should a failure come at `at`. */
  function Expiry(counters: Counters, key: Key, at: int, window: int): int {
    if Alive(counters, key, at) then counters[key].expiresAt else at + window
  }

  /** There is room for `n` failures, and the other keys from the `first` on are unused. */
  ghost predicate Room(s: State, key: Key, at: int, first: nat, n: nat, expiry: int, policy: Policy) {
    && policy.Configurable() && UnusedFrom(s.counters, key, first)
    && Reading(s.counters, key, at) + n <= policy.Limit(key) && Expiry(s.counters, key, at, policy.window) == expiry
  }

  lemma {:induction false} OthersUnused(s: State, key: Key, at: int, first: nat, window: int)
    requires UnusedFrom(s.counters, key, first)
    ensures var a := Wrong(key, at, first); UnusedFrom(AfterFailure(s.counters, a.email, a.ip, at, window), key, first + 1)
  {
    forall i: nat | first + 1 <= i
      ensures var a := Wrong(key, at, first); Other(key, i) !in AfterFailure(s.counters, a.email, a.ip, at, window)
    {
      WordsDiffer(first, i);
      assert Other(key, i) !in s.counters;
    }
  }

  /** A wrong password for which there is room gets through and takes its place. */
  lemma {:induction false} WrongPasses(s: State, key: Key, at: int, first: nat, n: nat, expiry: int, policy: Policy)
    requires n > 0 && Room(s, key, at, first, n, expiry, policy)
    ensures var next := Step(s, Wrong(key, at, first), policy);
      Room(next, key, at, first + 1, n - 1, expiry, policy) && next.failures == s.failures + [Wrong(key, at, first)]
  {
    var a := Wrong(key, at, first);
    assert Other(key, first) !in s.counters;
    assert !Refused(s.counters, a.email, a.ip, at, policy);
    OthersUnused(s, key, at, first, policy.window);
    CounterAfterFailure(s.counters, a, key, at, policy.window);
  }

  lemma {:induction false} BurstRuns(s: State, key: Key, at: int, first: nat, n: nat, expiry: int, policy: Policy)
    requires Room(s, key, at, first, n, expiry, policy)
    ensures var end := Run(s, Burst(key, at, first, n), policy);
      Room(end, key, at, first + n, 0, expiry, policy) && end.failures == s.failures + Burst(key, at, first, n)
    decreases n
  {
    if n > 0 {
      var a, rest := Wrong(key, at, first), Burst(key, at, first + 1, n - 1);
      WrongPasses(s, key, at, first, n, expiry, policy);
      RunHead(s, a, rest, policy);
      BurstRuns(Step(s, a, policy), key, at, first + 1, n - 1, expiry, policy);
      ConcatAgain(s.failures, a, rest);
    }
  }

  lemma ConcatAgain(failures: seq<Attempt>, a: Attempt, rest: seq<Attempt>)
    ensures failures + [a] + rest == failures + ([a] + rest)
  {
  }

  lemma {:induction false} RunHead(s: State, a: Attempt, rest: seq<Attempt>, policy: Policy)
    ensures Run(s, [a] + rest, policy) == Run(Step(s, a, policy), rest, policy)
  {
    assert ([a] + rest)[1..] == rest;
  }

  /** At the instant a counter runs out there is room again. */
  lemma {:induction false} RoomAgain(s: State, key: Key, at: int, first: nat, policy: Policy)
    requires Room(s, key, at, first, 0, at + policy.window, policy)
    ensures var later := at + policy.window; Room(s, key, later, first, policy.Limit(key), later + policy.window, policy)
  {
  }

  lemma {:induction false} RunConcat(s: State, first: seq<Attempt>, second: seq<Attempt>, policy: Policy)
    ensures Run(s, first + second, policy) == Run(Run(s, first, policy), second, policy)
    decreases |first|
  {
    if first == [] {
      assert first + second == second;
    } else {
      assert (first + second)[1..] == first[1..] + second;
      RunConcat(Step(s, first[0], policy), first[1..], second, policy);
    }
  }

  lemma {:induction false} SequentialBurst(clock: int, key: Key, at: int, first: nat, n: nat, rest: seq<Attempt>)
    requires clock <= at && Sequential(at, rest)
    ensures Sequential(clock, Burst(key, at, first, n) + rest)
    decreases n
  {
    if n == 0 {
      assert Burst(key, at, first, n) + rest == rest;
      SequentialFromEarlier(clock, at, rest);
    } else {
      SequentialBurst(at, key, at, first + 1, n - 1, rest);
      assert (Burst(key, at, first, n) + rest)[1..] == Burst(key, at, first + 1, n - 1) + rest;
    }
  }

  lemma {:induction false} BurstMembers(key: Key, at: int, first: nat, n: nat)
    ensures |Burst(key, at, first, n)| == n
    ensures forall a | a in Burst(key, at, first, n) :: !a.valid && Concerns(a, key) && a.at == at
    decreases n
  {
    if n > 0 {
      BurstMembers(key, at, first + 1, n - 1);
    }
  }

  lemma {:induction false} AllWithin(failures: seq<Attempt>, key: Key, from: int, to: int)
    requires forall a | a in failures :: Concerns(a, key) && from <= a.at <= to
    ensures CountIn(Moments(failures, key), from, to) == |failures|
    decreases |failures|
  {
    if failures != [] {
      var front, last := failures[..|failures| - 1], failures[|failures| - 1];
      AllWithin(front, key, from, to);
      assert last in failures && Moments(failures, key) == Moments(front, key) + [last.at];
      CountOneMore(Moments(front, key), last.at, from, to);
    }
  }

  ghost predicate Reaches(now: int, attempts: seq<Attempt>, key: Key, policy: Policy, count: int) {
    && Sequential(now, attempts)
    && Hits(Moments(Run(Start(now), attempts, policy).failures, key), now, policy.window) == count
  }

  /** A burst when the window opens, and another at the instant it runs out. */
  function TwoBursts(now: int, key: Key, policy: Policy): seq<Attempt>
    requires policy.Configurable()
  {
    var n := policy.Limit(key);
    Burst(key, now, 0, n) + Burst(key, now + policy.window, n, n)
  }

  lemma {:induction false} FirstBurst(now: int, key: Key, policy: Policy)
    requires policy.Configurable()
    ensures var n, later := policy.Limit(key), now + policy.window;
      var between := Run(Start(now), Burst(key, now, 0, n), policy);
      between.failures == Burst(key, now, 0, n) && Room(between, key, later, n, n, later + policy.window, policy)
  {
    var n := policy.Limit(key);
    BurstRuns(Start(now), key, now, 0, n, now + policy.window, policy);
    RoomAgain(Run(Start(now), Burst(key, now, 0, n), policy), key, now, n, policy);
  }

  lemma {:induction false} TwoBurstsRun(now: int, key: Key, policy: Policy)
    requires policy.Configurable()
    ensures Run(Start(now), TwoBursts(now, key, policy), policy).failures == TwoBursts(now, key, policy)
  {
    var n, later := policy.Limit(key), now + policy.window;
    FirstBurst(now, key, policy);
    RunConcat(Start(now), Burst(key, now, 0, n), Burst(key, later, n, n), policy);
    BurstRuns(Run(Start(now), Burst(key, now, 0, n), policy), key, later, n, n, later + policy.window, policy);
  }

  lemma {:induction false} TwoBurstsMembers(now: int, key: Key, policy: Policy)
    requires policy.Configurable()
    ensures Sequential(now, TwoBursts(now, key, policy)) && |TwoBursts(now, key, policy)| == 2 * policy.Limit(key)
    ensures forall a | a in TwoBursts(now, key, policy) ::
      !a.valid && Concerns(a, key) && now <= a.at <= now + policy.window
  {
    var n, later := policy.Limit(key), now + policy.window;
    var second := Burst(key, later, n, n);
    BurstMembers(key, now, 0, n);
    BurstMembers(key, later, n, n);
    SequentialBurst(now, key, later, n, n, []);
    assert second + [] == second;
    SequentialBurst(now, key, now, 0, n, second);
  }

  /** Twice the limit is reached for every account and for every address, by failures alone. */
  lemma BoundIsReached(now: int, key: Key, policy: Policy)
    requires policy.Configurable()
    ensures exists attempts :: (NeverCleared(attempts, key)
      && Reaches(now, attempts, key, policy, 2 * (if key.Account? then policy.accountLimit else policy.ipLimit)))
  {
    var attempts := TwoBursts(now, key, policy);
    TwoBurstsRun(now, key, policy);
    TwoBurstsMembers(now, key, policy);
    AllWithin(attempts, key, now, now + policy.window);
    assert NeverCleared(attempts, key) && Reaches(now, attempts, key, policy, 2 * policy.Limit(key));
  }

  // ---------------------------------------------------------------- accounts that are cleared

  function From(at: int, address: nat, valid: bool): Attempt {
    Attempt("user", Word(address), at, at, at, valid)
  }

  /** Wrong and right passwords in turn, each from an address of its own. */
  function Alternating(at: int, first: nat, n: nat): seq<Attempt>
    decreases n
  {
    if n == 0 then [] else [From(at, first, false), From(at, first + 1, true)] + Alternating(at, first + 2, n - 1)
  }

  ghost predicate Unused(s: State, first: nat) {
    Account("user") !in s.counters && forall k: nat | first <= k :: Ip(Word(k)) !in s.counters
  }

  /** A failure and the success after it leave the account as it was, and the addresses to come unused. */
  lemma {:induction false} TurnAround(s: State, at: int, first: nat, policy: Policy)
    requires s.clock == at && policy.Configurable() && policy.accountLimit >= 2 && Unused(s, first)
    ensures var failed := Step(s, From(at, first, false), policy);
      var cleared := Step(failed, From(at, first + 1, true), policy);
      && cleared.clock == at && Unused(cleared, first + 2)
      && cleared.failures == s.failures + [From(at, first, false)]
  {
    var failed := Step(s, From(at, first, false), policy);
    assert forall k: nat | first < k :: Ip(Word(k)) !in failed.counters;
  }

  lemma {:induction false} AlternatingRuns(s: State, at: int, first: nat, n: nat, policy: Policy)
    requires s.clock == at && policy.Configurable() && policy.accountLimit >= 2 && Unused(s, first)
    ensures Sequential(at, Alternating(at, first, n))
    ensures var reached := Run(s, Alternating(at, first, n), policy).failures;
      |reached| == |s.failures| + n && reached[..|s.failures|] == s.failures
      && forall i | |s.failures| <= i < |reached| :: reached[i].email == "user" && reached[i].at == at
    decreases n
  {
    if n > 0 {
      var rest := Alternating(at, first + 2, n - 1);
      var wrong, right := From(at, first, false), From(at, first + 1, true);
      TurnAround(s, at, first, policy);
      var cleared := Step(Step(s, wrong, policy), right, policy);
      assert Alternating(at, first, n)[1..] == [right] + rest && ([right] + rest)[1..] == rest;
      AlternatingRuns(cleared, at, first + 2, n - 1, policy);
    }
  }

  /** With a limit of two or more, successes in between let any number of failures through in one instant. */
  lemma {:induction false} SuccessLiftsTheBound(now: int, n: nat, policy: Policy)
    requires policy.Configurable() && policy.accountLimit >= 2
    ensures exists attempts :: Reaches(now, attempts, Account("user"), policy, n)
  {
    var attempts := Alternating(now, 0, n);
    AlternatingRuns(Start(now), now, 0, n, policy);
    AllWithin(Run(Start(now), attempts, policy).failures, Account("user"), now, now + policy.window);
    assert Reaches(now, attempts, Account("user"), policy, n);
  }

  ghost predicate Spaced(log: seq<int>, window: int) {
    forall i, j | 0 <= i < j < |log| :: log[i] + window <= log[j]
  }

  lemma {:induction false} SpacedHits(log: seq<int>, from: int, to: int, window: int)
    requires Spaced(log, window) && to < from + window
    ensures CountIn(log, from, to) <= 1
    decreases |log|
  {
    if log != [] {
      var front, last := log[..|log| - 1], log[|log| - 1];
      SpacedHits(front, from, to, window);
      if from <= last <= to {
        NothingIn(front, from, to);
      }
    }
  }

  /** With a limit of one, no attempt passes the check before a window has passed since the last failure. */
  ghost predicate OneAtATime(log: seq<int>, counters: Counters, key: Key, clock: int, window: int) {
    && Spaced(log, window)
    && (forall j | 0 <= j < |log| :: log[j] <= clock)
    && (key in counters ==> counters[key].count >= 1)
    && ((key in counters && forall j | 0 <= j < |log| :: log[j] + window <= counters[key].expiresAt)
        || forall j | 0 <= j < |log| :: log[j] + window <= clock)
  }

  ghost predicate AccountInv(s: State, email: string, policy: Policy) {
    OneAtATime(Moments(s.failures, Account(email)), s.counters, Account(email), s.clock, policy.window)
  }

  /** An attempt that passes the check of an account with a limit of one comes a window after its last failure. */
  lemma {:induction false} PassedLater(s: State, a: Attempt, policy: Policy)
    requires AccountInv(s, a.email, policy) && policy.accountLimit == 1 && s.clock <= a.checkAt
    requires !Refused(s.counters, a.email, a.ip, a.checkAt, policy)
    ensures forall m | m in Moments(s.failures, Account(a.email)) :: m + policy.window <= a.checkAt
  {
  }

  lemma {:induction false} OneFailure(s: State, a: Attempt, policy: Policy)
    requires AccountInv(s, a.email, policy) && policy.Configurable() && policy.accountLimit == 1
    requires s.clock <= a.checkAt <= a.at <= a.recordAt
    requires !Refused(s.counters, a.email, a.ip, a.checkAt, policy) && !a.valid
    ensures AccountInv(Step(s, a, policy), a.email, policy)
  {
    var next, key, log := Step(s, a, policy), Account(a.email), Moments(s.failures, Account(a.email));
    PassedLater(s, a, policy);
    assert next.failures[..|next.failures| - 1] == s.failures;
    assert Moments(next.failures, key) == log + [a.at];
    CounterAfterFailure(s.counters, a, key, a.recordAt, policy.window);
    assert forall j | 0 <= j < |log| :: log[j] in log;
  }

  lemma {:induction false} OneStep(s: State, a: Attempt, email: string, policy: Policy)
    requires AccountInv(s, email, policy) && policy.Configurable() && policy.accountLimit == 1
    requires s.clock <= a.checkAt <= a.at <= a.recordAt
    ensures AccountInv(Step(s, a, policy), email, policy)
  {
    var next, log := Step(s, a, policy), Moments(s.failures, Account(email));
    if Refused(s.counters, a.email, a.ip, a.checkAt, policy) {
    } else if a.email == email && !a.valid {
      OneFailure(s, a, policy);
    } else if a.email == email {
      PassedLater(s, a, policy);
      assert forall j | 0 <= j < |log| :: log[j] in log;
    } else if !a.valid {
      assert next.failures[..|next.failures| - 1] == s.failures;
      assert Moments(next.failures, Account(email)) == log;
    }
  }

  lemma {:induction false} OneRun(s: State, attempts: seq<Attempt>, email: string, policy: Policy)
    requires AccountInv(s, email, policy) && policy.Configurable() && policy.accountLimit == 1
    requires Sequential(s.clock, attempts)
    ensures AccountInv(Run(s, attempts, policy), email, policy)
    decreases |attempts|
  {
    if attempts != [] {
      OneStep(s, attempts[0], email, policy);
      SequentialFromEarlier(Step(s, attempts[0], policy).clock, attempts[0].recordAt, attempts[1..]);
      OneRun(Step(s, attempts[0], policy), attempts[1..], email, policy);
    }
  }

  /** The bound for accounts over all sequential runs, successful logins included. */
  ghost predicate AccountBound(policy: Policy) {
    forall now, attempts, email, from | Sequential(now, attempts) ::
      AccountHits(now, attempts, email, from, policy) <= 2 * policy.accountLimit
  }

  function AccountHits(now: int, attempts: seq<Attempt>, email: string, from: int, policy: Policy): nat {
    Hits(Moments(Run(Start(now), attempts, policy).failures, Account(email)), from, policy.window)
  }

  /**
   * Exactly when an account is protected although successful logins clear its counter: under every configuration with
   * a limit of one, since then no login passes while the counter lives, and under no other.
   */
  lemma {:induction false} AccountBoundIff(policy: Policy)
    requires policy.Configurable()
    ensures AccountBound(policy) <==> policy.accountLimit == 1
  {
    if policy.accountLimit == 1 {
      forall now, attempts, email, from | Sequential(now, attempts)
        ensures AccountHits(now, attempts, email, from, policy) <= 2 * policy.accountLimit
      {
        OneRun(Start(now), attempts, email, policy);
        var log := Moments(Run(Start(now), attempts, policy).failures, Account(email));
        CountInSplit(log, from, from + policy.window, from + policy.window);
        SpacedHits(log, from, from + policy.window - 1, policy.window);
        SpacedHits(log, from + policy.window, from + policy.window, policy.window);
      }
    } else {
      SuccessLiftsTheBound(0, 2 * policy.accountLimit + 1, policy);
      var attempts :| Reaches(0, attempts, Account("user"), policy, 2 * policy.accountLimit + 1);
      assert AccountHits(0, attempts, "user", 0, policy) > 2 * policy.accountLimit;
    }
  }
}
