/** The browser's message handler: duplicates are dropped by id, stale updates by version. */
module VersionGate {
  import opened Options

  const MAX_SEEN := 1000

  /** A frame from the socket. An absent or non-string text field reads as "". */
  datatype Message = Unreadable | Message(kind: string, id: string, entityId: string, version: Option<int>)

  datatype Act = Act(key: string, version: int)

  /** Ids seen, in insertion order; the newest version acted on for each key; and everything acted on, in order. */
  datatype Gate = Gate(seen: seq<string>, versions: map<string, int>, acted: seq<Act>)

  const EMPTY := Gate([], map[], [])

  predicate Heartbeat(m: Message) {
    m.Message? && m.kind == "system.heartbeat"
  }

  /** A message that gets as far as the gates. */
  predicate Gated(m: Message) {
    m.Message? && !Heartbeat(m) && m.id != "" && m.kind != "" && m.entityId != "" && m.version.Some?
  }

  function KeyOf(m: Message): string
    requires m.Message?
  {
    m.kind + ":" + m.entityId
  }

  function Known(versions: map<string, int>, key: string): int {
    if key in versions then versions[key] else -1
  }

  /** A new id goes last; over a thousand, the oldest goes. */
  function Remember(seen: seq<string>, id: string): seq<string> {
    if |seen| >= MAX_SEEN then seen[1..] + [id] else seen + [id]
  }

  function Handle(g: Gate, m: Message): Gate {
    if !Gated(m) || m.id in g.seen then g
    else if Known(g.versions, KeyOf(m)) >= m.version.value then g.(seen := Remember(g.seen, m.id))
    else Gate(Remember(g.seen, m.id), g.versions[KeyOf(m) := m.version.value], g.acted + [Act(KeyOf(m), m.version.value)])
  }

  class RealtimeProvider {
    var seen: seq<string>
    var versions: map<string, int>
    var acted: seq<Act>
    var pongs: nat

    ghost function State(): Gate
      reads this
    {
      Gate(seen, versions, acted)
    }

    constructor ()
      ensures State() == EMPTY && pongs == 0
    {
      seen, versions, acted, pongs := [], map[], [], 0;
    }

    method HandleMessage(m: Message)
      requires |seen| <= MAX_SEEN
      modifies this
      ensures State() == Handle(old(State()), m) && |seen| <= 1000
      ensures pongs == old(pongs) + (if Heartbeat(m) then 1 else 0)
    {
      if m.Unreadable? {
        return;
      }
      if m.kind == "system.heartbeat" {
        pongs := pongs + 1;
        return;
      }
      if m.id == "" || m.kind == "" || m.entityId == "" || m.version.None? {
        return;
      }
      if m.id in seen {
        return;
      }
      seen := seen + [m.id];
      if |seen| > MAX_SEEN {
        seen := seen[1..];
      }
      var versionKey := m.kind + ":" + m.entityId;
      var known := -1;
      if versionKey in versions {
        known := versions[versionKey];
      }
      if known >= m.version.value {
        return;
      }
      versions := versions[versionKey := m.version.value];
      acted := acted + [Act(versionKey, m.version.value)];
    }
  }

  // ---------------------------------------------------------------- runs and their reference form

  function Run(arrivals: seq<Message>): Gate {
    if arrivals == [] then EMPTY else Handle(Run(arrivals[..|arrivals| - 1]), arrivals[|arrivals| - 1])
  }

  /** The largest version that has arrived for a key, or -1. */
  function Newest(arrivals: seq<Message>, key: string): int {
    if arrivals == [] then
      -1
    else
      var m := arrivals[|arrivals| - 1];
      var before := Newest(arrivals[..|arrivals| - 1], key);
      if Gated(m) && KeyOf(m) == key && m.version.value > before then m.version.value else before
  }

  /** The arrivals that raise the newest version of their key, with no memory of ids at all. */
  function Records(arrivals: seq<Message>): seq<Act> {
    if arrivals == [] then
      []
    else
      var m, front := arrivals[|arrivals| - 1], arrivals[..|arrivals| - 1];
      Records(front) + (if Gated(m) && m.version.value > Newest(front, KeyOf(m)) then [Act(KeyOf(m), m.version.value)] else [])
  }

  /** Two messages that share an id carry the same update, or neither can ever be acted on. */
  ghost predicate Agree(m: Message, n: Message) {
    Gated(m) && Gated(n) && m.id == n.id ==>
      (KeyOf(m) == KeyOf(n) && m.version == n.version) || (m.version.value < 0 && n.version.value < 0)
  }

  ghost predicate IdsAgree(arrivals: seq<Message>) {
    forall m, n | m in arrivals && n in arrivals :: Agree(m, n)
  }

  // ---------------------------------------------------------------- the invariant

  ghost predicate SeenArrived(seen: seq<string>, arrivals: seq<Message>) {
    forall id | id in seen :: exists m :: m in arrivals && Gated(m) && m.id == id
  }

  ghost predicate Inv(g: Gate, arrivals: seq<Message>) {
    && |g.seen| <= MAX_SEEN
    && SeenArrived(g.seen, arrivals)
    && g.acted == Records(arrivals)
    && forall key :: Known(g.versions, key) == Newest(arrivals, key)
  }

  lemma {:induction false} NewestAtLeast(arrivals: seq<Message>, key: string)
    ensures Newest(arrivals, key) >= -1
    decreases |arrivals|
  {
    if arrivals != [] {
      NewestAtLeast(arrivals[..|arrivals| - 1], key);
    }
  }

  lemma {:induction false} NewestCovers(arrivals: seq<Message>, m: Message)
    requires m in arrivals && Gated(m)
    ensures m.version.value <= Newest(arrivals, KeyOf(m))
    decreases |arrivals|
  {
    var front, last := arrivals[..|arrivals| - 1], arrivals[|arrivals| - 1];
    if m != last {
      assert arrivals == front + [last];
      NewestCovers(front, m);
    }
  }

  lemma SeenStaysArrived(seen: seq<string>, front: seq<Message>, m: Message)
    requires SeenArrived(seen, front)
    ensures SeenArrived(seen, front + [m])
    ensures Gated(m) ==> SeenArrived(Remember(seen, m.id), front + [m])
  {
    forall id | id in seen ensures exists n :: n in front + [m] && Gated(n) && n.id == id {
      var n :| n in front && Gated(n) && n.id == id;
      assert n in front + [m];
    }
    if Gated(m) {
      assert m in front + [m];
      forall id | id in Remember(seen, m.id) ensures exists n :: n in front + [m] && Gated(n) && n.id == id {
        assert id == m.id || id in seen;
      }
    }
  }

  /** An id seen before brings nothing new. */
  lemma SeenIsNotNewer(g: Gate, front: seq<Message>, m: Message)
    requires SeenArrived(g.seen, front) && IdsAgree(front + [m]) && Gated(m) && m.id in g.seen
    ensures m.version.value <= Newest(front, KeyOf(m))
  {
    var n :| n in front && Gated(n) && n.id == m.id;
    assert n in front + [m] && m in front + [m] && Agree(m, n);
    NewestCovers(front, n);
    NewestAtLeast(front, KeyOf(m));
  }

  lemma OneMoreArrival(front: seq<Message>, m: Message, key: string)
    ensures Newest(front + [m], key) ==
      if Gated(m) && KeyOf(m) == key && m.version.value > Newest(front, key) then m.version.value else Newest(front, key)
    ensures Records(front + [m]) ==
      Records(front) + (if Gated(m) && m.version.value > Newest(front, KeyOf(m)) then [Act(KeyOf(m), m.version.value)] else [])
  {
    assert (front + [m])[..|front|] == front;
  }

  /** Whether an arrival is new to the gate makes no difference to what it says about versions. */
  lemma HandleKeepsInv(g: Gate, front: seq<Message>, m: Message)
    requires Inv(g, front) && IdsAgree(front + [m])
    ensures Inv(Handle(g, m), front + [m])
  {
    SeenStaysArrived(g.seen, front, m);
    if Gated(m) {
      assert Known(g.versions, KeyOf(m)) == Newest(front, KeyOf(m));
      OneMoreArrival(front, m, KeyOf(m));
      if m.id in g.seen {
        SeenIsNotNewer(g, front, m);
      }
    } else {
      OneMoreArrival(front, m, "");
    }
    forall key ensures Known(Handle(g, m).versions, key) == Newest(front + [m], key) {
      assert Known(g.versions, key) == Newest(front, key);
      OneMoreArrival(front, m, key);
    }
  }

  lemma {:induction false} RunKeepsInv(arrivals: seq<Message>)
    requires IdsAgree(arrivals)
    ensures Inv(Run(arrivals), arrivals)
    decreases |arrivals|
  {
    if arrivals != [] {
      var front, last := arrivals[..|arrivals| - 1], arrivals[|arrivals| - 1];
      assert arrivals == front + [last];
      RunKeepsInv(front);
      HandleKeepsInv(Run(front), front, last);
    }
  }

  // ---------------------------------------------------------------- main results

  /** Neither the duplicate check nor its eviction changes what is acted on: it is every record, and nothing else. */
  lemma ActsOnRecords(arrivals: seq<Message>)
    requires IdsAgree(arrivals)
    ensures Run(arrivals).acted == Records(arrivals)
    ensures forall key :: Known(Run(arrivals).versions, key) == Newest(arrivals, key)
  {
    RunKeepsInv(arrivals);
  }

  ghost predicate Increasing(acted: seq<Act>) {
    forall i, j | 0 <= i < j < |acted| :: acted[i].key == acted[j].key ==> acted[i].version < acted[j].version
  }

  /** In any run at all, the versions acted on for a key strictly increase, and the last of them is remembered. */
  lemma {:induction false} VersionsIncrease(arrivals: seq<Message>)
    ensures var g := Run(arrivals);
      && Increasing(g.acted) && |g.seen| <= 1000
      && (forall act | act in g.acted :: act.version <= Known(g.versions, act.key))
      && (forall key | key in g.versions :: Act(key, g.versions[key]) in g.acted)
    decreases |arrivals|
  {
    if arrivals != [] {
      VersionsIncrease(arrivals[..|arrivals| - 1]);
    }
  }

  /** The ids of readable messages that were not remembered when they came. */
  function Entered(arrivals: seq<Message>): seq<string> {
    if arrivals == [] then
      []
    else
      var front, last := arrivals[..|arrivals| - 1], arrivals[|arrivals| - 1];
      Entered(front) + (if Gated(last) && last.id !in Run(front).seen then [last.id] else [])
  }

  /** What is remembered is the latest thousand of them. */
  lemma {:induction false} SeenAreLatest(arrivals: seq<Message>)
    ensures var entered := Entered(arrivals);
      Run(arrivals).seen == if |entered| <= 1000 then entered else entered[|entered| - 1000..]
    decreases |arrivals|
  {
    if arrivals != [] {
      SeenAreLatest(arrivals[..|arrivals| - 1]);
    }
  }

  /** Hence nothing is acted on twice. */
  lemma NothingTwice(arrivals: seq<Message>, i: nat, j: nat)
    requires i < j < |Run(arrivals).acted|
    ensures Run(arrivals).acted[i] != Run(arrivals).acted[j]
  {
    VersionsIncrease(arrivals);
  }

  /** If an id is used for two updates, the second of them can be ignored though it is newer. */
  lemma ReusedIdHidesUpdate(m: Message, n: Message)
    requires Gated(m) && Gated(n) && m.id == n.id && n.version.value >= 0
    requires KeyOf(m) == KeyOf(n) ==> m.version.value < n.version.value
    ensures Run([m, n]).acted != Records([m, n])
  {
    assert [m, n][..1] == [m] && [m][..0] == [];
    assert Run([m]) == Handle(EMPTY, m) && Run([m, n]).acted == Run([m]).acted;
    assert Newest([m], KeyOf(n)) < n.version.value;
    assert |Records([m])| == |Run([m]).acted| && |Records([m, n])| == |Records([m])| + 1;
  }

  ghost predicate FromPool(arrivals: seq<Message>, pool: iset<Message>) {
    forall m | m in arrivals :: m in pool
  }

  /**
   * Exactly when the gate acts on every record and nothing else, for all arrivals of messages from a pool: if and only
   * if any two of its messages with one id carry the same update, or neither can be acted on.
   */
  lemma ActsOnRecordsIff(pool: iset<Message>)
    ensures (forall arrivals | FromPool(arrivals, pool) :: Run(arrivals).acted == Records(arrivals))
       <==> forall m, n | m in pool && n in pool :: Agree(m, n)
  {
    if forall m, n | m in pool && n in pool :: Agree(m, n) {
      forall arrivals | FromPool(arrivals, pool) ensures Run(arrivals).acted == Records(arrivals) {
        ActsOnRecords(arrivals);
      }
    } else {
      var m, n :| m in pool && n in pool && !Agree(m, n);
      if m.version.value < n.version.value || (m.version.value == n.version.value && KeyOf(m) != KeyOf(n)) {
        ReusedIdHidesUpdate(m, n);
        assert FromPool([m, n], pool);
      } else {
        ReusedIdHidesUpdate(n, m);
        assert FromPool([n, m], pool);
      }
    }
  }
}
