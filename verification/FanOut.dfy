/** The realtime manager: one bounded queue per connection, filled by dropping the oldest message. */
module FanOut {
  import Utf8

  const MAX_QUEUE := 100

  /** Bytes of the UTF-8 encoding. */
  function Utf8Bytes(payload: string): nat {
    if payload == "" then
      0
    else
      var code := payload[0] as int;
      (if code < 0x80 then 1 else if code < 0x800 then 2 else if code < 0x1_0000 then 3 else 4) + Utf8Bytes(payload[1..])
  }

  /** It is the length of the encoded payload. */
  lemma {:induction false} BytesOfEncoding(payload: string)
    ensures Utf8Bytes(payload) == |Utf8.Encode(payload)|
    decreases |payload|
  {
    if payload != "" {
      BytesOfEncoding(payload[1..]);
    }
  }

  // ---------------------------------------------------------------- one connection

  /** What happens to a connection's queue after it connects: a message small enough to be offered, or a send. */
  datatype Op = Accept(payload: string) | Take

  datatype Channel = Channel(queue: seq<string>, delivered: seq<string>)

  function Offered(queue: seq<string>, payload: string): seq<string> {
    if |queue| < MAX_QUEUE then queue + [payload] else queue[1..] + [payload]
  }

  /** The sender waits while the queue is empty. */
  function StepChannel(c: Channel, op: Op): Channel {
    match op
    case Accept(payload) => c.(queue := Offered(c.queue, payload))
    case Take => if c.queue == [] then c else Channel(c.queue[1..], c.delivered + [c.queue[0]])
  }

  function After(ops: seq<Op>): Channel {
    if ops == [] then Channel([], []) else StepChannel(After(ops[..|ops| - 1]), ops[|ops| - 1])
  }

  function Accepted(ops: seq<Op>): seq<string> {
    if ops == [] then
      []
    else
      Accepted(ops[..|ops| - 1]) + (match ops[|ops| - 1] case Accept(payload) => [payload] case Take => [])
  }

  lemma AfterOneMore(ops: seq<Op>, op: Op)
    ensures After(ops + [op]) == StepChannel(After(ops), op)
  {
    assert (ops + [op])[..|ops|] == ops;
  }

  /** Every connection has been offered the message, except those still to come. */
  ghost predicate FannedOut(before: map<int, seq<Op>>, now: map<int, seq<Op>>, todo: set<int>, payload: string) {
    now.Keys == before.Keys
    && forall id | id in now :: now[id] == before[id] + (if id in todo then [] else [Accept(payload)])
  }

  lemma OneMoreFannedOut(before: map<int, seq<Op>>, now: map<int, seq<Op>>, todo: set<int>, id: int, payload: string)
    requires FannedOut(before, now, todo, payload) && id in todo && id in now
    ensures FannedOut(before, now[id := now[id] + [Accept(payload)]], todo - {id}, payload)
  {
  }

  class RealtimeManager {
    const maxConnections: nat
    const maxMessageBytes: nat
    var connections: map<int, seq<string>>
    /** What each live connection has been through since it connected. */
    ghost var history: map<int, seq<Op>>

    ghost predicate Valid()
      reads this
    {
      && connections.Keys == history.Keys
      && forall id | id in connections :: connections[id] == After(history[id]).queue
    }

    constructor (maxConnections: nat, maxMessageBytes: nat)
      ensures Valid() && connections == map[]
      ensures this.maxConnections == maxConnections && this.maxMessageBytes == maxMessageBytes
    {
      this.maxConnections, this.maxMessageBytes := maxConnections, maxMessageBytes;
      connections, history := map[], map[];
    }

    /** A new socket gets an empty queue, unless the manager is full. */
    method Connect(id: int) returns (accepted: bool)
      requires Valid()
      modifies this
      ensures Valid() && accepted == (|old(connections)| < maxConnections)
      ensures history == if accepted then old(history)[id := []] else old(history)
    {
      if |connections| >= maxConnections {
        return false;
      }
      connections := connections[id := []];
      history := history[id := []];
      accepted := true;
    }

    method Disconnect(id: int)
      requires Valid()
      modifies this
      ensures Valid() && history == old(history) - {id}
    {
      connections := map other | other in connections && other != id :: connections[other];
      history := map other | other in history && other != id :: history[other];
    }

    /** A full queue drops its oldest message to make room. */
    method Offer(id: int, payload: string)
      requires Valid() && id in connections
      modifies this
      ensures Valid() && history == old(history)[id := old(history)[id] + [Accept(payload)]]
    {
      var queue := connections[id];
      if |queue| >= MAX_QUEUE {
        queue := queue[1..];
      }
      AfterOneMore(history[id], Accept(payload));
      connections := connections[id := queue + [payload]];
      history := history[id := history[id] + [Accept(payload)]];
    }

    /** An oversized message reaches nobody; any other one is offered to every connection. */
    method FanOut(payload: string)
      requires Valid()
      modifies this
      ensures Valid() && history.Keys == old(history.Keys)
      ensures forall id | id in history ::
        history[id] == old(history)[id] + (if |Utf8.Encode(payload)| > maxMessageBytes then [] else [Accept(payload)])
    {
      BytesOfEncoding(payload);
      if Utf8Bytes(payload) > maxMessageBytes {
        return;
      }
      var todo := connections.Keys;
      while exists id: int :: id in todo
        invariant Valid() && todo <= history.Keys && FannedOut(old(history), history, todo, payload)
        decreases todo
      {
        var id: int :| id in todo;
        ghost var before := history;
        Offer(id, payload);
        OneMoreFannedOut(old(history), before, todo, id, payload);
        todo := todo - {id};
      }
    }

    /** The sender of one connection takes its next message, once there is one. */
    method Take(id: int) returns (payload: string)
      requires Valid() && id in connections && connections[id] != []
      modifies this
      ensures Valid() && history == old(history)[id := old(history)[id] + [Op.Take]]
      ensures After(history[id]).delivered == After(old(history)[id]).delivered + [payload]
    {
      payload := connections[id][0];
      AfterOneMore(history[id], Op.Take);
      connections := connections[id := connections[id][1..]];
      history := history[id := history[id] + [Op.Take]];
    }
  }

  // ---------------------------------------------------------------- what a connection receives

  function Behind(ops: seq<Op>): int {
    |Accepted(ops)| - |After(ops).delivered|
  }

  /** The furthest the connection has ever been behind. */
  function Peak(ops: seq<Op>): int {
    if ops == [] then
      0
    else
      var before := Peak(ops[..|ops| - 1]);
      if Behind(ops) > before then Behind(ops) else before
  }

  function Lost(ops: seq<Op>): int {
    if Peak(ops) > 100 then Peak(ops) - 100 else 0
  }

  predicate IsSuffix(part: seq<string>, whole: seq<string>) {
    |part| <= |whole| && part == whole[|whole| - |part|..]
  }

  /** `part` is what is left of `whole` after some of its elements are dropped. */
  predicate Subsequence(part: seq<string>, whole: seq<string>)
    decreases |whole|
  {
    part == [] || (whole != [] && (
      if part[|part| - 1] == whole[|whole| - 1] then Subsequence(part[..|part| - 1], whole[..|whole| - 1])
      else Subsequence(part, whole[..|whole| - 1])))
  }

  lemma {:induction false} FrontIsSubsequence(part: seq<string>, whole: seq<string>)
    requires part != [] && Subsequence(part, whole)
    ensures Subsequence(part[..|part| - 1], whole)
    decreases |whole|, 1
  {
    var last, less := whole[|whole| - 1], whole[..|whole| - 1];
    assert less + [last] == whole;
    if part[|part| - 1] != last {
      FrontIsSubsequence(part, less);
    }
    LongerWhole(part[..|part| - 1], less, last);
  }

  lemma {:induction false} LongerWhole(part: seq<string>, whole: seq<string>, last: string)
    requires Subsequence(part, whole)
    ensures Subsequence(part, whole + [last])
    decreases |whole|, 2
  {
    assert (whole + [last])[..|whole|] == whole;
    if part != [] && part[|part| - 1] == last {
      FrontIsSubsequence(part, whole);
    }
  }

  lemma {:induction false} LongerBoth(part: seq<string>, whole: seq<string>, last: string)
    requires Subsequence(part, whole)
    ensures Subsequence(part + [last], whole + [last])
  {
    assert (whole + [last])[..|whole|] == whole && (part + [last])[..|part|] == part;
  }

  lemma OfferIsLatest(queue: seq<string>, messages: seq<string>, payload: string)
    requires IsSuffix(queue, messages) && |queue| <= 100
    ensures IsSuffix(Offered(queue, payload), messages + [payload]) && |Offered(queue, payload)| <= 100
  {
  }

  /** The queue holds the latest accepted messages, at most a hundred of them. */
  lemma {:induction false} QueueIsLatest(ops: seq<Op>)
    ensures |After(ops).queue| <= 100 && IsSuffix(After(ops).queue, Accepted(ops))
    decreases |ops|
  {
    if ops != [] {
      var before := ops[..|ops| - 1];
      QueueIsLatest(before);
      match ops[|ops| - 1]
      case Accept(payload) => OfferIsLatest(After(before).queue, Accepted(before), payload);
      case Take =>
    }
  }

  /** Exactly as many messages are lost as the connection was ever behind by more than a hundred. */
  lemma {:induction false} LostExactly(ops: seq<Op>)
    ensures |Accepted(ops)| == |After(ops).delivered| + |After(ops).queue| + Lost(ops)
    ensures Behind(ops) <= Peak(ops) && |After(ops).queue| <= 100
    decreases |ops|
  {
    if ops != [] {
      LostExactly(ops[..|ops| - 1]);
    }
  }

  function Handled(ops: seq<Op>): seq<string> {
    var waiting := |After(ops).queue|;
    if waiting <= |Accepted(ops)| then Accepted(ops)[..|Accepted(ops)| - waiting] else []
  }

  /** Delivery keeps the order of acceptance, and everything still queued comes after it. */
  lemma {:induction false} DeliveredInOrder(ops: seq<Op>)
    ensures Subsequence(After(ops).delivered, Handled(ops))
    decreases |ops|
  {
    QueueIsLatest(ops);
    if ops != [] {
      var before := ops[..|ops| - 1];
      DeliveredInOrder(before);
      QueueIsLatest(before);
      var c := After(before);
      if ops[|ops| - 1].Take? && c.queue != [] {
        assert Handled(ops) == Handled(before) + [c.queue[0]];
        LongerBoth(c.delivered, Handled(before), c.queue[0]);
      } else if ops[|ops| - 1].Accept? && |c.queue| == 100 {
        assert Handled(ops) == Handled(before) + [c.queue[0]];
        LongerWhole(c.delivered, Handled(before), c.queue[0]);
      } else {
        assert Handled(ops) == Handled(before);
      }
    }
  }

  lemma {:induction false} KeptUpIsComplete(ops: seq<Op>)
    requires Peak(ops) <= 100
    ensures After(ops).delivered + After(ops).queue == Accepted(ops)
    decreases |ops|
  {
    if ops != [] {
      KeptUpIsComplete(ops[..|ops| - 1]);
    }
  }

  /** A connection misses nothing exactly when it has never been more than a hundred messages behind. */
  lemma CompleteIffKeptUp(ops: seq<Op>)
    ensures After(ops).delivered + After(ops).queue == Accepted(ops) <==> Peak(ops) <= 100
  {
    LostExactly(ops);
    if Peak(ops) <= 100 {
      KeptUpIsComplete(ops);
    }
  }

  function Latest(messages: seq<string>): seq<string> {
    if |messages| <= 100 then messages else messages[|messages| - 100..]
  }

  lemma LatestExtends(messages: seq<string>, whole: seq<string>, last: string)
    requires IsSuffix(Latest(messages), whole)
    ensures IsSuffix(Latest(messages + [last]), whole + [last])
  {
    var kept := Latest(messages + [last]);
    assert forall i | 0 <= i < |kept| - 1 :: kept[i] == (whole + [last])[|whole| + 1 - |kept| + i] by {
      assert forall i | 0 <= i < |Latest(messages)| :: Latest(messages)[i] == whole[|whole| - |Latest(messages)| + i];
    }
  }

  lemma FullQueueIsLatest(queue: seq<string>, delivered: seq<string>, messages: seq<string>)
    requires IsSuffix(queue, messages) && |queue| == 100
    ensures IsSuffix(Latest(messages), delivered + queue)
  {
  }

  lemma TakeMovesOne(c: Channel)
    requires c.queue != []
    ensures var after := StepChannel(c, Take); after.delivered + after.queue == c.delivered + c.queue
  {
  }

  lemma AcceptKeepsLatest(c: Channel, payload: string, messages: seq<string>)
    requires IsSuffix(Latest(messages), c.delivered + c.queue) && IsSuffix(c.queue, messages) && |c.queue| <= 100
    ensures var after := StepChannel(c, Accept(payload)); IsSuffix(Latest(messages + [payload]), after.delivered + after.queue)
  {
    if |c.queue| < 100 {
      LatestExtends(messages, c.delivered + c.queue, payload);
      assert c.delivered + c.queue + [payload] == c.delivered + (c.queue + [payload]);
    } else {
      FullQueueIsLatest(Offered(c.queue, payload), c.delivered, messages + [payload]);
    }
  }

  /** However slow the connection, the latest hundred accepted messages reach it in the end. */
  lemma {:induction false} LatestSurvive(ops: seq<Op>)
    ensures IsSuffix(Latest(Accepted(ops)), After(ops).delivered + After(ops).queue)
    decreases |ops|
  {
    if ops != [] {
      var before := ops[..|ops| - 1];
      LatestSurvive(before);
      match ops[|ops| - 1]
      case Take =>
        if After(before).queue != [] {
          TakeMovesOne(After(before));
        }
      case Accept(payload) =>
        QueueIsLatest(before);
        AcceptKeepsLatest(After(before), payload, Accepted(before));
    }
  }
}
