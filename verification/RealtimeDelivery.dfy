/** The two ends together: a bounded queue in the server, a version gate in the browser. */
module RealtimeDelivery {
  import F = FanOut
  import opened VersionGate

  function Parsed(messages: seq<string>, parse: string -> Message): (r: seq<Message>)
    ensures |r| == |messages| && forall i | 0 <= i < |messages| :: r[i] == parse(messages[i])
  {
    seq(|messages|, i requires 0 <= i < |messages| => parse(messages[i]))
  }

  lemma {:induction false} SubsequenceMembers(part: seq<string>, whole: seq<string>)
    requires F.Subsequence(part, whole)
    ensures forall x | x in part :: x in whole
    decreases |whole|
  {
    if part != [] {
      var front := whole[..|whole| - 1];
      assert whole == front + [whole[|whole| - 1]];
      if part[|part| - 1] == whole[|whole| - 1] {
        SubsequenceMembers(part[..|part| - 1], front);
        assert part == part[..|part| - 1] + [part[|part| - 1]];
      } else {
        SubsequenceMembers(part, front);
      }
    }
  }

  lemma {:induction false} NewestArrived(arrivals: seq<Message>, key: string)
    ensures Newest(arrivals, key) >= -1
    ensures Newest(arrivals, key) > -1 ==> exists m :: (
      m in arrivals && Gated(m) && KeyOf(m) == key && m.version.value == Newest(arrivals, key))
    decreases |arrivals|
  {
    if arrivals != [] {
      var front, last := arrivals[..|arrivals| - 1], arrivals[|arrivals| - 1];
      NewestArrived(front, key);
      assert arrivals == front + [last];
    }
  }

  /** Among arrivals that include the newest version of a key, that version wins. */
  lemma NewestWins(all: seq<Message>, got: seq<Message>, m: Message)
    requires IdsAgree(all) && (forall n | n in got :: n in all)
    requires m in got && Gated(m) && m.version.value == Newest(all, KeyOf(m))
    ensures Known(Run(got).versions, KeyOf(m)) == m.version.value
  {
    ActsOnRecords(got);
    NewestCovers(got, m);
    NewestArrived(got, KeyOf(m));
    NewestArrived(all, KeyOf(m));
    if Newest(got, KeyOf(m)) > m.version.value {
      var n :| n in got && Gated(n) && KeyOf(n) == KeyOf(m) && n.version.value == Newest(got, KeyOf(m));
      NewestCovers(all, n);
    }
  }

  lemma DrainedHasLatest(ops: seq<F.Op>, newest: string)
    requires F.After(ops).queue == [] && newest in F.Latest(F.Accepted(ops))
    ensures newest in F.After(ops).delivered
    ensures forall x | x in F.After(ops).delivered :: x in F.Accepted(ops)
  {
    var accepted, delivered := F.Accepted(ops), F.After(ops).delivered;
    F.LatestSurvive(ops);
    F.DeliveredInOrder(ops);
    assert delivered + F.After(ops).queue == delivered && F.Handled(ops) == accepted;
    SubsequenceMembers(delivered, accepted);
  }

  /**
   * A connection that has drained its queue is at the newest version of every entity whose newest update is among the
   * latest hundred messages, whatever was dropped on the way.
   */
  lemma DrainedClientIsCurrent(ops: seq<F.Op>, parse: string -> Message, newest: string)
    requires F.After(ops).queue == [] && IdsAgree(Parsed(F.Accepted(ops), parse))
    requires newest in F.Latest(F.Accepted(ops)) && Gated(parse(newest))
    requires parse(newest).version.value == Newest(Parsed(F.Accepted(ops), parse), KeyOf(parse(newest)))
    ensures var g := Run(Parsed(F.After(ops).delivered, parse));
      Known(g.versions, KeyOf(parse(newest))) == parse(newest).version.value
  {
    var accepted, delivered := F.Accepted(ops), F.After(ops).delivered;
    DrainedHasLatest(ops, newest);
    MembersParse(delivered, accepted, parse);
    ParsedMember(delivered, newest, parse);
    NewestWins(Parsed(accepted, parse), Parsed(delivered, parse), parse(newest));
  }

  lemma ParsedMember(messages: seq<string>, x: string, parse: string -> Message)
    requires x in messages
    ensures parse(x) in Parsed(messages, parse)
  {
    var i :| 0 <= i < |messages| && messages[i] == x;
    assert Parsed(messages, parse)[i] == parse(x);
  }

  lemma MembersParse(part: seq<string>, whole: seq<string>, parse: string -> Message)
    requires forall x | x in part :: x in whole
    ensures forall m | m in Parsed(part, parse) :: m in Parsed(whole, parse)
  {
    forall m | m in Parsed(part, parse) ensures m in Parsed(whole, parse) {
      var i :| 0 <= i < |part| && Parsed(part, parse)[i] == m;
      ParsedMember(whole, part[i], parse);
    }
  }
}
