/** Updates of different kinds share one table of versions, under a key glued from kind and entity. */
module UpdateKinds {
  import opened Options
  import opened VersionGate

  /** A message about an entity, with an id and a version. */
  predicate Readable(m: Message) {
    m.Message? && m.kind != "system.heartbeat" && m.id != "" && m.kind != "" && m.entityId != "" && m.version.Some?
  }

  predicate SameSubject(m: Message, n: Message)
    requires m.Message? && n.Message?
  {
    m.kind == n.kind && m.entityId == n.entityId
  }

  /** Newer than everything that has arrived of its kind about its entity. */
  ghost predicate IsNewest(arrivals: seq<Message>, m: Message)
    requires Readable(m)
  {
    m.version.value >= 0
    && forall n | n in arrivals && Readable(n) && SameSubject(n, m) :: n.version.value < m.version.value
  }

  /** The arrival is acted on if and only if it is the newest of its kind about its entity. */
  ghost predicate ActsOnNewest(arrivals: seq<Message>, m: Message) {
    Run(arrivals + [m]).acted == Run(arrivals).acted
      + (if Readable(m) && IsNewest(arrivals, m) then [Act(m.kind + ":" + m.entityId, m.version.value)] else [])
  }

  /** The two have no key in common, or one subject, or one of them can never be acted on. */
  ghost predicate Apart(m: Message, n: Message) {
    Readable(m) && Readable(n) && m.kind + ":" + m.entityId == n.kind + ":" + n.entityId ==>
      SameSubject(m, n) || m.version.value < 0 || n.version.value < 0
  }

  // ---------------------------------------------------------------- the newest of a key

  lemma {:induction false} NewestExceeded(arrivals: seq<Message>, key: string, version: int)
    ensures version > Newest(arrivals, key)
      <==> version >= 0 && forall n | n in arrivals && Gated(n) && KeyOf(n) == key :: n.version.value < version
    decreases |arrivals|
  {
    NewestAtLeast(arrivals, key);
    if arrivals != [] {
      var front, last := arrivals[..|arrivals| - 1], arrivals[|arrivals| - 1];
      assert arrivals == front + [last];
      NewestExceeded(front, key, version);
      OneMoreArrival(front, last, key);
      assert forall n :: n in arrivals <==> n in front || n == last;
    }
  }

  /** Where subjects are apart, a version is newer for the key exactly when it is newer for the subject. */
  lemma {:induction false} NewestOfSubject(arrivals: seq<Message>, m: Message)
    requires Readable(m) && forall n | n in arrivals :: Apart(n, m)
    ensures m.version.value > Newest(arrivals, KeyOf(m)) <==> IsNewest(arrivals, m)
  {
    NewestExceeded(arrivals, KeyOf(m), m.version.value);
    forall n | n in arrivals && Gated(n) && KeyOf(n) == KeyOf(m) && m.version.value >= 0 && !SameSubject(n, m)
      ensures n.version.value < m.version.value
    {
      assert Apart(n, m);
    }
  }

  lemma {:induction false} ActsWhenApart(arrivals: seq<Message>, m: Message)
    requires IdsAgree(arrivals + [m]) && forall n | n in arrivals :: Apart(n, m)
    ensures ActsOnNewest(arrivals, m)
  {
    assert forall n | n in arrivals :: n in arrivals + [m];
    ActsOnRecords(arrivals);
    ActsOnRecords(arrivals + [m]);
    OneMoreArrival(arrivals, m, "");
    if Readable(m) {
      NewestOfSubject(arrivals, m);
    }
  }

  // ---------------------------------------------------------------- exactly when kinds do not hide each other

  /** The second of two messages with one key and different subjects is dropped though it is the newest of its own. */
  lemma {:induction false} SharedKeyHidesUpdate(m: Message, n: Message)
    requires !Apart(m, n) && m.version.value >= n.version.value && Agree(m, n)
    ensures !ActsOnNewest([m], n)
  {
    assert [m] + [n] == [m, n];
    assert [m, n][..1] == [m] && [m][..0] == [];
    assert Run([m]) == Handle(EMPTY, m) && Run([m, n]) == Handle(Run([m]), n);
    assert Run([m, n]).acted == Run([m]).acted;
    assert IsNewest([m], n);
  }

  /**
   * For messages from a pool in which ids agree: every arrival is acted on exactly when it is the newest of its kind
   * about its entity, whatever came before, if and only if no two subjects in the pool share a key.
   */
  lemma {:induction false} KindsNeverHideIff(pool: iset<Message>)
    requires forall m, n | m in pool && n in pool :: Agree(m, n)
    ensures (forall arrivals, m | FromPool(arrivals, pool) && m in pool :: ActsOnNewest(arrivals, m))
       <==> forall m, n | m in pool && n in pool :: Apart(m, n)
  {
    if forall m, n | m in pool && n in pool :: Apart(m, n) {
      forall arrivals, m | FromPool(arrivals, pool) && m in pool ensures ActsOnNewest(arrivals, m) {
        ActsWhenApart(arrivals, m);
      }
    } else {
      var m, n :| m in pool && n in pool && !Apart(m, n);
      if m.version.value >= n.version.value {
        SharedKeyHidesUpdate(m, n);
        assert FromPool([m], pool);
      } else {
        SharedKeyHidesUpdate(n, m);
        assert FromPool([n], pool);
      }
    }
  }

  /** Kinds without a colon keep all subjects apart. */
  lemma {:induction false} PlainKindsAreApart(m: Message, n: Message)
    requires m.Message? && n.Message? && ':' !in m.kind && ':' !in n.kind
    ensures Apart(m, n)
  {
    if m.kind + ":" + m.entityId == n.kind + ":" + n.entityId {
      SameSplit(m.kind, m.entityId, n.kind, n.entityId);
    }
  }

  lemma {:induction false} SameSplit(a: string, x: string, b: string, y: string)
    requires ':' !in a && ':' !in b && a + ":" + x == b + ":" + y
    ensures a == b && x == y
  {
    var s := a + ":" + x;
    assert s[|a|] == ':' && s[|b|] == ':';
    assert forall i | 0 <= i < |a| :: s[i] == a[i] && a[i] in a;
    assert forall i | 0 <= i < |b| :: s[i] == b[i] && b[i] in b;
    assert |a| == |b|;
    assert a == s[..|a|] && b == s[..|b|];
    assert x == s[|a| + 1..] && y == s[|b| + 1..];
  }
}
