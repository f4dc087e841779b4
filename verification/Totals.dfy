/** Sums over a list, which depend only on the list's multiset. */
module Totals {
  function Total<T>(items: seq<T>, value: T -> int): int {
    if items == [] then 0 else Total(items[..|items| - 1], value) + value(items[|items| - 1])
  }

  lemma {:induction false} TotalConcat<T>(a: seq<T>, b: seq<T>, value: T -> int)
    ensures Total(a + b, value) == Total(a, value) + Total(b, value)
    decreases |b|
  {
    if b == [] {
      assert a + b == a;
    } else {
      assert (a + b)[..|a + b| - 1] == a + b[..|b| - 1];
      TotalConcat(a, b[..|b| - 1], value);
    }
  }

  lemma TotalOfOne<T>(x: T, value: T -> int)
    ensures Total([x], value) == value(x)
  {
    assert [x][..0] == [];
  }

  function Without<T>(items: seq<T>, i: nat): seq<T>
    requires i < |items|
  {
    items[..i] + items[i + 1..]
  }

  lemma Parts<T>(items: seq<T>, i: nat)
    requires i < |items|
    ensures items[..i] + [items[i]] + items[i + 1..] == items
  {
  }

  lemma WithoutOne<T>(items: seq<T>, i: nat)
    requires i < |items|
    ensures multiset(items) == multiset(Without(items, i)) + multiset{items[i]}
    ensures multiset(Without(items, i)) == multiset(items) - multiset{items[i]}
  {
    Parts(items, i);
  }

  lemma TotalMiddle<T>(before: seq<T>, x: T, after: seq<T>, value: T -> int)
    ensures Total(before + [x] + after, value) == Total(before + after, value) + value(x)
  {
    TotalConcat(before, after, value);
    TotalConcat(before + [x], after, value);
    TotalConcat(before, [x], value);
    TotalOfOne(x, value);
  }

  lemma TotalWithout<T>(items: seq<T>, i: nat, value: T -> int)
    requires i < |items|
    ensures Total(items, value) == Total(Without(items, i), value) + value(items[i])
  {
    Parts(items, i);
    TotalMiddle(items[..i], items[i], items[i + 1..], value);
  }

  lemma Occurs<T>(a: seq<T>, b: seq<T>) returns (i: nat)
    requires a != [] && multiset(a) <= multiset(b)
    ensures i < |b| && b[i] == a[0]
  {
    assert a[0] in multiset(a);
    i :| i < |b| && b[i] == a[0];
  }

  lemma {:induction false} TotalOfMultiset<T>(a: seq<T>, b: seq<T>, value: T -> int)
    requires multiset(a) == multiset(b)
    ensures Total(a, value) == Total(b, value)
    decreases |a|
  {
    if a == [] {
      assert |b| == |multiset(b)|;
    } else {
      var i := Occurs(a, b);
      WithoutOne(a, 0);
      WithoutOne(b, i);
      TotalOfMultiset(Without(a, 0), Without(b, i), value);
      TotalWithout(a, 0, value);
      TotalWithout(b, i, value);
    }
  }

  /** What has to be added to `a` to get the members of `b`. */
  lemma {:induction false} Remaining<T>(a: seq<T>, b: seq<T>) returns (rest: seq<T>)
    requires multiset(a) <= multiset(b)
    ensures multiset(a) + multiset(rest) == multiset(b)
    decreases |a|
  {
    if a == [] {
      rest := b;
      assert multiset(a) == multiset{};
    } else {
      var i := Occurs(a, b);
      WithoutOne(a, 0);
      WithoutOne(b, i);
      rest := Remaining(Without(a, 0), Without(b, i));
    }
  }
}
