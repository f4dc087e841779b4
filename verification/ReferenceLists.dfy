/** Sorted lists of distinct references, and how much room a list of strings takes in JSON. */
module ReferenceLists {
  import opened Totals

  /** Code-point order, as Python compares strings. */
  predicate Precedes(a: string, b: string)
    decreases |a|
  {
    b != "" && (a == "" || a[0] < b[0] || (a[0] == b[0] && Precedes(a[1..], b[1..])))
  }

  lemma {:induction false} PrecedesTransitive(a: string, b: string, c: string)
    requires Precedes(a, b) && Precedes(b, c)
    ensures Precedes(a, c)
    decreases |a|
  {
    if a != "" && a[0] == b[0] && b[0] == c[0] {
      PrecedesTransitive(a[1..], b[1..], c[1..]);
    }
  }

  lemma {:induction false} PrecedesTotal(a: string, b: string)
    ensures a == b || Precedes(a, b) || Precedes(b, a)
    decreases |a|
  {
    if a != "" && b != "" && a[0] == b[0] {
      PrecedesTotal(a[1..], b[1..]);
      assert a == [a[0]] + a[1..] && b == [b[0]] + b[1..];
    }
  }

  lemma {:induction false} PrecedesIrreflexive(a: string)
    ensures !Precedes(a, a)
    decreases |a|
  {
    if a != "" {
      PrecedesIrreflexive(a[1..]);
    }
  }

  /** The strings agree up to `k`, where `a` ends or has the smaller character. */
  predicate SmallerAt(a: string, b: string, k: nat) {
    k <= |a| && k < |b| && a[..k] == b[..k] && (k == |a| || a[k] < b[k])
  }

  lemma {:induction false} PrecedesSomewhere(a: string, b: string) returns (k: nat)
    requires Precedes(a, b)
    ensures SmallerAt(a, b, k)
    decreases |a|
  {
    if a == "" || a[0] < b[0] {
      k := 0;
    } else {
      k := PrecedesSomewhere(a[1..], b[1..]);
      assert a[..k + 1] == [a[0]] + a[1..][..k] && b[..k + 1] == [b[0]] + b[1..][..k];
      k := k + 1;
    }
  }

  lemma {:induction false} SmallerPrecedes(a: string, b: string, k: nat)
    requires SmallerAt(a, b, k)
    ensures Precedes(a, b)
    decreases k
  {
    if k > 0 {
      assert a[0] == a[..k][0] && b[0] == b[..k][0];
      assert a[1..][..k - 1] == a[..k][1..] && b[1..][..k - 1] == b[..k][1..];
      SmallerPrecedes(a[1..], b[1..], k - 1);
    }
  }

  /** What the order is: somewhere the smaller string has the smaller character, or has ended, and before that they agree. */
  lemma {:induction false} PrecedesIff(a: string, b: string)
    ensures Precedes(a, b) <==> exists k: nat :: SmallerAt(a, b, k)
  {
    if Precedes(a, b) {
      var k := PrecedesSomewhere(a, b);
    } else if k: nat :| SmallerAt(a, b, k) {
      SmallerPrecedes(a, b, k);
    }
  }

  ghost predicate Ascending(refs: seq<string>) {
    forall i, j | 0 <= i < j < |refs| :: Precedes(refs[i], refs[j])
  }

  ghost predicate Distinct(refs: seq<string>) {
    forall i, j | 0 <= i < j < |refs| :: refs[i] != refs[j]
  }

  lemma AscendingIsDistinct(refs: seq<string>)
    requires Ascending(refs)
    ensures Distinct(refs)
  {
    forall i, j | 0 <= i < j < |refs| ensures refs[i] != refs[j] {
      PrecedesIrreflexive(refs[i]);
    }
  }

  function Insert(ref: string, refs: seq<string>): (r: seq<string>)
    ensures forall x :: x in r <==> x == ref || x in refs
  {
    if refs == [] then [ref]
    else if ref == refs[0] then refs
    else if Precedes(ref, refs[0]) then [ref] + refs
    else
      assert refs == [refs[0]] + refs[1..];
      [refs[0]] + Insert(ref, refs[1..])
  }

  /** `sorted(set(refs))`. */
  function SortedSet(refs: seq<string>): (r: seq<string>)
    ensures forall x :: x in r <==> x in refs
  {
    if refs == [] then
      []
    else
      assert refs == [refs[0]] + refs[1..];
      Insert(refs[0], SortedSet(refs[1..]))
  }

  lemma {:induction false} InsertAscends(ref: string, refs: seq<string>)
    requires Ascending(refs)
    ensures Ascending(Insert(ref, refs))
    decreases |refs|
  {
    if refs != [] && ref != refs[0] {
      PrecedesTotal(ref, refs[0]);
      var r := Insert(ref, refs);
      if Precedes(ref, refs[0]) {
        forall i, j | 0 <= i < j < |r| ensures Precedes(r[i], r[j]) {
          if i == 0 && j > 1 {
            PrecedesTransitive(ref, refs[0], refs[j - 1]);
          }
        }
      } else {
        var rest := Insert(ref, refs[1..]);
        InsertAscends(ref, refs[1..]);
        forall i, j | 0 <= i < j < |r| ensures Precedes(r[i], r[j]) {
          assert r[j] == rest[j - 1] && rest[j - 1] in rest;
          if i == 0 && r[j] != ref {
            var k :| 0 <= k < |refs[1..]| && refs[1..][k] == r[j];
          }
        }
      }
    }
  }

  lemma {:induction false} SortedSetAscends(refs: seq<string>)
    ensures Ascending(SortedSet(refs))
    decreases |refs|
  {
    if refs != [] {
      SortedSetAscends(refs[1..]);
      InsertAscends(refs[0], SortedSet(refs[1..]));
    }
  }

  // ---------------------------------------------------------------- JSON arrays

  function Join(parts: seq<string>): string {
    if parts == [] then ""
    else if |parts| == 1 then parts[0]
    else parts[0] + "," + Join(parts[1..])
  }

  function Array(parts: seq<string>): string {
    "[" + Join(parts) + "]"
  }

  /** Every part with one separator each. */
  function Room(parts: seq<string>): nat {
    if parts == [] then 0 else |parts[0]| + 1 + Room(parts[1..])
  }

  lemma {:induction false} JoinLength(parts: seq<string>)
    ensures |Join(parts)| == if parts == [] then 0 else Room(parts) - 1
    decreases |parts|
  {
    if |parts| > 1 {
      JoinLength(parts[1..]);
    } else if |parts| == 1 {
      assert parts[1..] == [];
    }
  }

  function Length(): string -> int {
    (text: string) => |text|
  }

  /** The brackets, the parts, and a comma between every two. */
  lemma {:induction false} ArrayLength(parts: seq<string>)
    ensures |Array(parts)| == 2 + Total(parts, Length()) + (if parts == [] then 0 else |parts| - 1)
  {
    JoinLength(parts);
    RoomIsTotal(parts);
  }

  lemma {:induction false} RoomIsTotal(parts: seq<string>)
    ensures Room(parts) == Total(parts, Length()) + |parts|
    decreases |parts|
  {
    if parts != [] {
      var front, last := parts[..|parts| - 1], parts[|parts| - 1];
      RoomIsTotal(front);
      RoomConcat(front, [last]);
      assert parts == front + [last];
    }
  }

  lemma {:induction false} RoomConcat(a: seq<string>, b: seq<string>)
    ensures Room(a + b) == Room(a) + Room(b)
    decreases |a|
  {
    if a == [] {
      assert a + b == b;
    } else {
      assert (a + b)[1..] == a[1..] + b;
      RoomConcat(a[1..], b);
    }
  }

  /** Parts that were dropped make the array no longer. */
  lemma FewerPartsAreShorter(a: seq<string>, b: seq<string>)
    requires Room(a) <= Room(b)
    ensures |Array(a)| <= |Array(b)|
  {
    JoinLength(a);
    JoinLength(b);
  }

  function Quoted(refs: seq<string>, quote: string -> string): (r: seq<string>)
    ensures |r| == |refs|
  {
    if refs == [] then [] else [quote(refs[0])] + Quoted(refs[1..], quote)
  }

  lemma {:induction false} QuotedConcat(a: seq<string>, b: seq<string>, quote: string -> string)
    ensures Quoted(a + b, quote) == Quoted(a, quote) + Quoted(b, quote)
    decreases |a|
  {
    if a == [] {
      assert a + b == b;
    } else {
      assert (a + b)[1..] == a[1..] + b;
      QuotedConcat(a[1..], b, quote);
    }
  }

  /** Distinct references drawn from a list need no more room than the list. */
  lemma {:induction false} SubsetNeedsNoMoreRoom(a: seq<string>, b: seq<string>, quote: string -> string)
    requires Distinct(a) && forall x | x in a :: x in b
    ensures Room(Quoted(a, quote)) <= Room(Quoted(b, quote))
    decreases |a|
  {
    if a != [] {
      assert a[0] in a;
      var i :| 0 <= i < |b| && b[i] == a[0];
      var before, after := b[..i], b[i + 1..];
      assert b == before + ([a[0]] + after);
      forall x | x in a[1..] ensures x in before + after {
        assert x in b && x != a[0];
      }
      SubsetNeedsNoMoreRoom(a[1..], before + after, quote);
      QuotedConcat(before, after, quote);
      QuotedConcat(before, [a[0]] + after, quote);
      RoomConcat(Quoted(before, quote), Quoted(after, quote));
      RoomConcat(Quoted(before, quote), Quoted([a[0]] + after, quote));
      assert ([a[0]] + after)[1..] == after;
    }
  }
}
