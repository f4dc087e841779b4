/** The hash chain over audit records: `compute_entry_hash` and `verify_chain`. */
module AuditChain {
  import opened JsonValues

  type Record = map<string, Value>

  /** SHA-256 in hex, and the canonical JSON text of an object. */
  datatype Hashing = Hashing(sha256: string -> string, canonical: Record -> string)

  /** No two texts share a hash, a hash is hexadecimal, distinct objects have distinct texts, each beginning with `{`. */
  ghost predicate Sound(h: Hashing) {
    && (forall a, b :: h.sha256(a) == h.sha256(b) ==> a == b)
    && (forall a :: '{' !in h.sha256(a))
    && (forall p, q :: h.canonical(p) == h.canonical(q) ==> p == q)
    && (forall p :: h.canonical(p) != "" && h.canonical(p)[0] == '{')
  }

  /** A start value that is neither a hash nor text that could run into a record. */
  ghost predicate SoundStart(h: Hashing, start: string) {
    '{' !in start && forall a :: h.sha256(a) != start
  }

  function ComputeEntryHash(h: Hashing, prevHash: string, payload: Record): string {
    h.sha256(prevHash + h.canonical(payload))
  }

  /** `dict.get`, with None for a missing key. */
  function Field(record: Record, name: string): Value {
    if name in record then record[name] else Null
  }

  /** Python truthiness of a JSON value. */
  predicate Truthy(v: Value) {
    match v
    case Null => false
    case Bool(b) => b
    case Num(n) => n != 0
    case Str(s) => s != ""
    case Arr(items) => items != []
    case Obj(m) => m.Keys != {}
  }

  /** What counts as missing: null, false, zero, and whatever is empty. */
  lemma TruthyIff(v: Value)
    ensures Truthy(v) <==> v !in [Null, Bool(false), Num(0), Str(""), Arr([]), Obj(map[])]
  {
    if v.Obj? && v.members.Keys == {} {
      assert v.members == map[];
    }
  }

  function Payload(record: Record): Record {
    record - {"record_hash", "id"}
  }

  predicate Pointers(record: Record) {
    Truthy(Field(record, "prev_hash")) && Truthy(Field(record, "record_hash"))
  }

  predicate Linked(record: Record, prevHash: string) {
    Field(record, "prev_hash") == Str(prevHash)
  }

  predicate Hashed(h: Hashing, record: Record, prevHash: string) {
    Field(record, "record_hash") == Str(ComputeEntryHash(h, prevHash, Payload(record)))
  }

  predicate Fits(h: Hashing, record: Record, prevHash: string) {
    Pointers(record) && Linked(record, prevHash) && Hashed(h, record, prevHash)
  }

  /** The hash the next record must name; meaningful for records that fit. */
  function HashOf(record: Record): string {
    var v := Field(record, "record_hash");
    if v.Str? then v.s else ""
  }

  predicate Verifies(h: Hashing, records: seq<Record>, start: string) {
    records == [] || (Fits(h, records[0], start) && Verifies(h, records[1..], HashOf(records[0])))
  }

  function EndHash(records: seq<Record>, start: string): string {
    if records == [] then start else HashOf(records[|records| - 1])
  }

  datatype Verdict = Intact | MissingPointers(index: nat) | BrokenLink(index: nat) | HashMismatch(index: nat)

  /** The verdict names the first record that does not fit, and the first of the three checks that it fails. */
  method VerifyChain(h: Hashing, records: seq<Record>, start: string) returns (verdict: Verdict)
    ensures verdict.Intact? <==> Verifies(h, records, start)
    ensures !verdict.Intact? ==>
      verdict.index < |records| && Verifies(h, records[..verdict.index], start)
    ensures !verdict.Intact? ==>
      var record, prev := records[verdict.index], EndHash(records[..verdict.index], start);
      !Fits(h, record, prev)
      && (verdict.MissingPointers? <==> !Pointers(record))
      && (verdict.BrokenLink? <==> Pointers(record) && !Linked(record, prev))
  {
    var current := start;
    for index := 0 to |records|
      invariant Verifies(h, records[..index], start) && current == EndHash(records[..index], start)
    {
      var record := records[index];
      NextRecord(h, records, index, start);
      if !Truthy(Field(record, "prev_hash")) || !Truthy(Field(record, "record_hash")) {
        return MissingPointers(index);
      }
      if Field(record, "prev_hash") != Str(current) {
        return BrokenLink(index);
      }
      var expected := ComputeEntryHash(h, current, Payload(record));
      if Field(record, "record_hash") != Str(expected) {
        return HashMismatch(index);
      }
      current := expected;
    }
    assert records[..|records|] == records;
    verdict := Intact;
  }

  /** After a verified prefix, the next record decides: it extends the prefix or breaks the whole. */
  lemma {:induction false} NextRecord(h: Hashing, records: seq<Record>, index: nat, start: string)
    requires index < |records| && Verifies(h, records[..index], start)
    ensures var fits := Fits(h, records[index], EndHash(records[..index], start));
      (fits ==> Verifies(h, records[..index + 1], start)) && (!fits ==> !Verifies(h, records, start))
    ensures EndHash(records[..index + 1], start) == HashOf(records[index])
  {
    var record := records[index];
    assert records[..index + 1] == records[..index] + [record];
    VerifiesConcat(h, records[..index], [record], start);
    assert records == records[..index] + records[index..];
    VerifiesConcat(h, records[..index], records[index..], start);
    assert Verifies(h, [record][1..], HashOf(record));
  }

  /** A chain may be verified in parts, each from where the one before it ended. */
  lemma {:induction false} VerifiesConcat(h: Hashing, a: seq<Record>, b: seq<Record>, start: string)
    ensures Verifies(h, a + b, start) <==> Verifies(h, a, start) && Verifies(h, b, EndHash(a, start))
    ensures EndHash(a + b, start) == EndHash(b, EndHash(a, start))
    decreases |a|
  {
    if a == [] {
      assert a + b == b;
    } else {
      assert (a + b)[1..] == a[1..] + b;
      VerifiesConcat(h, a[1..], b, HashOf(a[0]));
      assert EndHash(a, start) == EndHash(a[1..], HashOf(a[0]));
    }
  }

  // ---------------------------------------------------------------- tampering shows

  /** Equal in every field but `id`. */
  ghost predicate Agree(a: Record, b: Record) {
    a - {"id"} == b - {"id"}
  }

  ghost predicate AllAgree(a: seq<Record>, b: seq<Record>) {
    |a| == |b| && forall i | 0 <= i < |a| :: Agree(a[i], b[i])
  }

  /** What was hashed can be taken apart again: the previous hash ends where the first brace stands. */
  lemma {:induction false} SplitAtBrace(p: string, c: string, q: string, d: string)
    requires p + c == q + d && '{' !in p && '{' !in q
    requires c != "" && c[0] == '{' && d != "" && d[0] == '{'
    ensures p == q && c == d
  {
    var whole := p + c;
    assert whole[|p|] == '{' && whole[|q|] == '{';
    assert forall i | 0 <= i < |p| :: whole[i] == p[i];
    assert forall i | 0 <= i < |q| :: whole[i] == q[i];
    assert |p| == |q|;
    assert p == whole[..|p|] && q == whole[..|q|];
    assert c == whole[|p|..] && d == whole[|q|..];
  }

  lemma {:induction false} SameHashSameRecord(h: Hashing, a: Record, p: string, b: Record, q: string)
    requires Sound(h) && Fits(h, a, p) && Fits(h, b, q) && HashOf(a) == HashOf(b)
    requires '{' !in p && '{' !in q
    ensures p == q && Agree(a, b)
  {
    SplitAtBrace(p, h.canonical(Payload(a)), q, h.canonical(Payload(b)));
    assert a["record_hash"] == b["record_hash"];
    forall k | k in a && k != "id" ensures k in b && a[k] == b[k] {
      assert k != "record_hash" ==> k in Payload(a);
    }
    forall k | k in b && k != "id" ensures k in a {
      assert k != "record_hash" ==> k in Payload(b);
    }
  }

  lemma {:induction false} EndIsSound(h: Hashing, records: seq<Record>, start: string)
    requires Sound(h) && SoundStart(h, start) && Verifies(h, records, start)
    ensures '{' !in EndHash(records, start)
    ensures records != [] ==> EndHash(records, start) != start
  {
    if records != [] {
      var n := |records| - 1;
      assert records == records[..n] + [records[n]];
      VerifiesConcat(h, records[..n], [records[n]], start);
    }
  }

  lemma {:induction false} SameEndSameChain(h: Hashing, a: seq<Record>, b: seq<Record>, start: string)
    requires Sound(h) && SoundStart(h, start)
    requires Verifies(h, a, start) && Verifies(h, b, start) && EndHash(a, start) == EndHash(b, start)
    ensures AllAgree(a, b)
    decreases |a|
  {
    EndIsSound(h, a, start);
    EndIsSound(h, b, start);
    if a != [] {
      var m, n := |a| - 1, |b| - 1;
      LastRecord(h, a, start);
      LastRecord(h, b, start);
      EndIsSound(h, a[..m], start);
      EndIsSound(h, b[..n], start);
      SameHashSameRecord(h, a[m], EndHash(a[..m], start), b[n], EndHash(b[..n], start));
      SameEndSameChain(h, a[..m], b[..n], start);
      LastAgrees(a, b);
    }
  }

  lemma {:induction false} LastRecord(h: Hashing, a: seq<Record>, start: string)
    requires a != [] && Verifies(h, a, start)
    ensures var m := |a| - 1;
      Verifies(h, a[..m], start) && Fits(h, a[m], EndHash(a[..m], start)) && EndHash(a, start) == HashOf(a[m])
  {
    var m := |a| - 1;
    assert a == a[..m] + [a[m]];
    VerifiesConcat(h, a[..m], [a[m]], start);
  }

  lemma {:induction false} LastAgrees(a: seq<Record>, b: seq<Record>)
    requires a != [] && b != [] && AllAgree(a[..|a| - 1], b[..|b| - 1]) && Agree(a[|a| - 1], b[|b| - 1])
    ensures AllAgree(a, b)
  {
    forall i | 0 <= i < |a| - 1 ensures Agree(a[i], b[i]) {
      assert a[i] == a[..|a| - 1][i] && b[i] == b[..|b| - 1][i];
    }
  }

  lemma {:induction false} AgreeingRecordFits(h: Hashing, a: Record, b: Record, prevHash: string)
    requires Agree(a, b) && Fits(h, a, prevHash)
    ensures Fits(h, b, prevHash) && HashOf(b) == HashOf(a)
  {
    var x, y := a - {"id"}, b - {"id"};
    assert Payload(a) == x - {"record_hash"} && Payload(b) == y - {"record_hash"};
    assert forall k | k in {"prev_hash", "record_hash"} :: Field(a, k) == Field(x, k) && Field(b, k) == Field(y, k);
  }

  lemma {:induction false} AgreeingChainVerifies(h: Hashing, a: seq<Record>, b: seq<Record>, start: string)
    requires AllAgree(a, b) && Verifies(h, a, start)
    ensures Verifies(h, b, start) && EndHash(b, start) == EndHash(a, start)
    decreases |a|
  {
    if a != [] {
      AgreeingRecordFits(h, a[0], b[0], start);
      assert forall i | 0 <= i < |a[1..]| :: a[1..][i] == a[i + 1] && b[1..][i] == b[i + 1];
      AgreeingChainVerifies(h, a[1..], b[1..], HashOf(a[0]));
      assert EndHash(a, start) == EndHash(a[1..], HashOf(a[0])) && EndHash(b, start) == EndHash(b[1..], HashOf(b[0]));
    }
  }

  /**
   * Tamper evidence, exactly: beside a verified chain, another list of records verifies from the same start to the
   * same end if and only if it has the same length and every record agrees in every field except `id`.
   */
  lemma {:induction false} TamperEvidentIff(h: Hashing, a: seq<Record>, b: seq<Record>, start: string)
    requires Sound(h) && SoundStart(h, start) && Verifies(h, a, start)
    ensures Verifies(h, b, start) && EndHash(b, start) == EndHash(a, start) <==> AllAgree(a, b)
  {
    if AllAgree(a, b) {
      AgreeingChainVerifies(h, a, b, start);
    }
    if Verifies(h, b, start) && EndHash(b, start) == EndHash(a, start) {
      SameEndSameChain(h, a, b, start);
    }
  }
}
