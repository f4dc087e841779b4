/**
 * Why the two preservation results need their fragments. Inlining changes the meaning of a reference with
 * assertions beside it and of a property called `$defs`; reduction rejects more than the original when what it
 * drops was the reason another keyword accepted the value.
 */
module SchemaLimits {
  import opened JsonValues
  import opened SchemaInlining
  import opened SchemaSemantics
  import opened SchemaReduction

  lemma {:induction false} OneKeyword(v: Value, k: string, arg: Value, env: Env)
    ensures Valid(v, Obj(map[k := arg]), env, {}) <==> KeywordHolds(v, k, map[k := arg], env, {})
  {
    assert k in map[k := arg];
  }

  lemma {:induction false} ReferenceFreeReduces(schema: Value)
    requires schema.Obj? && DefsFree(schema) && RefFree(schema)
    ensures Reduce(schema) == Clean(schema)
  {
    ResolveIdempotent(schema, Definitions(schema), {});
  }

  lemma {:induction false} OneOfTwo(v: Value, a: Value, b: Value, env: Env)
    ensures Valid(v, Obj(map["oneOf" := Arr([a, b])]), env, {}) <==> (Valid(v, a, env, {}) != Valid(v, b, env, {}))
  {
    var verdicts := seq(2, i requires 0 <= i < 2 => Valid(v, [a, b][i], env, {}));
    assert verdicts == [Valid(v, a, env, {}), Valid(v, b, env, {})];
    assert Combined("oneOf", verdicts) <==> (verdicts[0] != verdicts[1]);
    OneKeyword(v, "oneOf", Arr([a, b]), env);
  }

  lemma {:induction false} CleanOneOfTwo(a: Value, b: Value)
    requires Clean(a).Ok? && Clean(b).Ok?
    ensures Clean(Obj(map["oneOf" := Arr([a, b])]))
         == Ok(Obj(map["oneOf" := Arr([Clean(a).value, Clean(b).value])]))
  {
    var m := map["oneOf" := Arr([a, b])];
    assert CleanMember("oneOf", m).value.items == [Clean(a).value, Clean(b).value];
    assert Clean(Obj(m)).value.members == map["oneOf" := Arr([Clean(a).value, Clean(b).value])];
  }

  /**
   * When two alternatives of `oneOf` differ only in what is dropped, no value satisfies exactly one of them any
   * more: the reduced schema accepts nothing, whatever the original accepted.
   */
  lemma {:induction false} OneOfCanTighten(a: Value, b: Value, v: Value, vocabulary: Vocabulary)
    requires a.Obj? && b.Obj? && DefsFree(a) && RefFree(a) && DefsFree(b) && RefFree(b)
    requires Clean(a).Ok? && Clean(b) == Clean(a)
    ensures var schema := Obj(map["oneOf" := Arr([a, b])]);
      Reduce(schema).Ok?
      && !Accepts(Reduce(schema).value, v, vocabulary)
      && (Accepts(schema, v, vocabulary) <==> (Accepts(a, v, vocabulary) != Accepts(b, v, vocabulary)))
  {
    var env := Env(map[], vocabulary);
    OneOfReduces(a, b);
    assert Definitions(a) == map[] && Definitions(b) == map[];
    OneOfTwo(v, a, b, env);
    OneOfTwo(v, Clean(a).value, Clean(b).value, env);
  }

  lemma {:induction false} OneOfReduces(a: Value, b: Value)
    requires DefsFree(a) && RefFree(a) && DefsFree(b) && RefFree(b) && Clean(a).Ok? && Clean(b).Ok?
    ensures var schema, cleaned := Obj(map["oneOf" := Arr([a, b])]), Obj(map["oneOf" := Arr([Clean(a).value, Clean(b).value])]);
      Reduce(schema) == Ok(cleaned) && Definitions(schema) == map[] && Definitions(cleaned) == map[]
  {
    var schema := Obj(map["oneOf" := Arr([a, b])]);
    assert DefsFree(schema) && RefFree(schema);
    ReferenceFreeReduces(schema);
    CleanOneOfTwo(a, b);
  }

  lemma {:induction false} TwoKeywords(v: Value, k1: string, a1: Value, k2: string, a2: Value, env: Env)
    requires k1 != k2
    ensures var m := map[k1 := a1, k2 := a2];
      Valid(v, Obj(m), env, {}) <==> (KeywordHolds(v, k1, m, env, {}) && KeywordHolds(v, k2, m, env, {}))
  {
    assert k1 in map[k1 := a1, k2 := a2] && k2 in map[k1 := a1, k2 := a2];
  }

  /** Of two keywords, only the supported one is left. */
  lemma {:induction false} DropsFirst(k1: string, a1: Value, k2: string, b: bool)
    requires k1 !in SUPPORTED && k2 in {"items", "additionalProperties"}
    ensures Clean(Obj(map[k1 := a1, k2 := Bool(b)])) == Ok(Obj(map[k2 := Bool(b)]))
  {
    var m := map[k1 := a1, k2 := Bool(b)];
    assert CleanMember(k2, m) == Ok(Bool(b));
    assert Clean(Obj(m)).value.members == map[k2 := Bool(b)];
  }

  lemma {:induction false} ItemsHold(x: Value, m: map<string, Value>, rest: bool, env: Env)
    requires "items" in m && m["items"] == Bool(rest)
    ensures KeywordHolds(Arr([x]), "items", m, env, {}) <==> (PrefixLength(m) > 0 || rest)
  {
    var v := Arr([x]);
    assert Valid(v.items[0], Bool(rest), env, {}) <==> rest;
  }

  lemma {:induction false} PrefixItemsHold(x: Value, m: map<string, Value>, prefix: bool, env: Env)
    requires "prefixItems" in m && m["prefixItems"] == Arr([Bool(prefix)])
    ensures KeywordHolds(Arr([x]), "prefixItems", m, env, {}) <==> prefix
  {
    var v, schemas := Arr([x]), [Bool(prefix)];
    assert Valid(v.items[0], schemas[0], env, {}) <==> prefix;
  }

  lemma {:induction false} AdditionalHold(p: string, x: Value, m: map<string, Value>, env: Env)
    requires "additionalProperties" in m && m["additionalProperties"] == Bool(false)
    ensures KeywordHolds(Obj(map[p := x]), "additionalProperties", m, env, {})
       <==> NamedProperty(m, p, env.vocabulary)
  {
    var v := Obj(map[p := x]);
    assert p in v.members && !Valid(v.members[p], Bool(false), env, {});
  }

  lemma {:induction false} PatternHolds(v: Value, q: string, m: map<string, Value>, env: Env)
    requires "patternProperties" in m && m["patternProperties"] == Obj(map[q := Bool(true)])
    ensures KeywordHolds(v, "patternProperties", m, env, {})
  {
    assert forall w :: Valid(w, Bool(true), env, {});
  }

  /** Without `prefixItems`, `items` applies from the first element on. */
  lemma {:induction false} PrefixItemsCanTighten(x: Value, prefix: bool, rest: bool, vocabulary: Vocabulary)
    ensures var schema := Obj(map["prefixItems" := Arr([Bool(prefix)]), "items" := Bool(rest)]);
      Reduce(schema).Ok?
      && (Accepts(schema, Arr([x]), vocabulary) <==> prefix)
      && (Accepts(Reduce(schema).value, Arr([x]), vocabulary) <==> rest)
  {
    var env := Env(map[], vocabulary);
    var a1, a2 := Arr([Bool(prefix)]), Bool(rest);
    var m := map["prefixItems" := a1, "items" := a2];
    ReferenceFreeReduces(Obj(m));
    DropsFirst("prefixItems", a1, "items", rest);
    TwoKeywords(Arr([x]), "prefixItems", a1, "items", a2, env);
    PrefixItemsHold(x, m, prefix, env);
    ItemsHold(x, m, rest, env);
    OneKeyword(Arr([x]), "items", a2, env);
    ItemsHold(x, map["items" := a2], rest, env);
  }

  const ALLOW_NOTHING := map["additionalProperties" := Bool(false)]

  function AllowMatching(q: string): map<string, Value> {
    map["patternProperties" := Obj(map[q := Bool(true)]), "additionalProperties" := Bool(false)]
  }

  lemma {:induction false} AllowMatchingMeans(q: string, p: string, x: Value, env: Env)
    ensures Valid(Obj(map[p := x]), Obj(AllowMatching(q)), env, {}) <==> env.vocabulary.matches(q, p)
  {
    var v, m := Obj(map[p := x]), AllowMatching(q);
    TwoKeywords(v, "patternProperties", m["patternProperties"], "additionalProperties", Bool(false), env);
    PatternHolds(v, q, m, env);
    AdditionalHold(p, x, m, env);
    NamedByPattern(q, p, env);
  }

  lemma {:induction false} NamedByPattern(q: string, p: string, env: Env)
    ensures NamedProperty(AllowMatching(q), p, env.vocabulary) <==> env.vocabulary.matches(q, p)
    ensures !NamedProperty(ALLOW_NOTHING, p, env.vocabulary)
  {
    assert q in AllowMatching(q)["patternProperties"].members;
  }

  lemma {:induction false} AllowNothingMeans(q: string, p: string, x: Value, env: Env)
    ensures !Valid(Obj(map[p := x]), Obj(ALLOW_NOTHING), env, {})
  {
    OneKeyword(Obj(map[p := x]), "additionalProperties", Bool(false), env);
    AdditionalHold(p, x, ALLOW_NOTHING, env);
    NamedByPattern(q, p, env);
  }

  lemma {:induction false} AllowMatchingReduces(q: string)
    requires q != "$defs"
    ensures Definitions(Obj(AllowMatching(q))) == map[]
    ensures Reduce(Obj(AllowMatching(q))) == Ok(Obj(ALLOW_NOTHING))
  {
    ReferenceFreeReduces(Obj(AllowMatching(q)));
    DropsFirst("patternProperties", Obj(map[q := Bool(true)]), "additionalProperties", false);
  }

  /** Without `patternProperties`, `additionalProperties` applies to the properties it had matched. */
  lemma {:induction false} PatternPropertiesCanTighten(q: string, p: string, x: Value, vocabulary: Vocabulary)
    requires q != "$defs"
    ensures Reduce(Obj(AllowMatching(q))).Ok?
    ensures Accepts(Obj(AllowMatching(q)), Obj(map[p := x]), vocabulary) <==> vocabulary.matches(q, p)
    ensures !Accepts(Reduce(Obj(AllowMatching(q))).value, Obj(map[p := x]), vocabulary)
  {
    var env := Env(map[], vocabulary);
    AllowMatchingReduces(q);
    AllowMatchingMeans(q, p, x, env);
    AllowNothingMeans(q, p, x, env);
    assert Definitions(Obj(ALLOW_NOTHING)) == map[];
  }

  /** Assertions beside a reference are lost: the original demands both, the inlined schema one. */
  lemma {:induction false} SiblingOfRefIsLost(name: string, v: Value, vocabulary: Vocabulary)
    ensures var schema := Obj(map["$ref" := Str(REF_PREFIX + name), "not" := Bool(true),
                                  "$defs" := Obj(map[name := Bool(true)])]);
      Inline(schema) == Ok(Bool(true)) && !Accepts(schema, v, vocabulary) && Accepts(Bool(true), v, vocabulary)
  {
    var m := map["$ref" := Str(REF_PREFIX + name), "not" := Bool(true), "$defs" := Obj(map[name := Bool(true)])];
    assert RefName(m) == name;
    assert Definitions(Obj(m)) == map[name := Bool(true)];
    assert Resolve(Obj(m), Definitions(Obj(m)), {}) == Resolve(Bool(true), Definitions(Obj(m)), {name});
    var env := Env(Definitions(Obj(m)), vocabulary);
    NotTrueFails(v, m, env);
  }

  lemma {:induction false} NotTrueFails(v: Value, m: map<string, Value>, env: Env)
    requires "not" in m && m["not"] == Bool(true)
    ensures !Valid(v, Obj(m), env, {})
  {
    assert !KeywordHolds(v, "not", m, env, {});
  }

  /** A property called `$defs` is dropped as if it held definitions. */
  lemma {:induction false} PropertyNamedDefsIsLost(x: Value, vocabulary: Vocabulary)
    ensures var schema := Obj(map["properties" := Obj(map["$defs" := Bool(false)])]);
      Inline(schema) == Ok(Obj(map["properties" := Obj(map[])]))
      && !Accepts(schema, Obj(map["$defs" := x]), vocabulary)
      && Accepts(Inline(schema).value, Obj(map["$defs" := x]), vocabulary)
  {
    var props := Obj(map["$defs" := Bool(false)]);
    DefsPropertyInlines(props);
    var v, env := Obj(map["$defs" := x]), Env(map[], vocabulary);
    OneKeyword(v, "properties", props, env);
    OneKeyword(v, "properties", Obj(map[]), env);
    PropertiesHold(v, map["properties" := props], env);
    PropertiesHold(v, map["properties" := Obj(map[])], env);
    assert "$defs" in props.members && !Valid(x, Bool(false), env, {});
  }

  lemma {:induction false} DefsPropertyInlines(props: Value)
    requires props == Obj(map["$defs" := Bool(false)])
    ensures Definitions(Obj(map["properties" := props])) == map[]
    ensures Inline(Obj(map["properties" := props])) == Ok(Obj(map["properties" := Obj(map[])]))
  {
    assert Resolve(props, map[], {}).value.members == map[];
    assert Inline(Obj(map["properties" := props])).value.members == map["properties" := Obj(map[])];
  }

  lemma {:induction false} PropertiesHold(v: Value, m: map<string, Value>, env: Env)
    requires v.Obj? && "properties" in m && m["properties"].Obj?
    ensures KeywordHolds(v, "properties", m, env, {})
       <==> forall p | p in m["properties"].members && p in v.members ::
              Valid(v.members[p], m["properties"].members[p], env, {})
  {
  }
}
