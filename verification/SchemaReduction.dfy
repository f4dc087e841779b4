/** `_google_json_schema`: inline, then keep only the keywords the provider supports, level by level. */
module SchemaReduction {
  import opened JsonValues
  import opened SchemaInlining
  import opened SchemaSemantics
  import opened InliningPreservation

  const SUPPORTED := {
    "type", "enum", "items", "anyOf", "oneOf", "properties", "additionalProperties", "required"
  }

  /** One pass over an already inlined schema: no level is inlined a second time. */
  function Clean(schema: Value): Result
    decreases schema, 1
  {
    if !schema.Obj? then
      Err
    else
      var m := schema.members;
      if forall k | k in m && k in SUPPORTED :: CleanMember(k, m).Ok? then
        Ok(Obj(map k | k in m && k in SUPPORTED :: CleanMember(k, m).value))
      else
        Err
  }

  function CleanMember(k: string, m: map<string, Value>): Result
    requires k in m
    decreases Obj(m), 0
  {
    var arg := m[k];
    if k == "properties" then
      if arg.Obj? && forall p | p in arg.members :: Clean(arg.members[p]).Ok? then
        Ok(Obj(map p | p in arg.members :: Clean(arg.members[p]).value))
      else
        Err
    else if k in {"anyOf", "oneOf"} then
      if arg.Arr? && forall i | 0 <= i < |arg.items| && arg.items[i].Obj? :: Clean(arg.items[i]).Ok? then
        Ok(Arr(seq(|arg.items|, i requires 0 <= i < |arg.items| && (arg.items[i].Obj? ==> Clean(arg.items[i]).Ok?) =>
          if arg.items[i].Obj? then Clean(arg.items[i]).value else arg.items[i])))
      else
        Err
    else if k in {"items", "additionalProperties"} && arg.Obj? then
      Clean(arg)
    else
      Ok(arg)
  }

  /** One inline followed by one clean. */
  function Reduce(schema: Value): Result {
    match Inline(schema)
    case Ok(inlined) => Clean(inlined)
    case Err => Err
  }

  // ---------------------------------------------------------------- the compiler itself

  /** What the recursion shrinks: the schema after its own inlining. */
  ghost function Expanded(schema: Value): Value {
    match Inline(schema)
    case Ok(inlined) => inlined
    case Err => schema
  }

  /** A part of an inlined schema expands to itself, or does not expand at all. */
  lemma {:induction false} PartExpands(part: Value)
    requires DefsFree(part)
    ensures Inline(part) == Err || Inline(part) == Ok(part)
    ensures part.Obj? && RefFree(part) ==> Inline(part) == Ok(part)
  {
    assert Definitions(part) == map[];
    ReinlineUnchangedOrErr(part);
    if RefFree(part) {
      ResolveIdempotent(part, map[], {});
    }
  }

  /**
   * The source's recursion, which inlines again at every nested level. Whatever it returns is what one inline
   * and one clean return; and it returns that unless some definition was a string spelling a reference.
   */
  method GoogleJsonSchema(schema: Value) returns (r: Result)
    ensures r.Ok? ==> r == Reduce(schema)
    ensures RefFree(Expanded(schema)) ==> r == Reduce(schema)
    decreases Expanded(schema), 1
  {
    var inlined := Inline(schema);
    if inlined.Err? || !inlined.value.Obj? {
      return Err;
    }
    ResolveRemovesDefs(schema, Definitions(schema), {});
    var m := inlined.value.members;
    var cleaned: map<string, Value> := map[];
    var todo := m.Keys;
    while todo != {}
      invariant todo <= m.Keys
      invariant cleaned.Keys == (m.Keys - todo) * SUPPORTED
      invariant forall k | k in cleaned :: CleanMember(k, m) == Ok(cleaned[k])
      decreases todo
    {
      var k :| k in todo;
      todo := todo - {k};
      if k in SUPPORTED {
        var member := GoogleMember(k, m);
        if member.Err? {
          return Err;
        }
        cleaned := cleaned[k := member.value];
      }
    }
    r := Ok(Obj(cleaned));
    assert forall k | k in m && k in SUPPORTED :: k in cleaned;
    assert Clean(inlined.value).value.members == cleaned;
  }

  method GoogleMember(k: string, m: map<string, Value>) returns (r: Result)
    requires k in m && DefsFree(Obj(m))
    ensures r.Ok? ==> r == CleanMember(k, m)
    ensures RefFree(m[k]) ==> r == CleanMember(k, m)
    decreases Obj(m), 0
  {
    var arg := m[k];
    if k == "properties" {
      if !arg.Obj? {
        return Err;
      }
      var cleaned: map<string, Value> := map[];
      var todo := arg.members.Keys;
      while todo != {}
        invariant todo <= arg.members.Keys
        invariant cleaned.Keys == arg.members.Keys - todo
        invariant forall p | p in cleaned :: Clean(arg.members[p]) == Ok(cleaned[p])
        decreases todo
      {
        var p :| p in todo;
        todo := todo - {p};
        PartExpands(arg.members[p]);
        var child := GoogleJsonSchema(arg.members[p]);
        if child.Err? {
          return Err;
        }
        cleaned := cleaned[p := child.value];
      }
      r := Ok(Obj(cleaned));
      assert CleanMember(k, m).value.members == cleaned;
    } else if k in {"anyOf", "oneOf"} {
      if !arg.Arr? {
        return Err;
      }
      var cleaned: seq<Value> := [];
      for i := 0 to |arg.items|
        invariant |cleaned| == i
        invariant forall j | 0 <= j < i ::
          if arg.items[j].Obj? then Clean(arg.items[j]) == Ok(cleaned[j]) else cleaned[j] == arg.items[j]
      {
        if arg.items[i].Obj? {
          PartExpands(arg.items[i]);
          var child := GoogleJsonSchema(arg.items[i]);
          if child.Err? {
            return Err;
          }
          cleaned := cleaned + [child.value];
        } else {
          cleaned := cleaned + [arg.items[i]];
        }
      }
      r := Ok(Arr(cleaned));
      assert CleanMember(k, m).value.items == cleaned;
    } else if k in {"items", "additionalProperties"} && arg.Obj? {
      PartExpands(arg);
      r := GoogleJsonSchema(arg);
    } else {
      r := Ok(arg);
    }
  }

  // ---------------------------------------------------------------- what the output looks like

  /** Every schema level that the provider reads uses supported keywords only. */
  ghost predicate OnlySupported(schema: Value)
    decreases schema, 1
  {
    schema.Obj? ==> forall k | k in schema.members ::
      k in {"type", "enum", "items", "anyOf", "oneOf", "properties", "additionalProperties", "required"}
      && OnlySupportedBelow(k, schema.members)
  }

  ghost predicate OnlySupportedBelow(k: string, m: map<string, Value>)
    requires k in m
    decreases Obj(m), 0
  {
    var arg := m[k];
    if k in MAPS_OF_SCHEMAS then
      arg.Obj? ==> forall p | p in arg.members :: OnlySupported(arg.members[p])
    else if k in LISTS_OF_SCHEMAS then
      arg.Arr? ==> forall i | 0 <= i < |arg.items| :: OnlySupported(arg.items[i])
    else if k in SINGLE_SCHEMAS then
      OnlySupported(arg)
    else
      true
  }

  lemma {:induction false} CleanOnlySupported(schema: Value)
    requires Clean(schema).Ok?
    ensures OnlySupported(Clean(schema).value)
    decreases schema
  {
    var m, r := schema.members, Clean(schema).value.members;
    forall k | k in r ensures OnlySupportedBelow(k, r) {
      if k == "properties" {
        forall p | p in m[k].members ensures OnlySupported(r[k].members[p]) {
          CleanOnlySupported(m[k].members[p]);
        }
      } else if k in {"anyOf", "oneOf"} {
        forall i | 0 <= i < |m[k].items| && m[k].items[i].Obj? ensures OnlySupported(r[k].items[i]) {
          CleanOnlySupported(m[k].items[i]);
        }
      } else if k in {"items", "additionalProperties"} && m[k].Obj? {
        CleanOnlySupported(m[k]);
      }
    }
  }

  // ---------------------------------------------------------------- what the output accepts

  /** At every level, nothing but supported keywords and annotations. */
  ghost predicate Lossless(schema: Value)
    decreases schema, 1
  {
    schema.Obj? ==> forall k | k in schema.members ::
      k in ANNOTATIONS || (k in SUPPORTED && LosslessBelow(k, schema.members))
  }

  ghost predicate LosslessBelow(k: string, m: map<string, Value>)
    requires k in m
    decreases Obj(m), 0
  {
    var arg := m[k];
    if k in MAPS_OF_SCHEMAS then
      arg.Obj? ==> forall p | p in arg.members :: Lossless(arg.members[p])
    else if k in LISTS_OF_SCHEMAS then
      arg.Arr? ==> forall i | 0 <= i < |arg.items| :: Lossless(arg.items[i])
    else if k in SINGLE_SCHEMAS then
      Lossless(arg)
    else
      true
  }

  /**
   * Sets of keywords whose schemas reduction only relaxes: it drops `prefixItems` and `patternProperties` without
   * looking at the keywords that read them, and an alternative of `oneOf` must not lose an assertion.
   */
  ghost predicate Relaxable(keywords: iset<string>) {
    && !("prefixItems" in keywords && "items" in keywords)
    && !("patternProperties" in keywords && "additionalProperties" in keywords)
    && ("oneOf" in keywords ==> forall k | k in keywords :: k in SUPPORTED || k in ANNOTATIONS)
  }

  /** The schemas the two results speak of: for exactness, those from which nothing is dropped. */
  ghost predicate Suitable(schema: Value, g: Grammar, exact: bool) {
    Standard(g) && WellFormed(schema, g) && if exact then Lossless(schema) else Relaxable(g.keywords) && "oneOf" !in g.keywords
  }

  lemma {:induction false} CleanVerdict(v: Value, schema: Value, env: Env, open: set<string>, g: Grammar, exact: bool)
    requires Suitable(schema, g, exact) && Clean(schema).Ok?
    ensures Valid(v, schema, env, open) ==> Valid(v, Clean(schema).value, env, open)
    ensures exact && Valid(v, Clean(schema).value, env, open) ==> Valid(v, schema, env, open)
    decreases schema, 1
  {
    var m, r := schema.members, Clean(schema).value.members;
    if !IsLocalRef(m) {
      forall k | k in r
        ensures KeywordHolds(v, k, m, env, open) ==> KeywordHolds(v, k, r, env, open)
        ensures exact && KeywordHolds(v, k, r, env, open) ==> KeywordHolds(v, k, m, env, open)
      {
        CleanKeyword(v, k, m, env, open, g, exact);
      }
    }
    if exact {
      AnnotationsHold(v, m, env, open);
    }
  }

  lemma {:induction false} AnnotationsHold(v: Value, m: map<string, Value>, env: Env, open: set<string>)
    ensures forall k | k in m && k in ANNOTATIONS :: KeywordHolds(v, k, m, env, open)
  {
  }

  lemma {:induction false} CleanKeyword(
      v: Value, k: string, m: map<string, Value>, env: Env, open: set<string>, g: Grammar, exact: bool)
    requires Suitable(Obj(m), g, exact) && !IsLocalRef(m) && Clean(Obj(m)).Ok?
    requires k in m && k in SUPPORTED
    ensures var r := Clean(Obj(m)).value.members;
      (KeywordHolds(v, k, m, env, open) ==> KeywordHolds(v, k, r, env, open))
      && (exact && KeywordHolds(v, k, r, env, open) ==> KeywordHolds(v, k, m, env, open))
    decreases Obj(m), 0
  {
    if k == "properties" {
      CleanProperties(v, m, env, open, g, exact);
    } else if k in {"anyOf", "oneOf"} {
      CleanCombination(v, k, m, env, open, g, exact);
    } else if k == "items" {
      CleanItems(v, m, env, open, g, exact);
    } else if k == "additionalProperties" {
      CleanAdditional(v, m, env, open, g, exact);
    } else {
      DataDecides(v, k, m, Clean(Obj(m)).value.members, env, env, open, open);
    }
  }

  lemma {:induction false} CleanProperties(
      v: Value, m: map<string, Value>, env: Env, open: set<string>, g: Grammar, exact: bool)
    requires Suitable(Obj(m), g, exact) && !IsLocalRef(m) && Clean(Obj(m)).Ok? && "properties" in m
    ensures var r := Clean(Obj(m)).value.members;
      (KeywordHolds(v, "properties", m, env, open) ==> KeywordHolds(v, "properties", r, env, open))
      && (exact && KeywordHolds(v, "properties", r, env, open) ==> KeywordHolds(v, "properties", m, env, open))
    decreases m["properties"]
  {
    assert WellFormedKeyword("properties", m, g);
    assert exact ==> LosslessBelow("properties", m);
    var xs, ys := m["properties"].members, Clean(Obj(m)).value.members["properties"].members;
    if v.Obj? {
      forall p | p in xs && p in v.members ensures Verdicts(v.members[p], xs[p], ys[p], env, {}, exact) {
        CleanVerdict(v.members[p], xs[p], env, {}, g, exact);
      }
    }
  }

  lemma {:induction false} CleanItems(
      v: Value, m: map<string, Value>, env: Env, open: set<string>, g: Grammar, exact: bool)
    requires Suitable(Obj(m), g, exact) && !IsLocalRef(m) && Clean(Obj(m)).Ok? && "items" in m
    ensures var r := Clean(Obj(m)).value.members;
      (KeywordHolds(v, "items", m, env, open) ==> KeywordHolds(v, "items", r, env, open))
      && (exact && KeywordHolds(v, "items", r, env, open) ==> KeywordHolds(v, "items", m, env, open))
    decreases m["items"], 2
  {
    assert WellFormedKeyword("items", m, g);
    assert exact ==> LosslessBelow("items", m);
    CleanPrefix(m, g, exact);
    var after := Clean(Obj(m)).value.members["items"];
    if v.Arr? {
      forall i | 0 <= i < |v.items| ensures Verdicts(v.items[i], m["items"], after, env, {}, exact) {
        if m["items"].Obj? {
          CleanVerdict(v.items[i], m["items"], env, {}, g, exact);
        }
      }
    }
  }

  lemma {:induction false} CleanAdditional(
      v: Value, m: map<string, Value>, env: Env, open: set<string>, g: Grammar, exact: bool)
    requires Suitable(Obj(m), g, exact) && !IsLocalRef(m) && Clean(Obj(m)).Ok? && "additionalProperties" in m
    ensures var r := Clean(Obj(m)).value.members;
      var before := KeywordHolds(v, "additionalProperties", m, env, open);
      var after := KeywordHolds(v, "additionalProperties", r, env, open);
      (before ==> after) && (exact && after ==> before)
    decreases m["additionalProperties"], 2
  {
    assert WellFormedKeyword("additionalProperties", m, g);
    assert exact ==> LosslessBelow("additionalProperties", m);
    CleanNames(m, env, g, exact);
    var r := Clean(Obj(m)).value.members;
    if v.Obj? {
      forall p | p in v.members
        ensures Verdicts(v.members[p], m["additionalProperties"], r["additionalProperties"], env, {}, exact)
      {
        if m["additionalProperties"].Obj? {
          CleanVerdict(v.members[p], m["additionalProperties"], env, {}, g, exact);
        }
      }
    }
    AdditionalFollows(v, m, r, env, open, exact);
  }

  lemma {:induction false} AdditionalFollows(
      v: Value, m: map<string, Value>, r: map<string, Value>, env: Env, open: set<string>, exact: bool)
    requires "additionalProperties" in m && "additionalProperties" in r
    requires forall p :: NamedProperty(r, p, env.vocabulary) == NamedProperty(m, p, env.vocabulary)
    requires v.Obj? ==> forall p | p in v.members ::
      Verdicts(v.members[p], m["additionalProperties"], r["additionalProperties"], env, {}, exact)
    ensures var before := KeywordHolds(v, "additionalProperties", m, env, open);
      var after := KeywordHolds(v, "additionalProperties", r, env, open);
      (before ==> after) && (exact && after ==> before)
  {
  }

  ghost predicate Verdicts(v: Value, before: Value, after: Value, env: Env, open: set<string>, exact: bool) {
    && (Valid(v, before, env, open) ==> Valid(v, after, env, open))
    && (exact && Valid(v, after, env, open) ==> Valid(v, before, env, open))
  }

  /** Where `items` reads `prefixItems`, there was none to drop. */
  lemma {:induction false} CleanPrefix(m: map<string, Value>, g: Grammar, exact: bool)
    requires Suitable(Obj(m), g, exact) && !IsLocalRef(m) && Clean(Obj(m)).Ok? && "items" in m
    ensures PrefixLength(Clean(Obj(m)).value.members) == PrefixLength(m)
  {
    assert "prefixItems" !in m;
  }

  /** Where `additionalProperties` reads `patternProperties`, there was none to drop. */
  lemma {:induction false} CleanNames(m: map<string, Value>, env: Env, g: Grammar, exact: bool)
    requires Suitable(Obj(m), g, exact) && !IsLocalRef(m) && Clean(Obj(m)).Ok? && "additionalProperties" in m
    ensures var r := Clean(Obj(m)).value.members;
      forall p :: NamedProperty(r, p, env.vocabulary) <==> NamedProperty(m, p, env.vocabulary)
  {
    var r := Clean(Obj(m)).value.members;
    assert "patternProperties" !in m;
    if "properties" in m {
      assert r["properties"].members.Keys == m["properties"].members.Keys;
    }
  }

  /** Alternatives whose verdicts follow one by one give combined verdicts that follow. */
  lemma {:induction false} CombinationFollows(
      v: Value, k: string, m: map<string, Value>, r: map<string, Value>, env: Env, open: set<string>, exact: bool)
    requires k in m && k in r && m[k].Arr? && r[k].Arr? && |m[k].items| == |r[k].items|
    requires k == "anyOf" || (k == "oneOf" && exact)
    requires forall i | 0 <= i < |m[k].items| :: Verdicts(v, m[k].items[i], r[k].items[i], env, open, exact)
    ensures KeywordHolds(v, k, m, env, open) ==> KeywordHolds(v, k, r, env, open)
    ensures exact && KeywordHolds(v, k, r, env, open) ==> KeywordHolds(v, k, m, env, open)
  {
    var xs, ys := m[k].items, r[k].items;
    var before := seq(|xs|, i requires 0 <= i < |xs| => Valid(v, xs[i], env, open));
    var after := seq(|ys|, i requires 0 <= i < |ys| => Valid(v, ys[i], env, open));
    assert exact ==> before == after;
    assert forall i | 0 <= i < |xs| :: before[i] ==> after[i];
  }

  lemma {:induction false} CleanAlternatives(
      v: Value, k: string, m: map<string, Value>, env: Env, open: set<string>, g: Grammar, exact: bool)
    requires Suitable(Obj(m), g, exact) && !IsLocalRef(m) && Clean(Obj(m)).Ok?
    requires k in m && k in {"anyOf", "oneOf"}
    ensures var r := Clean(Obj(m)).value.members;
      m[k].Arr? && r[k].Arr? && |m[k].items| == |r[k].items| && (k == "oneOf" ==> exact)
      && forall i | 0 <= i < |m[k].items| :: Verdicts(v, m[k].items[i], r[k].items[i], env, open, exact)
    decreases m[k], 1
  {
    assert WellFormedKeyword(k, m, g);
    assert exact ==> LosslessBelow(k, m);
    var xs, ys := m[k].items, Clean(Obj(m)).value.members[k].items;
    forall i | 0 <= i < |xs| ensures Verdicts(v, xs[i], ys[i], env, open, exact) {
      if xs[i].Obj? {
        CleanVerdict(v, xs[i], env, open, g, exact);
      }
    }
  }

  lemma {:induction false} CleanCombination(
      v: Value, k: string, m: map<string, Value>, env: Env, open: set<string>, g: Grammar, exact: bool)
    requires Suitable(Obj(m), g, exact) && !IsLocalRef(m) && Clean(Obj(m)).Ok?
    requires k in m && k in {"anyOf", "oneOf"}
    ensures var r := Clean(Obj(m)).value.members;
      (KeywordHolds(v, k, m, env, open) ==> KeywordHolds(v, k, r, env, open))
      && (exact && KeywordHolds(v, k, r, env, open) ==> KeywordHolds(v, k, m, env, open))
    decreases m[k], 2
  {
    CleanAlternatives(v, k, m, env, open, g, exact);
    CombinationFollows(v, k, m, Clean(Obj(m)).value.members, env, open, exact);
  }

  lemma {:induction false} UsesSupportedIsLossless(schema: Value, g: Grammar)
    requires WellFormed(schema, g) && RefFree(schema)
    requires forall k | k in g.keywords :: k in SUPPORTED || k in ANNOTATIONS
    ensures Lossless(schema)
    decreases schema
  {
    if schema.Obj? {
      var m := schema.members;
      forall k | k in m && k !in ANNOTATIONS ensures LosslessBelow(k, m) {
        assert WellFormedKeyword(k, m, g);
        if k in LISTS_OF_SCHEMAS {
          forall i | 0 <= i < |m[k].items| ensures Lossless(m[k].items[i]) {
            UsesSupportedIsLossless(m[k].items[i], g);
          }
        } else if k in SINGLE_SCHEMAS {
          UsesSupportedIsLossless(m[k], g);
        } else if k in MAPS_OF_SCHEMAS {
          forall p | p in m[k].members ensures Lossless(m[k].members[p]) {
            UsesSupportedIsLossless(m[k].members[p], g);
          }
        }
      }
    }
  }

  /**
   * Reduction only relaxes: over a relaxable set of keywords, each value the original accepts is accepted by the
   * reduced schema.
   */
  lemma {:induction false} ReductionRelaxes(schema: Value, v: Value, vocabulary: Vocabulary, g: Grammar)
    requires Standard(g) && WellFormed(schema, g) && WellFormedDefinitions(Definitions(schema), g)
    requires Relaxable(g.keywords) && Reduce(schema).Ok?
    ensures Accepts(schema, v, vocabulary) ==> Accepts(Reduce(schema).value, v, vocabulary)
  {
    var inlined := Inline(schema).value;
    InliningPreservesMeaning(schema, v, vocabulary, g);
    ResolvedWellFormed(schema, Definitions(schema), {}, g);
    assert Definitions(inlined) == map[] && Definitions(Clean(inlined).value) == map[];
    if "oneOf" in g.keywords {
      UsesSupportedIsLossless(inlined, g);
      CleanVerdict(v, inlined, Env(map[], vocabulary), {}, g, true);
    } else {
      CleanVerdict(v, inlined, Env(map[], vocabulary), {}, g, false);
    }
  }

  /** Whatever the schema, every schema level of what it is reduced to uses supported keywords only. */
  lemma {:induction false} ReductionOnlySupported(schema: Value)
    requires Reduce(schema).Ok?
    ensures OnlySupported(Reduce(schema).value)
  {
    CleanOnlySupported(Inline(schema).value);
  }

  /**
   * Reduction is exact when there is nothing to drop: if the inlined schema uses supported keywords and
   * annotations only (`oneOf` included), the reduced schema accepts precisely the same values.
   */
  lemma {:induction false} ReductionExactWhenLossless(schema: Value, v: Value, vocabulary: Vocabulary, g: Grammar)
    requires Standard(g) && WellFormed(schema, g) && WellFormedDefinitions(Definitions(schema), g)
    requires Reduce(schema).Ok? && Lossless(Inline(schema).value)
    ensures Accepts(schema, v, vocabulary) <==> Accepts(Reduce(schema).value, v, vocabulary)
  {
    var inlined := Inline(schema).value;
    InliningPreservesMeaning(schema, v, vocabulary, g);
    ResolvedWellFormed(schema, Definitions(schema), {}, g);
    assert Definitions(inlined) == map[] && Definitions(Clean(inlined).value) == map[];
    CleanVerdict(v, inlined, Env(map[], vocabulary), {}, g, true);
  }
}
