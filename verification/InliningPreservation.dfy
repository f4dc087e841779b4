/** Inlining preserves meaning: the inlined schema accepts exactly the values the original accepts. */
module InliningPreservation {
  import opened JsonValues
  import opened SchemaInlining
  import opened SchemaPointers
  import opened SchemaSemantics

  function Flat(env: Env): Env {
    env.(defs := map[])
  }

  lemma {:induction false} ResolvedValidIff(
      v: Value, schema: Value, env: Env, expanding: set<string>, open: set<string>, g: Grammar)
    requires Standard(g) && WellFormedDefinitions(env.defs, g) && WellFormed(schema, g)
    requires open <= expanding
    requires Resolve(schema, env.defs, expanding).Ok?
    ensures Valid(v, schema, env, open) <==> Valid(v, Resolve(schema, env.defs, expanding).value, Flat(env), {})
    decreases |env.defs.Keys - expanding|, schema, 1
  {
    match schema
    case Bool(_) =>
    case Obj(m) =>
      if IsLocalRef(m) {
        var name := RefName(m);
        OpeningShrinks(env.defs, expanding, name);
        ResolvedValidIff(v, env.defs[name], env, expanding + {name}, open + {name}, g);
        RefDecides(v, m, env, open);
      } else {
        ResolvedKeys(m, env.defs, expanding);
        var r := Resolve(schema, env.defs, expanding).value.members;
        forall k | k in m && k != "$defs" ensures KeywordAgrees(v, k, m, r, env, open) {
          ResolvedKeywordIff(v, k, m, env, expanding, open, g);
        }
        KeywordsDecide(v, m, r, env, open);
      }
  }

  lemma {:induction false} DefsHold(v: Value, m: map<string, Value>, env: Env, open: set<string>)
    ensures "$defs" in m ==> KeywordHolds(v, "$defs", m, env, open)
  {
  }

  lemma {:induction false} ResolvedKeys(m: map<string, Value>, defs: map<string, Value>, expanding: set<string>)
    requires !IsLocalRef(m) && Resolve(Obj(m), defs, expanding).Ok?
    ensures var r := Resolve(Obj(m), defs, expanding).value; r.Obj? && r.members.Keys == m.Keys - {"$defs"}
  {
  }

  ghost predicate KeywordAgrees(
      v: Value, k: string, m: map<string, Value>, r: map<string, Value>, env: Env, open: set<string>)
    requires k in m && k in r
  {
    KeywordHolds(v, k, m, env, open) <==> KeywordHolds(v, k, r, Flat(env), {})
  }

  lemma {:induction false} KeywordsDecide(
      v: Value, m: map<string, Value>, r: map<string, Value>, env: Env, open: set<string>)
    requires r.Keys == m.Keys - {"$defs"}
    requires forall k | k in m && k != "$defs" :: KeywordAgrees(v, k, m, r, env, open)
    ensures Valid(v, Obj(m), env, open) <==> Valid(v, Obj(r), Flat(env), {})
  {
    DefsHold(v, m, env, open);
    forall k | k in r && Valid(v, Obj(m), env, open) ensures KeywordHolds(v, k, r, Flat(env), {}) {
      assert KeywordAgrees(v, k, m, r, env, open);
    }
    forall k | k in m && Valid(v, Obj(r), Flat(env), {}) ensures KeywordHolds(v, k, m, env, open) {
      assert k != "$defs" ==> KeywordAgrees(v, k, m, r, env, open);
    }
  }

  /** Beside annotations, a reference alone decides. */
  lemma {:induction false} RefDecides(v: Value, m: map<string, Value>, env: Env, open: set<string>)
    requires IsLocalRef(m) && RefName(m) in env.defs && RefName(m) !in open && PlainName(RefName(m))
    requires forall k | k in m :: k == "$ref" || k in ANNOTATIONS
    ensures Valid(v, Obj(m), env, open) <==> Valid(v, env.defs[RefName(m)], env, open + {RefName(m)})
  {
    PlainNameIff(RefName(m));
    assert KeywordHolds(v, "$ref", m, env, open) <==> Valid(v, env.defs[RefName(m)], env, open + {RefName(m)});
    assert forall k | k in m && k != "$ref" :: KeywordHolds(v, k, m, env, open);
  }

  lemma {:induction false} ResolvedKeywordIff(
      v: Value, k: string, m: map<string, Value>, env: Env, expanding: set<string>, open: set<string>, g: Grammar)
    requires Standard(g) && WellFormedDefinitions(env.defs, g) && WellFormed(Obj(m), g)
    requires open <= expanding && !IsLocalRef(m)
    requires Resolve(Obj(m), env.defs, expanding).Ok?
    requires k in m && k != "$defs"
    ensures KeywordHolds(v, k, m, env, open)
       <==> KeywordHolds(v, k, Resolve(Obj(m), env.defs, expanding).value.members, Flat(env), {})
    decreases |env.defs.Keys - expanding|, Obj(m), 0
  {
    if k in LISTS_OF_SCHEMAS {
      ListKeywordIff(v, k, m, env, expanding, open, g);
    } else if k in MAPS_OF_SCHEMAS {
      MapKeywordIff(v, k, m, env, expanding, open, g);
    } else if k in SINGLE_SCHEMAS {
      SingleKeywordIff(v, k, m, env, expanding, open, g);
    } else {
      DataKeywordIff(v, k, m, env, expanding, open, g);
    }
  }

  /** A keyword that takes no schema looks at nothing but its argument, unless it is a local reference. */
  lemma {:induction false} DataDecides(
      v: Value, k: string, m: map<string, Value>, r: map<string, Value>, env: Env, other: Env,
      open: set<string>, otherOpen: set<string>)
    requires k in m && k in r && m[k] == r[k] && !IsLocalRef(m) && !IsLocalRef(r) && env.vocabulary == other.vocabulary
    requires k !in LISTS_OF_SCHEMAS && k !in MAPS_OF_SCHEMAS && k !in SINGLE_SCHEMAS
    ensures KeywordHolds(v, k, m, env, open) <==> KeywordHolds(v, k, r, other, otherOpen)
  {
  }

  /** Inlining leaves plain data alone. */
  lemma {:induction false} DataKeywordIff(
      v: Value, k: string, m: map<string, Value>, env: Env, expanding: set<string>, open: set<string>, g: Grammar)
    requires Standard(g) && WellFormed(Obj(m), g) && !IsLocalRef(m)
    requires Resolve(Obj(m), env.defs, expanding).Ok?
    requires k in m && k != "$defs" && k !in LISTS_OF_SCHEMAS && k !in MAPS_OF_SCHEMAS && k !in SINGLE_SCHEMAS
    ensures KeywordHolds(v, k, m, env, open)
       <==> KeywordHolds(v, k, Resolve(Obj(m), env.defs, expanding).value.members, Flat(env), {})
  {
    var r := Resolve(Obj(m), env.defs, expanding).value.members;
    if k !in ANNOTATIONS {
      assert WellFormedKeyword(k, m, g);
      ResolveIdempotent(m[k], env.defs, expanding);
      if "$ref" in m {
        PlainRef(m, g);
      }
      RefStays(m, env.defs, expanding);
      DataDecides(v, k, m, r, env, Flat(env), open, {});
    }
  }

  lemma {:induction false} PlainRef(m: map<string, Value>, g: Grammar)
    requires Standard(g) && WellFormed(Obj(m), g) && !IsLocalRef(m) && "$ref" in m
    ensures DefsFree(m["$ref"]) && RefFree(m["$ref"])
  {
    assert WellFormedKeyword("$ref", m, g);
  }

  lemma {:induction false} SingleKeywordIff(
      v: Value, k: string, m: map<string, Value>, env: Env, expanding: set<string>, open: set<string>, g: Grammar)
    requires Standard(g) && WellFormedDefinitions(env.defs, g) && WellFormed(Obj(m), g)
    requires open <= expanding && !IsLocalRef(m)
    requires Resolve(Obj(m), env.defs, expanding).Ok?
    requires k in m && k in SINGLE_SCHEMAS
    ensures KeywordHolds(v, k, m, env, open)
       <==> KeywordHolds(v, k, Resolve(Obj(m), env.defs, expanding).value.members, Flat(env), {})
    decreases |env.defs.Keys - expanding|, m[k], 3
  {
    var r := Resolve(Obj(m), env.defs, expanding).value.members;
    assert WellFormedKeyword(k, m, g);
    if k == "not" {
      ResolvedValidIff(v, m[k], env, expanding, open, g);
      NotDecides(v, m, r, env, open);
    } else {
      SameContext(m, env, expanding, g);
      ElementsIff(v, m[k], r[k], env, expanding, g);
      if k == "items" {
        ItemsDecide(v, m, r, env, open);
      } else {
        AdditionalDecides(v, m, r, env, open);
      }
    }
  }

  ghost predicate ElementsAgree(v: Value, before: Value, after: Value, env: Env) {
    match v
    case Arr(items) =>
      forall i | 0 <= i < |items| :: Valid(items[i], before, env, {}) <==> Valid(items[i], after, Flat(env), {})
    case Obj(members) =>
      forall p | p in members :: Valid(members[p], before, env, {}) <==> Valid(members[p], after, Flat(env), {})
    case _ => true
  }

  lemma {:induction false} ElementsIff(
      v: Value, before: Value, after: Value, env: Env, expanding: set<string>, g: Grammar)
    requires Standard(g) && WellFormedDefinitions(env.defs, g) && WellFormed(before, g)
    requires Resolve(before, env.defs, expanding) == Ok(after)
    ensures ElementsAgree(v, before, after, env)
    decreases |env.defs.Keys - expanding|, before, 2
  {
    forall i | v.Arr? && 0 <= i < |v.items|
      ensures Valid(v.items[i], before, env, {}) <==> Valid(v.items[i], after, Flat(env), {})
    {
      ResolvedValidIff(v.items[i], before, env, expanding, {}, g);
    }
    forall p | v.Obj? && p in v.members
      ensures Valid(v.members[p], before, env, {}) <==> Valid(v.members[p], after, Flat(env), {})
    {
      ResolvedValidIff(v.members[p], before, env, expanding, {}, g);
    }
  }

  lemma {:induction false} NotDecides(
      v: Value, m: map<string, Value>, r: map<string, Value>, env: Env, open: set<string>)
    requires "not" in m && "not" in r && (Valid(v, m["not"], env, open) <==> Valid(v, r["not"], Flat(env), {}))
    ensures KeywordHolds(v, "not", m, env, open) <==> KeywordHolds(v, "not", r, Flat(env), {})
  {
  }

  lemma {:induction false} ItemsDecide(
      v: Value, m: map<string, Value>, r: map<string, Value>, env: Env, open: set<string>)
    requires "items" in m && "items" in r && PrefixLength(r) == PrefixLength(m)
    requires ElementsAgree(v, m["items"], r["items"], env)
    ensures KeywordHolds(v, "items", m, env, open) <==> KeywordHolds(v, "items", r, Flat(env), {})
  {
  }

  lemma {:induction false} AdditionalDecides(
      v: Value, m: map<string, Value>, r: map<string, Value>, env: Env, open: set<string>)
    requires "additionalProperties" in m && "additionalProperties" in r
    requires forall p :: NamedProperty(r, p, env.vocabulary) <==> NamedProperty(m, p, env.vocabulary)
    requires ElementsAgree(v, m["additionalProperties"], r["additionalProperties"], env)
    ensures KeywordHolds(v, "additionalProperties", m, env, open)
       <==> KeywordHolds(v, "additionalProperties", r, Flat(env), {})
  {
  }

  /** Nothing turns into a local reference when it was none: `$ref` here is plain data. */
  lemma {:induction false} RefStays(m: map<string, Value>, defs: map<string, Value>, expanding: set<string>)
    requires !IsLocalRef(m)
    requires Resolve(Obj(m), defs, expanding).Ok?
    requires "$ref" in m ==> DefsFree(m["$ref"]) && RefFree(m["$ref"])
    ensures !IsLocalRef(Resolve(Obj(m), defs, expanding).value.members)
  {
    if "$ref" in m {
      ResolveIdempotent(m["$ref"], defs, expanding);
    }
  }

  lemma {:induction false} SamePrefix(
      m: map<string, Value>, defs: map<string, Value>, expanding: set<string>, g: Grammar)
    requires Standard(g) && WellFormed(Obj(m), g) && !IsLocalRef(m)
    requires Resolve(Obj(m), defs, expanding).Ok?
    ensures PrefixLength(Resolve(Obj(m), defs, expanding).value.members) == PrefixLength(m)
  {
    ResolvedKeys(m, defs, expanding);
    if "prefixItems" in m {
      assert WellFormedKeyword("prefixItems", m, g);
      ResolvedList(m["prefixItems"], defs, expanding);
    }
  }

  lemma {:induction false} SameKeys(
      k: string, m: map<string, Value>, defs: map<string, Value>, expanding: set<string>, g: Grammar)
    requires Standard(g) && WellFormed(Obj(m), g) && !IsLocalRef(m)
    requires Resolve(Obj(m), defs, expanding).Ok? && k in MAPS_OF_SCHEMAS && k in m
    ensures var r := Resolve(Obj(m), defs, expanding).value.members;
      k in r && r[k].Obj? && m[k].Obj? && r[k].members.Keys == m[k].members.Keys
  {
    assert WellFormedKeyword(k, m, g);
    ResolvedMap(m[k], defs, expanding, g);
  }

  /** The keywords that decide what `items` and `additionalProperties` look at keep their extent. */
  lemma {:induction false} SameContext(m: map<string, Value>, env: Env, expanding: set<string>, g: Grammar)
    requires Standard(g) && WellFormed(Obj(m), g) && !IsLocalRef(m)
    requires Resolve(Obj(m), env.defs, expanding).Ok?
    ensures var r := Resolve(Obj(m), env.defs, expanding).value.members;
      PrefixLength(r) == PrefixLength(m)
      && forall p :: NamedProperty(r, p, env.vocabulary) <==> NamedProperty(m, p, env.vocabulary)
  {
    SamePrefix(m, env.defs, expanding, g);
    ResolvedKeys(m, env.defs, expanding);
    forall k | k in MAPS_OF_SCHEMAS && k in m
      ensures var r := Resolve(Obj(m), env.defs, expanding).value.members;
        k in r && r[k].Obj? && m[k].Obj? && r[k].members.Keys == m[k].members.Keys
    {
      SameKeys(k, m, env.defs, expanding, g);
    }
  }

  /** A map of schemas is never itself taken for a reference, so it keeps its keys. */
  lemma {:induction false} ResolvedMap(arg: Value, defs: map<string, Value>, expanding: set<string>, g: Grammar)
    requires arg.Obj? && "$defs" !in arg.members
    requires forall p | p in arg.members :: p in g.names && WellFormed(arg.members[p], g)
    requires Resolve(arg, defs, expanding).Ok?
    ensures !IsLocalRef(arg.members)
    ensures Resolve(arg, defs, expanding).value.Obj?
    ensures Resolve(arg, defs, expanding).value.members.Keys == arg.members.Keys
    ensures forall p | p in arg.members ::
      (Resolve(arg.members[p], defs, expanding).Ok?
       && Resolve(arg, defs, expanding).value.members[p] == Resolve(arg.members[p], defs, expanding).value)
  {
    if "$ref" in arg.members {
      assert WellFormed(arg.members["$ref"], g);
    }
  }

  lemma {:induction false} ResolvedList(arg: Value, defs: map<string, Value>, expanding: set<string>)
    requires arg.Arr? && Resolve(arg, defs, expanding).Ok?
    ensures Resolve(arg, defs, expanding).value.Arr?
    ensures |Resolve(arg, defs, expanding).value.items| == |arg.items|
    ensures forall i | 0 <= i < |arg.items| ::
      (Resolve(arg.items[i], defs, expanding).Ok?
       && Resolve(arg, defs, expanding).value.items[i] == Resolve(arg.items[i], defs, expanding).value)
  {
  }

  lemma {:induction false} ListKeywordIff(
      v: Value, k: string, m: map<string, Value>, env: Env, expanding: set<string>, open: set<string>, g: Grammar)
    requires Standard(g) && WellFormedDefinitions(env.defs, g) && WellFormed(Obj(m), g)
    requires open <= expanding && !IsLocalRef(m)
    requires Resolve(Obj(m), env.defs, expanding).Ok?
    requires k in m && k in LISTS_OF_SCHEMAS
    ensures KeywordHolds(v, k, m, env, open)
       <==> KeywordHolds(v, k, Resolve(Obj(m), env.defs, expanding).value.members, Flat(env), {})
    decreases |env.defs.Keys - expanding|, m[k], 3
  {
    var r := Resolve(Obj(m), env.defs, expanding).value.members;
    assert WellFormedKeyword(k, m, g);
    ResolvedList(m[k], env.defs, expanding);
    if k != "prefixItems" {
      SameVerdicts(v, m[k].items, r[k].items, env, expanding, open, g);
      CombinationDecides(v, k, m, r, env, open);
    } else {
      forall i | v.Arr? && 0 <= i < |m[k].items| && i < |v.items|
        ensures Valid(v.items[i], m[k].items[i], env, {}) <==> Valid(v.items[i], r[k].items[i], Flat(env), {})
      {
        ResolvedValidIff(v.items[i], m[k].items[i], env, expanding, {}, g);
      }
      PrefixDecides(v, m, r, env, open);
    }
  }

  lemma {:induction false} CombinationDecides(
      v: Value, k: string, m: map<string, Value>, r: map<string, Value>, env: Env, open: set<string>)
    requires k in COMBINATORS && k in m && k in r && m[k].Arr? && r[k].Arr?
    requires var xs, ys := m[k].items, r[k].items;
      seq(|xs|, i requires 0 <= i < |xs| => Valid(v, xs[i], env, open))
        == seq(|ys|, i requires 0 <= i < |ys| => Valid(v, ys[i], Flat(env), {}))
    ensures KeywordHolds(v, k, m, env, open) <==> KeywordHolds(v, k, r, Flat(env), {})
  {
  }

  lemma {:induction false} PrefixDecides(
      v: Value, m: map<string, Value>, r: map<string, Value>, env: Env, open: set<string>)
    requires "prefixItems" in m && "prefixItems" in r && m["prefixItems"].Arr? && r["prefixItems"].Arr?
    requires var xs, ys := m["prefixItems"].items, r["prefixItems"].items;
      |xs| == |ys| && forall i | v.Arr? && 0 <= i < |xs| && i < |v.items| ::
        Valid(v.items[i], xs[i], env, {}) <==> Valid(v.items[i], ys[i], Flat(env), {})
    ensures KeywordHolds(v, "prefixItems", m, env, open) <==> KeywordHolds(v, "prefixItems", r, Flat(env), {})
  {
  }

  lemma {:induction false} SameVerdicts(
      v: Value, xs: seq<Value>, ys: seq<Value>, env: Env, expanding: set<string>, open: set<string>, g: Grammar)
    requires Standard(g) && WellFormedDefinitions(env.defs, g) && open <= expanding && |xs| == |ys|
    requires forall i | 0 <= i < |xs| ::
      WellFormed(xs[i], g) && Resolve(xs[i], env.defs, expanding) == Ok(ys[i])
    ensures seq(|xs|, i requires 0 <= i < |xs| => Valid(v, xs[i], env, open))
         == seq(|ys|, i requires 0 <= i < |ys| => Valid(v, ys[i], Flat(env), {}))
    decreases |env.defs.Keys - expanding|, xs, 2
  {
    forall i | 0 <= i < |xs| ensures Valid(v, xs[i], env, open) <==> Valid(v, ys[i], Flat(env), {}) {
      ResolvedValidIff(v, xs[i], env, expanding, open, g);
    }
  }

  lemma {:induction false} MapKeywordIff(
      v: Value, k: string, m: map<string, Value>, env: Env, expanding: set<string>, open: set<string>, g: Grammar)
    requires Standard(g) && WellFormedDefinitions(env.defs, g) && WellFormed(Obj(m), g)
    requires open <= expanding && !IsLocalRef(m)
    requires Resolve(Obj(m), env.defs, expanding).Ok?
    requires k in m && k in MAPS_OF_SCHEMAS
    ensures KeywordHolds(v, k, m, env, open)
       <==> KeywordHolds(v, k, Resolve(Obj(m), env.defs, expanding).value.members, Flat(env), {})
    decreases |env.defs.Keys - expanding|, m[k], 3
  {
    var r := Resolve(Obj(m), env.defs, expanding).value.members;
    assert WellFormedKeyword(k, m, g);
    ResolvedMap(m[k], env.defs, expanding, g);
    var schemas := m[k].members;
    if v.Obj? {
      forall q, p | q in schemas && p in v.members
        ensures Valid(v.members[p], schemas[q], env, {}) <==> Valid(v.members[p], r[k].members[q], Flat(env), {})
      {
        ResolvedValidIff(v.members[p], schemas[q], env, expanding, {}, g);
      }
    }
  }

  /**
   * For every schema of the well-formed kind that inlining accepts, a value is valid for the schema with its
   * definitions exactly when it is valid for the inlined schema, which stands on its own.
   */
  lemma {:induction false} InliningPreservesMeaning(schema: Value, v: Value, vocabulary: Vocabulary, g: Grammar)
    requires Standard(g) && WellFormed(schema, g) && WellFormedDefinitions(Definitions(schema), g)
    requires Inline(schema).Ok?
    ensures Accepts(schema, v, vocabulary) <==> Accepts(Inline(schema).value, v, vocabulary)
    ensures DefsFree(Inline(schema).value) && RefFree(Inline(schema).value)
  {
    var env := Env(Definitions(schema), vocabulary);
    ResolvedValidIff(v, schema, env, {}, {}, g);
    ResolveRemovesDefs(schema, env.defs, {});
    assert NoDefinitionSpellsRef(env.defs);
    ResolveRemovesRefs(schema, env.defs, {});
    assert Definitions(Inline(schema).value) == map[];
  }

  /** An inlined schema is as well formed as the schema and the definitions it came from. */
  lemma {:induction false} ResolvedWellFormed(
      schema: Value, defs: map<string, Value>, expanding: set<string>, g: Grammar)
    requires Standard(g) && WellFormedDefinitions(defs, g) && WellFormed(schema, g)
    requires Resolve(schema, defs, expanding).Ok?
    ensures WellFormed(Resolve(schema, defs, expanding).value, g)
    decreases |defs.Keys - expanding|, schema
  {
    match schema
    case Bool(_) =>
    case Obj(m) =>
      if IsLocalRef(m) {
        var name := RefName(m);
        OpeningShrinks(defs, expanding, name);
        ResolvedWellFormed(defs[name], defs, expanding + {name}, g);
      } else {
        var r := Resolve(schema, defs, expanding).value.members;
        forall k | k in r ensures WellFormedKeyword(k, r, g) {
          assert WellFormedKeyword(k, m, g);
          if k in ANNOTATIONS {
          } else if k in LISTS_OF_SCHEMAS {
            forall i | 0 <= i < |m[k].items| ensures WellFormed(r[k].items[i], g) {
              ResolvedWellFormed(m[k].items[i], defs, expanding, g);
            }
          } else if k in SINGLE_SCHEMAS {
            ResolvedWellFormed(m[k], defs, expanding, g);
          } else if k in MAPS_OF_SCHEMAS {
            ResolvedMap(m[k], defs, expanding, g);
            forall p | p in m[k].members ensures WellFormed(r[k].members[p], g) {
              ResolvedWellFormed(m[k].members[p], defs, expanding, g);
            }
          } else {
            ResolveIdempotent(m[k], defs, expanding);
          }
        }
        if "$ref" in m {
          assert WellFormedKeyword("$ref", m, g);
        }
        RefStays(m, defs, expanding);
      }
  }
}
