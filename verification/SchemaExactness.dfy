/**
 * The exact limits of the results about schemas, class by class: which keywords may stand beside a reference, which
 * definitions and properties may be named, which data may occur, and which keywords may be used, for inlining to preserve
 * meaning and for reduction only to relax.
 */
module SchemaExactness {
  import opened JsonValues
  import opened SchemaInlining
  import opened SchemaPointers
  import opened SchemaSemantics
  import opened InliningPreservation
  import opened SchemaReduction
  import opened SchemaLimits

  ghost predicate InGrammar(schema: Value, g: Grammar) {
    WellFormed(schema, g) && WellFormedDefinitions(Definitions(schema), g)
  }

  /** Inlining changes nothing about which values the schema accepts, whatever its other keywords mean. */
  ghost predicate Preserved(schema: Value) {
    Inline(schema).Ok? ==>
      forall v: Value, vocabulary: Vocabulary ::
        Accepts(schema, v, vocabulary) <==> Accepts(Inline(schema).value, v, vocabulary)
  }

  /** Whatever the schema accepts, its reduction accepts. */
  ghost predicate Relaxed(schema: Value) {
    Reduce(schema).Ok? ==>
      forall v: Value, vocabulary: Vocabulary ::
        Accepts(schema, v, vocabulary) ==> Accepts(Reduce(schema).value, v, vocabulary)
  }

  /** The schema and its reduction accept the same values. */
  ghost predicate ReducedExactly(schema: Value) {
    Reduce(schema).Ok? ==>
      forall v: Value, vocabulary: Vocabulary ::
        Accepts(schema, v, vocabulary) <==> Accepts(Reduce(schema).value, v, vocabulary)
  }

  // ---------------------------------------------------------------- a schema that rejects

  /** Every unknown keyword rejects, every pattern matches, no other reference leads anywhere. */
  function Deny(): Vocabulary {
    Vocabulary(
      (k: string, arg: Value, v: Value) => false, (q: string, p: string) => true, (name: string, v: Value) => false)
  }

  /** An argument with which a keyword that is no annotation rejects something. */
  function RejectingArg(k: string): Value {
    if k in {"allOf", "anyOf", "oneOf", "prefixItems"} then Arr([Bool(false)])
    else if k == "not" then Bool(true)
    else if k in {"items", "additionalProperties"} then Bool(false)
    else if k in {"properties", "patternProperties"} then Obj(map["p" := Bool(false)])
    else Null
  }

  function RejectedValue(k: string): Value {
    if k in {"items", "prefixItems"} then Arr([Bool(true)])
    else if k in {"properties", "patternProperties", "additionalProperties"} then Obj(map["p" := Bool(true)])
    else Bool(true)
  }

  /** Beside at most a reference, so that nothing else decides what the keyword looks at. */
  ghost predicate Alone(k: string, m: map<string, Value>) {
    k in m && m[k] == RejectingArg(k) && forall other | other in m :: other == k || other == "$ref"
  }

  lemma {:induction false} CombinatorRejects(k: string, m: map<string, Value>, env: Env, open: set<string>)
    requires k in COMBINATORS && Alone(k, m)
    ensures !KeywordHolds(RejectedValue(k), k, m, env, open)
  {
    var items := m[k].items;
    var verdicts := seq(|items|, i requires 0 <= i < |items| => Valid(Bool(true), items[i], env, open));
    assert |items| == 1 && items[0] == Bool(false);
    assert verdicts == [false] && !verdicts[0];
    assert !Combined(k, verdicts);
  }

  lemma {:induction false} ArrayKeywordRejects(k: string, m: map<string, Value>, env: Env, open: set<string>)
    requires k in {"items", "prefixItems"} && Alone(k, m)
    ensures !KeywordHolds(RejectedValue(k), k, m, env, open)
  {
    var v := RejectedValue(k);
    assert !Valid(v.items[0], Bool(false), env, {});
    assert k == "items" ==> "prefixItems" !in m;
    assert k == "prefixItems" ==> m[k].items[0] == Bool(false);
  }

  lemma {:induction false} ObjectKeywordRejects(k: string, m: map<string, Value>, env: Env, open: set<string>)
    requires k in {"properties", "patternProperties", "additionalProperties"} && Alone(k, m) && env.vocabulary == Deny()
    ensures !KeywordHolds(RejectedValue(k), k, m, env, open)
  {
    var v := RejectedValue(k);
    assert "p" in v.members && !Valid(v.members["p"], Bool(false), env, {});
    assert k != "additionalProperties" ==> "p" in m[k].members && m[k].members["p"] == Bool(false);
    assert k == "additionalProperties" ==> !NamedProperty(m, "p", env.vocabulary);
    assert env.vocabulary.matches("p", "p");
  }

  lemma {:induction false} KeywordRejects(k: string, m: map<string, Value>, env: Env, open: set<string>)
    requires k !in ANNOTATIONS && Alone(k, m) && env.vocabulary == Deny()
    ensures !KeywordHolds(RejectedValue(k), k, m, env, open)
  {
    if k in COMBINATORS {
      CombinatorRejects(k, m, env, open);
    } else if k in {"items", "prefixItems"} {
      ArrayKeywordRejects(k, m, env, open);
    } else if k in {"properties", "patternProperties", "additionalProperties"} {
      ObjectKeywordRejects(k, m, env, open);
    } else if k == "not" {
      assert Valid(Bool(true), Bool(true), env, open);
    }
  }

  // ---------------------------------------------------------------- keywords beside a reference

  ghost predicate Harmless(siblings: iset<string>) {
    forall k | k in siblings :: k == "$ref" || k in ANNOTATIONS
  }

  const NO_WORD: set<string> := {}

  ghost function AnyKeyword(): iset<string> {
    iset k: string | k !in NO_WORD
  }

  ghost function PlainNames(): iset<string> {
    iset name: string | PlainName(name)
  }

  ghost function AnyButDefs(): iset<string> {
    iset p: string | p !in NO_WORD + {"$defs"}
  }

  ghost function AllPlainData(): iset<Value> {
    iset v: Value | PlainData(v)
  }

  ghost function AnnotationsOnly(): iset<string> {
    iset k | k in ANNOTATIONS
  }

  ghost function WithSiblings(siblings: iset<string>): Grammar {
    Grammar(AnyKeyword(), siblings, PlainNames(), AnyButDefs(), AllPlainData())
  }

  lemma {:induction false} StandardIsPreserved(schema: Value, g: Grammar)
    requires Standard(g) && InGrammar(schema, g)
    ensures Preserved(schema)
  {
    if Inline(schema).Ok? {
      forall v: Value, vocabulary: Vocabulary
        ensures Accepts(schema, v, vocabulary) <==> Accepts(Inline(schema).value, v, vocabulary)
      {
        InliningPreservesMeaning(schema, v, vocabulary, g);
      }
    }
  }

  /** A reference to a definition that accepts everything, with one other keyword beside it. */
  function RefBeside(k: string): map<string, Value> {
    map["$ref" := Str(REF_PREFIX + "a"), k := RejectingArg(k)]
  }

  function BesideSchema(k: string): Value {
    Obj(map["$defs" := Obj(map["a" := Bool(true)]), "allOf" := Arr([Obj(RefBeside(k))])])
  }

  lemma {:induction false} RejectingArgIsPlain(k: string, m: map<string, Value>, g: Grammar)
    requires k in m && m[k] == RejectingArg(k) && "p" in g.names && Null in g.data
    ensures WellFormedKeyword(k, m, g)
  {
  }

  lemma {:induction false} RefBesideIsLocal(k: string)
    requires k != "$ref"
    ensures IsLocalRef(RefBeside(k)) && RefName(RefBeside(k)) == "a"
  {
    assert RefBeside(k)["$ref"].s[|REF_PREFIX|..] == "a";
  }

  lemma {:induction false} BesideInGrammar(k: string, g: Grammar)
    requires k != "$ref" && k in g.siblings && "a" in g.refs && "allOf" in g.keywords && "p" in g.names && Null in g.data
    ensures InGrammar(BesideSchema(k), g)
  {
    var inner, m := Obj(RefBeside(k)), BesideSchema(k).members;
    RefBesideIsLocal(k);
    RejectingArgIsPlain(k, RefBeside(k), g);
    assert WellFormed(inner, g);
    assert m["allOf"].items[0] == inner;
    assert WellFormedKeyword("allOf", m, g) && WellFormedKeyword("$defs", m, g);
    assert Definitions(BesideSchema(k)) == map["a" := Bool(true)];
  }

  lemma {:induction false} BesideInlines(k: string)
    requires k != "$ref"
    ensures Inline(BesideSchema(k)) == Ok(Obj(map["allOf" := Arr([Bool(true)])]))
  {
    var m, defs := BesideSchema(k).members, map["a" := Bool(true)];
    RefBesideIsLocal(k);
    assert Definitions(BesideSchema(k)) == defs;
    assert Resolve(Obj(RefBeside(k)), defs, {}) == Ok(Bool(true));
    assert Resolve(m["allOf"], defs, {}).value.items == [Bool(true)];
    assert Resolve(BesideSchema(k), defs, {}).value.members == map["allOf" := Arr([Bool(true)])];
  }

  /** The sibling rejects in the original; in the inlined schema it is gone. */
  lemma {:induction false} BesideIsNotPreserved(k: string)
    requires k != "$ref" && k !in ANNOTATIONS
    ensures !Preserved(BesideSchema(k))
  {
    var schema, v := BesideSchema(k), RejectedValue(k);
    var env := Env(Definitions(schema), Deny());
    BesideInlines(k);
    KeywordRejects(k, RefBeside(k), env, {});
    assert !Valid(v, Obj(RefBeside(k)), env, {});
    AllOfOne(v, schema.members, env);
    var inlined := Obj(map["allOf" := Arr([Bool(true)])]);
    AllOfTrue(v, inlined.members, Env(Definitions(inlined), Deny()));
    assert !Accepts(schema, v, Deny()) && Accepts(inlined, v, Deny());
  }

  lemma {:induction false} AllOfOne(v: Value, m: map<string, Value>, env: Env)
    requires "allOf" in m && m["allOf"].Arr? && |m["allOf"].items| == 1 && !Valid(v, m["allOf"].items[0], env, {})
    ensures !Valid(v, Obj(m), env, {})
  {
    var items := m["allOf"].items;
    var verdicts := seq(|items|, i requires 0 <= i < |items| => Valid(v, items[i], env, {}));
    assert !verdicts[0] && !Combined("allOf", verdicts);
    assert !KeywordHolds(v, "allOf", m, env, {});
  }

  lemma {:induction false} AllOfTrue(v: Value, m: map<string, Value>, env: Env)
    requires m == map["allOf" := Arr([Bool(true)])]
    ensures Valid(v, Obj(m), env, {})
  {
    assert Valid(v, m["allOf"].items[0], env, {});
    assert KeywordHolds(v, "allOf", m, env, {});
  }

  /**
   * Inlining preserves the meaning of every schema whose references have siblings from a given set, if and only if
   * the set holds annotations only.
   */
  lemma {:induction false} SiblingsPreservedIff(siblings: iset<string>)
    ensures (forall schema | InGrammar(schema, WithSiblings(siblings)) :: Preserved(schema)) <==> Harmless(siblings)
  {
    var g := WithSiblings(siblings);
    if Harmless(siblings) {
      forall schema | InGrammar(schema, g) ensures Preserved(schema) {
        StandardIsPreserved(schema, g);
      }
    } else {
      var k :| k in siblings && k != "$ref" && k !in ANNOTATIONS;
      BesideInGrammar(k, g);
      BesideIsNotPreserved(k);
    }
  }

  // ---------------------------------------------------------------- definition names

  ghost function WithRefs(refs: iset<string>): Grammar {
    Grammar(AnyKeyword(), AnnotationsOnly(), refs, AnyButDefs(), AllPlainData())
  }

  function RefTo(name: string): map<string, Value> {
    map["$ref" := Str("#/$defs/" + name)]
  }

  /** A definition that accepts everything, and a reference that spells its name without escapes. */
  function NamedSchema(name: string): Value {
    Obj(map["$defs" := Obj(map[name := Bool(true)]), "allOf" := Arr([Obj(RefTo(name))])])
  }

  lemma {:induction false} RefToIsLocal(name: string)
    ensures IsLocalRef(RefTo(name)) && RefName(RefTo(name)) == name
  {
    assert RefTo(name)["$ref"].s[|REF_PREFIX|..] == name;
  }

  lemma {:induction false} NamedInGrammar(name: string, g: Grammar)
    requires name in g.refs && "allOf" in g.keywords
    ensures InGrammar(NamedSchema(name), g)
  {
    var m := NamedSchema(name).members;
    RefToIsLocal(name);
    assert WellFormed(m["allOf"].items[0], g);
    assert WellFormedKeyword("allOf", m, g) && WellFormedKeyword("$defs", m, g);
    assert Definitions(NamedSchema(name)) == map[name := Bool(true)];
  }

  lemma {:induction false} NamedInlines(name: string)
    ensures Inline(NamedSchema(name)) == Ok(Obj(map["allOf" := Arr([Bool(true)])]))
  {
    var m, defs := NamedSchema(name).members, map[name := Bool(true)];
    RefToIsLocal(name);
    assert Definitions(NamedSchema(name)) == defs;
    assert Resolve(Obj(RefTo(name)), defs, {}) == Ok(Bool(true));
    assert Resolve(m["allOf"], defs, {}).value.items == [Bool(true)];
    assert Resolve(NamedSchema(name), defs, {}).value.members == map["allOf" := Arr([Bool(true)])];
  }

  /** Decoded, the reference names no definition; inlining takes the name as it is spelled. */
  lemma {:induction false} EscapedNameIsNotPreserved(name: string)
    requires !PlainName(name)
    ensures !Preserved(NamedSchema(name))
  {
    var schema, env := NamedSchema(name), Env(Definitions(NamedSchema(name)), Deny());
    NamedInlines(name);
    PlainNameIff(name);
    RefToIsLocal(name);
    assert env.defs == map[name := Bool(true)];
    assert !KeywordHolds(Null, "$ref", RefTo(name), env, {});
    AllOfOne(Null, schema.members, env);
    var inlined := Obj(map["allOf" := Arr([Bool(true)])]);
    AllOfTrue(Null, inlined.members, Env(Definitions(inlined), Deny()));
    assert !Accepts(schema, Null, Deny()) && Accepts(inlined, Null, Deny());
  }

  /**
   * Inlining preserves the meaning of every schema whose references spell names from a given set, if and only if no
   * escape plays a part in any of them.
   */
  lemma {:induction false} RefsPreservedIff(refs: iset<string>)
    ensures (forall schema | InGrammar(schema, WithRefs(refs)) :: Preserved(schema)) <==> forall name | name in refs ::
      PlainName(name)
  {
    var g := WithRefs(refs);
    if forall name | name in refs :: PlainName(name) {
      forall schema | InGrammar(schema, g) ensures Preserved(schema) {
        StandardIsPreserved(schema, g);
      }
    } else {
      var name :| name in refs && !PlainName(name);
      NamedInGrammar(name, g);
      EscapedNameIsNotPreserved(name);
    }
  }

  // ---------------------------------------------------------------- property names

  ghost function WithNames(names: iset<string>): Grammar {
    Grammar(AnyKeyword(), AnnotationsOnly(), PlainNames(), names, AllPlainData())
  }

  lemma {:induction false} DefsPropertyInGrammar(g: Grammar)
    requires "$defs" in g.names && "properties" in g.keywords
    ensures InGrammar(Obj(map["properties" := Obj(map["$defs" := Bool(false)])]), g)
  {
    var m := map["properties" := Obj(map["$defs" := Bool(false)])];
    assert WellFormed(m["properties"].members["$defs"], g);
    assert WellFormedKeyword("properties", m, g);
  }

  /**
   * Inlining preserves the meaning of every schema whose properties and patterns have names from a given set, if and
   * only if the set does not hold `$defs`.
   */
  lemma {:induction false} NamesPreservedIff(names: iset<string>)
    ensures (forall schema | InGrammar(schema, WithNames(names)) :: Preserved(schema)) <==> "$defs" !in names
  {
    var g := WithNames(names);
    if "$defs" !in names {
      forall schema | InGrammar(schema, g) ensures Preserved(schema) {
        StandardIsPreserved(schema, g);
      }
    } else {
      var schema := Obj(map["properties" := Obj(map["$defs" := Bool(false)])]);
      DefsPropertyInGrammar(g);
      PropertyNamedDefsIsLost(Null, Deny());
      assert !Preserved(schema);
    }
  }

  // ---------------------------------------------------------------- data that looks like schemas

  ghost function WithData(data: iset<Value>): Grammar {
    Grammar(AnyKeyword(), AnnotationsOnly(), PlainNames(), AnyButDefs(), data)
  }

  /** The definitions that data seems to refer to. */
  function RefNames(v: Value): set<string>
    decreases v
  {
    match v
    case Arr(items) => set i, name | 0 <= i < |items| && name in RefNames(items[i]) :: name
    case Obj(m) =>
      if IsLocalRef(m) then {RefName(m)} else set k, name | k in m && name in RefNames(m[k]) :: name
    case _ => {}
  }

  /** With every such definition in place the data is rewritten, unless it is plain. */
  lemma {:induction false} DataIsRewritten(v: Value, defs: map<string, Value>)
    requires forall name | name in RefNames(v) :: name in defs && defs[name] == Bool(true)
    ensures Resolve(v, defs, {}).Ok?
    ensures !PlainData(v) ==> Resolve(v, defs, {}).value != v
    decreases v
  {
    match v
    case Arr(items) =>
      forall i | 0 <= i < |items|
        ensures Resolve(items[i], defs, {}).Ok?
        ensures !PlainData(items[i]) ==> Resolve(items[i], defs, {}).value != items[i]
      {
        DataIsRewritten(items[i], defs);
      }
      if i :| 0 <= i < |items| && !PlainData(items[i]) {
        assert Resolve(v, defs, {}).value.items[i] != items[i];
      }
    case Obj(m) =>
      if IsLocalRef(m) {
        assert RefName(m) in RefNames(v);
      } else {
        forall k | k in m
          ensures Resolve(m[k], defs, {}).Ok?
          ensures !PlainData(m[k]) ==> Resolve(m[k], defs, {}).value != m[k]
        {
          DataIsRewritten(m[k], defs);
        }
        ObjectIsRewritten(m, defs);
      }
    case _ =>
  }

  lemma {:induction false} ObjectIsRewritten(m: map<string, Value>, defs: map<string, Value>)
    requires !IsLocalRef(m) && forall k | k in m :: Resolve(m[k], defs, {}).Ok?
    requires forall k | k in m && !PlainData(m[k]) :: Resolve(m[k], defs, {}).value != m[k]
    ensures Resolve(Obj(m), defs, {}).Ok?
    ensures !PlainData(Obj(m)) ==> Resolve(Obj(m), defs, {}).value != Obj(m)
  {
    var r := Resolve(Obj(m), defs, {}).value.members;
    if "$defs" in m {
      assert "$defs" !in r;
    } else if k :| k in m && !PlainData(m[k]) {
      assert r[k] != m[k];
    }
  }

  function ConstSchema(d: Value): Value {
    Obj(map["const" := d, "$defs" := Obj(map name | name in RefNames(d) :: Bool(true))])
  }

  lemma {:induction false} ConstResolves(m: map<string, Value>, d: Value, defs: map<string, Value>)
    requires m.Keys == {"const", "$defs"} && m["const"] == d && Resolve(d, defs, {}).Ok?
    ensures Resolve(Obj(m), defs, {}) == Ok(Obj(map["const" := Resolve(d, defs, {}).value]))
  {
    assert Resolve(Obj(m), defs, {}).value.members == map["const" := Resolve(d, defs, {}).value];
  }

  lemma {:induction false} ConstInlines(d: Value)
    ensures var rewritten := Resolve(d, Definitions(ConstSchema(d)), {});
      rewritten.Ok? && (!PlainData(d) ==> rewritten.value != d)
      && Inline(ConstSchema(d)) == Ok(Obj(map["const" := rewritten.value]))
  {
    var schema, defs := ConstSchema(d), Definitions(ConstSchema(d));
    DataIsRewritten(d, defs);
    ConstResolves(schema.members, d, defs);
  }

  /** The original accepts the very data it names; the inlined schema asks for what the data was rewritten to. */
  lemma {:induction false} RewrittenDataIsLost(d: Value)
    requires !PlainData(d)
    ensures !Preserved(ConstSchema(d))
  {
    ConstInlines(d);
    var schema, inlined := ConstSchema(d), Inline(ConstSchema(d)).value;
    ConstDecides(d, schema.members, Env(Definitions(schema), Deny()));
    ConstDecides(d, inlined.members, Env(Definitions(inlined), Deny()));
    assert Accepts(schema, d, Deny()) && !Accepts(inlined, d, Deny());
  }

  lemma {:induction false} ConstDecides(d: Value, m: map<string, Value>, env: Env)
    requires "const" in m && forall k | k in m :: k == "const" || k == "$defs"
    ensures Valid(d, Obj(m), env, {}) <==> d == m["const"]
  {
    assert KeywordHolds(d, "const", m, env, {}) <==> d == m["const"];
    assert "$defs" in m ==> KeywordHolds(d, "$defs", m, env, {});
  }

  lemma {:induction false} ConstInGrammar(d: Value, g: Grammar)
    requires d in g.data && "const" in g.keywords
    ensures InGrammar(ConstSchema(d), g)
  {
    var m := ConstSchema(d).members;
    assert WellFormedKeyword("const", m, g) && WellFormedKeyword("$defs", m, g);
  }

  /**
   * Inlining preserves the meaning of every schema whose data is from a given set, if and only if none of it holds a
   * `$defs` member or spells a reference.
   */
  lemma {:induction false} DataPreservedIff(data: iset<Value>)
    ensures (forall schema | InGrammar(schema, WithData(data)) :: Preserved(schema)) <==> forall d | d in data ::
      PlainData(d)
  {
    var g := WithData(data);
    if forall d | d in data :: PlainData(d) {
      forall schema | InGrammar(schema, g) ensures Preserved(schema) {
        StandardIsPreserved(schema, g);
      }
    } else {
      var d :| d in data && !PlainData(d);
      ConstInGrammar(d, g);
      RewrittenDataIsLost(d);
    }
  }

  // ---------------------------------------------------------------- keywords that reduction drops

  ghost function WithKeywords(keywords: iset<string>): Grammar {
    Grammar(keywords, AnnotationsOnly(), PlainNames(), AnyButDefs(), AllPlainData())
  }

  lemma {:induction false} Tightened(schema: Value, v: Value, vocabulary: Vocabulary)
    requires Reduce(schema).Ok? && Accepts(schema, v, vocabulary) && !Accepts(Reduce(schema).value, v, vocabulary)
    ensures !Relaxed(schema)
  {
  }

  function PrefixSchema(): map<string, Value> {
    map["prefixItems" := Arr([Bool(true)]), "items" := Bool(false)]
  }

  lemma {:induction false} PrefixInGrammar(g: Grammar)
    requires "prefixItems" in g.keywords && "items" in g.keywords
    ensures InGrammar(Obj(PrefixSchema()), g)
  {
    assert WellFormedKeyword("prefixItems", PrefixSchema(), g) && WellFormedKeyword("items", PrefixSchema(), g);
  }

  lemma {:induction false} PrefixNotRelaxed()
    ensures !Relaxed(Obj(PrefixSchema()))
  {
    PrefixItemsCanTighten(Null, true, false, Deny());
    Tightened(Obj(PrefixSchema()), Arr([Null]), Deny());
  }

  lemma {:induction false} PatternInGrammar(g: Grammar)
    requires "patternProperties" in g.keywords && "additionalProperties" in g.keywords && "p" in g.names
    ensures InGrammar(Obj(AllowMatching("p")), g)
  {
    var m := AllowMatching("p");
    assert WellFormedKeyword("patternProperties", m, g) && WellFormedKeyword("additionalProperties", m, g);
  }

  lemma {:induction false} PatternNotRelaxed()
    ensures !Relaxed(Obj(AllowMatching("p")))
  {
    PatternPropertiesCanTighten("p", "p", Null, Deny());
    Tightened(Obj(AllowMatching("p")), Obj(map["p" := Null]), Deny());
  }

  function LosingSchema(k: string): Value {
    Obj(map["oneOf" := Arr([Obj(map[k := RejectingArg(k)]), Obj(map[])])])
  }

  lemma {:induction false} AlternativesDiffer(k: string)
    requires k !in ANNOTATIONS
    ensures !Accepts(Obj(map[k := RejectingArg(k)]), RejectedValue(k), Deny())
    ensures Accepts(Obj(map[]), RejectedValue(k), Deny())
  {
    var a, env := Obj(map[k := RejectingArg(k)]), Env(map[], Deny());
    assert Definitions(a) == map[] && Definitions(Obj(map[])) == map[];
    KeywordRejects(k, a.members, env, {});
    OneKeyword(RejectedValue(k), k, RejectingArg(k), env);
  }

  /** One alternative loses the assertion by which it rejected a value; then two alternatives accept it. */
  lemma {:induction false} OneOfNotRelaxed(k: string)
    requires k !in SUPPORTED && k !in ANNOTATIONS
    ensures !Relaxed(LosingSchema(k))
  {
    DroppedKeyword(k);
    AlternativesDiffer(k);
    OneOfCanTighten(Obj(map[k := RejectingArg(k)]), Obj(map[]), RejectedValue(k), Deny());
    Tightened(LosingSchema(k), RejectedValue(k), Deny());
  }

  lemma {:induction false} RejectingArgIsData(k: string)
    ensures PlainData(RejectingArg(k))
  {
  }

  lemma {:induction false} DroppedKeyword(k: string)
    requires k !in SUPPORTED && k !in ANNOTATIONS
    ensures PlainData(Obj(map[k := RejectingArg(k)])) && Clean(Obj(map[k := RejectingArg(k)])) == Ok(Obj(map[]))
    ensures Clean(Obj(map[])) == Ok(Obj(map[]))
  {
    RejectingArgIsData(k);
    assert Clean(Obj(map[k := RejectingArg(k)])).value.members == map[];
    assert Clean(Obj(map[])).value.members == map[];
  }

  lemma {:induction false} OneOfInGrammar(k: string, g: Grammar)
    requires "oneOf" in g.keywords && k in g.keywords && k !in ANNOTATIONS && "p" in g.names && Null in g.data
    ensures InGrammar(LosingSchema(k), g)
  {
    var a, b := Obj(map[k := RejectingArg(k)]), Obj(map[]);
    var m := map["oneOf" := Arr([a, b])];
    RejectingArgIsPlain(k, a.members, g);
    assert WellFormed(a, g) && WellFormed(b, g);
    assert WellFormedKeyword("oneOf", m, g);
  }

  /**
   * Reduction relaxes every schema over a given set of keywords if and only if the set is relaxable: it does not hold
   * `prefixItems` with `items`, nor `patternProperties` with `additionalProperties`, nor `oneOf` with any assertion
   * that is dropped.
   */
  lemma {:induction false} KeywordsRelaxedIff(keywords: iset<string>)
    ensures (forall schema | InGrammar(schema, WithKeywords(keywords)) :: Relaxed(schema)) <==> Relaxable(keywords)
  {
    var g := WithKeywords(keywords);
    if Relaxable(keywords) {
      forall schema | InGrammar(schema, g) ensures Relaxed(schema) {
        RelaxableIsRelaxed(schema, g);
      }
    } else if "prefixItems" in keywords && "items" in keywords {
      PrefixInGrammar(g);
      PrefixNotRelaxed();
    } else if "patternProperties" in keywords && "additionalProperties" in keywords {
      PatternInGrammar(g);
      PatternNotRelaxed();
    } else {
      var k :| k in keywords && k !in SUPPORTED && k !in ANNOTATIONS;
      OneOfInGrammar(k, g);
      OneOfNotRelaxed(k);
    }
  }

  lemma {:induction false} RelaxableIsRelaxed(schema: Value, g: Grammar)
    requires Standard(g) && Relaxable(g.keywords) && InGrammar(schema, g)
    ensures Relaxed(schema)
  {
    if Reduce(schema).Ok? {
      forall v: Value, vocabulary: Vocabulary
        ensures Accepts(schema, v, vocabulary) ==> Accepts(Reduce(schema).value, v, vocabulary)
      {
        ReductionRelaxes(schema, v, vocabulary, g);
      }
    }
  }

  // ---------------------------------------------------------------- keywords that reduction keeps

  /** The eight keywords that the provider is sent. */
  predicate SentToProvider(k: string) {
    k == "type" || k == "enum" || k == "items" || k == "anyOf" || k == "oneOf" || k == "properties"
    || k == "additionalProperties" || k == "required"
  }

  lemma {:induction false} KeptIsExact(schema: Value, g: Grammar)
    requires Standard(g) && InGrammar(schema, g)
    requires forall k | k in g.keywords :: k in ANNOTATIONS || SentToProvider(k)
    ensures ReducedExactly(schema)
  {
    if Reduce(schema).Ok? {
      var inlined := Inline(schema).value;
      InliningPreservesMeaning(schema, Null, Deny(), g);
      ResolvedWellFormed(schema, Definitions(schema), {}, g);
      UsesSupportedIsLossless(inlined, g);
      forall v: Value, vocabulary: Vocabulary
        ensures Accepts(schema, v, vocabulary) <==> Accepts(Reduce(schema).value, v, vocabulary)
      {
        ReductionExactWhenLossless(schema, v, vocabulary, g);
      }
    }
  }

  function Lone(k: string): Value {
    Obj(map[k := RejectingArg(k)])
  }

  lemma {:induction false} LoneIsReduced(k: string)
    requires k !in ANNOTATIONS && !SentToProvider(k)
    ensures Reduce(Lone(k)) == Ok(Obj(map[])) && !ReducedExactly(Lone(k))
  {
    DroppedKeyword(k);
    assert Definitions(Lone(k)) == map[];
    ResolveIdempotent(Lone(k), map[], {});
    AlternativesDiffer(k);
  }

  lemma {:induction false} LoneInGrammar(k: string, g: Grammar)
    requires k in g.keywords && k !in ANNOTATIONS && "p" in g.names && Null in g.data
    ensures InGrammar(Lone(k), g)
  {
    RejectingArgIsPlain(k, Lone(k).members, g);
    assert Definitions(Lone(k)) == map[];
  }

  /**
   * Reduction is exact for every schema over a given set of keywords if and only if the set holds nothing but
   * annotations and the eight keywords that are sent.
   */
  lemma {:induction false} KeywordsKeptIff(keywords: iset<string>)
    ensures (forall schema | InGrammar(schema, WithKeywords(keywords)) :: ReducedExactly(schema))
       <==> forall k | k in keywords :: k in ANNOTATIONS || SentToProvider(k)
  {
    var g := WithKeywords(keywords);
    if forall k | k in keywords :: k in ANNOTATIONS || SentToProvider(k) {
      forall schema | InGrammar(schema, g) ensures ReducedExactly(schema) {
        KeptIsExact(schema, g);
      }
    } else {
      var k :| k in keywords && k !in ANNOTATIONS && !SentToProvider(k);
      LoneInGrammar(k, g);
      LoneIsReduced(k);
    }
  }
}
