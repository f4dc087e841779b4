/** `_inline_schema_refs`: every local reference is replaced by the definition it names. */
module SchemaInlining {
  import opened JsonValues

  const REF_PREFIX := "#/$defs/"

  /** `Err` stands for every way the compiler raises: an unknown name, a cyclic expansion, a non-dict schema. */
  datatype Result = Ok(value: Value) | Err

  predicate IsLocalRef(m: map<string, Value>) {
    "$ref" in m && m["$ref"].Str? && REF_PREFIX <= m["$ref"].s
  }

  function RefName(m: map<string, Value>): string
    requires IsLocalRef(m)
  {
    m["$ref"].s[|REF_PREFIX|..]
  }

  /**
   * The nested `resolve`. `open` holds the definitions being expanded: meeting one of them again is the
   * unbounded recursion that Python reports as a RecursionError.
   */
  function Resolve(v: Value, defs: map<string, Value>, open: set<string>): Result
    decreases |defs.Keys - open|, v
  {
    match v
    case Arr(items) =>
      if forall i | 0 <= i < |items| :: Resolve(items[i], defs, open).Ok? then
        Ok(Arr(seq(|items|, i requires 0 <= i < |items| && Resolve(items[i], defs, open).Ok? =>
          Resolve(items[i], defs, open).value)))
      else
        Err
    case Obj(m) =>
      if IsLocalRef(m) then
        var name := RefName(m);
        if name in defs && name !in open then
          OpeningShrinks(defs, open, name);
          Resolve(defs[name], defs, open + {name})
        else
          Err
      else if forall k | k in m && k != "$defs" :: Resolve(m[k], defs, open).Ok? then
        Ok(Obj(map k | k in m && k != "$defs" :: Resolve(m[k], defs, open).value))
      else
        Err
    case _ => Ok(v)
  }

  /** The definitions a schema carries; anything but a dict defines no name. */
  function Definitions(schema: Value): map<string, Value> {
    if schema.Obj? && "$defs" in schema.members && schema.members["$defs"].Obj? then
      schema.members["$defs"].members
    else
      map[]
  }

  function Inline(schema: Value): Result {
    if schema.Obj? then Resolve(schema, Definitions(schema), {}) else Err
  }

  lemma {:induction false} SubsetSize<T>(a: set<T>, b: set<T>)
    requires a < b
    ensures |a| < |b|
  {
    assert b == a + (b - a);
  }

  // ---------------------------------------------------------------- what inlining leaves behind

  ghost predicate DefsFree(v: Value)
    decreases v
  {
    match v
    case Arr(items) => forall i | 0 <= i < |items| :: DefsFree(items[i])
    case Obj(m) => "$defs" !in m && forall k | k in m :: DefsFree(m[k])
    case _ => true
  }

  ghost predicate RefFree(v: Value)
    decreases v
  {
    match v
    case Arr(items) => forall i | 0 <= i < |items| :: RefFree(items[i])
    case Obj(m) => !IsLocalRef(m) && forall k | k in m :: RefFree(m[k])
    case _ => true
  }

  /** A definition that is not a schema at all but a string spelling a local reference. */
  predicate SpellsRef(v: Value) {
    v.Str? && REF_PREFIX <= v.s
  }

  ghost predicate NoDefinitionSpellsRef(defs: map<string, Value>) {
    forall name | name in defs :: !SpellsRef(defs[name])
  }

  lemma {:induction false} ResolveRemovesDefs(v: Value, defs: map<string, Value>, open: set<string>)
    requires Resolve(v, defs, open).Ok?
    ensures DefsFree(Resolve(v, defs, open).value)
    decreases |defs.Keys - open|, v
  {
    match v
    case Arr(items) =>
      forall i | 0 <= i < |items| ensures DefsFree(Resolve(items[i], defs, open).value) {
        ResolveRemovesDefs(items[i], defs, open);
      }
    case Obj(m) =>
      if IsLocalRef(m) {
        var name := RefName(m);
        OpeningShrinks(defs, open, name);
        ResolveRemovesDefs(defs[name], defs, open + {name});
      } else {
        forall k | k in m && k != "$defs" ensures DefsFree(Resolve(m[k], defs, open).value) {
          ResolveRemovesDefs(m[k], defs, open);
        }
      }
    case _ =>
  }

  lemma {:induction false} ResolveSpellsNoRef(v: Value, defs: map<string, Value>, open: set<string>)
    requires NoDefinitionSpellsRef(defs) && !SpellsRef(v)
    requires Resolve(v, defs, open).Ok?
    ensures !SpellsRef(Resolve(v, defs, open).value)
    decreases |defs.Keys - open|
  {
    if v.Obj? && IsLocalRef(v.members) {
      var name := RefName(v.members);
      OpeningShrinks(defs, open, name);
      ResolveSpellsNoRef(defs[name], defs, open + {name});
    }
  }

  lemma {:induction false} ResolveRemovesRefs(v: Value, defs: map<string, Value>, open: set<string>)
    requires NoDefinitionSpellsRef(defs)
    requires Resolve(v, defs, open).Ok?
    ensures RefFree(Resolve(v, defs, open).value)
    decreases |defs.Keys - open|, v
  {
    match v
    case Arr(items) =>
      forall i | 0 <= i < |items| ensures RefFree(Resolve(items[i], defs, open).value) {
        ResolveRemovesRefs(items[i], defs, open);
      }
    case Obj(m) =>
      if IsLocalRef(m) {
        var name := RefName(m);
        OpeningShrinks(defs, open, name);
        ResolveRemovesRefs(defs[name], defs, open + {name});
      } else {
        forall k | k in m && k != "$defs" ensures RefFree(Resolve(m[k], defs, open).value) {
          ResolveRemovesRefs(m[k], defs, open);
        }
        if "$ref" in m {
          ResolveSpellsNoRef(m["$ref"], defs, open);
        }
      }
    case _ =>
  }

  /**
   * Exactly when inlining removes every local reference: given the definitions, it does so for all inputs
   * if and only if none of the definitions is a bare string that spells a reference.
   */
  lemma {:induction false} OutputHasNoRefIff(defs: map<string, Value>)
    ensures (forall v :: Resolve(v, defs, {}).Ok? ==> RefFree(Resolve(v, defs, {}).value))
       <==> NoDefinitionSpellsRef(defs)
  {
    if NoDefinitionSpellsRef(defs) {
      forall v | Resolve(v, defs, {}).Ok? ensures RefFree(Resolve(v, defs, {}).value) {
        ResolveRemovesRefs(v, defs, {});
      }
    } else {
      var name :| name in defs && SpellsRef(defs[name]);
      var ref := Obj(map["$ref" := Str(REF_PREFIX + name)]);
      assert RefName(ref.members) == name;
      assert Resolve(ref, defs, {}) == Ok(defs[name]);
      var v := Obj(map["$ref" := ref]);
      assert v.members["$ref"] == ref && !IsLocalRef(v.members);
      assert Resolve(v, defs, {}).value.members["$ref"] == defs[name];
    }
  }

  /** Inlining something already inlined changes nothing, whatever definitions are in scope. */
  lemma {:induction false} ResolveIdempotent(v: Value, defs: map<string, Value>, open: set<string>)
    requires DefsFree(v) && RefFree(v)
    ensures Resolve(v, defs, open) == Ok(v)
    decreases v
  {
    match v
    case Arr(items) =>
      forall i | 0 <= i < |items| ensures Resolve(items[i], defs, open) == Ok(items[i]) {
        ResolveIdempotent(items[i], defs, open);
      }
      assert Resolve(v, defs, open).value.items == items;
    case Obj(m) =>
      forall k | k in m ensures Resolve(m[k], defs, open) == Ok(m[k]) {
        ResolveIdempotent(m[k], defs, open);
      }
      assert Resolve(v, defs, open).value.members == m;
    case _ =>
  }

  /** Inlining a part of an inlined schema again either leaves it as it is or raises. */
  lemma {:induction false} ReinlineUnchangedOrErr(v: Value)
    requires DefsFree(v)
    ensures Resolve(v, map[], {}) == Err || Resolve(v, map[], {}) == Ok(v)
    decreases v
  {
    match v
    case Arr(items) =>
      forall i | 0 <= i < |items| && Resolve(items[i], map[], {}).Ok?
        ensures Resolve(items[i], map[], {}) == Ok(items[i])
      {
        ReinlineUnchangedOrErr(items[i]);
      }
      if Resolve(v, map[], {}).Ok? {
        assert Resolve(v, map[], {}).value.items == items;
      }
    case Obj(m) =>
      forall k | k in m && Resolve(m[k], map[], {}).Ok? ensures Resolve(m[k], map[], {}) == Ok(m[k]) {
        ReinlineUnchangedOrErr(m[k]);
      }
      if Resolve(v, map[], {}).Ok? {
        assert Resolve(v, map[], {}).value.members == m;
      }
    case _ =>
  }

  lemma {:induction false} OpeningShrinks(defs: map<string, Value>, open: set<string>, name: string)
    requires name in defs && name !in open
    ensures |defs.Keys - (open + {name})| < |defs.Keys - open|
  {
    assert name in defs.Keys - open;
    SubsetSize(defs.Keys - (open + {name}), defs.Keys - open);
  }

  // ---------------------------------------------------------------- when inlining succeeds

  /** Every reference that expansion meets inside `v` names a definition of rank below `bound`. */
  ghost predicate RefsBelow(v: Value, rank: map<string, nat>, bound: nat)
    decreases v
  {
    match v
    case Arr(items) => forall i | 0 <= i < |items| :: RefsBelow(items[i], rank, bound)
    case Obj(m) =>
      if IsLocalRef(m) then RefName(m) in rank && rank[RefName(m)] < bound
      else forall k | k in m && k != "$defs" :: RefsBelow(m[k], rank, bound)
    case _ => true
  }

  /** The definitions refer to known definitions only, and never in a circle. */
  ghost predicate Acyclic(defs: map<string, Value>, rank: map<string, nat>) {
    rank.Keys == defs.Keys && forall name | name in defs :: RefsBelow(defs[name], rank, rank[name])
  }

  lemma {:induction false} RankedResolves(
      v: Value, defs: map<string, Value>, open: set<string>, rank: map<string, nat>, bound: nat)
    requires Acyclic(defs, rank) && RefsBelow(v, rank, bound)
    requires forall name | name in open && name in rank :: bound <= rank[name]
    ensures Resolve(v, defs, open).Ok?
    decreases bound, v
  {
    match v
    case Arr(items) =>
      forall i | 0 <= i < |items| ensures Resolve(items[i], defs, open).Ok? {
        RankedResolves(items[i], defs, open, rank, bound);
      }
    case Obj(m) =>
      if IsLocalRef(m) {
        var name := RefName(m);
        RankedResolves(defs[name], defs, open + {name}, rank, rank[name]);
      } else {
        forall k | k in m && k != "$defs" ensures Resolve(m[k], defs, open).Ok? {
          RankedResolves(m[k], defs, open, rank, bound);
        }
      }
    case _ =>
  }

  /** The definitions that expanding `v` goes through. */
  ghost function Visits(v: Value, defs: map<string, Value>, open: set<string>): (r: set<string>)
    requires Resolve(v, defs, open).Ok?
    ensures r <= defs.Keys - open
    decreases |defs.Keys - open|, v
  {
    match v
    case Arr(items) => set x | x in defs.Keys && exists i | 0 <= i < |items| :: x in Visits(items[i], defs, open)
    case Obj(m) =>
      if IsLocalRef(m) then
        var name := RefName(m);
        OpeningShrinks(defs, open, name);
        Visits(defs[name], defs, open + {name}) + {name}
      else
        set x | x in defs.Keys && exists k | k in m && k != "$defs" :: x in Visits(m[k], defs, open)
    case _ => {}
  }

  /** The part expands alike with fewer definitions open. */
  ghost predicate SameExpansion(v: Value, defs: map<string, Value>, open: set<string>, fewer: set<string>)
    requires Resolve(v, defs, open).Ok?
  {
    Resolve(v, defs, fewer).Ok? && Visits(v, defs, fewer) == Visits(v, defs, open)
  }

  lemma {:induction false} SameItems(items: seq<Value>, defs: map<string, Value>, open: set<string>, fewer: set<string>)
    requires Resolve(Arr(items), defs, open).Ok?
    requires forall i | 0 <= i < |items| :: SameExpansion(items[i], defs, open, fewer)
    ensures SameExpansion(Arr(items), defs, open, fewer)
  {
  }

  lemma {:induction false} SameMembers(
      m: map<string, Value>, defs: map<string, Value>, open: set<string>, fewer: set<string>)
    requires Resolve(Obj(m), defs, open).Ok? && !IsLocalRef(m)
    requires forall k | k in m && k != "$defs" :: SameExpansion(m[k], defs, open, fewer)
    ensures SameExpansion(Obj(m), defs, open, fewer)
  {
  }

  /** Closing some definitions again changes neither the outcome nor the definitions visited. */
  lemma {:induction false} ResolveFromFewerOpen(
      v: Value, defs: map<string, Value>, open: set<string>, fewer: set<string>)
    requires Resolve(v, defs, open).Ok? && fewer <= open
    ensures SameExpansion(v, defs, open, fewer)
    decreases |defs.Keys - open|, v
  {
    match v
    case Arr(items) =>
      forall i | 0 <= i < |items| ensures SameExpansion(items[i], defs, open, fewer) {
        ResolveFromFewerOpen(items[i], defs, open, fewer);
      }
      SameItems(items, defs, open, fewer);
    case Obj(m) =>
      if IsLocalRef(m) {
        var name := RefName(m);
        OpeningShrinks(defs, open, name);
        ResolveFromFewerOpen(defs[name], defs, open + {name}, fewer + {name});
      } else {
        forall k | k in m && k != "$defs" ensures SameExpansion(m[k], defs, open, fewer) {
          ResolveFromFewerOpen(m[k], defs, open, fewer);
        }
        SameMembers(m, defs, open, fewer);
      }
    case _ =>
  }

  ghost predicate AllDefinitionsResolve(defs: map<string, Value>) {
    forall name | name in defs :: Resolve(defs[name], defs, {name}).Ok?
  }

  ghost function VisitRank(defs: map<string, Value>): (rank: map<string, nat>)
    requires AllDefinitionsResolve(defs)
  {
    map name | name in defs :: |Visits(defs[name], defs, {name})|
  }

  lemma {:induction false} VisitedRefsRankLower(v: Value, defs: map<string, Value>, owner: string)
    requires AllDefinitionsResolve(defs) && owner in defs
    requires Resolve(v, defs, {owner}).Ok?
    requires Visits(v, defs, {owner}) <= Visits(defs[owner], defs, {owner})
    ensures RefsBelow(v, VisitRank(defs), VisitRank(defs)[owner])
    decreases v
  {
    match v
    case Arr(items) =>
      forall i | 0 <= i < |items| ensures RefsBelow(items[i], VisitRank(defs), VisitRank(defs)[owner]) {
        assert Visits(items[i], defs, {owner}) <= Visits(v, defs, {owner});
        VisitedRefsRankLower(items[i], defs, owner);
      }
    case Obj(m) =>
      if IsLocalRef(m) {
        var name := RefName(m);
        ResolveFromFewerOpen(defs[name], defs, {owner} + {name}, {name});
        SubsetSize(Visits(defs[name], defs, {name}), Visits(defs[owner], defs, {owner}));
      } else {
        forall k | k in m && k != "$defs" ensures RefsBelow(m[k], VisitRank(defs), VisitRank(defs)[owner]) {
          assert Visits(m[k], defs, {owner}) <= Visits(v, defs, {owner});
          VisitedRefsRankLower(m[k], defs, owner);
        }
      }
    case _ =>
  }

  /** Every definition can be expanded if and only if the definitions are acyclic and name only each other. */
  lemma {:induction false} ExpansionTerminatesIff(defs: map<string, Value>)
    ensures AllDefinitionsResolve(defs) <==> exists rank :: Acyclic(defs, rank)
  {
    if AllDefinitionsResolve(defs) {
      forall name | name in defs ensures RefsBelow(defs[name], VisitRank(defs), VisitRank(defs)[name]) {
        VisitedRefsRankLower(defs[name], defs, name);
      }
      assert Acyclic(defs, VisitRank(defs));
    }
    if rank :| Acyclic(defs, rank) {
      forall name | name in defs ensures Resolve(defs[name], defs, {name}).Ok? {
        RankedResolves(defs[name], defs, {name}, rank, rank[name]);
      }
    }
  }

  /** A schema over acyclic definitions whose own references are all known is always inlined. */
  lemma {:induction false} AcyclicSchemaInlines(schema: Value, rank: map<string, nat>, bound: nat)
    requires schema.Obj?
    requires Acyclic(Definitions(schema), rank) && RefsBelow(schema, rank, bound)
    ensures Inline(schema).Ok?
  {
    RankedResolves(schema, Definitions(schema), {}, rank, bound);
  }
}
