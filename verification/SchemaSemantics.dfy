/**
 * What a schema means: which JSON values it accepts, after JSON Schema Core and Validation Draft 2020-12.
 * Keywords that hold subschemas are interpreted here; the remaining assertions (`minLength`, `pattern`,
 * `format`, ...), regular expressions and references to anything but a definition are supplied by an
 * arbitrary vocabulary.
 */
module SchemaSemantics {
  import opened JsonValues
  import opened SchemaInlining
  import opened SchemaPointers

  /** `pointer` decides for a local reference that does not end at a definition. */
  datatype Vocabulary = Vocabulary(
    other: (string, Value, Value) -> bool,
    matches: (string, string) -> bool,
    pointer: (string, Value) -> bool)

  datatype Env = Env(defs: map<string, Value>, vocabulary: Vocabulary)

  /** Keywords that never reject a value. Only the root's `$defs` can be reached by a local reference. */
  const ANNOTATIONS := {
    "$defs", "$comment", "title", "description", "default", "examples", "deprecated", "readOnly", "writeOnly"
  }

  ghost predicate HasType(v: Value, name: Value) {
    || (name == Str("null") && v.Null?)
    || (name == Str("boolean") && v.Bool?)
    || ((name == Str("integer") || name == Str("number")) && v.Num?)
    || (name == Str("string") && v.Str?)
    || (name == Str("array") && v.Arr?)
    || (name == Str("object") && v.Obj?)
  }

  ghost predicate Leaf(keyword: string, arg: Value, v: Value, vocabulary: Vocabulary) {
    if keyword == "type" then
      if arg.Arr? then exists t | t in arg.items :: HasType(v, t) else HasType(v, arg)
    else if keyword == "enum" then
      arg.Arr? && v in arg.items
    else if keyword == "const" then
      v == arg
    else if keyword == "required" then
      arg.Arr? && (v.Obj? ==> forall name | name in arg.items :: name.Str? && name.s in v.members)
    else
      vocabulary.other(keyword, arg, v)
  }

  /** How many leading array items `prefixItems` takes away from `items`. */
  function PrefixLength(m: map<string, Value>): nat {
    if "prefixItems" in m && m["prefixItems"].Arr? then |m["prefixItems"].items| else 0
  }

  /** A property that `additionalProperties` does not look at. */
  ghost predicate NamedProperty(m: map<string, Value>, p: string, vocabulary: Vocabulary) {
    || ("properties" in m && m["properties"].Obj? && p in m["properties"].members)
    || ("patternProperties" in m && m["patternProperties"].Obj?
        && exists q | q in m["patternProperties"].members :: vocabulary.matches(q, p))
  }

  const COMBINATORS := {"allOf", "anyOf", "oneOf"}

  /** What a list of schemas decides, given the verdict of each. */
  ghost predicate Combined(k: string, verdicts: seq<bool>) {
    if k == "allOf" then
      forall i | 0 <= i < |verdicts| :: verdicts[i]
    else if k == "anyOf" then
      exists i | 0 <= i < |verdicts| :: verdicts[i]
    else
      exists i | 0 <= i < |verdicts| :: verdicts[i] && forall j | 0 <= j < |verdicts| && j != i :: !verdicts[j]
  }

  /**
   * `open` holds the definitions entered since the last step into the value; coming back to one of them
   * would never reach an answer, and such a schema accepts nothing.
   */
  ghost predicate Valid(v: Value, schema: Value, env: Env, open: set<string>)
    decreases v, |env.defs.Keys - open|, schema, 1
  {
    match schema
    case Bool(b) => b
    case Obj(m) => forall k | k in m :: KeywordHolds(v, k, m, env, open)
    case _ => false
  }

  ghost predicate KeywordHolds(v: Value, k: string, m: map<string, Value>, env: Env, open: set<string>)
    requires k in m
    decreases v, |env.defs.Keys - open|, Obj(m), 0
  {
    var arg := m[k];
    if k == "$ref" && IsLocalRef(m) then
      var target := Decoded(RefName(m));
      if target.None? then
        env.vocabulary.pointer(RefName(m), v)
      else
        var name := target.value;
        name in env.defs && name !in open && (OpeningShrinks(env.defs, open, name);
        Valid(v, env.defs[name], env, open + {name}))
    else if k in ANNOTATIONS then
      true
    else if k in COMBINATORS then
      arg.Arr? && Combined(k, seq(|arg.items|, i requires 0 <= i < |arg.items| => Valid(v, arg.items[i], env, open)))
    else if k == "not" then
      !Valid(v, arg, env, open)
    else if k == "items" then
      v.Arr? ==> forall i | PrefixLength(m) <= i < |v.items| :: Valid(v.items[i], arg, env, {})
    else if k == "prefixItems" then
      arg.Arr? && (v.Arr? ==>
        forall i | 0 <= i < |v.items| && i < |arg.items| :: Valid(v.items[i], arg.items[i], env, {}))
    else if k == "properties" then
      arg.Obj? && (v.Obj? ==>
        forall p | p in arg.members && p in v.members :: Valid(v.members[p], arg.members[p], env, {}))
    else if k == "patternProperties" then
      arg.Obj? && (v.Obj? ==>
        forall q, p | q in arg.members && p in v.members && env.vocabulary.matches(q, p) ::
          Valid(v.members[p], arg.members[q], env, {}))
    else if k == "additionalProperties" then
      v.Obj? ==> forall p | p in v.members && !NamedProperty(m, p, env.vocabulary) ::
        Valid(v.members[p], arg, env, {})
    else
      Leaf(k, arg, v, env.vocabulary)
  }

  /** The values a complete schema accepts, with the definitions it carries. */
  ghost predicate Accepts(schema: Value, v: Value, vocabulary: Vocabulary) {
    Valid(v, schema, Env(Definitions(schema), vocabulary), {})
  }

  // ---------------------------------------------------------------- well-formed schemas

  const LISTS_OF_SCHEMAS := {"allOf", "anyOf", "oneOf", "prefixItems"}
  const SINGLE_SCHEMAS := {"not", "items", "additionalProperties"}
  const MAPS_OF_SCHEMAS := {"properties", "patternProperties"}

  /** JSON data that inlining leaves alone. */
  ghost predicate PlainData(v: Value) {
    DefsFree(v) && RefFree(v)
  }

  /**
   * A class of schemas: the keywords used at any level (annotations are always allowed), those that stand beside a
   * local reference, the names that local references spell, the names of properties and property patterns, and the
   * data under keywords that take no schema.
   */
  datatype Grammar = Grammar(
    keywords: iset<string>, siblings: iset<string>, refs: iset<string>, names: iset<string>, data: iset<Value>)

  /** The schemas inlining is meant for, apart from what keywords they use. */
  ghost predicate Standard(g: Grammar) {
    && (forall k | k in g.siblings :: k == "$ref" || k in ANNOTATIONS)
    && (forall name | name in g.refs :: PlainName(name))
    && "$defs" !in g.names
    && (forall v | v in g.data :: PlainData(v))
  }

  ghost predicate WellFormed(schema: Value, g: Grammar)
    decreases schema, 1
  {
    match schema
    case Bool(_) => true
    case Obj(m) =>
      if IsLocalRef(m) then
        RefName(m) in g.refs && forall k | k in m && k != "$ref" :: k in g.siblings && WellFormedKeyword(k, m, g)
      else
        forall k | k in m :: (k in g.keywords || k in ANNOTATIONS) && WellFormedKeyword(k, m, g)
    case _ => false
  }

  ghost predicate WellFormedKeyword(k: string, m: map<string, Value>, g: Grammar)
    requires k in m
    decreases Obj(m), 0
  {
    var arg := m[k];
    if k in ANNOTATIONS then
      true
    else if k in LISTS_OF_SCHEMAS then
      arg.Arr? && forall i | 0 <= i < |arg.items| :: WellFormed(arg.items[i], g)
    else if k in SINGLE_SCHEMAS then
      WellFormed(arg, g)
    else if k in MAPS_OF_SCHEMAS then
      arg.Obj? && forall p | p in arg.members :: p in g.names && WellFormed(arg.members[p], g)
    else
      arg in g.data
  }

  ghost predicate WellFormedDefinitions(defs: map<string, Value>, g: Grammar) {
    forall name | name in defs :: WellFormed(defs[name], g)
  }
}
