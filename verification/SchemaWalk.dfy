/** The two depth-bounded walks over a schema that may refer to itself. */
module SchemaWalk {
  import opened Json

  /** A schema object; `other` says that it has keywords beside the ones read here. */
  datatype Schema = Schema(
    ref: Option<string>,
    properties: map<string, Schema>,
    required: seq<string>,
    allOf: seq<Schema>,
    anyOf: seq<Schema>,
    oneOf: seq<Schema>,
    ty: string,
    readOnly: Option<bool>,
    nullable: Option<bool>,
    description: string,
    other: bool
  )

  const NO_SCHEMA := Schema(None, map[], [], [], [], [], "", None, None, "", false)

  type Components = map<string, Schema>

  const SCHEMAS := "#/components/schemas/"

  const MAX_DEPTH := 8

  /** The part after the last slash. */
  function LastSegment(s: string): string {
    if s == "" then ""
    else if s[|s| - 1] == '/' then ""
    else LastSegment(s[..|s| - 1]) + [s[|s| - 1]]
  }

  /** Follows one reference; a reference to a missing component gives the empty schema. */
  function Resolve(components: Components, schema: Schema): Schema {
    if schema.ref.Some? && SCHEMAS <= schema.ref.value then
      var name := LastSegment(schema.ref.value);
      if name in components then components[name] else NO_SCHEMA
    else schema
  }

  lemma {:induction false} SegmentAfterSlash(prefix: string, name: string)
    requires '/' !in name && prefix != "" && prefix[|prefix| - 1] == '/'
    ensures LastSegment(prefix + name) == name
    decreases |name|
  {
    if name == "" {
      assert prefix + name == prefix;
    } else {
      var n := |name| - 1;
      assert (prefix + name)[..|prefix| + n] == prefix + name[..n];
      SegmentAfterSlash(prefix, name[..n]);
    }
  }

  /**
   A reference names a component by what comes after its last slash, and is followed once: what
   it leads to may be a reference again. Anything else stands for itself.
   */
  lemma ReferencesAreFollowed(components: Components, schema: Schema, between: string, name: string)
    requires '/' !in name && (between == "" || between[|between| - 1] == '/')
    ensures schema.ref == Some("#/components/schemas/" + between + name) ==>
              Resolve(components, schema) ==
              if name in components then components[name]
              else Schema(None, map[], [], [], [], [], "", None, None, "", false)
    ensures schema.ref == None || !("#/components/schemas/" <= schema.ref.value) ==>
              Resolve(components, schema) == schema
  {
    var prefix := "#/components/schemas/" + between;
    assert prefix[|prefix| - 1] == '/';
    SegmentAfterSlash(prefix, name);
    assert "#/components/schemas/" + between + name == SCHEMAS + (between + name);
  }

  /** The schemas combined into one, in the order they are gone through. */
  function Subs(schema: Schema): seq<Schema> {
    schema.allOf + schema.anyOf + schema.oneOf
  }

  /** All schemas visited from `schema`, references followed, in the order of the walk. */
  function Preorder(components: Components, schema: Schema, depth: nat): seq<Schema>
    decreases MAX_DEPTH + 1 - depth, 0
  {
    if depth > MAX_DEPTH then []
    else
      var here := Resolve(components, schema);
      [here] + PreorderAll(components, Subs(here), depth + 1)
  }

  function PreorderAll(components: Components, subs: seq<Schema>, depth: nat): seq<Schema>
    decreases MAX_DEPTH + 1 - depth, 1, |subs|
  {
    if subs == [] then []
    else PreorderAll(components, subs[..|subs| - 1], depth) + Preorder(components, subs[|subs| - 1], depth)
  }

  lemma {:induction false} PreorderAllAppend(components: Components, a: seq<Schema>, b: seq<Schema>, depth: nat)
    ensures PreorderAll(components, a + b, depth) ==
            PreorderAll(components, a, depth) + PreorderAll(components, b, depth)
    decreases |b|
  {
    if b == [] {
      assert a + b == a;
    } else {
      var n := |b| - 1;
      assert (a + b)[..|a| + n] == a + b[..n];
      PreorderAllAppend(components, a, b[..n], depth);
    }
  }

  function Combiner(schema: Schema, c: nat): seq<Schema>
    requires c < 3
  {
    if c == 0 then schema.allOf else if c == 1 then schema.anyOf else schema.oneOf
  }

  /** What has been visited after the first `c` combiners. */
  function Parts(components: Components, here: Schema, depth: nat, c: nat): seq<Schema>
    requires c <= 3
  {
    if c == 0 then [here]
    else Parts(components, here, depth, c - 1) + PreorderAll(components, Combiner(here, c - 1), depth)
  }

  lemma PreorderInParts(components: Components, schema: Schema, depth: nat)
    requires depth <= MAX_DEPTH
    ensures Preorder(components, schema, depth) == Parts(components, Resolve(components, schema), depth + 1, 3)
  {
    var here := Resolve(components, schema);
    var d := depth + 1;
    PreorderAllAppend(components, here.allOf + here.anyOf, here.oneOf, d);
    PreorderAllAppend(components, here.allOf, here.anyOf, d);
    ThreeParts([here], PreorderAll(components, here.allOf, d), PreorderAll(components, here.anyOf, d),
               PreorderAll(components, here.oneOf, d));
    assert Parts(components, here, d, 1) == Parts(components, here, d, 0) + PreorderAll(components, here.allOf, d);
    assert Parts(components, here, d, 2) == Parts(components, here, d, 1) + PreorderAll(components, here.anyOf, d);
    assert Parts(components, here, d, 3) == Parts(components, here, d, 2) + PreorderAll(components, here.oneOf, d);
  }

  lemma ThreeParts<T>(start: seq<T>, a: seq<T>, b: seq<T>, c: seq<T>)
    ensures start + ((a + b) + c) == ((start + a) + b) + c
  {
  }

  // ---------------------------------------------------------------- the validator's walk

  function NamesIn(schemas: seq<Schema>): set<string> {
    set s, name | s in schemas && name in s.properties :: name
  }

  lemma NamesInAppend(a: seq<Schema>, b: seq<Schema>)
    ensures NamesIn(a + b) == NamesIn(a) + NamesIn(b)
  {
    assert forall s | s in a + b :: s in a || s in b;
  }

  /** The names of all properties of the schemas visited. */
  method CollectProperties(components: Components, schema: Schema, depth: nat) returns (result: set<string>)
    ensures result == NamesIn(Preorder(components, schema, depth))
    ensures depth == 0 ==> forall name :: name in result <==>
              exists s :: ReachedIn(components, schema, 8, s) && name in s.properties
    decreases MAX_DEPTH + 1 - depth, 0
  {
    if depth > MAX_DEPTH {
      return {};
    }
    var here := Resolve(components, schema);
    result := here.properties.Keys;
    for c := 0 to 3
      invariant result == NamesIn(Parts(components, here, depth + 1, c))
    {
      var more := CollectFromAll(components, Combiner(here, c), depth + 1);
      NamesInAppend(Parts(components, here, depth + 1, c), PreorderAll(components, Combiner(here, c), depth + 1));
      result := result + more;
    }
    PreorderInParts(components, schema, depth);
    WalkFindsNames(components, schema);
  }

  method CollectFromAll(components: Components, subs: seq<Schema>, depth: nat) returns (result: set<string>)
    ensures result == NamesIn(PreorderAll(components, subs, depth))
    decreases MAX_DEPTH + 1 - depth, 1
  {
    result := {};
    for i := 0 to |subs|
      invariant result == NamesIn(PreorderAll(components, subs[..i], depth))
    {
      var more := CollectProperties(components, subs[i], depth);
      NamesInAppend(PreorderAll(components, subs[..i], depth), Preorder(components, subs[i], depth));
      assert subs[..i + 1][..i] == subs[..i];
      result := result + more;
    }
    assert subs[..|subs|] == subs;
  }

  // ---------------------------------------------------------------- the generator's walk

  datatype Meta = Meta(pyType: string, readOnly: bool, nullable: bool, description: string, required: bool)

  const READ_ONLY_NAMES: set<string> :=
    {"id", "url", "created", "modified", "created_by", "modified_by", "related", "summary_fields"}

  function PyType(ty: string): string {
    match ty
    case "string" => "str"
    case "integer" => "int"
    case "number" => "float"
    case "boolean" => "bool"
    case "object" => "Dict[str, Any]"
    case "array" => "List[Any]"
    case _ => "Any"
  }

  /** What the generator notes of a property; whether it is required is for its own schema to say. */
  function Describe(components: Components, name: string, property: Schema, required: bool): Meta {
    var resolved := Resolve(components, property);
    Meta(
      PyType(resolved.ty),
      if resolved.readOnly.Some? then resolved.readOnly.value else name in READ_ONLY_NAMES,
      if resolved.nullable.Some? then resolved.nullable.value else false,
      resolved.description,
      required)
  }

  function OwnMetas(components: Components, schema: Schema): map<string, Meta> {
    map name | name in schema.properties ::
      Describe(components, name, schema.properties[name], name in schema.required)
  }

  /** Each name with what the first schema that has it says. */
  function FirstMetas(components: Components, schemas: seq<Schema>): map<string, Meta> {
    if schemas == [] then map[]
    else OwnMetas(components, schemas[|schemas| - 1]) + FirstMetas(components, schemas[..|schemas| - 1])
  }

  lemma MergeInParts<K, V>(a: map<K, V>, b: map<K, V>, c: map<K, V>)
    ensures a + (b + c) == (a + b) + c
  {
  }

  lemma {:induction false} FirstMetasAppend(components: Components, a: seq<Schema>, b: seq<Schema>)
    ensures FirstMetas(components, a + b) == FirstMetas(components, b) + FirstMetas(components, a)
  {
    if b == [] {
      assert a + b == a;
    } else {
      var n := |b| - 1;
      assert (a + b)[..|a| + n] == a + b[..n] && (a + b)[|a| + n] == b[n];
      FirstMetasAppend(components, a, b[..n]);
      MergeInParts(OwnMetas(components, b[n]), FirstMetas(components, b[..n]), FirstMetas(components, a));
    }
  }

  /** Both tools find the same names: what is described is what is visited. */
  lemma {:induction false} MetasAreNames(components: Components, schemas: seq<Schema>)
    ensures FirstMetas(components, schemas).Keys == NamesIn(schemas)
  {
    if schemas != [] {
      var n := |schemas| - 1;
      MetasAreNames(components, schemas[..n]);
      NamesInAppend(schemas[..n], [schemas[n]]);
      assert schemas == schemas[..n] + [schemas[n]];
      assert NamesIn([schemas[n]]) == schemas[n].properties.Keys;
    }
  }

  /** A name is described by the first schema of the walk that has it, and required if that one says so. */
  lemma {:induction false} FirstWins(components: Components, schemas: seq<Schema>, i: nat, name: string)
    requires i < |schemas| && name in schemas[i].properties
    requires forall j | 0 <= j < i :: name !in schemas[j].properties
    ensures name in FirstMetas(components, schemas)
    ensures FirstMetas(components, schemas)[name] ==
            Describe(components, name, schemas[i].properties[name], name in schemas[i].required)
  {
    var n := |schemas| - 1;
    if i < n {
      FirstWins(components, schemas[..n], i, name);
    } else {
      MetasAreNames(components, schemas[..n]);
    }
  }

  lemma OneSchema(components: Components, schema: Schema)
    ensures FirstMetas(components, [schema]) == OwnMetas(components, schema)
  {
    assert [schema][..0] == [];
  }

  /** The descriptions of all properties of the schemas visited; the first of a name stays. */
  method CollectPropertiesWithMeta(components: Components, schema: Schema, depth: nat)
    returns (result: map<string, Meta>)
    ensures result == FirstMetas(components, Preorder(components, schema, depth))
    decreases MAX_DEPTH + 1 - depth, 0
  {
    if depth > MAX_DEPTH {
      return map[];
    }
    var here := Resolve(components, schema);
    result := OwnMetas(components, here);
    OneSchema(components, here);
    for c := 0 to 3
      invariant result == FirstMetas(components, Parts(components, here, depth + 1, c))
    {
      var more := DescribeAll(components, Combiner(here, c), depth + 1);
      FirstMetasAppend(components, Parts(components, here, depth + 1, c),
                       PreorderAll(components, Combiner(here, c), depth + 1));
      result := more + result;
    }
    PreorderInParts(components, schema, depth);
  }

  method DescribeAll(components: Components, subs: seq<Schema>, depth: nat) returns (result: map<string, Meta>)
    ensures result == FirstMetas(components, PreorderAll(components, subs, depth))
    decreases MAX_DEPTH + 1 - depth, 1
  {
    result := map[];
    for i := 0 to |subs|
      invariant result == FirstMetas(components, PreorderAll(components, subs[..i], depth))
    {
      var more := CollectPropertiesWithMeta(components, subs[i], depth);
      FirstMetasAppend(components, PreorderAll(components, subs[..i], depth), Preorder(components, subs[i], depth));
      assert subs[..i + 1][..i] == subs[..i];
      result := more + result;
    }
    assert subs[..|subs|] == subs;
  }

  /**
   Which description a name gets: that of the schema itself, else of `allOf`, else of `anyOf`,
   else of `oneOf`. Of two maps added the right one wins.
   */
  lemma CombinersInOrder(components: Components, schema: Schema, depth: nat)
    requires depth <= 8
    ensures var here := Resolve(components, schema);
            FirstMetas(components, Preorder(components, schema, depth)) ==
            FirstMetas(components, PreorderAll(components, here.oneOf, depth + 1))
            + FirstMetas(components, PreorderAll(components, here.anyOf, depth + 1))
            + FirstMetas(components, PreorderAll(components, here.allOf, depth + 1))
            + map name | name in here.properties ::
                Describe(components, name, here.properties[name], name in here.required)
  {
    var here, d := Resolve(components, schema), depth + 1;
    var a, b, c := PreorderAll(components, here.allOf, d), PreorderAll(components, here.anyOf, d),
                   PreorderAll(components, here.oneOf, d);
    PreorderAllAppend(components, here.allOf + here.anyOf, here.oneOf, d);
    PreorderAllAppend(components, here.allOf, here.anyOf, d);
    FirstMetasAppend(components, [here], (a + b) + c);
    FirstMetasAppend(components, a + b, c);
    FirstMetasAppend(components, a, b);
    OneSchema(components, here);
    MergeInParts(FirstMetas(components, c), FirstMetas(components, b), FirstMetas(components, a));
  }

  /** Among the schemas of one combiner the first one that has the name describes it. */
  lemma EarlierSchemaWins(components: Components, first: Schema, rest: seq<Schema>, depth: nat)
    ensures FirstMetas(components, PreorderAll(components, [first] + rest, depth)) ==
            FirstMetas(components, PreorderAll(components, rest, depth))
            + FirstMetas(components, Preorder(components, first, depth))
  {
    var one, own := PreorderAll(components, [first], depth), Preorder(components, first, depth);
    PreorderAllAppend(components, [first], rest, depth);
    assert [first][..0] == [] && PreorderAll(components, [], depth) == [];
    assert one == own;
    FirstMetasAppend(components, Preorder(components, first, depth), PreorderAll(components, rest, depth));
  }

  /** What a description says, word for word. */
  lemma DescribedAs(components: Components, name: string, property: Schema, required: bool)
    ensures var meta, resolved := Describe(components, name, property, required), Resolve(components, property);
            && meta.required == required && meta.description == resolved.description
            && (resolved.ty == "string" <==> meta.pyType == "str")
            && (resolved.ty == "integer" <==> meta.pyType == "int")
            && (resolved.ty == "number" <==> meta.pyType == "float")
            && (resolved.ty == "boolean" <==> meta.pyType == "bool")
            && (resolved.ty == "object" <==> meta.pyType == "Dict[str, Any]")
            && (resolved.ty == "array" <==> meta.pyType == "List[Any]")
            && (resolved.ty !in ["string", "integer", "number", "boolean", "object", "array"] ==> meta.pyType == "Any")
            && (meta.nullable <==> resolved.nullable == Some(true))
            && (meta.readOnly <==>
                  || resolved.readOnly == Some(true)
                  || (resolved.readOnly == None &&
                      name in ["id", "url", "created", "modified", "created_by", "modified_by", "related",
                               "summary_fields"]))
  {
  }

  // ---------------------------------------------------------------- what is visited

  /** A step goes into any schema combined into this one, whichever way. */
  ghost predicate IsPart(here: Schema, sub: Schema) {
    sub in here.allOf || sub in here.anyOf || sub in here.oneOf
  }

  /** The schema is reached in exactly so many steps, references followed. */
  ghost predicate ReachedInExactly(components: Components, here: Schema, n: nat, s: Schema)
    decreases n
  {
    if n == 0 then s == here
    else exists sub :: IsPart(here, sub) && ReachedInExactly(components, Resolve(components, sub), n - 1, s)
  }

  ghost predicate ReachedIn(components: Components, schema: Schema, bound: nat, s: Schema) {
    exists n: nat :: n <= bound && ReachedInExactly(components, Resolve(components, schema), n, s)
  }

  lemma PartIsSub(here: Schema, sub: Schema) returns (i: nat)
    requires IsPart(here, sub)
    ensures i < |Subs(here)| && Subs(here)[i] == sub
  {
    if sub in here.allOf {
      i :| i < |here.allOf| && here.allOf[i] == sub;
    } else if sub in here.anyOf {
      var k: nat :| k < |here.anyOf| && here.anyOf[k] == sub;
      i := |here.allOf| + k;
    } else {
      var k: nat :| k < |here.oneOf| && here.oneOf[k] == sub;
      i := |here.allOf| + |here.anyOf| + k;
    }
  }

  lemma {:induction false} VisitedInSub(components: Components, subs: seq<Schema>, depth: nat, s: Schema)
    returns (i: nat)
    requires s in PreorderAll(components, subs, depth)
    ensures i < |subs| && s in Preorder(components, subs[i], depth)
    decreases |subs|
  {
    var n := |subs| - 1;
    if s in Preorder(components, subs[n], depth) {
      i := n;
    } else {
      i := VisitedInSub(components, subs[..n], depth, s);
    }
  }

  lemma {:induction false} SubIsVisited(components: Components, subs: seq<Schema>, depth: nat, s: Schema, i: nat)
    requires i < |subs| && s in Preorder(components, subs[i], depth)
    ensures s in PreorderAll(components, subs, depth)
    decreases |subs|
  {
    var n := |subs| - 1;
    if i < n {
      SubIsVisited(components, subs[..n], depth, s, i);
    }
  }

  lemma {:induction false} VisitedIsReached(components: Components, schema: Schema, depth: nat, s: Schema)
    returns (n: nat)
    requires s in Preorder(components, schema, depth)
    ensures depth + n <= MAX_DEPTH && ReachedInExactly(components, Resolve(components, schema), n, s)
    decreases MAX_DEPTH + 1 - depth
  {
    var here := Resolve(components, schema);
    if s == here {
      n := 0;
    } else {
      var i := VisitedInSub(components, Subs(here), depth + 1, s);
      var rest := VisitedIsReached(components, Subs(here)[i], depth + 1, s);
      assert IsPart(here, Subs(here)[i]);
      n := rest + 1;
    }
  }

  lemma {:induction false} ReachedIsVisited(components: Components, schema: Schema, depth: nat, s: Schema, n: nat)
    requires depth + n <= MAX_DEPTH && ReachedInExactly(components, Resolve(components, schema), n, s)
    ensures s in Preorder(components, schema, depth)
    decreases n
  {
    if n > 0 {
      var here := Resolve(components, schema);
      var sub :| IsPart(here, sub) && ReachedInExactly(components, Resolve(components, sub), n - 1, s);
      var i := PartIsSub(here, sub);
      ReachedIsVisited(components, sub, depth + 1, s, n - 1);
      SubIsVisited(components, Subs(here), depth + 1, s, i);
    }
  }

  /** The walk visits exactly the schemas reached in at most eight steps, cycles or not. */
  lemma WalkVisitsEightSteps(components: Components, schema: Schema, s: Schema)
    ensures s in Preorder(components, schema, 0) <==> ReachedIn(components, schema, 8, s)
  {
    if s in Preorder(components, schema, 0) {
      var n := VisitedIsReached(components, schema, 0, s);
    }
    if ReachedIn(components, schema, 8, s) {
      var n: nat :| n <= 8 && ReachedInExactly(components, Resolve(components, schema), n, s);
      ReachedIsVisited(components, schema, 0, s, n);
    }
  }

  /** So the names of the walk are those of all schemas reached in at most eight steps. */
  lemma WalkFindsNames(components: Components, schema: Schema)
    ensures forall name :: name in NamesIn(Preorder(components, schema, 0)) <==>
              exists s :: ReachedIn(components, schema, 8, s) && name in s.properties
  {
    forall name: string
      ensures name in NamesIn(Preorder(components, schema, 0)) <==>
                exists s :: ReachedIn(components, schema, 8, s) && name in s.properties
    {
      if name in NamesIn(Preorder(components, schema, 0)) {
        var s :| s in Preorder(components, schema, 0) && name in s.properties;
        WalkVisitsEightSteps(components, schema, s);
      }
      forall s | ReachedIn(components, schema, 8, s) && name in s.properties
        ensures name in NamesIn(Preorder(components, schema, 0))
      {
        WalkVisitsEightSteps(components, schema, s);
      }
    }
  }

  lemma {:induction false} FirstSteps(components: Components, here: Schema, k: nat, n: nat, s: Schema)
    returns (mid: Schema)
    requires k <= n && ReachedInExactly(components, here, n, s)
    ensures ReachedInExactly(components, here, k, mid) && ReachedInExactly(components, mid, n - k, s)
    decreases k
  {
    if k == 0 {
      mid := here;
    } else {
      var sub :| IsPart(here, sub) && ReachedInExactly(components, Resolve(components, sub), n - 1, s);
      mid := FirstSteps(components, Resolve(components, sub), k - 1, n - 1, s);
    }
  }

  lemma {:induction false} StepsAdd(components: Components, here: Schema, k: nat, mid: Schema, n: nat, s: Schema)
    requires ReachedInExactly(components, here, k, mid) && ReachedInExactly(components, mid, n, s)
    ensures ReachedInExactly(components, here, k + n, s)
    decreases k
  {
    if k > 0 {
      var sub :| IsPart(here, sub) && ReachedInExactly(components, Resolve(components, sub), k - 1, mid);
      StepsAdd(components, Resolve(components, sub), k - 1, mid, n, s);
    }
  }

  /** Nothing new is reached in exactly one step more. */
  ghost predicate ClosedAfter(components: Components, schema: Schema, bound: nat) {
    forall s | ReachedInExactly(components, Resolve(components, schema), bound + 1, s) ::
      ReachedIn(components, schema, bound, s)
  }

  lemma ReachedSooner(components: Components, schema: Schema, bound: nat, mid: Schema) returns (k: nat)
    requires ClosedAfter(components, schema, bound)
    requires ReachedInExactly(components, Resolve(components, schema), bound + 1, mid)
    ensures k <= bound && ReachedInExactly(components, Resolve(components, schema), k, mid)
  {
    assert ReachedIn(components, schema, bound, mid);
    k :| k <= bound && ReachedInExactly(components, Resolve(components, schema), k, mid);
  }

  lemma {:induction false} NothingFurther(components: Components, schema: Schema, bound: nat, n: nat, s: Schema)
    requires ClosedAfter(components, schema, bound)
    requires ReachedInExactly(components, Resolve(components, schema), n, s)
    ensures ReachedIn(components, schema, bound, s)
    decreases n
  {
    if n > bound {
      var mid := FirstSteps(components, Resolve(components, schema), bound + 1, n, s);
      var k := ReachedSooner(components, schema, bound, mid);
      StepsAdd(components, Resolve(components, schema), k, mid, n - bound - 1, s);
      NothingFurther(components, schema, bound, k + (n - bound - 1), s);
    }
  }

  /** The names of everything that can be reached, however deep. */
  ghost predicate Reachable(components: Components, schema: Schema, name: string) {
    exists n: nat, s :: ReachedInExactly(components, Resolve(components, schema), n, s) && name in s.properties
  }

  /**
   When nothing new appears in exactly nine steps the bounded walk misses nothing: its names
   are those of everything reachable.
   */
  lemma WalkMissesNothing(components: Components, schema: Schema, name: string)
    requires ClosedAfter(components, schema, 8)
    ensures name in NamesIn(Preorder(components, schema, 0)) <==> Reachable(components, schema, name)
  {
    var here := Resolve(components, schema);
    if Reachable(components, schema, name) {
      var n: nat, s :| ReachedInExactly(components, here, n, s) && name in s.properties;
      NothingFurther(components, schema, 8, n, s);
      WalkVisitsEightSteps(components, schema, s);
    }
    if name in NamesIn(Preorder(components, schema, 0)) {
      var s :| s in Preorder(components, schema, 0) && name in s.properties;
      var n := VisitedIsReached(components, schema, 0, s);
    }
  }
}
