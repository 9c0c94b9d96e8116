/** Generating a resource's operations from an API specification, and validating them against it. */
module SpecTools {
  import opened Json
  import opened Collections
  import opened SchemaWalk

  datatype Verb = GET | PUT | POST | DELETE | OPTIONS | HEAD | PATCH | TRACE

  /** An operation with the schemas of its two forms of body; no body reads as the empty schema. */
  datatype Operation = Operation(tags: seq<string>, json: Schema, form: Schema)

  type PathItem = map<Verb, Operation>

  /** The paths are kept in the order of the document. */
  datatype Spec = Spec(components: Components, order: seq<string>, paths: map<string, PathItem>) {
    ghost predicate Valid() {
      Enumerates(order, paths.Keys)
    }
  }

  /** The schema of an operation's body: the JSON form unless that is missing or empty. */
  function BodySchema(op: Operation): Schema {
    if op.json != NO_SCHEMA then op.json else op.form
  }

  datatype OpName = Create | Update | Delete | Get | List

  datatype Record = Record(name: OpName, path: string, verb: Verb, fields: seq<string>)

  // ---------------------------------------------------------------- the validator

  type Index = map<(string, Verb), Option<set<string>>>

  /** The property names a body may have; None when no body is declared. */
  function BodyFields(spec: Spec, op: Operation): Option<set<string>> {
    if BodySchema(op) == NO_SCHEMA then None
    else Some(NamesIn(Preorder(spec.components, BodySchema(op), 0)))
  }

  ghost predicate IsIndex(spec: Spec, index: Index) {
    forall path, verb ::
      && ((path, verb) in index <==> path in spec.paths && verb in spec.paths[path])
      && ((path, verb) in index ==> index[(path, verb)] == BodyFields(spec, spec.paths[path][verb]))
  }

  method BuildSpecIndex(spec: Spec) returns (index: Index)
    requires spec.Valid()
    ensures IsIndex(spec, index)
  {
    index := map[];
    for i := 0 to |spec.order|
      invariant forall path, verb :: (path, verb) in index <==>
                  path in spec.order[..i] && path in spec.paths && verb in spec.paths[path]
      invariant forall path, verb :: (path, verb) in index ==>
                  index[(path, verb)] == BodyFields(spec, spec.paths[path][verb])
    {
      var path := spec.order[i];
      assert path in Elems(spec.order);
      var item := spec.paths[path];
      var verbs := Enumerate(item.Keys);
      ghost var before := index;
      for v := 0 to |verbs|
        invariant forall p, verb :: (p, verb) in index <==> (p, verb) in before || (p == path && verb in verbs[..v])
        invariant forall p, verb :: (p, verb) in index ==>
                    p in spec.paths && verb in spec.paths[p] &&
                    index[(p, verb)] == BodyFields(spec, spec.paths[p][verb])
      {
        var verb := verbs[v];
        assert verb in Elems(verbs);
        var schema := BodySchema(item[verb]);
        if schema == NO_SCHEMA {
          index := index[(path, verb) := None];
        } else {
          var names := CollectProperties(spec.components, schema, 0);
          index := index[(path, verb) := Some(names)];
        }
      }
      assert forall verb :: verb in verbs <==> verb in Elems(verbs);
    }
    assert forall path :: path in spec.order <==> path in Elems(spec.order);
  }

  datatype Problem = PathNotFound | VerbNotAllowed | UnknownFields(names: set<string>)

  const WRITES: set<Verb> := {POST, PUT, PATCH}

  const KNOWN_EXCEPTIONS: set<(string, Verb)> :=
    {("/api/gateway/v1/settings/all/", GET), ("/api/gateway/v1/settings/all/", PUT)}

  /** What is wrong with one declared operation, if anything. */
  function ProblemWith(spec: Spec, op: Record): Option<Problem> {
    if (op.path, op.verb) in KNOWN_EXCEPTIONS then None
    else if op.path !in spec.paths || spec.paths[op.path] == map[] then Some(PathNotFound)
    else if op.verb !in spec.paths[op.path] then Some(VerbNotAllowed)
    else
      var known := BodyFields(spec, spec.paths[op.path][op.verb]);
      if op.verb in WRITES && op.fields != [] && known.Some? && !(Elems(op.fields) <= known.value)
      then Some(UnknownFields(Elems(op.fields) - known.value))
      else None
  }

  /** The body declares the field, in a schema the walk gets to. */
  ghost predicate Declares(components: Components, body: Schema, name: string) {
    exists s :: ReachedIn(components, body, 8, s) && name in s.properties
  }

  lemma UnknownAre(spec: Spec, op: Record, body: Schema)
    ensures var unknown := set name | name in op.fields && !Declares(spec.components, body, name);
            var names := NamesIn(Preorder(spec.components, body, 0));
            && Elems(op.fields) - names == unknown && (Elems(op.fields) <= names <==> unknown == {})
            && (op.fields == [] ==> unknown == {})
  {
    var unknown := set name | name in op.fields && !Declares(spec.components, body, name);
    var names := NamesIn(Preorder(spec.components, body, 0));
    WalkFindsNames(spec.components, body);
    assert forall name: string :: name in names <==> Declares(spec.components, body, name);
    assert unknown == Elems(op.fields) - names;
    NoneLeft(Elems(op.fields), names);
    NothingIn(op.fields);
  }

  lemma NoneLeft<T>(a: set<T>, b: set<T>)
    ensures a <= b <==> a - b == {}
  {
    if a - b == {} {
      forall x | x in a ensures x in b {
        assert x !in a - b;
      }
    }
  }

  /** When each problem is reported; two operations of the settings endpoint are exempt. */
  lemma ProblemsAre(spec: Spec, op: Record)
    ensures var exempt := op.path == "/api/gateway/v1/settings/all/" && (op.verb == GET || op.verb == PUT);
            var there := op.path in spec.paths && op.verb in spec.paths[op.path];
            && (ProblemWith(spec, op) == Some(PathNotFound) <==>
                  !exempt && (op.path !in spec.paths || spec.paths[op.path].Keys == {}))
            && (ProblemWith(spec, op) == Some(VerbNotAllowed) <==>
                  !exempt && op.path in spec.paths && spec.paths[op.path].Keys != {} && !there)
            && (exempt ==> ProblemWith(spec, op) == None)
            && (there && !exempt ==> ProblemWith(spec, op) == FieldProblem(spec, spec.paths[op.path][op.verb], op))
  {
    if op.path in spec.paths && op.verb in spec.paths[op.path] {
      var operation := spec.paths[op.path][op.verb];
      UnknownAre(spec, op, if operation.json != NO_SCHEMA then operation.json else operation.form);
    }
  }

  /** The fields sent in a body that does not declare them; without a declared body any field goes. */
  ghost function FieldProblem(spec: Spec, operation: Operation, op: Record): Option<Problem> {
    var body := if operation.json != NO_SCHEMA then operation.json else operation.form;
    var unknown := set name | name in op.fields && !Declares(spec.components, body, name);
    if body == NO_SCHEMA || !(op.verb == POST || op.verb == PUT || op.verb == PATCH) || unknown == {} then None
    else Some(UnknownFields(unknown))
  }

  function Problems(spec: Spec, ops: seq<Record>): seq<(Record, Problem)> {
    if ops == [] then []
    else
      var n := |ops| - 1;
      Problems(spec, ops[..n]) +
      match ProblemWith(spec, ops[n]) case None => [] case Some(problem) => [(ops[n], problem)]
  }

  /** The checks on one operation, made from the index alone. */
  method Check(ghost spec: Spec, op: Record, index: Index) returns (problem: Option<Problem>)
    requires IsIndex(spec, index)
    ensures problem == ProblemWith(spec, op)
  {
    var key := (op.path, op.verb);
    if key in KNOWN_EXCEPTIONS {
      return None;
    }
    var pathVerbs := set pair | pair in index.Keys && pair.0 == op.path :: pair.1;
    VerbsAtPath(spec, index, op.path);
    if pathVerbs == {} {
      assert op.path in spec.paths ==> spec.paths[op.path] == map[];
      return Some(PathNotFound);
    }
    if op.verb !in pathVerbs {
      return Some(VerbNotAllowed);
    }
    assert key in index;
    if op.verb in WRITES && op.fields != [] {
      var known := index[key];
      if known.Some? {
        var unknown := Elems(op.fields) - known.value;
        if unknown != {} {
          assert !(Elems(op.fields) <= known.value);
          return Some(UnknownFields(unknown));
        }
        assert forall name | name in op.fields :: name in Elems(op.fields) && name !in unknown;
      }
    }
    return None;
  }

  /** Reports what is wrong with each operation, in order. */
  method Validate(ghost spec: Spec, ops: seq<Record>, index: Index) returns (errors: seq<(Record, Problem)>)
    requires IsIndex(spec, index)
    ensures errors == Problems(spec, ops)
  {
    errors := [];
    for i := 0 to |ops|
      invariant errors == Problems(spec, ops[..i])
    {
      var problem := Check(spec, ops[i], index);
      if problem.Some? {
        errors := errors + [(ops[i], problem.value)];
      }
      assert ops[..i + 1][..i] == ops[..i];
    }
    assert ops[..|ops|] == ops;
  }

  lemma VerbsAtPath(spec: Spec, index: Index, path: string)
    requires IsIndex(spec, index)
    ensures (set pair | pair in index.Keys && pair.0 == path :: pair.1) ==
            if path in spec.paths then spec.paths[path].Keys else {}
  {
    var verbs := set pair | pair in index.Keys && pair.0 == path :: pair.1;
    forall verb ensures verb in verbs <==> path in spec.paths && verb in spec.paths[path] {
      assert (path, verb) in index <==> path in spec.paths && verb in spec.paths[path];
    }
  }

  // ---------------------------------------------------------------- the generator

  function TaggedVerbs(spec: Spec, tag: string, path: string): set<Verb> {
    if path in spec.paths then set verb | verb in spec.paths[path] && tag in spec.paths[path][verb].tags else {}
  }

  /** A path that ends in a parameter. */
  predicate IsDetail(path: string) {
    |path| >= 2 && path[|path| - 2..] == "}/" && '{' in path
  }

  function Slashes(path: string): nat {
    if path == "" then 0 else Slashes(path[..|path| - 1]) + if path[|path| - 1] == '/' then 1 else 0
  }

  lemma {:induction false} SlashesAreCounted(path: string)
    ensures Slashes(path) == |set i | 0 <= i < |path| && path[i] == '/'|
  {
    if path != "" {
      var n := |path| - 1;
      SlashesAreCounted(path[..n]);
      var before, all := set i | 0 <= i < n && path[..n][i] == '/', set i | 0 <= i < |path| && path[i] == '/';
      assert all == before + if path[n] == '/' then {n} else {};
    }
  }

  /** The two forms of a path: one ends in a parameter, any other with four slashes is a list. */
  lemma PathForms(path: string)
    ensures IsDetail(path) <==> exists start: string :: path == start + "}/" && '{' in start
    ensures IsList(path) <==>
              !(exists start: string :: path == start + "}/" && '{' in start) &&
              |set i | 0 <= i < |path| && path[i] == '/'| >= 4
  {
    SlashesAreCounted(path);
    if IsDetail(path) {
      var start := path[..|path| - 2];
      assert path == start + "}/" && '{' in start;
    }
    forall start: string | path == start + "}/" && '{' in start ensures IsDetail(path) {
      assert path[|path| - 2..] == "}/";
    }
  }

  predicate IsList(path: string) {
    !IsDetail(path) && Slashes(path) >= 4
  }

  predicate Suits(spec: Spec, tag: string, detail: bool, path: string) {
    TaggedVerbs(spec, tag, path) != {} && if detail then IsDetail(path) else IsList(path)
  }

  /** The first tagged path of the document, among the first `k`, that has the wanted form. */
  function FirstPath(spec: Spec, tag: string, detail: bool, k: nat): (path: Option<string>)
    requires k <= |spec.order|
  {
    if k == 0 then None
    else
      var before := FirstPath(spec, tag, detail, k - 1);
      var path := spec.order[k - 1];
      if before.Some? || !Suits(spec, tag, detail, path) then before else Some(path)
  }

  /** It is the first one: no path before it suits, and when there is none no path suits. */
  lemma {:induction false} FirstPathIsFirst(spec: Spec, tag: string, detail: bool, k: nat)
    requires k <= |spec.order|
    ensures match FirstPath(spec, tag, detail, k)
            case None => forall i | 0 <= i < k :: !Suits(spec, tag, detail, spec.order[i])
            case Some(path) =>
              exists i | 0 <= i < k ::
                && spec.order[i] == path && Suits(spec, tag, detail, path)
                && forall j | 0 <= j < i :: !Suits(spec, tag, detail, spec.order[j])
  {
    if k > 0 {
      FirstPathIsFirst(spec, tag, detail, k - 1);
      if FirstPath(spec, tag, detail, k - 1) == None && Suits(spec, tag, detail, spec.order[k - 1]) {
        assert FirstPath(spec, tag, detail, k) == Some(spec.order[k - 1]);
      }
    }
  }

  /** The tagged methods of each path that has any, among the first `k` paths. */
  function Methods(spec: Spec, tag: string, k: nat): map<string, set<Verb>>
    requires k <= |spec.order|
  {
    if k == 0 then map[]
    else
      var path := spec.order[k - 1];
      var verbs := TaggedVerbs(spec, tag, path);
      if verbs == {} then Methods(spec, tag, k - 1) else Methods(spec, tag, k - 1)[path := verbs]
  }

  lemma {:induction false} MethodsAreTagged(spec: Spec, tag: string, k: nat, path: string)
    requires k <= |spec.order|
    ensures path in Methods(spec, tag, k) <==> path in spec.order[..k] && TaggedVerbs(spec, tag, path) != {}
    ensures path in Methods(spec, tag, k) ==> Methods(spec, tag, k)[path] == TaggedVerbs(spec, tag, path)
  {
    if k > 0 {
      MethodsAreTagged(spec, tag, k - 1, path);
      assert spec.order[..k] == spec.order[..k - 1] + [spec.order[k - 1]];
    }
  }

  predicate Allows(spec: Spec, tag: string, path: Option<string>, verb: Verb) {
    path.Some? && verb in TaggedVerbs(spec, tag, path.value)
  }

  /** The schema properties come from: the body of the create, else of the update. */
  function SourceSchema(spec: Spec, tag: string, listPath: Option<string>, detailPath: Option<string>): Schema {
    if Allows(spec, tag, listPath, POST) then
      Resolve(spec.components, BodySchema(spec.paths[listPath.value][POST]))
    else if Allows(spec, tag, detailPath, PATCH) then
      Resolve(spec.components, BodySchema(spec.paths[detailPath.value][PATCH]))
    else NO_SCHEMA
  }

  lemma MethodsOfPath(spec: Spec, tag: string, path: string)
    requires spec.Valid()
    ensures var methods := Methods(spec, tag, |spec.order|);
            && (path in methods <==> TaggedVerbs(spec, tag, path) != {})
            && (path in methods ==> methods[path] == TaggedVerbs(spec, tag, path))
  {
    MethodsAreTagged(spec, tag, |spec.order|, path);
    assert spec.order[..|spec.order|] == spec.order;
    assert path in spec.paths ==> path in Elems(spec.order);
  }

  predicate IsReadOnly(name: string, meta: Meta) {
    meta.readOnly || name in READ_ONLY_NAMES
  }

  function ReadOnly(properties: map<string, Meta>, among: set<string>): set<string> {
    set name | name in among && name in properties && IsReadOnly(name, properties[name])
  }

  function Writable(properties: map<string, Meta>, among: set<string>): set<string> {
    set name | name in among && name in properties && !IsReadOnly(name, properties[name])
  }

  function Required(properties: map<string, Meta>, among: set<string>): set<string> {
    set name | name in among && name in properties && !IsReadOnly(name, properties[name]) && properties[name].required
  }

  lemma OneMoreName(properties: map<string, Meta>, among: set<string>, name: string)
    requires name in properties
    ensures var only := {name};
            && ReadOnly(properties, among + only) == ReadOnly(properties, among) + ReadOnly(properties, only)
            && Writable(properties, among + only) == Writable(properties, among) + Writable(properties, only)
            && Required(properties, among + only) == Required(properties, among) + Required(properties, only)
            && ReadOnly(properties, only) == (if IsReadOnly(name, properties[name]) then only else {})
            && Writable(properties, only) == (if IsReadOnly(name, properties[name]) then {} else only)
            && Required(properties, only) ==
                 (if !IsReadOnly(name, properties[name]) && properties[name].required then only else {})
  {
  }

  /** What the generator derives from a specification for one tag. */
  class ResourceSpec {
    var listPath: Option<string>
    var detailPath: Option<string>
    var methods: map<string, set<Verb>>
    var properties: map<string, Meta>
    var readOnlyFields: seq<string>
    var writableFields: seq<string>
    var requiredFields: seq<string>

    ghost predicate Derived(spec: Spec, tag: string)
      reads this
    {
      && listPath == FirstPath(spec, tag, false, |spec.order|)
      && detailPath == FirstPath(spec, tag, true, |spec.order|)
      && methods == Methods(spec, tag, |spec.order|)
      && properties == FirstMetas(spec.components, Preorder(spec.components, SourceSchema(spec, tag, listPath,
          detailPath), 0))
      && Enumerates(writableFields, Writable(properties, properties.Keys))
      && Enumerates(readOnlyFields, ReadOnly(properties, properties.Keys))
      && Enumerates(requiredFields, Required(properties, properties.Keys))
    }

    constructor (spec: Spec, tag: string)
      requires spec.Valid()
      ensures Derived(spec, tag)
    {
      listPath, detailPath, methods, properties := None, None, map[], map[];
      readOnlyFields, writableFields, requiredFields := [], [], [];
      new;
      FindPaths(spec, tag);
      FirstPathIsFirst(spec, tag, false, |spec.order|);
      FirstPathIsFirst(spec, tag, true, |spec.order|);
      if listPath.Some? {
        MethodsOfPath(spec, tag, listPath.value);
      }
      if detailPath.Some? {
        MethodsOfPath(spec, tag, detailPath.value);
      }
      var schema := NO_SCHEMA;
      if listPath.Some? && POST in methods[listPath.value] {
        schema := Resolve(spec.components, BodySchema(spec.paths[listPath.value][POST]));
      } else if detailPath.Some? && PATCH in methods[detailPath.value] {
        schema := Resolve(spec.components, BodySchema(spec.paths[detailPath.value][PATCH]));
      }
      properties := CollectPropertiesWithMeta(spec.components, schema, 0);
      PartitionFields();
    }

    method FindPaths(spec: Spec, tag: string)
      requires spec.Valid() && listPath == detailPath == None && methods == map[]
      modifies this
      ensures listPath == FirstPath(spec, tag, false, |spec.order|)
      ensures detailPath == FirstPath(spec, tag, true, |spec.order|)
      ensures methods == Methods(spec, tag, |spec.order|)
      ensures unchanged(`properties)
      ensures unchanged(`readOnlyFields) && unchanged(`writableFields) && unchanged(`requiredFields)
    {
      for i := 0 to |spec.order|
        invariant listPath == FirstPath(spec, tag, false, i) && detailPath == FirstPath(spec, tag, true, i)
        invariant methods == Methods(spec, tag, i)
        invariant unchanged(`properties)
        invariant unchanged(`readOnlyFields) && unchanged(`writableFields) && unchanged(`requiredFields)
      {
        var path := spec.order[i];
        var verbs := TaggedVerbs(spec, tag, path);
        if verbs != {} {
          methods := methods[path := verbs];
          if IsDetail(path) {
            if detailPath == None {
              detailPath := Some(path);
            }
          } else if listPath == None && Slashes(path) >= 4 {
            listPath := Some(path);
          }
        }
      }
    }

    method PartitionFields()
      requires readOnlyFields == writableFields == requiredFields == []
      modifies this
      ensures unchanged(`listPath) && unchanged(`detailPath) && unchanged(`methods) && unchanged(`properties)
      ensures Enumerates(writableFields, Writable(properties, properties.Keys))
      ensures Enumerates(readOnlyFields, ReadOnly(properties, properties.Keys))
      ensures Enumerates(requiredFields, Required(properties, properties.Keys))
    {
      var names := Enumerate(properties.Keys);
      for i := 0 to |names|
        invariant unchanged(`listPath) && unchanged(`detailPath) && unchanged(`methods) && unchanged(`properties)
        invariant Enumerates(writableFields, Writable(properties, Elems(names[..i])))
        invariant Enumerates(readOnlyFields, ReadOnly(properties, Elems(names[..i])))
        invariant Enumerates(requiredFields, Required(properties, Elems(names[..i])))
      {
        var name := names[i];
        ghost var among := Elems(names[..i]);
        assert name in Elems(names) && name !in among && Elems(names[..i + 1]) == among + {name};
        OneMoreName(properties, among, name);
        if IsReadOnly(name, properties[name]) {
          EnumerateMore(readOnlyFields, ReadOnly(properties, among), name);
          readOnlyFields := readOnlyFields + [name];
        } else {
          EnumerateMore(writableFields, Writable(properties, among), name);
          writableFields := writableFields + [name];
          if properties[name].required {
            EnumerateMore(requiredFields, Required(properties, among), name);
            requiredFields := requiredFields + [name];
          }
        }
      }
      assert names[..|names|] == names;
    }

    predicate Has(path: Option<string>, verb: Verb)
      reads this
    {
      path.Some? && path.value in methods && verb in methods[path.value]
    }

    function OperationAt(name: OpName, path: Option<string>, verb: Verb, fields: seq<string>): seq<Record>
      reads this
    {
      if Has(path, verb) then [Record(name, path.value, verb, fields)] else []
    }

    /** The operations the generated file declares. */
    function Operations(): seq<Record>
      reads this
    {
      OperationAt(Create, listPath, POST, writableFields) + OperationAt(Update, detailPath, PATCH, writableFields) +
      OperationAt(Delete, detailPath, DELETE, []) + OperationAt(Get, detailPath, GET, []) +
      OperationAt(OpName.List, listPath, GET, [])
    }
  }

  ghost predicate Tagged(spec: Spec, tag: string, path: Option<string>, verb: Verb) {
    path.Some? && path.value in spec.paths && verb in spec.paths[path.value] && tag in spec.paths[path.value][verb].tags
  }

  /** The operations generated: one of each name at most, where the document has a tagged one. */
  ghost predicate IsGenerated(spec: Spec, tag: string, res: ResourceSpec, op: Record)
    reads res
  {
    match op.name
    case Create => Tagged(spec, tag, res.listPath, POST) &&
                   op == Record(Create, res.listPath.value, POST, res.writableFields)
    case Update => Tagged(spec, tag, res.detailPath, PATCH) &&
                   op == Record(Update, res.detailPath.value, PATCH, res.writableFields)
    case Delete => Tagged(spec, tag, res.detailPath, DELETE) &&
                   op == Record(Delete, res.detailPath.value, DELETE, [])
    case Get => Tagged(spec, tag, res.detailPath, GET) && op == Record(Get, res.detailPath.value, GET, [])
    case List => Tagged(spec, tag, res.listPath, GET) && op == Record(OpName.List, res.listPath.value, GET, [])
  }

  lemma InOneOf(a: seq<Record>, b: seq<Record>, c: seq<Record>, d: seq<Record>, e: seq<Record>, op: Record)
    ensures op in a + b + c + d + e <==> op in a || op in b || op in c || op in d || op in e
  {
  }

  lemma OneOperation(spec: Spec, tag: string, res: ResourceSpec, name: OpName, path: Option<string>, verb: Verb,
                     fields: seq<string>, op: Record)
    requires spec.Valid() && res.Derived(spec, tag)
    ensures op in res.OperationAt(name, path, verb, fields) <==>
              Tagged(spec, tag, path, verb) && op == Record(name, path.value, verb, fields)
  {
    HasIsAllows(spec, tag, res, path, verb);
  }

  lemma OperationsAre(spec: Spec, tag: string, res: ResourceSpec, op: Record)
    requires spec.Valid() && res.Derived(spec, tag)
    ensures op in res.Operations() <==> IsGenerated(spec, tag, res, op)
  {
    OneOperation(spec, tag, res, Create, res.listPath, POST, res.writableFields, op);
    OneOperation(spec, tag, res, Update, res.detailPath, PATCH, res.writableFields, op);
    OneOperation(spec, tag, res, Delete, res.detailPath, DELETE, [], op);
    OneOperation(spec, tag, res, Get, res.detailPath, GET, [], op);
    OneOperation(spec, tag, res, OpName.List, res.listPath, GET, [], op);
    InOneOf(res.OperationAt(Create, res.listPath, POST, res.writableFields),
            res.OperationAt(Update, res.detailPath, PATCH, res.writableFields),
            res.OperationAt(Delete, res.detailPath, DELETE, []), res.OperationAt(Get, res.detailPath, GET, []),
            res.OperationAt(OpName.List, res.listPath, GET, []), op);
  }

  /** How the fields are divided: a name is read-only when its schema or its spelling says so. */
  lemma FieldsAre(spec: Spec, tag: string, res: ResourceSpec, name: string)
    requires res.Derived(spec, tag)
    ensures var readOnly :=
              name in res.properties &&
              (res.properties[name].readOnly ||
               name in ["id", "url", "created", "modified", "created_by", "modified_by", "related", "summary_fields"]);
            && (name in res.readOnlyFields <==> readOnly)
            && (name in res.writableFields <==> name in res.properties && !readOnly)
            && (name in res.requiredFields <==> name in res.properties && !readOnly && res.properties[name].required)
  {
    assert name in res.readOnlyFields <==> name in Elems(res.readOnlyFields);
    assert name in res.writableFields <==> name in Elems(res.writableFields);
    assert name in res.requiredFields <==> name in Elems(res.requiredFields);
  }

  // ---------------------------------------------------------------- generated operations against the validator

  lemma {:induction false} NoProblems(spec: Spec, ops: seq<Record>)
    ensures Problems(spec, ops) == [] <==> forall i | 0 <= i < |ops| :: ProblemWith(spec, ops[i]) == None
  {
    if ops != [] {
      NoProblems(spec, ops[..|ops| - 1]);
    }
  }

  lemma OperationShape(res: ResourceSpec, op: Record)
    requires op in res.Operations()
    ensures op.name == Create <==> op.verb == POST
    ensures op.name == Update <==> op.verb == PATCH
    ensures op.fields == if op.verb in {POST, PATCH} then res.writableFields else []
    ensures var path := if op.name in {Create, OpName.List} then res.listPath else res.detailPath;
            res.Has(path, op.verb) && op.path == path.value
  {
  }

  /** The operations name paths and methods of the document. */
  lemma OperationsExist(spec: Spec, tag: string, res: ResourceSpec, op: Record)
    requires spec.Valid() && res.Derived(spec, tag) && op in res.Operations()
    ensures op.path in spec.paths && op.verb in spec.paths[op.path]
  {
    OperationShape(res, op);
    MethodsOfPath(spec, tag, op.path);
  }

  /** A written operation passes exactly when the body it is sent with knows every field, or is not declared. */
  predicate Fits(spec: Spec, op: Record, fields: set<string>)
    requires op.path in spec.paths && op.verb in spec.paths[op.path]
  {
    var known := BodyFields(spec, spec.paths[op.path][op.verb]);
    known == None || fields <= known.value
  }

  lemma FieldsDecide(spec: Spec, op: Record)
    requires op.path in spec.paths && op.verb in spec.paths[op.path]
    ensures ProblemWith(spec, op) == None <==>
              || (op.path, op.verb) in KNOWN_EXCEPTIONS || op.verb !in WRITES || op.fields == []
              || Fits(spec, op, Elems(op.fields))
  {
  }

  lemma WrittenOperation(spec: Spec, tag: string, res: ResourceSpec, op: Record)
    requires spec.Valid() && res.Derived(spec, tag) && op in res.Operations()
    ensures op.path in spec.paths && op.verb in spec.paths[op.path]
    ensures ProblemWith(spec, op) == None <==> op.verb !in {POST, PATCH} || Fits(spec, op, Elems(res.writableFields))
  {
    OperationsExist(spec, tag, res, op);
    OperationShape(res, op);
    FieldsDecide(spec, op);
    NothingIn(op.fields);
  }

  lemma HasIsAllows(spec: Spec, tag: string, res: ResourceSpec, path: Option<string>, verb: Verb)
    requires spec.Valid() && res.methods == Methods(spec, tag, |spec.order|)
    ensures res.Has(path, verb) <==> Allows(spec, tag, path, verb)
  {
    if path.Some? {
      MethodsOfPath(spec, tag, path.value);
    }
  }

  /** The operation whose body the fields were taken from: the create, else the update. */
  predicate IsSource(res: ResourceSpec, op: Record)
    reads res
  {
    op.name == Create || (op.name == Update && !res.Has(res.listPath, POST))
  }

  /** What the body of an operation is after one reference has been followed. */
  function Target(spec: Spec, op: Record): Schema
    requires op.path in spec.paths && op.verb in spec.paths[op.path]
  {
    Resolve(spec.components, BodySchema(spec.paths[op.path][op.verb]))
  }

  /** The names the validator finds from there: a further reference is not followed. */
  function OwnNames(components: Components, target: Schema): set<string> {
    NamesIn([target] + PreorderAll(components, Subs(target), 1))
  }

  /**
   Fields fit the body they were taken from: it leads no further, or what it has beside the
   further reference names them all.
   */
  predicate FitsItself(spec: Spec, op: Record, fields: set<string>)
    requires op.path in spec.paths && op.verb in spec.paths[op.path]
  {
    var target := Target(spec, op);
    Resolve(spec.components, target) == target || fields <= OwnNames(spec.components, target)
  }

  lemma SourceOf(spec: Spec, tag: string, res: ResourceSpec, op: Record)
    requires spec.Valid() && res.Derived(spec, tag) && op in res.Operations() && IsSource(res, op)
    ensures op.path in spec.paths && op.verb in spec.paths[op.path] && op.verb in {POST, PATCH}
    ensures res.properties == FirstMetas(spec.components, Preorder(spec.components, Target(spec, op), 0))
    ensures Elems(res.writableFields) <= NamesIn(Preorder(spec.components, Target(spec, op), 0))
  {
    OperationsExist(spec, tag, res, op);
    OperationShape(res, op);
    HasIsAllows(spec, tag, res, res.listPath, POST);
    HasIsAllows(spec, tag, res, res.detailPath, PATCH);
    assert SourceSchema(spec, tag, res.listPath, res.detailPath) == Target(spec, op);
    MetasAreNames(spec.components, Preorder(spec.components, Target(spec, op), 0));
    assert Elems(res.writableFields) <= res.properties.Keys;
  }

  /** An operation that the fields were taken from passes exactly when they fit it. */
  lemma SourcePassesIff(spec: Spec, tag: string, res: ResourceSpec, op: Record)
    requires spec.Valid() && res.Derived(spec, tag) && op in res.Operations() && IsSource(res, op)
    ensures op.path in spec.paths && op.verb in spec.paths[op.path]
    ensures ProblemWith(spec, op) == None <==> FitsItself(spec, op, Elems(res.writableFields))
  {
    WrittenOperation(spec, tag, res, op);
    SourceOf(spec, tag, res, op);
    var schema, target := BodySchema(spec.paths[op.path][op.verb]), Target(spec, op);
    assert Preorder(spec.components, schema, 0) == [target] + PreorderAll(spec.components, Subs(target), 1);
    if Resolve(spec.components, target) == target {
      assert Preorder(spec.components, target, 0) == Preorder(spec.components, schema, 0);
    }
  }

  /** A reference has nothing beside it. */
  predicate Alone(schema: Schema) {
    schema.ref != None ==> schema.properties == map[] && Subs(schema) == []
  }

  /** Where references stand alone: the fields fit exactly when the body leads no further, or there are none. */
  lemma AloneFitsIff(spec: Spec, tag: string, res: ResourceSpec, op: Record)
    requires spec.Valid() && res.Derived(spec, tag) && op in res.Operations() && IsSource(res, op)
    requires op.path in spec.paths && op.verb in spec.paths[op.path] && Alone(Target(spec, op))
    ensures FitsItself(spec, op, Elems(res.writableFields)) <==>
              Target(spec, op).ref == None || res.writableFields == []
  {
    var target := Target(spec, op);
    SourceOf(spec, tag, res, op);
    NothingIn(res.writableFields);
    if target.ref != None {
      assert PreorderAll(spec.components, Subs(target), 1) == [];
      assert [target] + [] == [target] && NamesIn([target]) == {};
      if Resolve(spec.components, target) == target {
        assert Preorder(spec.components, target, 0) == [target];
      }
    }
  }

  /** What it takes for one generated operation to pass the validator. */
  predicate PassesWhen(spec: Spec, res: ResourceSpec, op: Record)
    reads res
    requires op.path in spec.paths && op.verb in spec.paths[op.path]
  {
    match op.name
    case Create => FitsItself(spec, op, Elems(res.writableFields))
    case Update =>
      if res.Has(res.listPath, POST) then Fits(spec, op, Elems(res.writableFields))
      else FitsItself(spec, op, Elems(res.writableFields))
    case _ => true
  }

  lemma OperationPassesIff(spec: Spec, tag: string, res: ResourceSpec, op: Record)
    requires spec.Valid() && res.Derived(spec, tag) && op in res.Operations()
    ensures op.path in spec.paths && op.verb in spec.paths[op.path]
    ensures ProblemWith(spec, op) == None <==> PassesWhen(spec, res, op)
  {
    OperationShape(res, op);
    WrittenOperation(spec, tag, res, op);
    if IsSource(res, op) {
      SourcePassesIff(spec, tag, res, op);
    }
  }

  /**
   What the generator derives for a tag passes the validator exactly when the fields fit the
   body they were taken from and, for an update beside a create, the body declared for it. The
   deletes and reads always pass.
   */
  lemma GeneratedPasses(spec: Spec, tag: string, res: ResourceSpec)
    requires spec.Valid() && res.Derived(spec, tag)
    ensures forall op | op in res.Operations() :: op.path in spec.paths && op.verb in spec.paths[op.path]
    ensures Problems(spec, res.Operations()) == [] <==>
              forall op | op in res.Operations() :: PassesWhen(spec, res, op)
  {
    var ops := res.Operations();
    NoProblems(spec, ops);
    forall op | op in ops
      ensures op.path in spec.paths && op.verb in spec.paths[op.path]
      ensures ProblemWith(spec, op) == None <==> PassesWhen(spec, res, op)
    {
      OperationPassesIff(spec, tag, res, op);
    }
    assert forall i | 0 <= i < |ops| :: ops[i] in ops;
  }

  /**
   A body whose component is itself a reference and nothing else: the generator follows both
   references, the validator one, so every field the generator writes is unknown.
   */
  lemma BareReferenceFails(spec: Spec, tag: string, res: ResourceSpec, op: Record)
    requires spec.Valid() && res.Derived(spec, tag) && op in res.Operations() && IsSource(res, op)
    requires op.path in spec.paths && op.verb in spec.paths[op.path]
    requires Target(spec, op).ref != None && Alone(Target(spec, op))
    ensures ProblemWith(spec, op) ==
            if res.writableFields == [] then None else Some(UnknownFields(Elems(res.writableFields)))
  {
    var target := Target(spec, op);
    OperationShape(res, op);
    assert PreorderAll(spec.components, Subs(target), 1) == [];
    assert Preorder(spec.components, BodySchema(spec.paths[op.path][op.verb]), 0) == [target];
    assert NamesIn([target]) == {};
    AllUnknown(spec, op);
  }

  lemma AllUnknown(spec: Spec, op: Record)
    requires op.verb in {POST, PATCH} && op.path in spec.paths && op.verb in spec.paths[op.path]
    requires BodyFields(spec, spec.paths[op.path][op.verb]) == Some({})
    ensures ProblemWith(spec, op) == if op.fields == [] then None else Some(UnknownFields(Elems(op.fields)))
  {
    NothingIn(op.fields);
    assert Elems(op.fields) - {} == Elems(op.fields);
    assert Elems(op.fields) <= {} <==> op.fields == [];
  }

  /** The smallest such case: one component that refers to another with one property. */
  lemma TwoReferencesShowTheDifference(property: Schema)
    ensures var body := NO_SCHEMA.(ref := Some("#/components/schemas/A"));
            var components: Components :=
              map["A" := NO_SCHEMA.(ref := Some("#/components/schemas/B")),
                  "B" := NO_SCHEMA.(properties := map["name" := property])];
            && NamesIn(Preorder(components, body, 0)) == {}
            && NamesIn(Preorder(components, Resolve(components, body), 0)) == {"name"}
  {
    var b := NO_SCHEMA.(properties := map["name" := property]);
    var a := NO_SCHEMA.(ref := Some("#/components/schemas/B"));
    var body := NO_SCHEMA.(ref := Some("#/components/schemas/A"));
    var components: Components := map["A" := a, "B" := b];
    Segment("#/components/schemas/", 'A');
    Segment("#/components/schemas/", 'B');
    assert SCHEMAS + ['A'] == "#/components/schemas/A" && SCHEMAS + ['B'] == "#/components/schemas/B";
    assert Resolve(components, body) == a && Resolve(components, a) == b;
    assert Subs(a) == [] && Subs(b) == [];
    assert Preorder(components, body, 0) == [a] && Preorder(components, a, 0) == [b];
    assert NamesIn([b]) == b.properties.Keys;
  }

  lemma Segment(prefix: string, c: char)
    requires prefix != "" && prefix[|prefix| - 1] == '/' && c != '/'
    ensures LastSegment(prefix + [c]) == [c]
  {
    assert (prefix + [c])[..|prefix|] == prefix;
    assert LastSegment(prefix) == "";
  }

  /** Generating for a tag and validating the result: what is reported is what does not fit. */
  method GenerateAndValidate(spec: Spec, tag: string) returns (res: ResourceSpec, errors: seq<(Record, Problem)>)
    requires spec.Valid()
    ensures res.Derived(spec, tag) && errors == Problems(spec, res.Operations())
    ensures forall op | op in res.Operations() :: op.path in spec.paths && op.verb in spec.paths[op.path]
    ensures forall e | e in errors :: e.0 in res.Operations() && !PassesWhen(spec, res, e.0)
    ensures errors == [] <==> forall op | op in res.Operations() :: PassesWhen(spec, res, op)
  {
    res := new ResourceSpec(spec, tag);
    var index := BuildSpecIndex(spec);
    errors := Validate(spec, res.Operations(), index);
    ReportedOnly(spec, res.Operations());
    GeneratedPasses(spec, tag, res);
    forall e | e in errors ensures e.0 in res.Operations() && !PassesWhen(spec, res, e.0) {
      OperationPassesIff(spec, tag, res, e.0);
    }
  }

  lemma {:induction false} ReportedOnly(spec: Spec, ops: seq<Record>)
    ensures forall e | e in Problems(spec, ops) :: e.0 in ops && ProblemWith(spec, e.0) == Some(e.1)
  {
    if ops != [] {
      ReportedOnly(spec, ops[..|ops| - 1]);
    }
  }
}
