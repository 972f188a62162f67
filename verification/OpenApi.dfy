/** The OpenAPI generator: hoisting of model definitions and the references it emits. */
module OpenApi {
  import opened Wrappers

  /** A JSON value; `Other` stands for the primitives that are not strings. */
  datatype Json = Str(s: string) | Other | Arr(items: seq<Json>) | Obj(fields: seq<Field>)
  datatype Field = Field(key: string, value: Json)

  const REF := "$ref"
  const DEFS := "#/$defs/"
  const COMPONENTS := "#/components/schemas/"

  /** `r` is the text of a reference somewhere in `j`. */
  ghost predicate HasRef(j: Json, r: string)
    decreases j, 1
  {
    match j
    case Arr(items) => exists i :: 0 <= i < |items| && HasRef(items[i], r)
    case Obj(fields) => exists i :: 0 <= i < |fields| && FieldHasRef(fields[i], r)
    case _ => false
  }

  ghost predicate FieldHasRef(f: Field, r: string)
    decreases f, 0
  {
    (f.key == REF && f.value == Str(r)) || HasRef(f.value, r)
  }

  // ---- Rewriting ----

  function Replace(s: string, before: string, after: string): string
    requires before != ""
  {
    if s == "" then ""
    else if before <= s then after + Replace(s[|before|..], before, after)
    else [s[0]] + Replace(s[1..], before, after)
  }

  function Moved(r: string): string {
    if DEFS <= r then Replace(r, DEFS, COMPONENTS) else r
  }

  function RewriteRefs(j: Json): Json
    decreases j, 1
  {
    match j
    case Arr(items) => Arr(seq(|items|, i requires 0 <= i < |items| => RewriteRefs(items[i])))
    case Obj(fields) => Obj(seq(|fields|, i requires 0 <= i < |fields| => RewriteField(fields[i])))
    case _ => j
  }

  function RewriteField(f: Field): Field
    decreases f, 0
  {
    if f.key == REF && f.value.Str? && DEFS <= f.value.s then Field(f.key, Str(Moved(f.value.s)))
    else Field(f.key, RewriteRefs(f.value))
  }

  /** The references after rewriting are the references before it, each moved. */
  lemma {:induction false} RewriteMoves(j: Json, r: string)
    ensures HasRef(RewriteRefs(j), r) <==> exists q :: HasRef(j, q) && r == Moved(q)
    decreases j, 1
  {
    hide Moved;
    match j
    case Arr(items) =>
      forall i | 0 <= i < |items|
        ensures HasRef(RewriteRefs(items[i]), r) <==> exists q :: HasRef(items[i], q) && r == Moved(q)
      {
        RewriteMoves(items[i], r);
      }
      if q :| HasRef(j, q) && r == Moved(q) {
        var i :| 0 <= i < |items| && HasRef(items[i], q);
        assert HasRef(RewriteRefs(j).items[i], r);
      }
    case Obj(fields) =>
      forall i | 0 <= i < |fields|
        ensures FieldHasRef(RewriteField(fields[i]), r) <==> exists q :: FieldHasRef(fields[i], q) && r == Moved(q)
      {
        FieldMoves(fields[i], r);
      }
      if q :| HasRef(j, q) && r == Moved(q) {
        var i :| 0 <= i < |fields| && FieldHasRef(fields[i], q);
        assert FieldHasRef(RewriteRefs(j).fields[i], r);
      }
    case _ =>
  }

  lemma {:induction false} FieldMoves(f: Field, r: string)
    ensures FieldHasRef(RewriteField(f), r) <==> exists q :: FieldHasRef(f, q) && r == Moved(q)
    decreases f, 0
  {
    RewriteMoves(f.value, r);
    if f.key == REF && f.value.Str? {
      assert FieldHasRef(f, f.value.s);
    }
  }

  lemma {:induction false} ReplaceNothing(s: string)
    requires '#' !in s
    ensures Replace(s, DEFS, COMPONENTS) == s
  {
    if s != "" {
      assert s[0] in s;
      ReplaceNothing(s[1..]);
    }
  }

  lemma MovedDefinition(name: string)
    requires '#' !in name
    ensures Moved(DEFS + name) == COMPONENTS + name
  {
    ReplaceNothing(name);
    assert (DEFS + name)[|DEFS|..] == name;
  }

  /** Rewriting leaves nothing for a second rewriting to do. */
  lemma {:induction false} RewriteIdempotent(j: Json)
    ensures RewriteRefs(RewriteRefs(j)) == RewriteRefs(j)
    decreases j, 1
  {
    match j
    case Arr(items) =>
      forall i | 0 <= i < |items| ensures RewriteRefs(RewriteRefs(items[i])) == RewriteRefs(items[i]) {
        RewriteIdempotent(items[i]);
      }
    case Obj(fields) =>
      forall i | 0 <= i < |fields| ensures RewriteField(RewriteField(fields[i])) == RewriteField(fields[i]) {
        RewriteFieldIdempotent(fields[i]);
      }
    case _ =>
  }

  lemma {:induction false} RewriteFieldIdempotent(f: Field)
    ensures RewriteField(RewriteField(f)) == RewriteField(f)
    decreases f, 0
  {
    RewriteIdempotent(f.value);
    assert COMPONENTS[2] != DEFS[2];
  }

  // ---- Registering models ----

  /** A model by its schema: the entries of `$defs`, and the schema without them. */
  datatype Model = Model(name: string, defs: seq<Field>, body: seq<Field>)

  type Schemas = map<string, Json>

  ghost predicate Names(defs: seq<Field>, name: string) {
    exists i :: 0 <= i < |defs| && defs[i].key == name
  }

  /** Every reference in the model's schema names one of its own definitions. */
  ghost predicate SelfContained(m: Model) {
    && (forall r :: HasRef(Obj(m.body), r) ==> NamesDefinition(m, r))
    && (forall i, r :: 0 <= i < |m.defs| && HasRef(m.defs[i].value, r) ==> NamesDefinition(m, r))
  }

  ghost predicate NamesDefinition(m: Model, r: string) {
    exists name :: Names(m.defs, name) && '#' !in name && r == DEFS + name
  }

  function Hoisted(schemas: Schemas, defs: seq<Field>): Schemas
    decreases |defs|
  {
    if defs == [] then schemas
    else
      var before, last := Hoisted(schemas, defs[..|defs| - 1]), defs[|defs| - 1];
      if last.key in before then before else before[last.key := RewriteRefs(last.value)]
  }

  function Registered(schemas: Schemas, m: Model): Schemas {
    if m.name in schemas then schemas else Hoisted(schemas, m.defs)[m.name := RewriteRefs(Obj(m.body))]
  }

  /** A reference names a component. */
  ghost predicate Resolves(schemas: Schemas, r: string) {
    exists name :: name in schemas && r == COMPONENTS + name
  }

  ghost predicate AllResolve(schemas: Schemas, j: Json) {
    forall r :: HasRef(j, r) ==> Resolves(schemas, r)
  }

  ghost predicate Closed(schemas: Schemas) {
    forall name :: name in schemas ==> AllResolve(schemas, schemas[name])
  }

  /** Components are added, never changed or removed. */
  ghost predicate Extends(more: Schemas, schemas: Schemas) {
    forall name :: name in schemas ==> name in more && more[name] == schemas[name]
  }

  lemma {:induction false} HoistedEntries(schemas: Schemas, defs: seq<Field>)
    ensures var h := Hoisted(schemas, defs);
      && Extends(h, schemas)
      && (forall name :: name in h ==> name in schemas || exists i :: 0 <= i < |defs| && defs[i].key == name && h[name] == RewriteRefs(defs[i].value))
      && (forall name :: Names(defs, name) ==> name in h)
    decreases |defs|
  {
    hide RewriteRefs;
    if defs != [] {
      var front := defs[..|defs| - 1];
      HoistedEntries(schemas, front);
      var h := Hoisted(schemas, front);
      forall name | Names(defs, name) ensures name in Hoisted(schemas, defs) {
        var i :| 0 <= i < |defs| && defs[i].key == name;
        if i < |front| { assert front[i].key == name; assert Names(front, name); }
      }
      forall name | name in h && name !in schemas
        ensures exists i :: 0 <= i < |defs| && defs[i].key == name && h[name] == RewriteRefs(defs[i].value)
      {
        var i :| 0 <= i < |front| && front[i].key == name && h[name] == RewriteRefs(front[i].value);
        assert defs[i] == front[i];
      }
    }
  }

  /** Rewriting a self-contained schema gives references to components that hold its definitions. */
  lemma RewrittenResolves(m: Model, j: Json, schemas: Schemas)
    requires forall r :: HasRef(j, r) ==> NamesDefinition(m, r)
    requires forall name :: Names(m.defs, name) ==> name in schemas
    ensures AllResolve(schemas, RewriteRefs(j))
  {
    hide HasRef, RewriteRefs, Moved;
    forall r | HasRef(RewriteRefs(j), r) ensures Resolves(schemas, r) {
      RewriteMoves(j, r);
      var q :| HasRef(j, q) && r == Moved(q);
      var name :| Names(m.defs, name) && '#' !in name && q == DEFS + name;
      MovedDefinition(name);
    }
  }

  lemma StillResolves(schemas: Schemas, more: Schemas, j: Json)
    requires AllResolve(schemas, j) && forall name :: name in schemas ==> name in more
    ensures AllResolve(more, j)
  {
  }

  /** Registering a self-contained model keeps the components closed, whatever names were taken. */
  lemma RegisteredClosed(schemas: Schemas, m: Model)
    requires Closed(schemas) && SelfContained(m)
    ensures Closed(Registered(schemas, m)) && m.name in Registered(schemas, m)
    ensures Extends(Registered(schemas, m), schemas)
    ensures Registered(Registered(schemas, m), m) == Registered(schemas, m)
  {
    hide HasRef, RewriteRefs, Hoisted, AllResolve;
    if m.name !in schemas {
      HoistedEntries(schemas, m.defs);
      var h, all := Hoisted(schemas, m.defs), Registered(schemas, m);
      forall name | name in all ensures AllResolve(all, all[name]) {
        if name == m.name {
          RewrittenResolves(m, Obj(m.body), all);
        } else if name in schemas {
          StillResolves(schemas, all, schemas[name]);
        } else {
          var i :| 0 <= i < |m.defs| && m.defs[i].key == name && h[name] == RewriteRefs(m.defs[i].value);
          RewrittenResolves(m, m.defs[i].value, all);
        }
      }
    }
  }

  // ---- The standard validation schemas ----

  function Typed(title: string, typ: string, extra: seq<Field>): Json {
    Obj([Field("title", Str(title)), Field("type", Str(typ))] + extra)
  }

  const LOC := Typed("Location", "array",
    [Field("items", Obj([Field("anyOf", Arr([Obj([Field("type", Str("string"))]), Obj([Field("type", Str("integer"))])]))]))])

  const ITEM := Obj([
    Field("type", Str("object")),
    Field("properties", Obj([Field("loc", LOC), Field("msg", Typed("Message", "string", [])), Field("type", Typed("Error Type", "string", []))])),
    Field("required", Arr([Str("loc"), Str("msg"), Str("type")]))])

  const VALIDATION_ERROR := Typed("ValidationError", "object", [
    Field("properties", Obj([Field("detail", Typed("Detail", "array", [Field("items", ITEM)]))])),
    Field("required", Arr([Str("detail")]))])

  const HTTP_VALIDATION_ERROR := Typed("HTTPValidationError", "object", [
    Field("properties", Obj([Field("detail", Typed("Detail", "array", [Field("items", Reference("ValidationError"))]))]))])

  function Reference(name: string): Json {
    Obj([Field(REF, Str(COMPONENTS + name))])
  }

  function WithValidation(schemas: Schemas): Schemas {
    var s := if "ValidationError" in schemas then schemas else schemas["ValidationError" := VALIDATION_ERROR];
    if "HTTPValidationError" in s then s else s["HTTPValidationError" := HTTP_VALIDATION_ERROR]
  }

  lemma OneField(f: Field, r: string)
    ensures HasRef(Obj([f]), r) <==> FieldHasRef(f, r)
  {
    assert [f][0] == f;
  }

  lemma MoreFields(a: seq<Field>, b: seq<Field>, r: string)
    ensures HasRef(Obj(a + b), r) <==> HasRef(Obj(a), r) || HasRef(Obj(b), r)
    ensures !HasRef(Obj([]), r)
  {
    forall i | 0 <= i < |b| ensures (a + b)[|a| + i] == b[i] {}
    forall i | 0 <= i < |a| ensures (a + b)[i] == a[i] {}
    if HasRef(Obj(a), r) {
      var i :| 0 <= i < |a| && FieldHasRef(a[i], r);
      assert FieldHasRef((a + b)[i], r);
    }
    if HasRef(Obj(b), r) {
      var i :| 0 <= i < |b| && FieldHasRef(b[i], r);
      assert FieldHasRef((a + b)[|a| + i], r);
    }
  }

  /** A field that is not itself a reference has the references of its value. */
  lemma PlainField(key: string, value: Json, r: string)
    requires key != REF || !value.Str?
    ensures HasRef(Obj([Field(key, value)]), r) <==> HasRef(value, r)
  {
    OneField(Field(key, value), r);
  }

  lemma TypedRefs(title: string, typ: string, extra: seq<Field>, r: string)
    ensures HasRef(Typed(title, typ, extra), r) <==> HasRef(Obj(extra), r)
  {
    hide HasRef;
    var a, b := Field("title", Str(title)), Field("type", Str(typ));
    assert a.key[0] != REF[0] && b.key[0] != REF[0];
    PlainField("title", Str(title), r);
    PlainField("type", Str(typ), r);
    NoRefs(r);
    MoreFields([a], [b], r);
    MoreFields([a, b], extra, r);
    assert [a] + [b] == [a, b];
  }

  lemma NoRefs(r: string)
    ensures forall s :: !HasRef(Str(s), r)
  {
  }

  lemma ReferenceRef(name: string, r: string)
    ensures HasRef(Reference(name), r) <==> r == COMPONENTS + name
  {
    OneField(Field(REF, Str(COMPONENTS + name)), r);
  }

  lemma StringsRefs(items: seq<Json>, r: string)
    requires forall i :: 0 <= i < |items| ==> items[i].Str?
    ensures !HasRef(Arr(items), r)
  {
  }

  lemma LocRefs(r: string)
    ensures !HasRef(LOC, r)
  {
  }

  lemma ItemRefs(r: string)
    ensures !HasRef(ITEM, r)
  {
    hide HasRef, Typed;
    var msg, typ := Typed("Message", "string", []), Typed("Error Type", "string", []);
    var loc, msgs, typs := [Field("loc", LOC)], [Field("msg", msg)], [Field("type", typ)];
    var required := Arr([Str("loc"), Str("msg"), Str("type")]);
    LocRefs(r);
    NoRefs(r);
    MoreFields([], [], r);
    TypedRefs("Message", "string", [], r);
    TypedRefs("Error Type", "string", [], r);
    PlainField("loc", LOC, r);
    PlainField("msg", msg, r);
    PlainField("type", typ, r);
    MoreFields(loc, msgs, r);
    MoreFields(loc + msgs, typs, r);
    StringsRefs(required.items, r);
    PlainField("type", Str("object"), r);
    PlainField("properties", Obj(loc + msgs + typs), r);
    PlainField("required", required, r);
    MoreFields([Field("type", Str("object"))], [Field("properties", Obj(loc + msgs + typs))], r);
    MoreFields([Field("type", Str("object"))] + [Field("properties", Obj(loc + msgs + typs))], [Field("required", required)], r);
    assert loc + msgs + typs == [Field("loc", LOC), Field("msg", msg), Field("type", typ)];
    assert [Field("type", Str("object"))] + [Field("properties", Obj(loc + msgs + typs))] + [Field("required", required)] == ITEM.fields;
  }

  /** Only the outer validation schema refers to a component, and it refers to the inner one. */
  lemma ValidationRefs(r: string)
    ensures !HasRef(VALIDATION_ERROR, r)
    ensures HasRef(HTTP_VALIDATION_ERROR, r) <==> r == COMPONENTS + "ValidationError"
  {
    hide HasRef, Typed;
    ItemRefs(r);
    ReferenceRef("ValidationError", r);
    DetailRefs(ITEM, r);
    DetailRefs(Reference("ValidationError"), r);
    var properties := Field("properties", Obj([Field("detail", Typed("Detail", "array", [Field("items", ITEM)]))]));
    var required := Arr([Str("detail")]);
    StringsRefs(required.items, r);
    PlainField("required", required, r);
    MoreFields([properties], [Field("required", required)], r);
    assert [properties] + [Field("required", required)] == [properties, Field("required", required)];
    TypedRefs("ValidationError", "object", [properties, Field("required", required)], r);
    TypedRefs("HTTPValidationError", "object",
      [Field("properties", Obj([Field("detail", Typed("Detail", "array", [Field("items", Reference("ValidationError"))]))]))], r);
  }

  lemma DetailRefs(items: Json, r: string)
    requires !items.Str?
    ensures HasRef(Obj([Field("properties", Obj([Field("detail", Typed("Detail", "array", [Field("items", items)]))]))]), r) <==> HasRef(items, r)
  {
    hide HasRef;
    var detail := Typed("Detail", "array", [Field("items", items)]);
    PlainField("items", items, r);
    TypedRefs("Detail", "array", [Field("items", items)], r);
    PlainField("detail", detail, r);
    PlainField("properties", Obj([Field("detail", detail)]), r);
  }

  lemma ValidationClosed(schemas: Schemas)
    requires Closed(schemas)
    ensures Closed(WithValidation(schemas)) && "HTTPValidationError" in WithValidation(schemas)
    ensures Extends(WithValidation(schemas), schemas)
  {
    hide HasRef, Typed, AllResolve;
    var all := WithValidation(schemas);
    forall name | name in all ensures AllResolve(all, all[name]) {
      if name in schemas {
        StillResolves(schemas, all, schemas[name]);
      } else {
        ValidationResolves(all);
      }
    }
  }

  lemma ValidationResolves(schemas: Schemas)
    requires "ValidationError" in schemas
    ensures AllResolve(schemas, VALIDATION_ERROR) && AllResolve(schemas, HTTP_VALIDATION_ERROR)
  {
    hide HasRef;
    forall r ensures HasRef(VALIDATION_ERROR, r) || HasRef(HTTP_VALIDATION_ERROR, r) ==> Resolves(schemas, r) {
      ValidationRefs(r);
    }
  }

  // ---- Operations ----

  datatype Returned = Nothing | One(model: Model) | Many(model: Model) | Untyped

  /** A route; `status` is the decimal text of its status code. Empty texts are absent. */
  datatype Route = Route(
    path: string, verb: string, handler: string, status: string, returned: Returned, body: Option<Model>,
    parameters: seq<Json>, tag: string, summary: string, description: string, deprecated: bool)

  /** `d[key] = value`. */
  function Assign(fields: seq<Field>, key: string, value: Json): seq<Field> {
    if fields == [] then [Field(key, value)]
    else if fields[0].key == key then [Field(key, value)] + fields[1..]
    else [fields[0]] + Assign(fields[1..], key, value)
  }

  function Content(schema: Json): Json {
    Obj([Field("application/json", Obj([Field("schema", schema)]))])
  }

  function Response(description: string, schema: Option<Json>): Json {
    Obj([Field("description", Str(description))] + if schema.Some? then [Field("content", Content(schema.value))] else [])
  }

  function ListOf(schema: Json): Json {
    Obj([Field("type", Str("array"))] + [Field("items", schema)])
  }

  function Success(route: Route): Json {
    if route.status == "204" then Response("No Content", None)
    else
      match route.returned
      case One(m) => Response("Successful response", Some(Reference(m.name)))
      case Many(m) => Response("Successful response", Some(ListOf(Reference(m.name))))
      case _ => Response("Successful response", None)
  }

  function Responses(route: Route): seq<Field> {
    var responses := [Field(route.status, Success(route))];
    if route.body.Some? then Assign(responses, "422", Response("Validation Error", Some(Reference("HTTPValidationError"))))
    else responses
  }

  function RequestBody(m: Model): Json {
    Obj([Field("required", Other)] + [Field("content", Content(Reference(m.name)))])
  }

  function Texts(route: Route): seq<Field> {
    (if route.tag != "" then [Field("tags", Arr([Str(route.tag)]))] else [])
    + (if route.summary != "" then [Field("summary", Str(route.summary))] else [])
    + (if route.description != "" then [Field("description", Str(route.description))] else [])
    + (if route.deprecated then [Field("deprecated", Other)] else [])
  }

  function Operation(route: Route): Json {
    Obj([Field("operationId", Str(route.handler))] + [Field("responses", Obj(Responses(route)))]
        + Texts(route)
        + (if route.parameters != [] then [Field("parameters", Arr(route.parameters))] else [])
        + (if route.body.Some? then [Field("requestBody", RequestBody(route.body.value))] else []))
  }

  /** The components the responses refer to; a 422 status of the route's own gives way to the validation error. */
  function ResponseNames(route: Route): set<string> {
    (if route.status != "204" && (route.returned.One? || route.returned.Many?) && !(route.body.Some? && route.status == "422")
     then {route.returned.model.name} else {})
    + (if route.body.Some? then {"HTTPValidationError"} else {})
  }

  /** The components an operation refers to. */
  function Referenced(route: Route): set<string> {
    ResponseNames(route) + (if route.body.Some? then {route.body.value.name} else {})
  }

  function ReturnRegistered(schemas: Schemas, route: Route): Schemas {
    if route.status != "204" && (route.returned.One? || route.returned.Many?) then Registered(schemas, route.returned.model)
    else schemas
  }

  function ResponsesRegistered(schemas: Schemas, route: Route): Schemas {
    var s := ReturnRegistered(schemas, route);
    if route.body.Some? then WithValidation(s) else s
  }

  function AfterRoute(schemas: Schemas, route: Route): Schemas {
    var s := ResponsesRegistered(schemas, route);
    if route.body.Some? then Registered(s, route.body.value) else s
  }

  function AllSchemas(routes: seq<Route>): Schemas
    decreases |routes|
  {
    if routes == [] then map[] else AfterRoute(AllSchemas(routes[..|routes| - 1]), routes[|routes| - 1])
  }

  type Paths = map<string, map<string, Json>>

  function WithOperation(paths: Paths, route: Route): Paths {
    paths[route.path := (if route.path in paths then paths[route.path] else map[])[route.verb := Operation(route)]]
  }

  function AllPaths(routes: seq<Route>): Paths
    decreases |routes|
  {
    if routes == [] then map[] else WithOperation(AllPaths(routes[..|routes| - 1]), routes[|routes| - 1])
  }

  // ---- What operations refer to ----

  ghost predicate NamesOne(names: set<string>, r: string) {
    exists name :: name in names && r == COMPONENTS + name
  }

  ghost predicate RefersTo(j: Json, names: set<string>) {
    forall r :: HasRef(j, r) <==> NamesOne(names, r)
  }

  /** The schemas of the models are self-contained, and the parameters free of references. */
  ghost predicate Proper(route: Route) {
    && ((route.returned.One? || route.returned.Many?) ==> SelfContained(route.returned.model))
    && (route.body.Some? ==> SelfContained(route.body.value))
    && (forall r :: !HasRef(Arr(route.parameters), r))
  }

  lemma ResponseRefs(description: string, schema: Option<Json>, r: string)
    requires schema.Some? ==> !schema.value.Str?
    ensures HasRef(Response(description, schema), r) <==> schema.Some? && HasRef(schema.value, r)
  {
    hide HasRef, Content;
    NoRefs(r);
    PlainField("description", Str(description), r);
    MoreFields([Field("description", Str(description))], [], r);
    if schema.Some? {
      ContentRefs(schema.value, r);
      PlainField("content", Content(schema.value), r);
      MoreFields([Field("description", Str(description))], [Field("content", Content(schema.value))], r);
    }
  }

  lemma ContentRefs(schema: Json, r: string)
    requires !schema.Str?
    ensures HasRef(Content(schema), r) <==> HasRef(schema, r)
    ensures !Content(schema).Str?
  {
    hide HasRef;
    PlainField("schema", schema, r);
    PlainField("application/json", Obj([Field("schema", schema)]), r);
  }

  lemma SuccessRefs(route: Route, r: string)
    ensures HasRef(Success(route), r) <==>
      route.status != "204" && (route.returned.One? || route.returned.Many?) && r == COMPONENTS + route.returned.model.name
    ensures !Success(route).Str?
  {
    hide HasRef;
    ResponseRefs("No Content", None, r);
    ResponseRefs("Successful response", None, r);
    if route.returned.One? || route.returned.Many? {
      var ref := Reference(route.returned.model.name);
      ReferenceRef(route.returned.model.name, r);
      ResponseRefs("Successful response", Some(ref), r);
      NoRefs(r);
      PlainField("type", Str("array"), r);
      PlainField("items", ref, r);
      MoreFields([Field("type", Str("array"))], [Field("items", ref)], r);
      ResponseRefs("Successful response", Some(ListOf(ref)), r);
    }
  }

  lemma AssignOne(k: string, v: Json, key: string, value: Json)
    ensures Assign([Field(k, v)], key, value) == if k == key then [Field(key, value)] else [Field(k, v)] + [Field(key, value)]
  {
    assert [Field(k, v)][1..] == [];
  }

  lemma ResponsesRefs(route: Route, r: string)
    ensures HasRef(Obj(Responses(route)), r) <==> NamesOne(ResponseNames(route), r)
  {
    hide HasRef, FieldHasRef, Success, Assign;
    SuccessRefs(route, r);
    var success := Success(route);
    PlainField(route.status, success, r);
    if route.body.Some? {
      var invalid := Response("Validation Error", Some(Reference("HTTPValidationError")));
      AssignOne(route.status, success, "422", invalid);
      ReferenceRef("HTTPValidationError", r);
      ResponseRefs("Validation Error", Some(Reference("HTTPValidationError")), r);
      PlainField("422", invalid, r);
      MoreFields([Field(route.status, success)], [Field("422", invalid)], r);
    }
  }

  lemma TextsRefs(route: Route, r: string)
    ensures !HasRef(Obj(Texts(route)), r)
  {
    hide HasRef;
    NoRefs(r);
    StringsRefs([Str(route.tag)], r);
    OtherRefs(r);
    var tags, summary := Field("tags", Arr([Str(route.tag)])), Field("summary", Str(route.summary));
    var description, deprecated := Field("description", Str(route.description)), Field("deprecated", Other);
    PlainField(tags.key, tags.value, r);
    PlainField(summary.key, summary.value, r);
    PlainField(description.key, description.value, r);
    PlainField(deprecated.key, deprecated.value, r);
    var a := if route.tag != "" then [tags] else [];
    var b := if route.summary != "" then [summary] else [];
    var c := if route.description != "" then [description] else [];
    var d := if route.deprecated then [deprecated] else [];
    MoreFields(a, b, r);
    MoreFields(a + b, c, r);
    MoreFields(a + b + c, d, r);
  }

  lemma OtherRefs(r: string)
    ensures !HasRef(Other, r)
  {
  }

  lemma RequestBodyRefs(m: Model, r: string)
    ensures HasRef(RequestBody(m), r) <==> r == COMPONENTS + m.name
  {
    hide HasRef, Content;
    OtherRefs(r);
    ReferenceRef(m.name, r);
    ContentRefs(Reference(m.name), r);
    PlainField("required", Other, r);
    PlainField("content", Content(Reference(m.name)), r);
    MoreFields([Field("required", Other)], [Field("content", Content(Reference(m.name)))], r);
  }

  lemma OperationRefs(route: Route)
    requires Proper(route)
    ensures RefersTo(Operation(route), Referenced(route))
  {
    hide HasRef, Referenced, SelfContained, Responses, Texts, RequestBody, Operation, NamesOne;
    forall r ensures HasRef(Operation(route), r) <==> NamesOne(Referenced(route), r) {
      OperationRef(route, r);
    }
  }

  lemma OperationRef(route: Route, r: string)
    requires !HasRef(Arr(route.parameters), r)
    ensures HasRef(Operation(route), r) <==> NamesOne(Referenced(route), r)
  {
    hide HasRef, Responses, ResponseNames, Texts, RequestBody;
    NoRefs(r);
    TextsRefs(route, r);
    var id, responses := [Field("operationId", Str(route.handler))], [Field("responses", Obj(Responses(route)))];
    var parameters := if route.parameters != [] then [Field("parameters", Arr(route.parameters))] else [];
    var body := if route.body.Some? then [Field("requestBody", RequestBody(route.body.value))] else [];
    PlainField("operationId", Str(route.handler), r);
    PlainField("responses", Obj(Responses(route)), r);
    PlainField("parameters", Arr(route.parameters), r);
    MoreFields(id, responses, r);
    MoreFields(id + responses, Texts(route), r);
    MoreFields(id + responses + Texts(route), parameters, r);
    MoreFields(id + responses + Texts(route) + parameters, body, r);
    ResponsesRefs(route, r);
    if route.body.Some? {
      RequestBodyRefs(route.body.value, r);
      PlainField("requestBody", RequestBody(route.body.value), r);
    }
  }

  lemma AfterRouteClosed(schemas: Schemas, route: Route)
    requires Closed(schemas) && Proper(route)
    ensures Closed(AfterRoute(schemas, route)) && Extends(AfterRoute(schemas, route), schemas)
    ensures Referenced(route) <= AfterRoute(schemas, route).Keys
  {
    hide Closed, Registered, WithValidation, SelfContained, HasRef;
    var a := ReturnRegistered(schemas, route);
    if route.status != "204" && (route.returned.One? || route.returned.Many?) {
      RegisteredClosed(schemas, route.returned.model);
    }
    if route.body.Some? {
      ValidationClosed(a);
      RegisteredClosed(WithValidation(a), route.body.value);
    }
  }

  ghost predicate PathsResolve(paths: Paths, schemas: Schemas) {
    forall path, verb :: path in paths && verb in paths[path] ==> AllResolve(schemas, paths[path][verb])
  }

  /** Every reference in the generated paths and components names a component, for any list of routes. */
  lemma {:induction false} EveryReferenceResolves(routes: seq<Route>)
    requires forall i :: 0 <= i < |routes| ==> Proper(routes[i])
    ensures Closed(AllSchemas(routes)) && PathsResolve(AllPaths(routes), AllSchemas(routes))
    decreases |routes|
  {
    hide Closed, AllResolve, Proper, AfterRoute, Operation, Referenced;
    if routes == [] {
      NothingClosed();
    } else {
      var front, last := routes[..|routes| - 1], routes[|routes| - 1];
      EveryReferenceResolves(front);
      var before, schemas := AllSchemas(front), AllSchemas(routes);
      AfterRouteClosed(before, last);
      OperationRefs(last);
      OperationResolves(schemas, Operation(last), Referenced(last));
      var earlier, paths := AllPaths(front), AllPaths(routes);
      forall path, verb | path in paths && verb in paths[path] ensures AllResolve(schemas, paths[path][verb]) {
        if !(path == last.path && verb == last.verb) {
          StillResolves(before, schemas, earlier[path][verb]);
        }
      }
    }
  }

  lemma NothingClosed()
    ensures Closed(map[])
  {
  }

  lemma OperationResolves(schemas: Schemas, j: Json, names: set<string>)
    requires RefersTo(j, names) && names <= schemas.Keys
    ensures AllResolve(schemas, j)
  {
  }

  /** None of them still points into a model's own definitions. */
  lemma NoneLeftBehind(schemas: Schemas, j: Json, r: string)
    requires AllResolve(schemas, j) && HasRef(j, r)
    ensures !(DEFS <= r)
  {
    hide HasRef;
    assert Resolves(schemas, r);
    assert COMPONENTS[2] != DEFS[2];
  }

  // ---- The generator ----

  class OpenAPIGenerator {
    var schemas: Schemas

    constructor ()
      ensures schemas == map[]
    {
      schemas := map[];
    }

    method RegisterModel(model: Model) returns (ref: string)
      modifies this
      ensures schemas == Registered(old(schemas), model) && ref == COMPONENTS + model.name
    {
      hide RewriteRefs;
      if model.name !in schemas {
        for i := 0 to |model.defs|
          invariant schemas == Hoisted(old(schemas), model.defs[..i])
        {
          var def := model.defs[i];
          assert model.defs[..i + 1][..i] == model.defs[..i];
          if def.key !in schemas {
            schemas := schemas[def.key := RewriteRefs(def.value)];
          }
        }
        assert model.defs[..|model.defs|] == model.defs;
        schemas := schemas[model.name := RewriteRefs(Obj(model.body))];
      }
      ref := COMPONENTS + model.name;
    }

    method EnsureValidationSchemas()
      modifies this
      ensures schemas == WithValidation(old(schemas))
    {
      if "ValidationError" !in schemas {
        schemas := schemas["ValidationError" := VALIDATION_ERROR];
      }
      if "HTTPValidationError" !in schemas {
        schemas := schemas["HTTPValidationError" := HTTP_VALIDATION_ERROR];
      }
    }

    method BuildResponses(route: Route) returns (responses: seq<Field>)
      modifies this
      ensures responses == Responses(route) && schemas == ResponsesRegistered(old(schemas), route)
    {
      hide Registered, WithValidation, Response, Assign;
      if route.status == "204" {
        responses := [Field(route.status, Response("No Content", None))];
      } else if route.returned.One? {
        var ref := RegisterModel(route.returned.model);
        responses := [Field(route.status, Response("Successful response", Some(Obj([Field(REF, Str(ref))]))))];
      } else if route.returned.Many? {
        var ref := RegisterModel(route.returned.model);
        responses := [Field(route.status, Response("Successful response", Some(ListOf(Obj([Field(REF, Str(ref))])))))];
      } else {
        responses := [Field(route.status, Response("Successful response", None))];
      }
      if route.body.Some? {
        EnsureValidationSchemas();
        responses := Assign(responses, "422", Response("Validation Error", Some(Reference("HTTPValidationError"))));
      }
    }

    method BuildPaths(routes: seq<Route>) returns (paths: Paths)
      requires schemas == map[]
      modifies this
      ensures paths == AllPaths(routes) && schemas == AllSchemas(routes)
    {
      hide Registered, ResponsesRegistered, Responses, Texts, Content;
      paths := map[];
      for i := 0 to |routes|
        invariant paths == AllPaths(routes[..i]) && schemas == AllSchemas(routes[..i])
      {
        var route := routes[i];
        ghost var before := paths;
        assert routes[..i + 1][..i] == routes[..i];
        if route.path !in paths { paths := paths[route.path := map[]]; }
        var responses := BuildResponses(route);
        var operation := [Field("operationId", Str(route.handler))] + [Field("responses", Obj(responses))] + Texts(route);
        if route.parameters != [] {
          operation := operation + [Field("parameters", Arr(route.parameters))];
        }
        if route.body.Some? {
          var ref := RegisterModel(route.body.value);
          var schema := Obj([Field(REF, Str(ref))]);
          operation := operation + [Field("requestBody", Obj([Field("required", Other)] + [Field("content", Content(schema))]))];
        }
        assert operation == Operation(route).fields;
        paths := paths[route.path := paths[route.path][route.verb := Obj(operation)]];
        assert paths == WithOperation(before, route);
      }
      assert routes[..|routes|] == routes;
    }

    /** Generating twice starts over: the result depends on the routes alone. */
    method Generate(routes: seq<Route>) returns (paths: Paths, components: Schemas)
      requires forall i :: 0 <= i < |routes| ==> Proper(routes[i])
      modifies this
      ensures paths == AllPaths(routes) && components == AllSchemas(routes)
      ensures Closed(components) && PathsResolve(paths, components)
    {
      schemas := map[];
      paths := BuildPaths(routes);
      components := schemas;
      EveryReferenceResolves(routes);
    }
  }
}
