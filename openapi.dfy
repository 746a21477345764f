/**
  * The OpenAPI addon and module (`src/ecosystem/openapi/openapi.ts`). The
  * addon walks the compiled endpoints, derives one operation per endpoint
  * from its validators and its path parameters, and stores the document in
  * the application's memory under "openapi"; the module serves that
  * document as a page and as JSON.
  */
module OpenApi {
  import opened Base
  import opened Text
  import opened Records
  import opened AppState
  import opened Builder

  // ---------------------------------------------------------------------------
  // Path templates
  // ---------------------------------------------------------------------------

  /** The two parameter markers of a path template: `:name` and `...name`. */
  datatype Mark = Colon | Dots

  function MarkLen(m: Mark): nat {
    if m == Colon then 1 else 3
  }

  function MarkText(m: Mark): (r: string)
    ensures |r| == MarkLen(m)
  {
    if m == Colon then ":" else "..."
  }

  /** The marker starts `s` and a word character follows it. */
  predicate MarkAt(s: string, m: Mark) {
    |s| > MarkLen(m) && IsWordChar(s[MarkLen(m)]) &&
    (if m == Colon then s[0] == ':' else s[0] == '.' && s[1] == '.' && s[2] == '.')
  }

  /** The length of the run of word characters (`\w+`, greedy) at the start of `s`. */
  function WordRun(s: string): (n: nat)
    ensures n <= |s|
    ensures forall k :: 0 <= k < n ==> IsWordChar(s[k])
    ensures n < |s| ==> !IsWordChar(s[n])
  {
    if s != [] && IsWordChar(s[0]) then 1 + WordRun(s[1..]) else 0
  }

  predicate ValidName(name: string) {
    |name| > 0 && forall k :: 0 <= k < |name| ==> IsWordChar(name[k])
  }

  lemma {:induction false} WordRunOf(name: string, rest: string)
    requires forall k :: 0 <= k < |name| ==> IsWordChar(name[k])
    requires rest == [] || !IsWordChar(rest[0])
    ensures WordRun(name + rest) == |name|
    decreases |name|
  {
    if name != [] {
      assert (name + rest)[1..] == name[1..] + rest;
      WordRunOf(name[1..], rest);
    } else {
      assert name + rest == rest;
    }
  }

  /** `.replace(/:(\w+)/g, "{$1}")` for `Colon`, `.replace(/\.{3}(\w+)/g, "{$1}")` for `Dots`. */
  function Braced(s: string, m: Mark): string
    decreases |s|
  {
    if s == [] then []
    else if MarkAt(s, m) then
      var n := MarkLen(m) + WordRun(s[MarkLen(m)..]);
      "{" + s[MarkLen(m)..n] + "}" + Braced(s[n..], m)
    else [s[0]] + Braced(s[1..], m)
  }

  /** The document path of an endpoint path. */
  function DocPath(path: string): string {
    Braced(Braced(path, Colon), Dots)
  }

  /** Text in which no marker starts is left as it is. */
  lemma {:induction false} BracedNoMark(s: string, m: Mark)
    requires forall k :: 0 <= k < |s| ==> !MarkAt(s[k..], m)
    ensures Braced(s, m) == s
    decreases |s|
  {
    if s != [] {
      assert !MarkAt(s[0..], m) && s[0..] == s;
      forall k | 0 <= k < |s| - 1 ensures !MarkAt(s[1..][k..], m) {
        assert s[1..][k..] == s[k + 1..];
      }
      BracedNoMark(s[1..], m);
    }
  }

  /** A marked name is braced, and what follows the name is rewritten on its own. */
  lemma BracedParam(m: Mark, name: string, rest: string)
    requires ValidName(name) && (rest == [] || !IsWordChar(rest[0]))
    ensures Braced(MarkText(m) + name + rest, m) == "{" + name + "}" + Braced(rest, m)
  {
    var s := MarkText(m) + name + rest;
    var k := MarkLen(m);
    assert s[k..] == name + rest;
    assert s[k] == name[0];
    assert s[..k] == MarkText(m);
    assert MarkAt(s, m) by {
      if m == Dots {
        assert s[0] == '.' && s[1] == '.' && s[2] == '.';
      } else {
        assert s[0] == ':';
      }
    }
    WordRunOf(name, rest);
    assert s[k..k + |name|] == name;
    assert s[k + |name|..] == rest;
  }

  /**
    * Both markers become braces around the name; an optional parameter's
    * `?` stays after the brace.
    */
  lemma DocPathParam(name: string, optional: bool)
    requires ValidName(name)
    ensures DocPath(":" + name + (if optional then "?" else "")) == "{" + name + "}" + (if optional then "?" else "")
    ensures DocPath("..." + name + (if optional then "?" else "")) == "{" + name + "}" + (if optional then "?" else "")
  {
    var q: string := if optional then "?" else "";
    BracedParam(Colon, name, q);
    BracedNoMark(q, Colon);
    var once := "{" + name + "}" + q;
    forall k | 0 <= k < |once| ensures !MarkAt(once[k..], Dots) && !MarkAt(once[k..], Colon) {
      if k == 0 {
        assert once[k..][0] == '{';
      } else if k <= |name| {
        assert once[k..][0] == name[k - 1];
      } else {
        assert once[k..][0] == '}' || once[k..][0] == '?';
      }
    }
    BracedNoMark(once, Dots);
    var dots := "..." + name + q;
    forall k | 0 <= k < |dots| ensures !MarkAt(dots[k..], Colon) {
      if k < 3 {
        assert dots[k..][0] == '.';
      } else if k < 3 + |name| {
        assert dots[k..][0] == name[k - 3];
      } else {
        assert dots[k..][0] == '?';
      }
    }
    BracedNoMark(dots, Colon);
    BracedParam(Dots, name, q);
    BracedNoMark(q, Dots);
  }

  // ---------------------------------------------------------------------------
  // Path parameters
  // ---------------------------------------------------------------------------

  /** A parameter of a path template: its name, whether it is a `...` wildcard, whether it ends in `?`. */
  datatype Param = Param(name: string, wildcard: bool, optional: bool)

  /** The text the expression `/(?::|\.{3})(\w+)\??/g` matches for the parameter. */
  function TokenText(p: Param): string {
    MarkText(if p.wildcard then Dots else Colon) + p.name + (if p.optional then "?" else "")
  }

  /** The parameters of a path template, in order of appearance. */
  function ParamTokens(s: string): (r: seq<Param>)
    ensures forall i :: 0 <= i < |r| ==> ValidName(r[i].name)
    decreases |s|
  {
    if s == [] then []
    else if MarkAt(s, Colon) || MarkAt(s, Dots) then
      var m := if MarkAt(s, Colon) then Colon else Dots;
      var n := MarkLen(m) + WordRun(s[MarkLen(m)..]);
      var optional := n < |s| && s[n] == '?';
      assert s[MarkLen(m)..][0] == s[MarkLen(m)];
      assert forall k :: 0 <= k < n - MarkLen(m) ==> s[MarkLen(m)..n][k] == s[MarkLen(m)..][k];
      [Param(s[MarkLen(m)..n], m == Dots, optional)] + ParamTokens(s[if optional then n + 1 else n..])
    else ParamTokens(s[1..])
  }

  /** Leading `:` and `.` characters removed. */
  function StripMarks(t: string): string {
    if t != [] && (t[0] == ':' || t[0] == '.') then StripMarks(t[1..]) else t
  }

  /** `.replace("?", "")`: the first `?` removed. */
  function RemoveFirstQuestion(t: string): string {
    if t == [] then [] else if t[0] == '?' then t[1..] else [t[0]] + RemoveFirstQuestion(t[1..])
  }

  /** The parameter name as the addon derives it from the matched text. */
  function NameOf(token: string): string {
    RemoveFirstQuestion(StripMarks(token))
  }

  /** `param.endsWith("?")`. */
  predicate OptionalToken(token: string) {
    |token| > 0 && token[|token| - 1] == '?'
  }

  /** `param.startsWith("...")`. */
  predicate WildcardToken(token: string) {
    |token| >= 3 && token[0] == '.' && token[1] == '.' && token[2] == '.'
  }

  lemma {:induction false} RemoveFirstQuestionName(name: string, q: string)
    requires forall k :: 0 <= k < |name| ==> IsWordChar(name[k])
    requires q == "?" || q == ""
    ensures RemoveFirstQuestion(name + q) == name
    decreases |name|
  {
    if name == [] {
      assert name + q == q;
    } else {
      assert (name + q)[1..] == name[1..] + q;
      RemoveFirstQuestionName(name[1..], q);
    }
  }

  /** The name, the optional flag and the wildcard flag are read back from the matched text. */
  lemma TokenFields(p: Param)
    requires ValidName(p.name)
    ensures NameOf(TokenText(p)) == p.name
    ensures OptionalToken(TokenText(p)) == p.optional
    ensures WildcardToken(TokenText(p)) == p.wildcard
  {
    var q: string := if p.optional then "?" else "";
    var x := p.name + q;
    var t := TokenText(p);
    assert x[0] == p.name[0];
    assert StripMarks(x) == x;
    if p.wildcard {
      assert t == "..." + x;
      assert t[0] == '.' && t[1..] == ".." + x;
      assert t[1..][0] == '.' && t[1..][1..] == "." + x;
      assert t[1..][1..][0] == '.' && t[1..][1..][1..] == x;
      assert StripMarks(t[1..][1..]) == StripMarks(x);
      assert StripMarks(t[1..]) == StripMarks(t[1..][1..]);
      assert StripMarks(t) == StripMarks(t[1..]);
    } else {
      assert t == ":" + x;
      assert t[0] == ':' && t[1..] == x;
      assert StripMarks(t) == StripMarks(x);
    }
    RemoveFirstQuestionName(p.name, q);
    assert t[|t| - 1] == if p.optional then '?' else p.name[|p.name| - 1];
  }

  // ---------------------------------------------------------------------------
  // Operations
  // ---------------------------------------------------------------------------

  /**
    * One entry of `operation.parameters`: `in`, the optional `name`, the
    * schema and the optional `required` flag.
    */
  datatype Parameter = Parameter(location: string, name: Option<string>, schema: Value, required: Option<bool>)

  /** An operation: its parameters and the media types of its request body, each absent until first written. */
  datatype Operation = Operation(parameters: Option<seq<Parameter>>, requestBody: Option<Dict<Value>>)

  const EmptyOperation: Operation := Operation(None, None)

  /** `key.replace(/s$/, "")`: `cookies`, `headers` and `params` lose their last letter. */
  function Location(key: string): (r: string)
    ensures |key| > 0 && key[|key| - 1] == 's' ==> r == key[..|key| - 1]
    ensures !(|key| > 0 && key[|key| - 1] == 's') ==> r == key
  {
    if |key| > 0 && key[|key| - 1] == 's' then key[..|key| - 1] else key
  }

  /** `schema.properties` as a dictionary (nothing when it is not an object). */
  function Properties(schema: Value): Dict<Value> {
    if Field(schema, "properties").Obj? then Field(schema, "properties").fields else []
  }

  /** `schema.required?.includes(name) ?? false`. */
  predicate Required(schema: Value, name: string) {
    Field(schema, "required").Arr? && Str(name) in Field(schema, "required").items
  }

  /** The parameters an object schema yields, one per property name, in order. */
  function PropertyParams(location: string, schema: Value, names: seq<string>): (r: seq<Parameter>)
    ensures |r| == |names|
    ensures forall i :: 0 <= i < |names| ==>
              (r[i].location == location && r[i].name == Some(names[i]) &&
               r[i].schema == Lookup(Properties(schema), names[i]).GetOr(Undefined) &&
               r[i].required == Some(Required(schema, names[i])))
    decreases |names|
  {
    if names == [] then []
    else
      var n := |names| - 1;
      var name := names[n];
      assert forall i :: 0 <= i < n ==> names[..n][i] == names[i];
      PropertyParams(location, schema, names[..n]) +
      [Parameter(location, Some(name), Lookup(Properties(schema), name).GetOr(Undefined), Some(Required(schema, name)))]
  }

  /** The parameters one facet's schema yields: per property for an object schema, otherwise one. */
  function FacetParams(location: string, schema: Value): seq<Parameter> {
    if Field(schema, "type") == Str("object") then PropertyParams(location, schema, Keys(Properties(schema)))
    else [Parameter(location, None, schema, None)]
  }

  const MediaTypes: seq<string> := ["application/json", "multipart/form-data", "text/plain"]

  /** `{ schema }` under each of the given media types. */
  function MediaContent(content: Dict<Value>, types: seq<string>, schema: Value): (r: Dict<Value>)
    ensures forall t :: t in types ==> Lookup(r, t) == Some(Obj([("schema", schema)]))
    ensures forall t :: t !in types ==> Lookup(r, t) == Lookup(content, t)
    decreases |types|
  {
    if types == [] then content
    else
      var n := |types| - 1;
      assert forall t :: t in types ==> t in types[..n] || t == types[n];
      Put(MediaContent(content, types[..n], schema), types[n], Obj([("schema", schema)]))
  }

  /** What one facet of a validator adds to the operation; `locate` names the parameters' `in`. */
  function AddFacet(op: Operation, key: string, value: Value, toJsonSchema: Value -> Value, locate: string -> string): Operation {
    if !Truthy(value) then op
    else if key != "body" then
      op.(parameters := Some(op.parameters.GetOr([]) + FacetParams(locate(key), toJsonSchema(value))))
    else
      op.(requestBody := Some(MediaContent(op.requestBody.GetOr([]), MediaTypes, toJsonSchema(value))))
  }

  /** The facets named by `keys`, taken one after the other. */
  function FacetsOp(op: Operation, request: Dict<Value>, keys: seq<string>, toJsonSchema: Value -> Value,
                    locate: string -> string): Operation
    decreases |keys|
  {
    if keys == [] then op
    else
      var n := |keys| - 1;
      AddFacet(FacetsOp(op, request, keys[..n], toJsonSchema, locate), keys[n],
               Lookup(request, keys[n]).GetOr(Undefined), toJsonSchema, locate)
  }

  /** The operation the validators of a chain describe; every other link is passed over. */
  function ChainOp(chain: seq<Link>, toJsonSchema: Value -> Value, locate: string -> string): Operation
    decreases |chain|
  {
    if chain == [] then EmptyOperation
    else
      var n := |chain| - 1;
      var before := ChainOp(chain[..n], toJsonSchema, locate);
      if chain[n].ValidatorLink? && chain[n].validator.request.Some? then
        var request := chain[n].validator.request.value;
        FacetsOp(before, request, Keys(request), toJsonSchema, locate)
      else before
  }

  /** `parameters.some((p) => p.in === "path" && p.name === name)`. */
  predicate HasPathParam(parameters: Option<seq<Parameter>>, name: string) {
    parameters.Some? &&
    exists i :: 0 <= i < |parameters.value| && parameters.value[i].location == "path" && parameters.value[i].name == Some(name)
  }

  /** `{ pattern, type: "string" }`: `.*` for a wildcard, no pattern otherwise. */
  function PathSchema(wildcard: bool): Value {
    Obj([("pattern", if wildcard then Str(".*") else Undefined), ("type", Str("string"))])
  }

  /** What one matched parameter adds: a path parameter, unless one of that name is already there. */
  function AddPathParam(op: Operation, token: string): Operation {
    var name := NameOf(token);
    if HasPathParam(op.parameters, name) then op
    else
      op.(parameters := Some(op.parameters.GetOr([]) +
                             [Parameter("path", Some(name), PathSchema(WildcardToken(token)), Some(!OptionalToken(token)))]))
  }

  function PathOp(op: Operation, params: seq<Param>): Operation
    decreases |params|
  {
    if params == [] then op
    else
      var n := |params| - 1;
      AddPathParam(PathOp(op, params[..n]), TokenText(params[n]))
  }

  /** The operation documented for an endpoint. */
  function EndpointOp(e: Endpoint, toJsonSchema: Value -> Value, locate: string -> string): Operation {
    PathOp(ChainOp(e.chain, toJsonSchema, locate), ParamTokens(e.path))
  }

  // ---------------------------------------------------------------------------
  // The document
  // ---------------------------------------------------------------------------

  /** `paths`: document path, then lower-case method, then operation. */
  type Paths = Dict<Dict<Operation>>

  /** `paths[path] ??= {}; paths[path][verb] = operation`. */
  function PutOperation(paths: Paths, path: string, verb: string, op: Operation): (r: Paths)
    ensures Lookup(r, path).Some? && Lookup(Lookup(r, path).value, verb) == Some(op)
    ensures forall v :: v != verb ==> Lookup(Lookup(r, path).value, v) == Lookup(Lookup(paths, path).GetOr([]), v)
    ensures forall p :: p != path ==> Lookup(r, p) == Lookup(paths, p)
  {
    Put(paths, path, Put(Lookup(paths, path).GetOr([]), verb, op))
  }

  /** The endpoints of one method, documented one after the other. */
  function BucketPaths(paths: Paths, verb: string, bucket: seq<Endpoint>, toJsonSchema: Value -> Value,
                       locate: string -> string): Paths
    decreases |bucket|
  {
    if bucket == [] then paths
    else
      var n := |bucket| - 1;
      PutOperation(BucketPaths(paths, verb, bucket[..n], toJsonSchema, locate), DocPath(bucket[n].path), Lower(verb),
                   EndpointOp(bucket[n], toJsonSchema, locate))
  }

  /** The buckets of the given methods, one after the other. */
  function MethodsPaths(endpoints: Dict<seq<Endpoint>>, methods: seq<string>, toJsonSchema: Value -> Value,
                        locate: string -> string): Paths
    decreases |methods|
  {
    if methods == [] then []
    else
      var n := |methods| - 1;
      BucketPaths(MethodsPaths(endpoints, methods[..n], toJsonSchema, locate), methods[n],
                  Lookup(endpoints, methods[n]).GetOr([]), toJsonSchema, locate)
  }

  datatype AddonOptions = AddonOptions(description: Option<string>, title: Option<string>, version: Option<string>)

  datatype Info = Info(title: string, description: string, version: string)

  datatype Document = Document(paths: Paths, info: Info, openapi: string)

  const DefaultTitle: string := "Cudenix Documentation"

  function InfoOf(options: AddonOptions): Info {
    Info(options.title.GetOr(DefaultTitle), options.description.GetOr(DefaultTitle), options.version.GetOr("1.0.0"))
  }

  /** The document the addon stores. */
  function DocumentOf(endpoints: Dict<seq<Endpoint>>, toJsonSchema: Value -> Value, options: AddonOptions): Document {
    Document(MethodsPaths(endpoints, Keys(endpoints), toJsonSchema, Location), InfoOf(options), "3.1.0")
  }

  /** The `memory` entry "openapi". */
  class DocumentMemory {
    var openapi: Option<Document>

    constructor ()
      ensures openapi == None
    {
      openapi := None;
    }
  }

  // ---------------------------------------------------------------------------
  // The addon
  // ---------------------------------------------------------------------------

  /** The parameters of an object schema, pushed one by one. */
  method PushProperties(parameters: seq<Parameter>, location: string, schema: Value) returns (r: seq<Parameter>)
    ensures r == parameters + PropertyParams(location, schema, Keys(Properties(schema)))
  {
    var names := Keys(Properties(schema));
    r := parameters;
    var m := 0;
    while m < |names|
      invariant 0 <= m <= |names|
      invariant r == parameters + PropertyParams(location, schema, names[..m])
    {
      assert names[..m + 1][..m] == names[..m];
      r := r + [Parameter(location, Some(names[m]), Lookup(Properties(schema), names[m]).GetOr(Undefined),
                          Some(Required(schema, names[m])))];
      m := m + 1;
    }
    assert names[..m] == names;
  }

  /** The request body's media types, written one by one. */
  method WriteMedia(content: Dict<Value>, schema: Value) returns (r: Dict<Value>)
    ensures r == MediaContent(content, MediaTypes, schema)
  {
    r := content;
    var m := 0;
    while m < |MediaTypes|
      invariant 0 <= m <= |MediaTypes|
      invariant r == MediaContent(content, MediaTypes[..m], schema)
    {
      assert MediaTypes[..m + 1][..m] == MediaTypes[..m];
      r := Put(r, MediaTypes[m], Obj([("schema", schema)]));
      m := m + 1;
    }
    assert MediaTypes[..m] == MediaTypes;
  }

  /** One facet: a truthy schema becomes parameters, or the request body for `body`. */
  method DescribeFacet(op: Operation, key: string, value: Value, toJsonSchema: Value -> Value) returns (r: Operation)
    ensures r == AddFacet(op, key, value, toJsonSchema, Location)
  {
    r := op;
    if Truthy(value) {
      if key != "body" {
        var location := Location(key);
        var schema := toJsonSchema(value);
        var parameters := r.parameters.GetOr([]);
        if Field(schema, "type") == Str("object") {
          parameters := PushProperties(parameters, location, schema);
        } else {
          parameters := parameters + [Parameter(location, None, schema, None)];
        }
        r := r.(parameters := Some(parameters));
      } else {
        var content := WriteMedia(r.requestBody.GetOr([]), toJsonSchema(value));
        r := r.(requestBody := Some(content));
      }
    }
  }

  /** The facets of one validator. */
  method DescribeFacets(op: Operation, request: Dict<Value>, toJsonSchema: Value -> Value) returns (r: Operation)
    ensures r == FacetsOp(op, request, Keys(request), toJsonSchema, Location)
  {
    var keys := Keys(request);
    r := op;
    var l := 0;
    while l < |keys|
      invariant 0 <= l <= |keys|
      invariant r == FacetsOp(op, request, keys[..l], toJsonSchema, Location)
    {
      assert keys[..l + 1][..l] == keys[..l];
      var key := keys[l];
      r := DescribeFacet(r, key, Lookup(request, key).GetOr(Undefined), toJsonSchema);
      l := l + 1;
    }
    assert keys[..l] == keys;
  }

  /** The validators of a chain. */
  method DescribeChain(chain: seq<Link>, toJsonSchema: Value -> Value) returns (op: Operation)
    ensures op == ChainOp(chain, toJsonSchema, Location)
  {
    op := EmptyOperation;
    var k := 0;
    while k < |chain|
      invariant 0 <= k <= |chain|
      invariant op == ChainOp(chain[..k], toJsonSchema, Location)
    {
      assert chain[..k + 1][..k] == chain[..k];
      var link := chain[k];
      if link.ValidatorLink? && link.validator.request.Some? {
        op := DescribeFacets(op, link.validator.request.value, toJsonSchema);
      }
      k := k + 1;
    }
    assert chain[..k] == chain;
  }

  /** The path parameters of a template. */
  method DescribePath(op: Operation, path: string) returns (r: Operation)
    ensures r == PathOp(op, ParamTokens(path))
  {
    var params := ParamTokens(path);
    r := op;
    var k := 0;
    while k < |params|
      invariant 0 <= k <= |params|
      invariant r == PathOp(op, params[..k])
    {
      assert params[..k + 1][..k] == params[..k];
      var param := TokenText(params[k]);
      var name := NameOf(param);
      if !HasPathParam(r.parameters, name) {
        r := r.(parameters := Some(r.parameters.GetOr([]) +
                                   [Parameter("path", Some(name), PathSchema(WildcardToken(param)), Some(!OptionalToken(param)))]));
      }
      k := k + 1;
    }
    assert params[..k] == params;
  }

  /** The endpoints of one method. */
  method DescribeBucket(paths: Paths, verb: string, bucket: seq<Endpoint>, toJsonSchema: Value -> Value) returns (r: Paths)
    ensures r == BucketPaths(paths, verb, bucket, toJsonSchema, Location)
  {
    r := paths;
    var j := 0;
    while j < |bucket|
      invariant 0 <= j <= |bucket|
      invariant r == BucketPaths(paths, verb, bucket[..j], toJsonSchema, Location)
    {
      assert bucket[..j + 1][..j] == bucket[..j];
      var endpoint := bucket[j];
      var operation := DescribeChain(endpoint.chain, toJsonSchema);
      operation := DescribePath(operation, endpoint.path);
      r := PutOperation(r, DocPath(endpoint.path), Lower(verb), operation);
      j := j + 1;
    }
    assert bucket[..j] == bucket;
  }

  /**
    * `openapi.addon(toJsonSchema, options)` run on an application: the
    * document of its endpoints goes into memory and the addon's name is
    * returned.
    */
  method Addon(app: App, memory: DocumentMemory, toJsonSchema: Value -> Value, options: AddonOptions) returns (name: string)
    modifies memory
    ensures memory.openapi == Some(DocumentOf(app.endpoints, toJsonSchema, options))
    ensures name == "openapi"
  {
    var methods := Keys(app.endpoints);
    var paths: Paths := [];
    var i := 0;
    while i < |methods|
      invariant 0 <= i <= |methods|
      invariant paths == MethodsPaths(app.endpoints, methods[..i], toJsonSchema, Location)
    {
      assert methods[..i + 1][..i] == methods[..i];
      var endpoints := Lookup(app.endpoints, methods[i]).GetOr([]);
      paths := DescribeBucket(paths, methods[i], endpoints, toJsonSchema);
      i := i + 1;
    }
    assert methods[..i] == methods;
    memory.openapi := Some(Document(paths, InfoOf(options), "3.1.0"));
    name := "openapi";
  }

  // ---------------------------------------------------------------------------
  // The module
  // ---------------------------------------------------------------------------

  const DefaultPath: string := "/openapi"

  /** `openapi.module({ path })`: the page at the path and the JSON document under it. */
  method OpenApiModule(path: Option<string>, page: Fn, json: Fn) returns (m: ModuleBuilder)
    ensures fresh(m)
    ensures m.Value() == Module([RouteLink(NewRoute("GET", path.GetOr(DefaultPath), page, None)),
                                 RouteLink(NewRoute("GET", path.GetOr(DefaultPath) + "/json", json, None))], "")
  {
    var url := path.GetOr(DefaultPath);
    m := NewModule(None);
    m := m.Route("GET", url, page, None);
    m := m.Route("GET", url + "/json", json, None);
  }

  /** The page handler: an HTML content type, and the page built around the stored document. */
  function PageReply(document: Option<Document>, headers: Headers, stringify: Option<Document> -> string,
                     page: (string, string, string) -> string): (r: (Value, Headers))
    ensures r.0.Payload? && r.0.success && r.0.status == Num(200) && r.0.content == Str(page(DefaultTitle, stringify(document), "{}"))
    ensures Lookup(r.1, "content-type") == Some("text/html")
    ensures forall k :: k != "content-type" ==> Lookup(r.1, k) == Lookup(headers, k)
  {
    (Success(Str(page(DefaultTitle, stringify(document), "{}")), Undefined), Put(headers, "content-type", "text/html"))
  }

  /** The JSON handler: the stored document, serialised, as a success. */
  function JsonReply(document: Option<Document>, stringify: Option<Document> -> string): (r: Value)
    ensures r.Payload? && r.success && r.status == Num(200) && r.content == Str(stringify(document))
  {
    Success(Str(stringify(document)), Undefined)
  }

  // ---------------------------------------------------------------------------
  // Properties
  // ---------------------------------------------------------------------------

  /** A chain without validators documents nothing. */
  lemma {:induction false} NoValidatorsNothing(chain: seq<Link>, toJsonSchema: Value -> Value, locate: string -> string)
    requires forall k :: 0 <= k < |chain| ==> !chain[k].ValidatorLink?
    ensures ChainOp(chain, toJsonSchema, locate) == EmptyOperation
    decreases |chain|
  {
    if chain != [] {
      var n := |chain| - 1;
      NoValidatorsNothing(chain[..n], toJsonSchema, locate);
    }
  }

  /** Facets with a falsy schema add nothing. */
  lemma {:induction false} FalsyFacetsNothing(op: Operation, request: Dict<Value>, keys: seq<string>,
                                              toJsonSchema: Value -> Value, locate: string -> string)
    requires forall k :: 0 <= k < |keys| ==> !Truthy(Lookup(request, keys[k]).GetOr(Undefined))
    ensures FacetsOp(op, request, keys, toJsonSchema, locate) == op
    decreases |keys|
  {
    if keys != [] {
      FalsyFacetsNothing(op, request, keys[..|keys| - 1], toJsonSchema, locate);
    }
  }

  /**
    * An object schema yields one parameter per property, in order, with that
    * property's schema, required exactly when its name is listed in
    * `required`; any other schema yields a single parameter without a name.
    */
  lemma ObjectSchemaParams(location: string, schema: Value)
    ensures var r := FacetParams(location, schema);
            Field(schema, "type") == Str("object") ==>
              |r| == |Properties(schema)| &&
              forall i :: 0 <= i < |r| ==>
                r[i].location == location && r[i].name == Some(Properties(schema)[i].0) &&
                r[i].schema == Lookup(Properties(schema), Properties(schema)[i].0).GetOr(Undefined) &&
                (r[i].required == Some(true) <==>
                  Field(schema, "required").Arr? && Str(Properties(schema)[i].0) in Field(schema, "required").items)
    ensures Field(schema, "type") != Str("object") ==> FacetParams(location, schema) == [Parameter(location, None, schema, None)]
  {
  }

  /** The body yields the same schema under the JSON, multipart and text media types, and no parameter. */
  lemma BodyFacet(op: Operation, value: Value, toJsonSchema: Value -> Value, locate: string -> string)
    requires Truthy(value)
    ensures var r := AddFacet(op, "body", value, toJsonSchema, locate);
            r.parameters == op.parameters && r.requestBody.Some? &&
            forall t :: t in MediaTypes ==> Lookup(r.requestBody.value, t) == Some(Obj([("schema", toJsonSchema(value))]))
  {
  }

  /**
    * A matched parameter without a path parameter of its name becomes one,
    * required exactly when it has no `?` and with pattern `.*` exactly when
    * it is a wildcard; with one of its name already there nothing changes.
    */
  lemma PathParamAdded(op: Operation, p: Param)
    requires ValidName(p.name)
    ensures !HasPathParam(op.parameters, p.name) ==>
              AddPathParam(op, TokenText(p)).parameters ==
              Some(op.parameters.GetOr([]) + [Parameter("path", Some(p.name), PathSchema(p.wildcard), Some(!p.optional))])
    ensures HasPathParam(op.parameters, p.name) ==> AddPathParam(op, TokenText(p)) == op
  {
    TokenFields(p);
  }

  /** Matching parameters only ever appends to the parameters already there. */
  lemma {:induction false} PathOpExtends(op: Operation, params: seq<Param>)
    ensures var ps := PathOp(op, params).parameters.GetOr([]);
            |op.parameters.GetOr([])| <= |ps| && ps[..|op.parameters.GetOr([])|] == op.parameters.GetOr([])
    ensures op.parameters.Some? ==> PathOp(op, params).parameters.Some?
    decreases |params|
  {
    if params != [] {
      var n := |params| - 1;
      PathOpExtends(op, params[..n]);
      var b := PathOp(op, params[..n]).parameters.GetOr([]);
      var o := op.parameters.GetOr([]);
      var ps := PathOp(op, params).parameters.GetOr([]);
      assert ps[..|b|] == b;
      assert ps[..|o|] == b[..|o|];
    }
  }

  lemma HasPathParamKept(a: Option<seq<Parameter>>, b: Option<seq<Parameter>>, name: string)
    requires HasPathParam(a, name) && b.Some? && |a.value| <= |b.value| && b.value[..|a.value|] == a.value
    ensures HasPathParam(b, name)
  {
    var j :| 0 <= j < |a.value| && a.value[j].location == "path" && a.value[j].name == Some(name);
    assert b.value[j] == b.value[..|a.value|][j];
  }

  /** Every parameter of the template ends up documented as a path parameter of its name. */
  lemma {:induction false} PathParamsDocumented(op: Operation, params: seq<Param>)
    requires forall i :: 0 <= i < |params| ==> ValidName(params[i].name)
    ensures forall i :: 0 <= i < |params| ==> HasPathParam(PathOp(op, params).parameters, params[i].name)
    decreases |params|
  {
    if params != [] {
      var n := |params| - 1;
      var before := PathOp(op, params[..n]);
      var after := PathOp(op, params);
      PathParamsDocumented(op, params[..n]);
      PathParamAdded(before, params[n]);
      PathOpExtends(before, [params[n]]);
      assert [params[n]][..0] == [];
      assert after == PathOp(before, [params[n]]);
      forall i | 0 <= i < |params| ensures HasPathParam(after.parameters, params[i].name) {
        if i < n {
          assert params[..n][i] == params[i];
          HasPathParamKept(before.parameters, after.parameters, params[i].name);
        } else if !HasPathParam(before.parameters, params[n].name) {
          assert after.parameters.value[|after.parameters.value| - 1].name == Some(params[n].name);
        }
      }
    }
  }

  /**
    * An endpoint is documented under its document path and lower-case
    * method with its own operation, unless a later endpoint of the bucket
    * has the same document path: the later one overwrites it.
    */
  lemma {:induction false} EndpointDocumented(paths: Paths, verb: string, bucket: seq<Endpoint>, j: nat,
                                              toJsonSchema: Value -> Value, locate: string -> string)
    requires j < |bucket|
    requires forall k :: j < k < |bucket| ==> DocPath(bucket[k].path) != DocPath(bucket[j].path)
    ensures var r := BucketPaths(paths, verb, bucket, toJsonSchema, locate);
            Lookup(r, DocPath(bucket[j].path)).Some? &&
            Lookup(Lookup(r, DocPath(bucket[j].path)).value, Lower(verb)) == Some(EndpointOp(bucket[j], toJsonSchema, locate))
    decreases |bucket|
  {
    var n := |bucket| - 1;
    var p := DocPath(bucket[j].path);
    var op := EndpointOp(bucket[j], toJsonSchema, locate);
    var r := BucketPaths(paths, verb, bucket, toJsonSchema, locate);
    BucketPathsStep(paths, verb, bucket, toJsonSchema, locate, p);
    if j < n {
      var prev := BucketPaths(paths, verb, bucket[..n], toJsonSchema, locate);
      assert bucket[..n][j] == bucket[j];
      assert forall k :: j < k < n ==> bucket[..n][k] == bucket[k];
      EndpointDocumented(paths, verb, bucket[..n], j, toJsonSchema, locate);
      assert p != DocPath(bucket[n].path);
      assert Lookup(r, p) == Lookup(prev, p);
    }
    assert Lookup(r, p).Some? && Lookup(Lookup(r, p).value, Lower(verb)) == Some(op);
  }

  /** Documenting the last endpoint of a bucket changes only the entry under its document path. */
  lemma BucketPathsStep(paths: Paths, verb: string, bucket: seq<Endpoint>, toJsonSchema: Value -> Value,
                        locate: string -> string, p: string)
    requires bucket != []
    ensures var n := |bucket| - 1;
            var r := BucketPaths(paths, verb, bucket, toJsonSchema, locate);
            if p == DocPath(bucket[n].path)
            then Lookup(r, p).Some? && Lookup(Lookup(r, p).value, Lower(verb)) == Some(EndpointOp(bucket[n], toJsonSchema, locate))
            else Lookup(r, p) == Lookup(BucketPaths(paths, verb, bucket[..n], toJsonSchema, locate), p)
  {
  }

  /** Later endpoints of the same document path and method replace earlier ones. */
  lemma LaterEndpointWins(paths: Paths, verb: string, bucket: seq<Endpoint>, e: Endpoint,
                          toJsonSchema: Value -> Value, locate: string -> string)
    ensures var r := BucketPaths(paths, verb, bucket + [e], toJsonSchema, locate);
            Lookup(Lookup(r, DocPath(e.path)).value, Lower(verb)) == Some(EndpointOp(e, toJsonSchema, locate))
  {
    assert (bucket + [e])[..|bucket|] == bucket;
  }

  /** The stored document carries the given metadata, or the defaults, and version 3.1.0. */
  lemma DocumentMetadata(endpoints: Dict<seq<Endpoint>>, toJsonSchema: Value -> Value, options: AddonOptions)
    ensures var d := DocumentOf(endpoints, toJsonSchema, options);
            d.openapi == "3.1.0" &&
            (options.title.None? ==> d.info.title == "Cudenix Documentation") &&
            (options.title.Some? ==> d.info.title == options.title.value) &&
            (options.description.None? ==> d.info.description == "Cudenix Documentation") &&
            (options.version.None? ==> d.info.version == "1.0.0")
  {
  }

  // ---------------------------------------------------------------------------
  // The params facet
  // ---------------------------------------------------------------------------

  /** The location OpenAPI names for the parameters of the `params` facet, `path`; the others as written. */
  function CorrectedLocation(key: string): string {
    if key == "params" then "path" else Location(key)
  }

  /** A single validator whose only facet is `params`, described by an object schema of one property. */
  predicate ParamsValidator(chain: seq<Link>, toJsonSchema: Value -> Value, name: string, v: Value, schema: Value) {
    chain == [ValidatorLink(Validator(Some([("params", v)]), None))] &&
    Truthy(v) && toJsonSchema(v) == schema && Field(schema, "type") == Str("object") &&
    Keys(Properties(schema)) == [name] && ValidName(name)
  }

  lemma ParamsChain(chain: seq<Link>, toJsonSchema: Value -> Value, name: string, v: Value, schema: Value,
                    locate: string -> string)
    requires ParamsValidator(chain, toJsonSchema, name, v, schema)
    ensures ChainOp(chain, toJsonSchema, locate) ==
            Operation(Some([Parameter(locate("params"), Some(name), Lookup(Properties(schema), name).GetOr(Undefined),
                                      Some(Required(schema, name)))]), None)
  {
    var request := [("params", v)];
    assert chain[..0] == [];
    assert ChainOp(chain, toJsonSchema, locate) == FacetsOp(EmptyOperation, request, Keys(request), toJsonSchema, locate);
    assert Keys(request) == ["params"];
    assert ["params"][..0] == [];
    assert Lookup(request, "params") == Some(v);
    assert |"params"| != |"body"|;
    var params := PropertyParams(locate("params"), schema, [name]);
    assert params == [Parameter(locate("params"), Some(name), Lookup(Properties(schema), name).GetOr(Undefined),
                                Some(Required(schema, name)))];
    assert FacetParams(locate("params"), schema) == params;
    assert AddFacet(EmptyOperation, "params", v, toJsonSchema, locate) == Operation(Some([] + params), None);
  }

  lemma SingleParamPath(name: string)
    requires ValidName(name)
    ensures ParamTokens("/:" + name) == [Param(name, false, false)]
  {
    var s := "/:" + name;
    var t := ":" + name;
    assert s[0] == '/' && s[1..] == t;
    assert ParamTokens(s) == ParamTokens(t);
    WordRunOf(name, []);
    assert name + [] == name;
    assert t[0] == ':' && t[1..] == name && t[1] == name[0];
    assert MarkAt(t, Colon);
    assert WordRun(t[1..]) == |name|;
    assert t[1..1 + |name|] == name && t[1 + |name|..] == [];
    assert !(1 + |name| < |t|);
    assert ParamTokens(t) == [Param(t[1..1 + |name|], false, false)] + ParamTokens(t[1 + |name|..]);
  }

  /**
    * As written, the `params` facet's parameters get `in: "param"`, which is
    * not a location OpenAPI knows, and the template parameter of the same
    * name is documented a second time as a path parameter.
    */
  lemma ParamsDocumentedTwice(chain: seq<Link>, toJsonSchema: Value -> Value, name: string, v: Value, schema: Value)
    requires ParamsValidator(chain, toJsonSchema, name, v, schema)
    ensures var e := Endpoint(chain, false, "", "/:" + name, Route("GET", "/:" + name, Fn(0, "", ""), false, None), {});
            var property := Lookup(Properties(schema), name).GetOr(Undefined);
            EndpointOp(e, toJsonSchema, Location).parameters ==
            Some([Parameter("param", Some(name), property, Some(Required(schema, name))),
                  Parameter("path", Some(name), PathSchema(false), Some(true))])
  {
    var e := Endpoint(chain, false, "", "/:" + name, Route("GET", "/:" + name, Fn(0, "", ""), false, None), {});
    var p := Param(name, false, false);
    assert "params"[5] == 's' && "params"[..5] == "param";
    assert Location("params") == "param";
    ParamsChain(chain, toJsonSchema, name, v, schema, Location);
    SingleParamPath(name);
    var op := ChainOp(chain, toJsonSchema, Location);
    assert [p][..0] == [];
    assert e.chain == chain && ParamTokens(e.path) == [p];
    assert EndpointOp(e, toJsonSchema, Location) == PathOp(op, [p]);
    assert PathOp(op, [p]) == AddPathParam(PathOp(op, []), TokenText(p));
    assert op.parameters.value[0].location == "param";
    assert !HasPathParam(op.parameters, name);
    PathParamAdded(op, p);
    var property := Lookup(Properties(schema), name).GetOr(Undefined);
    assert op.parameters == Some([Parameter("param", Some(name), property, Some(Required(schema, name)))]);
    var first := Parameter("param", Some(name), property, Some(Required(schema, name)));
    var second := Parameter("path", Some(name), PathSchema(false), Some(true));
    assert EndpointOp(e, toJsonSchema, Location).parameters == Some(op.parameters.value + [second]);
    assert [first] + [second] == [first, second];
  }

  /** Naming the location `path` documents the parameter once, with the validator's schema. */
  lemma ParamsDocumentedOnce(chain: seq<Link>, toJsonSchema: Value -> Value, name: string, v: Value, schema: Value)
    requires ParamsValidator(chain, toJsonSchema, name, v, schema)
    ensures var e := Endpoint(chain, false, "", "/:" + name, Route("GET", "/:" + name, Fn(0, "", ""), false, None), {});
            var property := Lookup(Properties(schema), name).GetOr(Undefined);
            EndpointOp(e, toJsonSchema, CorrectedLocation).parameters ==
            Some([Parameter("path", Some(name), property, Some(Required(schema, name)))])
  {
    var e := Endpoint(chain, false, "", "/:" + name, Route("GET", "/:" + name, Fn(0, "", ""), false, None), {});
    var p := Param(name, false, false);
    ParamsChain(chain, toJsonSchema, name, v, schema, CorrectedLocation);
    SingleParamPath(name);
    var op := ChainOp(chain, toJsonSchema, CorrectedLocation);
    assert [p][..0] == [];
    assert e.chain == chain && ParamTokens(e.path) == [p];
    assert EndpointOp(e, toJsonSchema, CorrectedLocation) == PathOp(op, [p]);
    assert PathOp(op, [p]) == AddPathParam(PathOp(op, []), TokenText(p));
    assert op.parameters.value[0].location == "path" && op.parameters.value[0].name == Some(name);
    assert HasPathParam(op.parameters, name);
    PathParamAdded(op, p);
  }
}
