/**
  * The records the framework is built from: Success and Error results, the
  * links a module's chain holds (middleware, store, validator, route, group,
  * nested module), and the endpoints the compiler produces from them.
  * Functions supplied by the developer (middleware, stores, handlers, group
  * builders) are not values here: a middleware, store or handler is named by
  * an identifier plus the source text the compiler scans, and a group builder
  * by the links it appends to the module it is given.
  */
module Records {
  import opened Base
  import opened Text

  // ---------------------------------------------------------------------------
  // Success and Error (src/core/success.ts, src/core/error.ts)
  // ---------------------------------------------------------------------------

  /**
    * `new Success(content, options)`: without options the status is 200 and
    * the content is transformed; given options are copied field by field with
    * no default for a missing field.
    */
  function Success(content: Value, options: Value): (r: Value)
    requires !options.Null?
    ensures r.Payload? && r.success && r.content == content
  {
    if options.Undefined? then Payload(content, Num(200), true, Bool(true))
    else Payload(content, Field(options, "status"), true, Field(options, "transform"))
  }

  /** `new Error(content, options)`: status 400 and transform true, each defaulted on its own. */
  function Error(content: Value, options: Value): (r: Value)
    ensures r.Payload? && !r.success && r.content == content
  {
    var status := if Nullish(options) then Undefined else Field(options, "status");
    var transform := if Nullish(options) then Undefined else Field(options, "transform");
    Payload(content, if Nullish(status) then Num(400) else status, false,
            if Nullish(transform) then Bool(true) else transform)
  }

  /** `x instanceof Error`. */
  predicate IsError(v: Value) {
    v.Payload? && !v.success
  }

  /** An options object holding only the given status. */
  function StatusOnly(status: int): Value {
    Obj([("status", Num(status))])
  }

  /**
    * The two constructors default differently: an options object without a
    * `transform` field leaves a Success's transform undefined but gives an
    * Error the default `true`; both default everything when no options are given.
    */
  lemma OptionDefaults(content: Value, status: int)
    ensures Success(content, Undefined).status == Num(200) && Success(content, Undefined).transform == Bool(true)
    ensures Error(content, Undefined).status == Num(400) && Error(content, Undefined).transform == Bool(true)
    ensures Success(content, StatusOnly(status)).status == Num(status)
    ensures Success(content, StatusOnly(status)).transform == Undefined
    ensures Error(content, StatusOnly(status)).status == Num(status)
    ensures Error(content, StatusOnly(status)).transform == Bool(true)
  {
    assert Lookup(StatusOnly(status).fields, "transform") == None by {
      assert "status" != "transform";
    }
  }

  /** The legacy positional `new Success(content, status = 200, transform = true)`. */
  function LegacySuccess(content: Value, status: Value, transform: Value): (r: Value)
    ensures r.Payload? && r.success && r.content == content
  {
    Payload(content, if status.Undefined? then Num(200) else status, true,
            if transform.Undefined? then Bool(true) else transform)
  }

  /** The legacy positional `new Error(content, status = 400, transform = true)`. */
  function LegacyError(content: Value, status: Value, transform: Value): (r: Value)
    ensures r.Payload? && !r.success && r.content == content
  {
    Payload(content, if status.Undefined? then Num(400) else status, false,
            if transform.Undefined? then Bool(true) else transform)
  }

  /**
    * The positional and the options forms agree when arguments are omitted or
    * given in full; only a positional `null` differs from a `null` field,
    * which the Error options form replaces by the default.
    */
  lemma LegacyAgrees(content: Value, status: int, transform: bool)
    ensures LegacySuccess(content, Undefined, Undefined) == Success(content, Undefined)
    ensures LegacyError(content, Undefined, Undefined) == Error(content, Undefined)
    ensures LegacySuccess(content, Num(status), Bool(transform)) ==
            Success(content, Obj([("status", Num(status)), ("transform", Bool(transform))]))
    ensures LegacyError(content, Num(status), Bool(transform)) ==
            Error(content, Obj([("status", Num(status)), ("transform", Bool(transform))]))
    ensures LegacyError(content, Null, Undefined).status == Null
    ensures Error(content, Obj([("status", Null)])).status == Num(400)
  {
    var o := Obj([("status", Num(status)), ("transform", Bool(transform))]);
    assert "status" != "transform";
    assert Field(o, "status") == Num(status);
    assert o.fields[1..] == [("transform", Bool(transform))];
    assert Lookup(o.fields[1..], "transform") == Some(Bool(transform));
    assert Lookup(o.fields, "transform") == Some(Bool(transform));
    assert Field(o, "transform") == Bool(transform);
  }

  // ---------------------------------------------------------------------------
  // Links
  // ---------------------------------------------------------------------------

  /** A developer function: an identifier, its source text, and its constructor's name. */
  datatype Fn = Fn(id: nat, text: string, ctorName: string)

  /**
    * A validator: the schema for each request facet and, in the current
    * generation, the facet names in insertion order (`keys`); the legacy
    * record has no `keys`.
    */
  datatype Validator = Validator(request: Option<Dict<Value>>, keys: Option<seq<string>>)

  datatype Route = Route(verb: string, path: string, handler: Fn, generator: bool, validator: Option<Validator>)

  /**
    * A chain element. A group carries the links its builder function appends
    * to the module it receives; a nested module carries its own chain.
    */
  datatype Link =
    | Middleware(fn: Fn)
    | Store(fn: Fn)
    | ValidatorLink(validator: Validator)
    | RouteLink(route: Route)
    | GroupLink(builder: seq<Link>, prefix: string)
    | ModuleLink(inner: Module)

  datatype Module = Module(chain: seq<Link>, prefix: string)

  /** The links an endpoint's chain may hold: middleware, store and validator. */
  predicate ChainLink(l: Link) {
    l.Middleware? || l.Store? || l.ValidatorLink?
  }

  predicate FlatChain(chain: seq<Link>) {
    forall k :: 0 <= k < |chain| ==> ChainLink(chain[k])
  }

  /** `new Validator({ request })`: `keys` are the facet names in insertion order, fixed here. */
  function NewValidator(request: Dict<Value>): (v: Validator)
    ensures v.request == Some(request)
    ensures v.keys.Some? && |v.keys.value| == |request|
    ensures forall k :: 0 <= k < |request| ==> v.keys.value[k] == request[k].0
  {
    Validator(Some(request), Some(Keys(request)))
  }

  /** The legacy `new Validator({ request })`: no `keys`. */
  function NewLegacyValidator(request: Dict<Value>): (v: Validator)
    ensures v.request == Some(request) && v.keys.None?
  {
    Validator(Some(request), None)
  }

  /** `new Group(group, { prefix })`: the prefix defaults to `""`. */
  function NewGroup(builder: seq<Link>, prefix: Option<string>): (l: Link)
    ensures l.GroupLink? && l.builder == builder
    ensures prefix.Some? ==> l.prefix == prefix.value
    ensures prefix.None? ==> l.prefix == ""
  {
    GroupLink(builder, prefix.GetOr(""))
  }

  /** Whether a constructor name marks a generator function. */
  predicate IsGeneratorName(ctorName: string) {
    Contains(ctorName, "GeneratorFunction")
  }

  /**
    * The legacy `new Route(method, path, route, { validator })`: the generator
    * flag comes from the handler's constructor name and validator options are
    * wrapped in a (legacy) Validator.
    */
  function NewRoute(verb: string, path: string, handler: Fn, validator: Option<Dict<Value>>): (r: Route)
    ensures r.verb == verb && r.path == path && r.handler == handler
    ensures r.generator <==> IsGeneratorName(handler.ctorName)
    ensures validator.None? ==> r.validator.None?
    ensures validator.Some? ==> r.validator == Some(NewLegacyValidator(validator.value))
  {
    Route(verb, path, handler, IsGeneratorName(handler.ctorName),
          if validator.Some? then Some(NewLegacyValidator(validator.value)) else None)
  }

  /**
    * The Route record the module builder creates. Its constructor
    * (src/core/route.ts) is not part of this model; it is taken to build the
    * record as the legacy one does, wrapping validator options in the current
    * Validator, which carries `keys`.
    */
  function CoreRoute(verb: string, path: string, handler: Fn, validator: Option<Dict<Value>>): (r: Route)
    ensures r.verb == verb && r.path == path && r.handler == handler
    ensures r.generator <==> IsGeneratorName(handler.ctorName)
    ensures validator.None? ==> r.validator.None?
    ensures validator.Some? ==> r.validator.Some? && r.validator.value.keys == Some(Keys(validator.value))
  {
    Route(verb, path, handler, IsGeneratorName(handler.ctorName),
          if validator.Some? then Some(NewValidator(validator.value)) else None)
  }

  // ---------------------------------------------------------------------------
  // Endpoints
  // ---------------------------------------------------------------------------

  /** The five request facets a handler may use. */
  datatype Facet = Body | Cookies | Headers | Params | Query

  /**
    * A compiled route: the links to run before it, its path, the capturing
    * pattern text for its parameters, the route itself and the facets it uses.
    */
  datatype Endpoint = Endpoint(chain: seq<Link>, generator: bool, paramsPattern: string, path: string,
                               route: Route, use: set<Facet>)
}
