/**
  * The state an application object carries between compilation and request
  * handling: the per-method endpoint buckets, the per-method expressions, the
  * static route table, and the `memory` entries the core reads.
  */
module AppState {
  import opened Base
  import opened Records

  /** `options.compile` of a plugin: run before compiling (the default), after it, or never. */
  datatype CompileTime = BeforeCompile | AfterCompile | NeverCompile

  /** A registered plugin: its identity and its `compile` option, if any. */
  datatype PluginEntry = PluginEntry(id: nat, compile: Option<CompileTime>)

  /** The static route table: path, then route method, then the endpoint it serves. */
  type RouteTable = Dict<Dict<Endpoint>>

  /** The identity of the default validator backend, `validateStandardSchema`. */
  const StandardSchema: nat := 0

  class App {
    var endpoints: Dict<seq<Endpoint>>
    /**
      * The per-method expressions, each given by its alternatives: the
      * expression's source text is `MethodRegexp` of them.
      */
    var regexps: Dict<seq<string>>
    var routes: Option<RouteTable>
    /** `memory.get("module")`: the root module until compilation removes it. */
    var root: Option<Module>
    /** `memory.get("plugins")` (`"addons"` in the legacy generation). */
    var plugins: Option<seq<PluginEntry>>
    /** `memory.get("validator")`: the validator backend. */
    var validator: Option<nat>

    /** `new App(module)`: empty maps, no route table, the module kept in memory. */
    constructor (module0: Module)
      ensures endpoints == [] && regexps == [] && routes == None
      ensures root == Some(module0) && plugins == None && validator == None
    {
      endpoints := [];
      regexps := [];
      routes := None;
      root := Some(module0);
      plugins := None;
      validator := None;
    }
  }
}
