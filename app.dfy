/**
  * The application object (`src/core/app.ts`, and `src/app.ts` of the legacy
  * generation): registering plugins, compiling them around the route walk,
  * dispatching a request to an endpoint by the per-method expression, and
  * serving an endpoint by loading the context, running the chain and
  * turning the context's response into a reply.
  */
module Application {
  import opened Base
  import opened Records
  import opened AppState
  import opened Matcher
  import opened Compiler
  import opened RequestContext
  import opened Executor
  import opened Responses

  // ---------------------------------------------------------------------------
  // Registering plugins
  // ---------------------------------------------------------------------------

  /** The first argument of `plugin`: one plugin function, or an array whose falsy items are skipped. */
  datatype PluginArg = One(id: nat) | Many(items: seq<Option<nat>>)

  /** The entries one call of `plugin` appends, each carrying the call's options. */
  function Entries(arg: PluginArg, options: Option<CompileTime>): seq<PluginEntry>
    decreases if arg.Many? then |arg.items| else 0
  {
    match arg
    case One(id) => [PluginEntry(id, options)]
    case Many(items) =>
      if items == [] then []
      else
        var before := Entries(Many(items[..|items| - 1]), options);
        if items[|items| - 1].Some? then before + [PluginEntry(items[|items| - 1].value, options)] else before
  }

  /**
    * Every entry carries the options of the call, and a plugin is registered
    * exactly when it is the function passed or a truthy item of the array.
    */
  lemma {:induction false} EntriesRegister(arg: PluginArg, options: Option<CompileTime>, id: nat)
    ensures forall e :: e in Entries(arg, options) ==> e.compile == options
    ensures (exists e :: e in Entries(arg, options) && e.id == id) <==>
            (if arg.One? then arg.id == id else Some(id) in arg.items)
    ensures arg.Many? ==> |Entries(arg, options)| <= |arg.items|
    decreases if arg.Many? then |arg.items| else 0
  {
    if arg.Many? && arg.items != [] {
      var items := arg.items;
      var init := items[..|items| - 1];
      EntriesRegister(Many(init), options, id);
      assert items == init + [items[|items| - 1]];
      if Some(id) in items && Some(id) !in init {
        assert items[|items| - 1] == Some(id);
        assert PluginEntry(id, options) in Entries(arg, options);
      }
    }
  }

  /**
    * `App.prototype.plugin` (and the legacy `addon`): the plugin list is
    * created when missing and the new entries are appended in order.
    */
  method Plugin(app: App, arg: PluginArg, options: Option<CompileTime>)
    modifies app`plugins
    ensures app.plugins == Some(old(app.plugins).GetOr([]) + Entries(arg, options))
  {
    if app.plugins.None? {
      app.plugins := Some([]);
    }
    if arg.One? {
      app.plugins := Some(app.plugins.value + [PluginEntry(arg.id, options)]);
      return;
    }
    var i := 0;
    assert arg.items[..0] == [];
    assert app.plugins.value == old(app.plugins).GetOr([]) + [];
    while i < |arg.items|
      invariant i <= |arg.items|
      invariant app.plugins == Some(old(app.plugins).GetOr([]) + Entries(Many(arg.items[..i]), options))
    {
      assert arg.items[..i + 1][..i] == arg.items[..i];
      ghost var before := Entries(Many(arg.items[..i]), options);
      assert Entries(Many(arg.items[..i + 1]), options) ==
             if arg.items[i].Some? then before + [PluginEntry(arg.items[i].value, options)] else before;
      if arg.items[i].Some? {
        var e := PluginEntry(arg.items[i].value, options);
        assert old(app.plugins).GetOr([]) + before + [e] == old(app.plugins).GetOr([]) + (before + [e]);
        app.plugins := Some(app.plugins.value + [e]);
      }
      i := i + 1;
    }
    assert arg.items[..i] == arg.items;
  }

  // ---------------------------------------------------------------------------
  // Compiling
  // ---------------------------------------------------------------------------

  /** What happens during compilation, in order: a plugin is called, or the routes are compiled. */
  datatype Event = PluginRan(id: nat) | Compiled

  /** A plugin without `compile: false` or `compile: "AFTER"` runs before the routes are compiled. */
  predicate RunsBefore(p: PluginEntry) {
    p.compile != Some(NeverCompile) && p.compile != Some(AfterCompile)
  }

  predicate RunsAfter(p: PluginEntry) {
    p.compile == Some(AfterCompile)
  }

  /** The plugins, in registration order, that satisfy `runs`, each as the event of calling it. */
  function Calls(ps: seq<PluginEntry>, after: bool): seq<Event>
    decreases |ps|
  {
    if ps == [] then []
    else
      var p := ps[|ps| - 1];
      Calls(ps[..|ps| - 1], after) + (if (if after then RunsAfter(p) else RunsBefore(p)) then [PluginRan(p.id)] else [])
  }

  /** The order in which compilation calls the plugins and the compiler. */
  function Schedule(plugins: Option<seq<PluginEntry>>): seq<Event> {
    var ps := plugins.GetOr([]);
    Calls(ps, false) + [Compiled] + Calls(ps, true)
  }

  /** Calls are plugin calls only, and a plugin is called exactly when one of its entries qualifies. */
  lemma {:induction false} CallsMembers(ps: seq<PluginEntry>, after: bool, id: nat)
    ensures Compiled !in Calls(ps, after)
    ensures PluginRan(id) in Calls(ps, after) <==>
            exists k :: 0 <= k < |ps| && ps[k].id == id && (if after then RunsAfter(ps[k]) else RunsBefore(ps[k]))
    decreases |ps|
  {
    if ps != [] {
      var init := ps[..|ps| - 1];
      CallsMembers(init, after, id);
      forall k | 0 <= k < |init| ensures init[k] == ps[k] { }
    }
  }

  /**
    * The compiler is called exactly once; every plugin whose entry does not
    * say `compile: false` is called, those with `compile: "AFTER"` after the
    * compiler and the others before it.
    */
  lemma ScheduleOrder(plugins: Option<seq<PluginEntry>>, id: nat)
    ensures var s := Schedule(plugins);
            var c := |Calls(plugins.GetOr([]), false)|;
            c < |s| && s[c] == Compiled && Compiled !in s[..c] && Compiled !in s[c + 1..]
    ensures var ps := plugins.GetOr([]);
            PluginRan(id) in Schedule(plugins) <==>
            exists k :: 0 <= k < |ps| && ps[k].id == id && ps[k].compile != Some(NeverCompile)
    ensures var ps := plugins.GetOr([]);
            var c := |Calls(ps, false)|;
            (exists k :: 0 <= k < |ps| && ps[k].id == id && RunsAfter(ps[k])) ==> PluginRan(id) in Schedule(plugins)[c + 1..]
  {
    var ps := plugins.GetOr([]);
    var s := Schedule(plugins);
    var c := |Calls(ps, false)|;
    CallsMembers(ps, false, id);
    CallsMembers(ps, true, id);
    assert s[..c] == Calls(ps, false);
    assert s[c + 1..] == Calls(ps, true);
  }

  /**
    * What a plugin does to the app, as far as the core reads it: it may
    * register a validator backend (`memory.set("validator", …)`); `registers`
    * gives, per plugin, the backend it registers, if any.
    */
  function Registered(registers: nat -> Option<nat>, calls: seq<Event>, validator: Option<nat>): Option<nat>
    decreases |calls|
  {
    if calls == [] then validator
    else
      var before := Registered(registers, calls[..|calls| - 1], validator);
      var e := calls[|calls| - 1];
      if e.PluginRan? && registers(e.id).Some? then registers(e.id) else before
  }

  /** The backend after compiling: plugins run before compiling may register one, the default fills a gap, later plugins may override. */
  function CompiledValidator(registers: nat -> Option<nat>, ps: seq<PluginEntry>, validator: Option<nat>): Option<nat> {
    Registered(registers, Calls(ps, true), Some(Registered(registers, Calls(ps, false), validator).GetOr(StandardSchema)))
  }

  /**
    * Once compiled, the app always has a backend: the one the last plugin
    * to register one registered, or the standard one.
    */
  lemma {:induction false} ValidatorAfterCompile(registers: nat -> Option<nat>, ps: seq<PluginEntry>, validator: Option<nat>)
    ensures CompiledValidator(registers, ps, validator).Some?
    ensures (forall k :: 0 <= k < |ps| ==> registers(ps[k].id).None?) ==>
            CompiledValidator(registers, ps, validator) == Some(validator.GetOr(StandardSchema))
  {
    RegisteredUnchanged(registers, Calls(ps, false), validator);
    RegisteredUnchanged(registers, Calls(ps, true), Some(Registered(registers, Calls(ps, false), validator).GetOr(StandardSchema)));
    if forall k :: 0 <= k < |ps| ==> registers(ps[k].id).None? {
      forall id | PluginRan(id) in Calls(ps, false) || PluginRan(id) in Calls(ps, true) ensures registers(id).None? {
        CallsMembers(ps, false, id);
        CallsMembers(ps, true, id);
      }
    }
  }

  /** Calling only plugins that register nothing keeps the backend; a present backend stays present. */
  lemma {:induction false} RegisteredUnchanged(registers: nat -> Option<nat>, calls: seq<Event>, validator: Option<nat>)
    ensures validator.Some? ==> Registered(registers, calls, validator).Some?
    ensures (forall id :: PluginRan(id) in calls ==> registers(id).None?) ==> Registered(registers, calls, validator) == validator
    decreases |calls|
  {
    if calls != [] {
      var init := calls[..|calls| - 1];
      RegisteredUnchanged(registers, init, validator);
      if forall id :: PluginRan(id) in calls ==> registers(id).None? {
        forall id | PluginRan(id) in init ensures registers(id).None? {
          var j :| 0 <= j < |init| && init[j] == PluginRan(id);
          assert calls[j] == PluginRan(id);
        }
      }
    }
  }

  /** Calling one plugin. */
  method CallPlugin(app: App, registers: nat -> Option<nat>, id: nat)
    modifies app`validator
    ensures app.validator == if registers(id).Some? then registers(id) else old(app.validator)
  {
    if registers(id).Some? {
      app.validator := registers(id);
    }
  }

  /** Calling, in order, the plugins `ids` names. */
  method CallPlugins(app: App, registers: nat -> Option<nat>, calls: seq<Event>) returns (log: seq<Event>)
    requires forall e :: e in calls ==> e.PluginRan?
    modifies app`validator
    ensures log == calls
    ensures app.validator == Registered(registers, calls, old(app.validator))
  {
    log := [];
    var i := 0;
    while i < |calls|
      invariant i <= |calls|
      invariant log == calls[..i]
      invariant app.validator == Registered(registers, calls[..i], old(app.validator))
    {
      assert calls[..i + 1][..i] == calls[..i];
      assert calls[i] in calls;
      CallPlugin(app, registers, calls[i].id);
      log := log + [calls[i]];
      i := i + 1;
    }
    assert calls[..i] == calls;
  }

  /** The plugin loop: the plugins to call now, in order, and the ones deferred until after compiling. */
  method SortPlugins(ps: seq<PluginEntry>) returns (now: seq<Event>, later: seq<Event>)
    ensures now == Calls(ps, false) && later == Calls(ps, true)
  {
    now, later := [], [];
    var i := 0;
    while i < |ps|
      invariant i <= |ps|
      invariant now == Calls(ps[..i], false) && later == Calls(ps[..i], true)
    {
      assert ps[..i + 1][..i] == ps[..i];
      if ps[i].compile == Some(NeverCompile) {
      } else if ps[i].compile == Some(AfterCompile) {
        later := later + [PluginRan(ps[i].id)];
      } else {
        now := now + [PluginRan(ps[i].id)];
      }
      i := i + 1;
    }
    assert ps[..i] == ps;
  }

  lemma CallsArePluginCalls(ps: seq<PluginEntry>, after: bool)
    ensures forall e :: e in Calls(ps, after) ==> e.PluginRan?
  {
    forall e | e in Calls(ps, after) ensures e.PluginRan? {
      CallsMembers(ps, after, 0);
    }
  }

  /**
   * `App.prototype.compile` of the current generation: the maps are cleared
   * and the route table reset, plugins run before the compiler unless
   * deferred or disabled, the deferred ones after it, and the module and
   * the plugin list are removed from memory.
   */
  method CompileApp(app: App, registers: nat -> Option<nat>) returns (log: seq<Event>)
    requires app.root.Some?
    modifies app
    ensures log == Schedule(old(app.plugins))
    ensures app.validator == CompiledValidator(registers, old(app.plugins).GetOr([]), old(app.validator))
    ensures var w := Walked(old(app.root).value, []);
            app.endpoints == ReversedUpTo(w, |w|) &&
            app.regexps == RegexpsUpTo(w, [], |w|, CoreRoutes) &&
            app.routes == RoutesUpTo(w, Some([]), |w|, CoreRoutes)
    ensures app.root == None && app.plugins == None
  {
    var root := app.root.value;
    app.endpoints := [];
    app.regexps := [];
    app.routes := Some([]);
    var ps := app.plugins.GetOr([]);
    var now, later := SortPlugins(ps);
    CallsArePluginCalls(ps, false);
    CallsArePluginCalls(ps, true);
    var first := CallPlugins(app, registers, now);
    CompileWith(app, root, CoreRoutes);
    var second := CallPlugins(app, registers, later);
    log := first + [Compiled] + second;
    app.root := None;
    app.plugins := None;
  }

  /**
   * The legacy `App.prototype.compile(module)`: addons as above, the
   * standard backend as the default, then the walk written inline; nothing
   * is cleared first, and the backend default is set by the method itself.
   */
  method LegacyCompile(app: App, module0: Module, registers: nat -> Option<nat>) returns (log: seq<Event>)
    modifies app
    ensures log == Schedule(old(app.plugins))
    ensures app.validator == CompiledValidator(registers, old(app.plugins).GetOr([]), old(app.validator))
    ensures var w := Walked(module0, old(app.endpoints));
            app.endpoints == ReversedUpTo(w, |w|) &&
            app.regexps == RegexpsUpTo(w, old(app.regexps), |w|, InlineRoutes) &&
            app.routes == RoutesUpTo(w, old(app.routes), |w|, InlineRoutes)
    ensures app.root == None && app.plugins == None
  {
    var ps := app.plugins.GetOr([]);
    var now, later := SortPlugins(ps);
    CallsArePluginCalls(ps, false);
    CallsArePluginCalls(ps, true);
    var first := CallPlugins(app, registers, now);
    CompileWith(app, module0, InlineRoutes);
    var second := CallPlugins(app, registers, later);
    log := first + [Compiled] + second;
    app.root := None;
    app.plugins := None;
  }

  // ---------------------------------------------------------------------------
  // Dispatching a request
  // ---------------------------------------------------------------------------

  /** What `fetch` does with a request: answer 404, or serve an endpoint with the matched path. */
  datatype Dispatched = NotFound | Serve(endpoint: Endpoint, path: string)

  /**
    * The regular-expression engine: the captures of the method's expression
    * (given by its alternatives) on the URL, or nothing when it does not match.
    */
  type Engine = (seq<string>, string) -> Option<seq<Option<string>>>

  /**
    * `App.prototype.fetch`: no expression for the method or no match is 404;
    * the endpoint is the one at the index of the first empty marker group,
    * and a missing endpoint or an empty path group is 404 as well.
    */
  function Dispatch(endpoints: Dict<seq<Endpoint>>, regexps: Dict<seq<string>>, verb: string, url: string,
                    exec: Engine): (r: Dispatched)
    ensures r.Serve? ==> Lookup(regexps, verb).Some? && exec(Lookup(regexps, verb).value, url).Some?
    ensures r.Serve? ==> Lookup(endpoints, verb).Some? && r.endpoint in Lookup(endpoints, verb).value
    ensures r.Serve? ==> |exec(Lookup(regexps, verb).value, url).value| >= 3 && r.path != [] &&
                         Some(r.path) == exec(Lookup(regexps, verb).value, url).value[2]
  {
    match Lookup(regexps, verb)
    case None => NotFound
    case Some(alternatives) =>
      match exec(alternatives, url)
      case None => NotFound
      case Some(m) =>
        var index := MarkerIndex(m);
        var bucket := Lookup(endpoints, verb);
        if bucket.None? || index >= |bucket.value| || |m| < 3 || m[2].None? || m[2].value == [] then NotFound
        else Serve(bucket.value[index], m[2].value)
  }

  method Fetch(app: App, verb: string, url: string, exec: Engine) returns (r: Dispatched)
    ensures r == Dispatch(app.endpoints, app.regexps, verb, url, exec)
  {
    var expression := Lookup(app.regexps, verb);
    if expression.None? {
      return NotFound;
    }
    var m := exec(expression.value, url);
    if m.None? {
      return NotFound;
    }
    var index := FindMarker(m.value);
    var bucket := Lookup(app.endpoints, verb);
    if bucket.None? || index >= |bucket.value| || |m.value| < 3 || m.value[2].None? || m.value[2].value == [] {
      return NotFound;
    }
    r := Serve(bucket.value[index], m.value[2].value);
  }

  /**
    * After compiling from nothing, when alternative `k` of a method's
    * expression matches a URL with a non-empty path, `fetch` serves the
    * endpoint declared `k`-th from the end of that method's bucket: the
    * marker index and the reversed bucket agree.
    */
  lemma FetchAfterCompile(root: Module, variant: RoutesVariant, i: nat, url: string, exec: Engine,
                          whole: string, scheme: string, path: string, k: nat)
    requires i < |Walked(root, [])|
    requires !Skipped(Walked(root, [])[i].0, Walked(root, [])[i].1, variant)
    requires k < |Walked(root, [])[i].1|
    requires exec(Alternation(Walked(root, [])[i].1), url) == Some(MatchGroups(whole, scheme, path, k, |Walked(root, [])[i].1|))
    requires path != []
    ensures var w := Walked(root, []);
            var bucket := w[i].1;
            Dispatch(ReversedUpTo(w, |w|), RegexpsUpTo(w, [], |w|, variant), w[i].0, url, exec) ==
            Serve(bucket[|bucket| - 1 - k], path)
  {
    var w := Walked(root, []);
    var bucket := w[i].1;
    CompiledRegexp(root, variant, i);
    WalkedFiled(root);
    var r := ReversedUpTo(w, |w|);
    assert r[i] == (w[i].0, Reverse(bucket));
    assert UniqueKeys(r) by {
      forall a, b | 0 <= a < b < |r| ensures r[a].0 != r[b].0 {
        assert r[a].0 == w[a].0 && r[b].0 == w[b].0;
      }
    }
    LookupAt(r, i);
    MarkerIndexRecovers(whole, scheme, path, k, |bucket|);
  }

  /** A URL whose path group is empty, or a method without an expression, is answered 404. */
  lemma FetchMisses(endpoints: Dict<seq<Endpoint>>, regexps: Dict<seq<string>>, verb: string, url: string,
                    exec: Engine, whole: string, scheme: string, k: nat, n: nat)
    requires k < n
    ensures Lookup(regexps, verb).None? ==> Dispatch(endpoints, regexps, verb, url, exec) == NotFound
    ensures Lookup(regexps, verb).Some? && exec(Lookup(regexps, verb).value, url) == Some(MatchGroups(whole, scheme, [], k, n)) ==>
            Dispatch(endpoints, regexps, verb, url, exec) == NotFound
  {
  }

  // ---------------------------------------------------------------------------
  // Serving an endpoint
  // ---------------------------------------------------------------------------

  /** The state the chain starts from: the path and the facets the endpoint uses, nothing else. */
  function Initial(ep: Endpoint, path: string, f: Facets): State {
    State(Loaded([("path", Str(path))], ep.use, f), [], Undefined, [], [], [])
  }

  /** The reply `processResponse` makes of the content and headers the chain left. */
  function CoreResponse(content: Value, headers: Headers): (r: Reply)
    ensures r.StreamReply? <==> Unwrapped(content).Stream?
  {
    var c := Unwrapped(content);
    if c.Stream? then StreamReply(c, CoreStreamHeaders(headers)) else CoreReply(c, headers)
  }

  /** What `endpoint` answers: nothing when the chain throws (the promise rejects), else the reply. */
  function Served(env: Env, gen: Generation, ep: Endpoint, s: State): Option<Reply> {
    var ran := Run(env, gen, ep, 0, s);
    if ran.threw then None
    else if gen == Current then Some(CoreResponse(ran.state.content, ran.state.headers))
    else Some(AppReply(ran.state.content, ran.state.headers))
  }

  /**
    * `App.prototype.endpoint`: a new context for the request, its facets
    * loaded, the chain run from link 0, and the response processed (by
    * `processResponse` in the current generation, by `App.prototype.response`
    * in the legacy one).
    */
  method ServeEndpoint(env: Env, gen: Generation, ep: Endpoint, path: string, raw: RawRequest,
                       groups: Option<Dict<Value>>, pairs: seq<(string, string)>, parse: string -> Value)
    returns (reply: Option<Reply>)
    ensures reply == Served(env, gen, ep, Initial(ep, path, FacetsOf(raw, groups, pairs, parse)))
  {
    var ctx := new Context(ep, path, raw);
    ctx.LoadRequest(groups, pairs, parse);
    assert Snapshot(ctx) == Initial(ep, path, FacetsOf(raw, groups, pairs, parse));
    ghost var trace;
    var threw;
    trace, threw := Executor.Step(ctx, env, gen, 0);
    if threw {
      return None;
    }
    var r;
    if gen == Current {
      r := ProcessResponse(ctx.response);
    } else {
      r := AppResponse(ctx.response);
    }
    reply := Some(r);
  }

  /**
    * A request that fails validation is answered with the 422 Error of the
    * aggregated failures, serialised as JSON, and the route never runs: a
    * validator first in the chain, with schemas and keys, whose checks log
    * at least one failure. When a failure's content is `null` or
    * `undefined`, reading its `pop` throws and nothing is answered.
    */
  lemma ValidationFailureReplies(env: Env, ep: Endpoint, v: Validator, s: State)
    requires |ep.chain| > 0 && ep.chain[0] == ValidatorLink(v) && v.request.Some? && v.keys.Some?
    requires !Truthy(s.content)
    requires |Aggregate(CheckUpTo(env.validate, v.request.value, v.keys.value, |v.keys.value|, s.request).failures)| > 0
    ensures CheckUpTo(env.validate, v.request.value, v.keys.value, |v.keys.value|, s.request).threw ==>
            Run(env, Current, ep, 0, s).trace == [0] && Served(env, Current, ep, s) == None
    ensures var c := CheckUpTo(env.validate, v.request.value, v.keys.value, |v.keys.value|, s.request);
            var errors := Aggregate(c.failures);
            !c.threw ==>
            Run(env, Current, ep, 0, s).trace == [0] &&
            Served(env, Current, ep, s) == Some(JsonReply(Payload(ErrorContent(errors), Num(422), false, Undefined), s.headers, Num(422)))
  {
    var c := CheckUpTo(env.validate, v.request.value, v.keys.value, |v.keys.value|, s.request);
    RunLinkUnfold(env, Current, ep, 0, s);
    if !c.threw {
      var errors := Aggregate(c.failures);
      ErrorGenerationsAgree(errors);
      var s1 := s.(request := c.request, content := ErrorOf(Current, errors));
      assert LinkStep(env, Current, ep.chain[0], s) == Continue(s1, true);
      assert Truthy(s1.content);
      ContentShortCircuits(env, Current, ep, 1, s1);
    }
  }
}
