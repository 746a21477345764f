/**
  * The route-tree compiler (`step` and `compile`): it walks the module tree
  * with an explicit stack, accumulates middleware, store and validator links
  * into chains, files one endpoint per route into a per-method bucket, then
  * reverses each bucket and builds the per-method alternation and the static
  * route table.
  */
module Compiler {
  import opened Base
  import opened Text
  import opened Records
  import opened Usage
  import opened PathPattern
  import opened Matcher
  import opened AppState

  /** What a module inherits: the chain and the path accumulated above it. */
  datatype Previous = Previous(chain: seq<Link>, path: string)

  /** A work-stack entry: a module to compile and what it inherits. */
  datatype Frame = Frame(scope: Module, previous: Previous)

  /** The state of one `step` scan: its local chain and path, the shared stack and the buckets. */
  datatype Acc = Acc(chain: seq<Link>, path: string, stack: seq<Frame>, endpoints: Dict<seq<Endpoint>>)

  const NoPrevious: Previous := Previous([], "")

  /** `p === "/"`. */
  predicate IsRoot(p: string) {
    |p| == 1 && p[0] == '/'
  }

  /** `p === "/" ? "" : p`: a lone slash contributes nothing to a path. */
  function Contribution(p: string): string {
    if IsRoot(p) then "" else p
  }

  /** `p || "/"`. */
  function OrRoot(p: string): string {
    if p == "" then "/" else p
  }

  /** The bucket a route is filed under: WebSocket routes ride on GET. */
  function BucketOf(verb: string): (b: string)
    ensures b != "WS"
    ensures verb != "WS" ==> b == verb
  {
    if verb == "WS" then "GET" else verb
  }

  function ValidatorLinks(r: Route): seq<Link> {
    if r.validator.Some? then [ValidatorLink(r.validator.value)] else []
  }

  function FinalPath(previous: Previous, path: string, r: Route): (p: string)
    ensures p != ""
  {
    OrRoot(previous.path + path + Contribution(r.path))
  }

  /** The endpoint a route becomes, given the chain and path accumulated before it. */
  function MakeEndpoint(previous: Previous, chain: seq<Link>, path: string, r: Route): (e: Endpoint)
    ensures e.route == r && e.generator == r.generator && e.path != ""
    ensures e.chain == previous.chain + chain + ValidatorLinks(r)
    ensures FlatChain(previous.chain + chain) ==> FlatChain(e.chain)
  {
    var merged := previous.chain + chain;
    var finalPath := FinalPath(previous, path, r);
    var e := Endpoint(merged + ValidatorLinks(r), r.generator, "^" + Pattern(finalPath, true) + "$", finalPath, r,
                      EndpointUsage(merged, r.handler.text));
    e
  }

  /** `endpoints.get(bucket).push(e)`, creating the bucket when missing. */
  function Append(endpoints: Dict<seq<Endpoint>>, bucket: string, e: Endpoint): Dict<seq<Endpoint>> {
    Put(endpoints, bucket, Lookup(endpoints, bucket).GetOr([]) + [e])
  }

  /**
    * The module a group link synthesises: the inherited and local chains so
    * far, then the links the group's function adds; its prefix joins the
    * inherited path, the local path and the group prefix.
    */
  function GroupModule(previous: Previous, chain: seq<Link>, path: string, builder: seq<Link>, prefix: string): Module {
    Module(previous.chain + chain + builder, previous.path + Contribution(path) + Contribution(prefix))
  }

  // ---------------------------------------------------------------------------
  // `step` as a function of the links scanned
  // ---------------------------------------------------------------------------

  /** The effect of one link on the scan. */
  function Next(link: Link, previous: Previous, acc: Acc): Acc
    decreases link
  {
    match link
    case GroupLink(builder, prefix) =>
      acc.(stack := acc.stack + [Frame(GroupModule(previous, acc.chain, acc.path, builder, prefix), NoPrevious)])
    case ModuleLink(m) =>
      var inner := StepLinks(m.chain, Previous(previous.chain + acc.chain, previous.path + Contribution(acc.path)),
                             Acc([], m.prefix, acc.stack, acc.endpoints));
      Acc(acc.chain + inner.chain, acc.path + Contribution(inner.path), inner.stack, inner.endpoints)
    case RouteLink(r) =>
      acc.(endpoints := Append(acc.endpoints, BucketOf(r.verb), MakeEndpoint(previous, acc.chain, acc.path, r)))
    case _ =>
      acc.(chain := acc.chain + [link])
  }

  /** The scan of `links` in declaration order. */
  function StepLinks(links: seq<Link>, previous: Previous, acc: Acc): Acc
    decreases links
  {
    if links == [] then acc else StepLinks(links[1..], previous, Next(links[0], previous, acc))
  }

  /** `step(stack, endpoints, module, previous)`: the scan of a whole module, starting from its prefix. */
  function StepModule(m: Module, previous: Previous, stack: seq<Frame>, endpoints: Dict<seq<Endpoint>>): Acc {
    StepLinks(m.chain, previous, Acc([], m.prefix, stack, endpoints))
  }

  /** The endpoint for a route, with its usage scan and its capturing pattern. */
  method MakeEndpointOf(previous: Previous, chain: seq<Link>, path: string, r: Route) returns (e: Endpoint)
    ensures e == MakeEndpoint(previous, chain, path, r)
  {
    var merged := previous.chain + chain;
    var use := ScanUsage(merged, r.handler.text);
    var finalPath := previous.path + path + (if IsRoot(r.path) then "" else r.path);
    if finalPath == "" {
      finalPath := "/";
    }
    var pattern := PathToRegexp(finalPath, true);
    e := Endpoint(if r.validator.Some? then merged + [ValidatorLink(r.validator.value)] else merged,
                  r.generator, "^" + pattern + "$", finalPath, r, use);
  }

  /**
    * `step`: scans the module's links in order, pushing group modules onto the
    * stack, compiling nested modules in place and filing one endpoint per route.
    */
  method Step(app: App, stack: seq<Frame>, m: Module, previous: Previous)
    returns (chain: seq<Link>, path: string, newStack: seq<Frame>)
    modifies app`endpoints
    decreases m
    ensures Acc(chain, path, newStack, app.endpoints) == StepModule(m, previous, stack, old(app.endpoints))
  {
    chain := [];
    path := m.prefix;
    newStack := stack;
    var i := 0;
    while i < |m.chain|
      invariant 0 <= i <= |m.chain|
      invariant StepLinks(m.chain[i..], previous, Acc(chain, path, newStack, app.endpoints))
                == StepModule(m, previous, stack, old(app.endpoints))
    {
      var link := m.chain[i];
      assert m.chain[i..][1..] == m.chain[i + 1..];
      match link {
        case GroupLink(builder, prefix) =>
          var scope := Module([], previous.path + (if IsRoot(path) then "" else path) + (if IsRoot(prefix) then "" else prefix));
          scope := scope.(chain := previous.chain + chain + builder);
          newStack := newStack + [Frame(scope, NoPrevious)];
        case ModuleLink(inner) =>
          var innerChain, innerPath, s := Step(app, newStack, inner, Previous(previous.chain + chain, previous.path + (if IsRoot(path) then "" else path)));
          newStack := s;
          chain := chain + innerChain;
          if !IsRoot(innerPath) {
            path := path + innerPath;
          } else {
            assert path + Contribution(innerPath) == path;
          }
        case RouteLink(r) =>
          var e := MakeEndpointOf(previous, chain, path, r);
          var bucket := if r.verb == "WS" then "GET" else r.verb;
          var existing := Lookup(app.endpoints, bucket);
          app.endpoints := Put(app.endpoints, bucket, existing.GetOr([]) + [e]);
        case _ =>
          chain := chain + [link];
      }
      i := i + 1;
    }
  }

  // ---------------------------------------------------------------------------
  // What a scan accumulates
  // ---------------------------------------------------------------------------

  /** The chain links a scan collects: its own middleware, store and validator links, and those of nested modules. */
  function Flatten(links: seq<Link>): seq<Link>
    decreases links
  {
    if links == [] then [] else FlatOf(links[0]) + Flatten(links[1..])
  }

  function FlatOf(l: Link): seq<Link>
    decreases l
  {
    match l
    case ModuleLink(m) => Flatten(m.chain)
    case GroupLink(_, _) => []
    case RouteLink(_) => []
    case _ => [l]
  }

  /** The path a scan adds after the module's prefix: each nested module's own path, unless it is `/`. */
  function NestedPath(links: seq<Link>): string
    decreases links
  {
    if links == [] then "" else LinkPath(links[0]) + NestedPath(links[1..])
  }

  function LinkPath(l: Link): string
    decreases l
  {
    match l
    case ModuleLink(m) => Contribution(m.prefix + NestedPath(m.chain))
    case _ => ""
  }

  /**
    * A scan appends to the local chain exactly the flattened links, and to the
    * local path exactly the nested modules' paths: groups and routes change neither.
    */
  lemma {:induction false} StepShape(links: seq<Link>, previous: Previous, acc: Acc)
    ensures StepLinks(links, previous, acc).chain == acc.chain + Flatten(links)
    ensures StepLinks(links, previous, acc).path == acc.path + NestedPath(links)
    decreases links
  {
    if links != [] {
      var next := Next(links[0], previous, acc);
      NextShape(links[0], previous, acc);
      StepShape(links[1..], previous, next);
      Regroup(acc.chain, FlatOf(links[0]), Flatten(links[1..]));
      Regroup(acc.path, LinkPath(links[0]), NestedPath(links[1..]));
    }
  }

  lemma {:induction false} NextShape(link: Link, previous: Previous, acc: Acc)
    ensures Next(link, previous, acc).chain == acc.chain + FlatOf(link)
    ensures Next(link, previous, acc).path == acc.path + LinkPath(link)
    decreases link
  {
    match link
    case ModuleLink(m) =>
      var inner := Acc([], m.prefix, acc.stack, acc.endpoints);
      StepShape(m.chain, Previous(previous.chain + acc.chain, previous.path + Contribution(acc.path)), inner);
      assert [] + Flatten(m.chain) == Flatten(m.chain);
    case GroupLink(_, _) =>
      assert acc.chain + [] == acc.chain && acc.path + "" == acc.path;
    case RouteLink(_) =>
      assert acc.chain + [] == acc.chain && acc.path + "" == acc.path;
    case _ =>
      assert acc.path + "" == acc.path;
  }

  /** Only middleware, store and validator links are ever collected: never a route, group or module. */
  lemma {:induction false} FlattenIsFlat(links: seq<Link>)
    ensures FlatChain(Flatten(links))
    decreases links
  {
    if links != [] {
      FlatOfIsFlat(links[0]);
      FlattenIsFlat(links[1..]);
    }
  }

  lemma {:induction false} FlatOfIsFlat(l: Link)
    ensures FlatChain(FlatOf(l))
    decreases l
  {
    match l
    case ModuleLink(m) => FlattenIsFlat(m.chain);
    case _ =>
  }

  /** Scanning `a + b` is scanning `a`, then `b` from where `a` left off. */
  lemma {:induction false} StepSplit(a: seq<Link>, b: seq<Link>, previous: Previous, acc: Acc)
    ensures StepLinks(a + b, previous, acc) == StepLinks(b, previous, StepLinks(a, previous, acc))
    decreases a
  {
    if a == [] {
      assert a + b == b;
    } else {
      assert (a + b)[1..] == a[1..] + b;
      StepSplit(a[1..], b, previous, Next(a[0], previous, acc));
    }
  }

  /**
    * The endpoint a route emits: its chain is the inherited chain, the local
    * chain, the links collected from the links declared before it (nested
    * modules included), then its own validator; its path joins the inherited
    * path, the local path so far and its own path, or is `/` when that is
    * empty. It is appended at the end of its method's bucket, WebSocket routes
    * under GET.
    */
  lemma RouteEndpoint(links: seq<Link>, previous: Previous, acc: Acc, r: nat)
    requires r < |links| && links[r].RouteLink?
    ensures var route := links[r].route;
            var before := StepLinks(links[..r], previous, acc);
            var bucket := BucketOf(route.verb);
            var chain := previous.chain + acc.chain + Flatten(links[..r]);
            var e := MakeEndpoint(previous, acc.chain + Flatten(links[..r]), acc.path + NestedPath(links[..r]), route);
            && e.chain == chain + ValidatorLinks(route)
            && e.path == OrRoot(previous.path + acc.path + NestedPath(links[..r]) + Contribution(route.path))
            && Lookup(StepLinks(links[..r + 1], previous, acc).endpoints, bucket)
               == Some(Lookup(before.endpoints, bucket).GetOr([]) + [e])
  {
    assert links[..r + 1] == links[..r] + [links[r]];
    StepSplit(links[..r], [links[r]], previous, acc);
    StepShape(links[..r], previous, acc);
    var before := StepLinks(links[..r], previous, acc);
    assert StepLinks([links[r]], previous, before) == Next(links[r], previous, before);
    Regroup(previous.chain, acc.chain, Flatten(links[..r]));
    Regroup(previous.path, acc.path, NestedPath(links[..r]));
  }

  /**
    * A group pushes one frame: a module holding the inherited chain, the chain
    * collected so far and the group's own links (nothing declared after the
    * group), with the joined prefix and nothing further inherited.
    */
  lemma GroupFrame(links: seq<Link>, previous: Previous, acc: Acc, g: nat)
    requires g < |links| && links[g].GroupLink?
    ensures var before := StepLinks(links[..g], previous, acc);
            var scope := Module(previous.chain + acc.chain + Flatten(links[..g]) + links[g].builder,
                                previous.path + Contribution(acc.path + NestedPath(links[..g])) + Contribution(links[g].prefix));
            StepLinks(links[..g + 1], previous, acc).stack == before.stack + [Frame(scope, NoPrevious)]
  {
    assert links[..g + 1] == links[..g] + [links[g]];
    StepSplit(links[..g], [links[g]], previous, acc);
    StepShape(links[..g], previous, acc);
    var before := StepLinks(links[..g], previous, acc);
    assert StepLinks([links[g]], previous, before) == Next(links[g], previous, before);
    Regroup(previous.chain, acc.chain, Flatten(links[..g]));
  }

  /** No scan ever creates a bucket named `WS`. */
  lemma {:induction false} NoWebSocketBucket(links: seq<Link>, previous: Previous, acc: Acc)
    requires Lookup(acc.endpoints, "WS").None?
    ensures Lookup(StepLinks(links, previous, acc).endpoints, "WS").None?
    decreases links
  {
    if links != [] {
      NextNoWebSocketBucket(links[0], previous, acc);
      NoWebSocketBucket(links[1..], previous, Next(links[0], previous, acc));
    }
  }

  lemma {:induction false} NextNoWebSocketBucket(link: Link, previous: Previous, acc: Acc)
    requires Lookup(acc.endpoints, "WS").None?
    ensures Lookup(Next(link, previous, acc).endpoints, "WS").None?
    decreases link
  {
    match link
    case ModuleLink(m) =>
      NoWebSocketBucket(m.chain, Previous(previous.chain + acc.chain, previous.path + Contribution(acc.path)),
                        Acc([], m.prefix, acc.stack, acc.endpoints));
    case _ =>
  }

  /** Buckets only grow at their end and the stack only grows at its top. */
  lemma {:induction false} StepGrows(links: seq<Link>, previous: Previous, acc: Acc, bucket: string)
    ensures var r := StepLinks(links, previous, acc);
            && |acc.stack| <= |r.stack| && r.stack[..|acc.stack|] == acc.stack
            && (Lookup(acc.endpoints, bucket).Some? ==>
                  && Lookup(r.endpoints, bucket).Some?
                  && |Lookup(acc.endpoints, bucket).value| <= |Lookup(r.endpoints, bucket).value|
                  && Lookup(r.endpoints, bucket).value[..|Lookup(acc.endpoints, bucket).value|] == Lookup(acc.endpoints, bucket).value)
    decreases links
  {
    if links != [] {
      var next := Next(links[0], previous, acc);
      NextGrows(links[0], previous, acc, bucket);
      StepGrows(links[1..], previous, next, bucket);
      var r := StepLinks(links, previous, acc);
      assert r.stack[..|next.stack|][..|acc.stack|] == r.stack[..|acc.stack|];
      if Lookup(acc.endpoints, bucket).Some? {
        var a, n, z := Lookup(acc.endpoints, bucket).value, Lookup(next.endpoints, bucket).value, Lookup(r.endpoints, bucket).value;
        assert z[..|n|][..|a|] == z[..|a|];
      }
    }
  }

  lemma {:induction false} NextGrows(link: Link, previous: Previous, acc: Acc, bucket: string)
    ensures var r := Next(link, previous, acc);
            && |acc.stack| <= |r.stack| && r.stack[..|acc.stack|] == acc.stack
            && (Lookup(acc.endpoints, bucket).Some? ==>
                  && Lookup(r.endpoints, bucket).Some?
                  && |Lookup(acc.endpoints, bucket).value| <= |Lookup(r.endpoints, bucket).value|
                  && Lookup(r.endpoints, bucket).value[..|Lookup(acc.endpoints, bucket).value|] == Lookup(acc.endpoints, bucket).value)
    decreases link
  {
    match link
    case ModuleLink(m) =>
      StepGrows(m.chain, Previous(previous.chain + acc.chain, previous.path + Contribution(acc.path)),
                Acc([], m.prefix, acc.stack, acc.endpoints), bucket);
    case GroupLink(_, _) =>
      var r := Next(link, previous, acc);
      assert r.stack[..|acc.stack|] == acc.stack;
    case RouteLink(route) =>
      var r := Next(link, previous, acc);
      if Lookup(acc.endpoints, bucket).Some? && bucket == BucketOf(route.verb) {
        var a := Lookup(acc.endpoints, bucket).value;
        assert Lookup(r.endpoints, bucket).value[..|a|] == a;
      }
    case _ =>
  }

  // ---------------------------------------------------------------------------
  // The work stack
  // ---------------------------------------------------------------------------

  /** Every frame inherits a chain of middleware, store and validator links only. */
  predicate StackReady(stack: seq<Frame>) {
    forall i :: 0 <= i < |stack| ==> FlatChain(stack[i].previous.chain)
  }

  /** The group links reachable from `links` without entering a group's own links, counted with those inside. */
  function GroupWeight(links: seq<Link>): nat
    decreases links
  {
    if links == [] then 0 else LinkGroupWeight(links[0]) + GroupWeight(links[1..])
  }

  function LinkGroupWeight(l: Link): nat
    decreases l
  {
    match l
    case GroupLink(builder, _) => 1 + GroupWeight(builder)
    case ModuleLink(m) => GroupWeight(m.chain)
    case _ => 0
  }

  /** The work left on the stack: each frame counts one plus the groups it will push. */
  function StackWeight(stack: seq<Frame>): nat {
    if stack == [] then 0
    else StackWeight(stack[..|stack| - 1]) + GroupWeight(stack[|stack| - 1].scope.chain) + 1
  }

  lemma {:induction false} GroupWeightAppend(a: seq<Link>, b: seq<Link>)
    ensures GroupWeight(a + b) == GroupWeight(a) + GroupWeight(b)
    decreases a
  {
    if a == [] {
      assert a + b == b;
    } else {
      assert (a + b)[1..] == a[1..] + b;
      GroupWeightAppend(a[1..], b);
    }
  }

  lemma {:induction false} FlatWeight(a: seq<Link>)
    requires FlatChain(a)
    ensures GroupWeight(a) == 0
    decreases a
  {
    if a != [] {
      FlatWeight(a[1..]);
    }
  }

  /**
    * A scan pushes frames whose total weight is exactly the weight of the
    * groups it met, and every frame it pushes inherits nothing.
    */
  lemma {:induction false} StepStack(links: seq<Link>, previous: Previous, acc: Acc)
    requires FlatChain(previous.chain) && FlatChain(acc.chain) && StackReady(acc.stack)
    ensures StackReady(StepLinks(links, previous, acc).stack)
    ensures StackWeight(StepLinks(links, previous, acc).stack) == StackWeight(acc.stack) + GroupWeight(links)
    decreases links
  {
    if links != [] {
      var next := Next(links[0], previous, acc);
      NextStack(links[0], previous, acc);
      NextShape(links[0], previous, acc);
      FlatOfIsFlat(links[0]);
      assert FlatChain(next.chain);
      StepStack(links[1..], previous, next);
    }
  }

  lemma {:induction false} NextStack(link: Link, previous: Previous, acc: Acc)
    requires FlatChain(previous.chain) && FlatChain(acc.chain) && StackReady(acc.stack)
    ensures StackReady(Next(link, previous, acc).stack)
    ensures StackWeight(Next(link, previous, acc).stack) == StackWeight(acc.stack) + LinkGroupWeight(link)
    decreases link
  {
    match link
    case GroupLink(builder, prefix) =>
      var scope := GroupModule(previous, acc.chain, acc.path, builder, prefix);
      var stack := acc.stack + [Frame(scope, NoPrevious)];
      assert stack[..|stack| - 1] == acc.stack;
      GroupWeightAppend(previous.chain + acc.chain, builder);
      GroupWeightAppend(previous.chain, acc.chain);
      FlatWeight(previous.chain);
      FlatWeight(acc.chain);
    case ModuleLink(m) =>
      StepStack(m.chain, Previous(previous.chain + acc.chain, previous.path + Contribution(acc.path)),
                Acc([], m.prefix, acc.stack, acc.endpoints));
    case _ =>
  }

  /** The `while (stack.length > 0)` loop of `compile`: pop the top frame and scan it, until the stack is empty. */
  function Drain(stack: seq<Frame>, endpoints: Dict<seq<Endpoint>>): Dict<seq<Endpoint>>
    requires StackReady(stack)
    decreases StackWeight(stack)
  {
    if stack == [] then endpoints
    else
      var top := stack[|stack| - 1];
      var rest := stack[..|stack| - 1];
      StepStack(top.scope.chain, top.previous, Acc([], top.scope.prefix, rest, endpoints));
      var r := StepModule(top.scope, top.previous, rest, endpoints);
      Drain(r.stack, r.endpoints)
  }

  /** Compiling the tree: the root frame inherits nothing, and frames are popped last-in first-out. */
  method Walk(app: App, root: Module)
    modifies app`endpoints
    ensures app.endpoints == Drain([Frame(root, NoPrevious)], old(app.endpoints))
  {
    var stack := [Frame(root, NoPrevious)];
    while |stack| > 0
      invariant StackReady(stack)
      invariant Drain(stack, app.endpoints) == Drain([Frame(root, NoPrevious)], old(app.endpoints))
      decreases StackWeight(stack)
    {
      var top := stack[|stack| - 1];
      stack := stack[..|stack| - 1];
      StepStack(top.scope.chain, top.previous, Acc([], top.scope.prefix, stack, app.endpoints));
      var _, _, pushed := Step(app, stack, top.scope, top.previous);
      stack := pushed;
    }
  }

  // ---------------------------------------------------------------------------
  // After the walk: reversal, alternations and the static route table
  // ---------------------------------------------------------------------------

  /**
    * Where static routes are written: into the app's table, created once per
    * non-empty bucket (the current `compile`); into the app's table, created
    * at the first static route (the legacy inline compiler); or into a local
    * copy of the app's field, which is only the app's table when the app
    * already had one (the legacy standalone `compile`).
    */
  datatype RoutesVariant = CoreRoutes | InlineRoutes | LocalRoutes

  /** The non-capturing pattern of each endpoint, in bucket order. */
  function Patterns(bucket: seq<Endpoint>): (r: seq<string>)
    ensures |r| == |bucket|
    ensures forall j :: 0 <= j < |bucket| ==> r[j] == Pattern(bucket[j].path, false)
  {
    if bucket == [] then []
    else Patterns(bucket[..|bucket| - 1]) + [Pattern(bucket[|bucket| - 1].path, false)]
  }

  /** A path with neither `?` nor `...` gets a static route. */
  predicate StaticPath(p: string) {
    !Contains(p, "?") && !Contains(p, "...")
  }

  /** The endpoint the table serves for a path and a route method. */
  function RouteAt(t: RouteTable, path: string, verb: string): Option<Endpoint> {
    match Lookup(t, path)
    case None => None
    case Some(methods) => Lookup(methods, verb)
  }

  /** `routes[path] ??= {}; routes[path][route.method] = handler`. */
  function PutRoute(t: RouteTable, e: Endpoint): (r: RouteTable)
    ensures forall path, verb :: RouteAt(r, path, verb) ==
              if path == e.path && verb == e.route.verb then Some(e) else RouteAt(t, path, verb)
  {
    Put(t, e.path, Put(Lookup(t, e.path).GetOr([]), e.route.verb, e))
  }

  function WriteRoute(routes: Option<RouteTable>, e: Endpoint, variant: RoutesVariant): Option<RouteTable> {
    if !StaticPath(e.path) then routes
    else if variant == LocalRoutes && routes.None? then None
    else Some(PutRoute(routes.GetOr([]), e))
  }

  /** The static-route writes for one (reversed) bucket, in its order. */
  function WriteRoutes(routes: Option<RouteTable>, bucket: seq<Endpoint>, variant: RoutesVariant): (r: Option<RouteTable>)
    ensures routes.Some? ==> r.Some?
    ensures variant == LocalRoutes ==> (r.Some? <==> routes.Some?)
  {
    if bucket == [] then routes
    else WriteRoute(WriteRoutes(routes, bucket[..|bucket| - 1], variant), bucket[|bucket| - 1], variant)
  }

  /** Whether a bucket is skipped: its key is empty, or it is empty and this is not the legacy inline compiler. */
  predicate Skipped(verb: string, bucket: seq<Endpoint>, variant: RoutesVariant) {
    verb == "" || (bucket == [] && variant != InlineRoutes)
  }

  /** The table a handled bucket starts from: the current compiler creates it if missing. */
  function TableFor(routes: Option<RouteTable>, variant: RoutesVariant): Option<RouteTable> {
    if variant == CoreRoutes then Some(routes.GetOr([])) else routes
  }

  /**
    * The buckets once the first `n` are handled: each is reversed in place,
    * except one whose key is empty; the others are as the walk left them.
    */
  function ReversedUpTo(endpoints: Dict<seq<Endpoint>>, n: nat): (r: Dict<seq<Endpoint>>)
    ensures |r| == |endpoints|
    ensures forall j :: 0 <= j < |endpoints| ==>
              r[j] == if j < n && endpoints[j].0 != "" then (endpoints[j].0, Reverse(endpoints[j].1)) else endpoints[j]
  {
    seq(|endpoints|, j requires 0 <= j < |endpoints| =>
      if j < n && endpoints[j].0 != "" then (endpoints[j].0, Reverse(endpoints[j].1)) else endpoints[j])
  }

  /**
    * The alternatives of a bucket's expression, for the bucket as the walk
    * left it: its endpoints' patterns, last-filled first.
    */
  function Alternation(bucket: seq<Endpoint>): seq<string> {
    Patterns(Reverse(bucket))
  }

  lemma ReversedStep(endpoints: Dict<seq<Endpoint>>, i: nat)
    requires i < |endpoints|
    ensures ReversedUpTo(endpoints, i + 1) ==
              if endpoints[i].0 == "" then ReversedUpTo(endpoints, i)
              else ReversedUpTo(endpoints, i)[i := (endpoints[i].0, Reverse(endpoints[i].1))]
  {
  }

  /** The expressions once the first `n` buckets are handled: each handled bucket's alternation, built from it reversed. */
  function RegexpsUpTo(endpoints: Dict<seq<Endpoint>>, regexps: Dict<seq<string>>, n: nat, variant: RoutesVariant): Dict<seq<string>>
    requires n <= |endpoints|
  {
    if n == 0 then regexps
    else
      var before := RegexpsUpTo(endpoints, regexps, n - 1, variant);
      if Skipped(endpoints[n - 1].0, endpoints[n - 1].1, variant) then before
      else Put(before, endpoints[n - 1].0, Alternation(endpoints[n - 1].1))
  }

  /** The route table once the first `n` buckets are handled: each handled bucket's static routes, written in reversed order. */
  function RoutesUpTo(endpoints: Dict<seq<Endpoint>>, routes: Option<RouteTable>, n: nat, variant: RoutesVariant): Option<RouteTable>
    requires n <= |endpoints|
  {
    if n == 0 then routes
    else
      var before := RoutesUpTo(endpoints, routes, n - 1, variant);
      if Skipped(endpoints[n - 1].0, endpoints[n - 1].1, variant) then before
      else WriteRoutes(TableFor(before, variant), Reverse(endpoints[n - 1].1), variant)
  }

  /**
    * The loop over the methods after the walk: each bucket is reversed in
    * place, its non-capturing patterns are joined into the method's
    * expression, and its static paths are written into the route table.
    */
  method Finish(app: App, variant: RoutesVariant)
    modifies app`endpoints, app`regexps, app`routes
    ensures app.endpoints == ReversedUpTo(old(app.endpoints), |old(app.endpoints)|)
    ensures app.regexps == RegexpsUpTo(old(app.endpoints), old(app.regexps), |old(app.endpoints)|, variant)
    ensures app.routes == RoutesUpTo(old(app.endpoints), old(app.routes), |old(app.endpoints)|, variant)
  {
    ghost var endpoints, regexps, routes := app.endpoints, app.regexps, app.routes;
    var methods := |app.endpoints|;
    var i := 0;
    while i < methods
      invariant i <= methods == |endpoints|
      invariant app.endpoints == ReversedUpTo(endpoints, i)
      invariant app.regexps == RegexpsUpTo(endpoints, regexps, i, variant)
      invariant app.routes == RoutesUpTo(endpoints, routes, i, variant)
    {
      FinishMethod(app, i, variant, endpoints, regexps, routes);
      i := i + 1;
    }
  }

  /** One method's bucket: the body of the loop in `Finish`. */
  method FinishMethod(app: App, i: nat, variant: RoutesVariant, ghost endpoints: Dict<seq<Endpoint>>,
                      ghost regexps: Dict<seq<string>>, ghost routes: Option<RouteTable>)
    requires i < |endpoints|
    requires app.endpoints == ReversedUpTo(endpoints, i)
    requires app.regexps == RegexpsUpTo(endpoints, regexps, i, variant)
    requires app.routes == RoutesUpTo(endpoints, routes, i, variant)
    modifies app`endpoints, app`regexps, app`routes
    ensures app.endpoints == ReversedUpTo(endpoints, i + 1)
    ensures app.regexps == RegexpsUpTo(endpoints, regexps, i + 1, variant)
    ensures app.routes == RoutesUpTo(endpoints, routes, i + 1, variant)
  {
    var (verb, bucket) := app.endpoints[i];
    assert (verb, bucket) == endpoints[i];
    ReversedStep(endpoints, i);
    if verb != "" {
      var reversed := Reverse(bucket);
      app.endpoints := app.endpoints[i := (verb, reversed)];
      if |reversed| != 0 || variant == InlineRoutes {
        FillMethod(app, verb, reversed, variant);
      }
    }
  }

  method FillMethod(app: App, verb: string, bucket: seq<Endpoint>, variant: RoutesVariant)
    modifies app`regexps, app`routes
    ensures app.regexps == Put(old(app.regexps), verb, Patterns(bucket))
    ensures app.routes == WriteRoutes(TableFor(old(app.routes), variant), bucket, variant)
  {
    if variant == CoreRoutes && app.routes.None? {
      app.routes := Some([]);
    }
    assert app.routes == TableFor(old(app.routes), variant);
    var patterns := WriteBucket(app, bucket, variant);
    app.regexps := Put(app.regexps, verb, patterns);
  }

  /** The patterns of one reversed bucket, writing its static routes on the way. */
  method WriteBucket(app: App, bucket: seq<Endpoint>, variant: RoutesVariant) returns (patterns: seq<string>)
    modifies app`routes
    ensures patterns == Patterns(bucket)
    ensures app.routes == WriteRoutes(old(app.routes), bucket, variant)
  {
    patterns := [];
    var j := 0;
    while j < |bucket|
      invariant j <= |bucket|
      invariant patterns == Patterns(bucket[..j])
      invariant app.routes == WriteRoutes(old(app.routes), bucket[..j], variant)
    {
      var e := bucket[j];
      BucketStep(old(app.routes), bucket, j, variant);
      var pattern := PathToRegexp(e.path, false);
      patterns := patterns + [pattern];
      if StaticPath(e.path) && (variant != LocalRoutes || app.routes.Some?) {
        app.routes := Some(PutRoute(app.routes.GetOr([]), e));
      }
      j := j + 1;
    }
    assert bucket[..j] == bucket;
  }

  /** One more endpoint of a bucket: one more pattern, one more route write. */
  lemma BucketStep(routes: Option<RouteTable>, bucket: seq<Endpoint>, j: nat, variant: RoutesVariant)
    requires j < |bucket|
    ensures Patterns(bucket[..j + 1]) == Patterns(bucket[..j]) + [Pattern(bucket[j].path, false)]
    ensures WriteRoutes(routes, bucket[..j + 1], variant) == WriteRoute(WriteRoutes(routes, bucket[..j], variant), bucket[j], variant)
  {
    assert bucket[..j + 1][..j] == bucket[..j];
  }

  // ---------------------------------------------------------------------------
  // What the finished tables serve
  // ---------------------------------------------------------------------------

  /** Whether an endpoint gets the static entry for this path and route method. */
  predicate Serves(e: Endpoint, path: string, verb: string) {
    StaticPath(e.path) && e.path == path && e.route.verb == verb
  }

  /** The first endpoint of a bucket, in the order it was filled, that serves a path and a method statically. */
  function FirstStatic(bucket: seq<Endpoint>, path: string, verb: string): Option<Endpoint> {
    if bucket == [] then None
    else if Serves(bucket[0], path, verb) then Some(bucket[0])
    else FirstStatic(bucket[1..], path, verb)
  }

  /** The last endpoint of a bucket that serves a path and a method statically. */
  function LastStatic(bucket: seq<Endpoint>, path: string, verb: string): Option<Endpoint> {
    if bucket == [] then None
    else if Serves(bucket[|bucket| - 1], path, verb) then Some(bucket[|bucket| - 1])
    else LastStatic(bucket[..|bucket| - 1], path, verb)
  }

  /** `FirstStatic` finds the endpoint serving the path and method that no earlier one in the bucket serves. */
  lemma {:induction false} FirstStaticIs(bucket: seq<Endpoint>, path: string, verb: string)
    ensures FirstStatic(bucket, path, verb).Some? <==> exists j :: 0 <= j < |bucket| && Serves(bucket[j], path, verb)
    ensures FirstStatic(bucket, path, verb).Some? ==>
              exists j :: 0 <= j < |bucket| && bucket[j] == FirstStatic(bucket, path, verb).value &&
                Serves(bucket[j], path, verb) && forall i :: 0 <= i < j ==> !Serves(bucket[i], path, verb)
    decreases |bucket|
  {
    if bucket != [] && !Serves(bucket[0], path, verb) {
      FirstStaticIs(bucket[1..], path, verb);
      assert forall j :: 0 < j < |bucket| ==> bucket[j] == bucket[1..][j - 1];
      if FirstStatic(bucket, path, verb).Some? {
        var j :| 0 <= j < |bucket[1..]| && bucket[1..][j] == FirstStatic(bucket, path, verb).value &&
                 Serves(bucket[1..][j], path, verb) && forall i :: 0 <= i < j ==> !Serves(bucket[1..][i], path, verb);
        assert forall i :: 0 < i < j + 1 ==> !Serves(bucket[i], path, verb);
      }
    }
  }

  /** `LastStatic` finds something exactly when some endpoint of the bucket serves the path and method. */
  lemma {:induction false} LastStaticFound(bucket: seq<Endpoint>, path: string, verb: string)
    ensures LastStatic(bucket, path, verb).Some? <==> exists j :: 0 <= j < |bucket| && Serves(bucket[j], path, verb)
    decreases |bucket|
  {
    if bucket != [] {
      var last := |bucket| - 1;
      if !Serves(bucket[last], path, verb) {
        var front := bucket[..last];
        LastStaticFound(front, path, verb);
        assert LastStatic(bucket, path, verb) == LastStatic(front, path, verb);
        if j :| 0 <= j < |bucket| && Serves(bucket[j], path, verb) {
          assert j < last && front[j] == bucket[j];
        }
        if j :| 0 <= j < |front| && Serves(front[j], path, verb) {
          assert bucket[j] == front[j];
        }
      }
    }
  }

  /** `LastStatic` finds the endpoint serving the path and method that no later one in the bucket serves. */
  lemma {:induction false} LastStaticIs(bucket: seq<Endpoint>, path: string, verb: string)
    requires LastStatic(bucket, path, verb).Some?
    ensures exists j :: 0 <= j < |bucket| && bucket[j] == LastStatic(bucket, path, verb).value &&
              Serves(bucket[j], path, verb) && forall i :: j < i < |bucket| ==> !Serves(bucket[i], path, verb)
    decreases |bucket|
  {
    var last := |bucket| - 1;
    if Serves(bucket[last], path, verb) {
      assert LastStatic(bucket, path, verb) == Some(bucket[last]);
    } else {
      var front := bucket[..last];
      assert LastStatic(bucket, path, verb) == LastStatic(front, path, verb);
      LastStaticIs(front, path, verb);
      var j :| 0 <= j < |front| && front[j] == LastStatic(front, path, verb).value &&
               Serves(front[j], path, verb) && forall i :: j < i < |front| ==> !Serves(front[i], path, verb);
      assert bucket[j] == front[j];
      assert forall i :: j < i < last ==> bucket[i] == front[i];
    }
  }

  lemma {:induction false} LastOfReversed(bucket: seq<Endpoint>, path: string, verb: string)
    ensures LastStatic(Reverse(bucket), path, verb) == FirstStatic(bucket, path, verb)
    decreases |bucket|
  {
    if bucket != [] {
      var reversed := Reverse(bucket);
      assert reversed[|reversed| - 1] == bucket[0];
      assert reversed[..|reversed| - 1] == Reverse(bucket[1..]);
      LastOfReversed(bucket[1..], path, verb);
    }
  }

  /**
    * Writing a bucket's static routes in order leaves, for each path and
    * method, the LAST endpoint of the bucket that serves it; other entries
    * are kept. A local table that was missing stays missing.
    */
  lemma {:induction false} WriteRoutesServe(routes: Option<RouteTable>, bucket: seq<Endpoint>, variant: RoutesVariant,
                                            path: string, verb: string)
    ensures RouteAt(WriteRoutes(routes, bucket, variant).GetOr([]), path, verb) ==
            if LastStatic(bucket, path, verb).Some? && (routes.Some? || variant != LocalRoutes)
            then LastStatic(bucket, path, verb) else RouteAt(routes.GetOr([]), path, verb)
    decreases |bucket|
  {
    if bucket != [] {
      WriteRoutesServe(routes, bucket[..|bucket| - 1], variant, path, verb);
    }
  }

  /**
    * The static endpoint the first `n` buckets leave for a path and a route
    * method: that of the latest handled bucket with one, first in its bucket.
    */
  function StaticIn(endpoints: Dict<seq<Endpoint>>, n: nat, path: string, verb: string): Option<Endpoint>
    requires n <= |endpoints|
  {
    if n == 0 then None
    else if endpoints[n - 1].0 != "" && FirstStatic(endpoints[n - 1].1, path, verb).Some?
    then FirstStatic(endpoints[n - 1].1, path, verb)
    else StaticIn(endpoints, n - 1, path, verb)
  }

  /** What the route table serves once `n` buckets are handled; a missing local table stays missing. */
  lemma {:induction false} FinishServes(endpoints: Dict<seq<Endpoint>>, routes: Option<RouteTable>, n: nat,
                                        variant: RoutesVariant, path: string, verb: string)
    requires n <= |endpoints|
    requires routes.Some? || variant != LocalRoutes
    ensures RoutesUpTo(endpoints, routes, n, variant).Some? || variant != LocalRoutes
    ensures RouteAt(RoutesUpTo(endpoints, routes, n, variant).GetOr([]), path, verb) ==
            if StaticIn(endpoints, n, path, verb).Some? then StaticIn(endpoints, n, path, verb)
            else RouteAt(routes.GetOr([]), path, verb)
  {
    if n > 0 {
      FinishServes(endpoints, routes, n - 1, variant, path, verb);
      var before := RoutesUpTo(endpoints, routes, n - 1, variant);
      var bucket := endpoints[n - 1].1;
      if !Skipped(endpoints[n - 1].0, bucket, variant) {
        WriteRoutesServe(TableFor(before, variant), Reverse(bucket), variant, path, verb);
        LastOfReversed(bucket, path, verb);
      }
    }
  }

  /** The legacy standalone `compile` on an app without a route table writes no route anywhere it can be seen. */
  lemma {:induction false} LocalRoutesLost(endpoints: Dict<seq<Endpoint>>, n: nat)
    requires n <= |endpoints|
    ensures RoutesUpTo(endpoints, None, n, LocalRoutes).None?
  {
    if n > 0 {
      LocalRoutesLost(endpoints, n - 1);
    }
  }

  /**
    * A handled bucket with a key gets, under its key, the expression built
    * from its reversed endpoints.
    */
  lemma {:induction false} FinishRegexp(endpoints: Dict<seq<Endpoint>>, regexps: Dict<seq<string>>, n: nat, variant: RoutesVariant, i: nat)
    requires n <= |endpoints| && UniqueKeys(endpoints) && i < n
    requires !Skipped(endpoints[i].0, endpoints[i].1, variant)
    ensures Lookup(RegexpsUpTo(endpoints, regexps, n, variant), endpoints[i].0) == Some(Alternation(endpoints[i].1))
  {
    RegexpsStep(endpoints, regexps, n, variant, endpoints[i].0);
    if i < n - 1 {
      FinishRegexp(endpoints, regexps, n - 1, variant, i);
      assert endpoints[i].0 != endpoints[n - 1].0;
    }
  }

  /** Handling bucket `n - 1` changes only the entry under that bucket's key. */
  lemma RegexpsStep(endpoints: Dict<seq<Endpoint>>, regexps: Dict<seq<string>>, n: nat, variant: RoutesVariant, k: string)
    requires 0 < n <= |endpoints|
    ensures Lookup(RegexpsUpTo(endpoints, regexps, n, variant), k)
         == if k == endpoints[n - 1].0 && !Skipped(endpoints[n - 1].0, endpoints[n - 1].1, variant)
            then Some(Alternation(endpoints[n - 1].1))
            else Lookup(RegexpsUpTo(endpoints, regexps, n - 1, variant), k)
  {
  }

  // ---------------------------------------------------------------------------
  // Buckets are keyed by method
  // ---------------------------------------------------------------------------

  /** Every endpoint sits in the bucket its route's method is filed under. */
  ghost predicate Filed(endpoints: Dict<seq<Endpoint>>) {
    forall k, j :: Lookup(endpoints, k).Some? && 0 <= j < |Lookup(endpoints, k).value| ==>
      BucketOf(Lookup(endpoints, k).value[j].route.verb) == k
  }

  lemma AppendFiled(endpoints: Dict<seq<Endpoint>>, e: Endpoint)
    requires Filed(endpoints) && UniqueKeys(endpoints)
    ensures Filed(Append(endpoints, BucketOf(e.route.verb), e))
    ensures UniqueKeys(Append(endpoints, BucketOf(e.route.verb), e))
  {
    var b := BucketOf(e.route.verb);
    var before := Lookup(endpoints, b).GetOr([]);
    var r: Dict<seq<Endpoint>> := Append(endpoints, b, e);
    PutKeepsUnique(endpoints, b, before + [e]);
    forall k: string, j: int | Lookup(r, k).Some? && 0 <= j < |Lookup(r, k).value|
      ensures BucketOf(Lookup(r, k).value[j].route.verb) == k
    {
      if k == b && j < |before| {
        assert Lookup(r, k).value[j] == before[j];
      }
    }
  }

  /** A scan keeps every endpoint in its method's bucket and the bucket keys distinct. */
  lemma {:induction false} StepFiled(links: seq<Link>, previous: Previous, acc: Acc)
    requires Filed(acc.endpoints) && UniqueKeys(acc.endpoints)
    ensures Filed(StepLinks(links, previous, acc).endpoints) && UniqueKeys(StepLinks(links, previous, acc).endpoints)
    decreases links
  {
    if links != [] {
      NextFiled(links[0], previous, acc);
      StepFiled(links[1..], previous, Next(links[0], previous, acc));
    }
  }

  lemma {:induction false} NextFiled(link: Link, previous: Previous, acc: Acc)
    requires Filed(acc.endpoints) && UniqueKeys(acc.endpoints)
    ensures Filed(Next(link, previous, acc).endpoints) && UniqueKeys(Next(link, previous, acc).endpoints)
    decreases link
  {
    match link
    case ModuleLink(m) =>
      StepFiled(m.chain, Previous(previous.chain + acc.chain, previous.path + Contribution(acc.path)),
                Acc([], m.prefix, acc.stack, acc.endpoints));
    case RouteLink(r) =>
      AppendFiled(acc.endpoints, MakeEndpoint(previous, acc.chain, acc.path, r));
    case _ =>
  }

  /** The whole walk files every endpoint under its method and keeps the bucket keys distinct. */
  lemma {:induction false} DrainFiled(stack: seq<Frame>, endpoints: Dict<seq<Endpoint>>)
    requires StackReady(stack) && Filed(endpoints) && UniqueKeys(endpoints)
    ensures Filed(Drain(stack, endpoints)) && UniqueKeys(Drain(stack, endpoints))
    decreases StackWeight(stack)
  {
    if stack != [] {
      var top := stack[|stack| - 1];
      var rest := stack[..|stack| - 1];
      StepStack(top.scope.chain, top.previous, Acc([], top.scope.prefix, rest, endpoints));
      StepFiled(top.scope.chain, top.previous, Acc([], top.scope.prefix, rest, endpoints));
      var r := StepModule(top.scope, top.previous, rest, endpoints);
      DrainFiled(r.stack, r.endpoints);
    }
  }

  /** Only the bucket of a method's key can hold its static endpoint. */
  lemma {:induction false} StaticInBucket(endpoints: Dict<seq<Endpoint>>, n: nat, i: nat, path: string, verb: string)
    requires n <= |endpoints| && i < |endpoints| && UniqueKeys(endpoints) && Filed(endpoints)
    requires endpoints[i].0 == BucketOf(verb) && BucketOf(verb) != ""
    ensures StaticIn(endpoints, n, path, verb) == if i < n then FirstStatic(endpoints[i].1, path, verb) else None
  {
    if n > 0 {
      StaticInBucket(endpoints, n - 1, i, path, verb);
      if n - 1 != i {
        var bucket := endpoints[n - 1].1;
        LookupAt(endpoints, n - 1);
        assert endpoints[n - 1].0 != endpoints[i].0;
        forall j | 0 <= j < |bucket| ensures !Serves(bucket[j], path, verb) {
          assert BucketOf(bucket[j].route.verb) == endpoints[n - 1].0;
        }
        FirstStaticIs(bucket, path, verb);
      }
    }
  }

  /**
    * Once the method loop is done, the route table serves, for a path and a
    * route method, the FIRST endpoint of the method's bucket, in the order
    * the walk filled it, whose static path it is.
    */
  lemma StaticTableServesFirst(endpoints: Dict<seq<Endpoint>>, routes: Option<RouteTable>, variant: RoutesVariant,
                               i: nat, path: string, verb: string)
    requires i < |endpoints| && UniqueKeys(endpoints) && Filed(endpoints)
    requires endpoints[i].0 == BucketOf(verb) && BucketOf(verb) != ""
    requires routes.Some? || variant != LocalRoutes
    requires FirstStatic(endpoints[i].1, path, verb).Some?
    ensures RouteAt(RoutesUpTo(endpoints, routes, |endpoints|, variant).GetOr([]), path, verb) ==
            FirstStatic(endpoints[i].1, path, verb)
  {
    FinishServes(endpoints, routes, |endpoints|, variant, path, verb);
    StaticInBucket(endpoints, |endpoints|, i, path, verb);
  }

  // ---------------------------------------------------------------------------
  // Duplicate static routes: the table and the alternation disagree
  // ---------------------------------------------------------------------------

  /**
    * Two endpoints of one bucket with the same literal path and route method:
    * the alternation tries the later one first and picks it, while the
    * static table, written over the reversed bucket, ends up serving the
    * earlier one.
    */
  lemma DuplicateStaticRoute(e1: Endpoint, e2: Endpoint, routes: Option<RouteTable>, variant: RoutesVariant)
    requires e1.path == e2.path && e1.route.verb == e2.route.verb
    requires LiteralPath(e1.path) && StaticPath(e1.path)
    requires routes.Some? || variant != LocalRoutes
    ensures Reverse([e1, e2]) == [e2, e1]
    ensures FirstMatch(Reverse([e1.path, e2.path]), e1.path) == Some(0)
    ensures RouteAt(WriteRoutes(TableFor(routes, variant), Reverse([e1, e2]), variant).GetOr([]), e1.path, e1.route.verb) == Some(e1)
  {
    var bucket := [e1, e2];
    assert Reverse(bucket) == [e2, e1];
    assert Reverse([e1.path, e2.path]) == [e2.path, e1.path];
    LiteralLanguage(e2.path, e1.path);
    WriteRoutesServe(TableFor(routes, variant), [e2, e1], variant, e1.path, e1.route.verb);
    assert [e2, e1][..1] == [e2];
  }

  /**
    * The intended table: static routes written in the order the walk filled
    * the bucket (before it is reversed), so that the last-declared duplicate
    * is served, as the alternation would pick it.
    */
  function BucketRoutesInOrder(routes: Option<RouteTable>, bucket: seq<Endpoint>, variant: RoutesVariant): Option<RouteTable> {
    WriteRoutes(TableFor(routes, variant), bucket, variant)
  }

  /** The intended table serves the LAST endpoint of the bucket with that static path and method. */
  lemma InOrderServesLast(routes: Option<RouteTable>, bucket: seq<Endpoint>, variant: RoutesVariant, path: string, verb: string)
    requires routes.Some? || variant != LocalRoutes
    requires LastStatic(bucket, path, verb).Some?
    ensures RouteAt(BucketRoutesInOrder(routes, bucket, variant).GetOr([]), path, verb) == LastStatic(bucket, path, verb)
  {
    WriteRoutesServe(TableFor(routes, variant), bucket, variant, path, verb);
  }

  // ---------------------------------------------------------------------------
  // The compile entry points
  // ---------------------------------------------------------------------------

  /** The buckets the walk of a module tree leaves, starting from the given ones. */
  function Walked(root: Module, endpoints: Dict<seq<Endpoint>>): Dict<seq<Endpoint>> {
    Drain([Frame(root, NoPrevious)], endpoints)
  }

  /**
    * `compile(app, module)`: the validator backend defaults to the standard
    * schema adapter, the tree is walked, then every method is finished with
    * the route table the variant names.
    */
  method CompileWith(app: App, root: Module, variant: RoutesVariant)
    modifies app`endpoints, app`regexps, app`routes, app`validator
    ensures app.validator == Some(old(app.validator).GetOr(StandardSchema))
    ensures app.endpoints == ReversedUpTo(Walked(root, old(app.endpoints)), |Walked(root, old(app.endpoints))|)
    ensures app.regexps == RegexpsUpTo(Walked(root, old(app.endpoints)), old(app.regexps),
                                       |Walked(root, old(app.endpoints))|, variant)
    ensures app.routes == RoutesUpTo(Walked(root, old(app.endpoints)), old(app.routes),
                                     |Walked(root, old(app.endpoints))|, variant)
  {
    if app.validator.None? {
      app.validator := Some(StandardSchema);
    }
    Walk(app, root);
    Finish(app, variant);
  }

  /** Walking from no buckets files every endpoint under its method, with distinct bucket keys. */
  lemma WalkedFiled(root: Module)
    ensures Filed(Walked(root, [])) && UniqueKeys(Walked(root, []))
  {
    DrainFiled([Frame(root, NoPrevious)], []);
  }

  /**
    * After compiling from nothing, the expression of a method with endpoints
    * is the alternation of its bucket reversed, so the last-declared route is
    * alternative 0.
    */
  lemma CompiledRegexp(root: Module, variant: RoutesVariant, i: nat)
    requires i < |Walked(root, [])|
    requires !Skipped(Walked(root, [])[i].0, Walked(root, [])[i].1, variant)
    ensures Lookup(RegexpsUpTo(Walked(root, []), [], |Walked(root, [])|, variant), Walked(root, [])[i].0) ==
            Some(Patterns(Reverse(Walked(root, [])[i].1)))
  {
    WalkedFiled(root);
    FinishRegexp(Walked(root, []), [], |Walked(root, [])|, variant, i);
  }

  /**
    * After the current compiler runs from nothing, a route method with a
    * static path is served by the route table with the first endpoint
    * declared for that path and method.
    */
  lemma CompiledStaticRoute(root: Module, i: nat, path: string, verb: string)
    requires i < |Walked(root, [])|
    requires Walked(root, [])[i].0 == BucketOf(verb) && BucketOf(verb) != ""
    requires FirstStatic(Walked(root, [])[i].1, path, verb).Some?
    ensures RouteAt(RoutesUpTo(Walked(root, []), Some([]), |Walked(root, [])|, CoreRoutes).GetOr([]), path, verb) ==
            FirstStatic(Walked(root, [])[i].1, path, verb)
  {
    WalkedFiled(root);
    StaticTableServesFirst(Walked(root, []), Some([]), CoreRoutes, i, path, verb);
  }
}
