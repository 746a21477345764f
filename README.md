# cudenix core, modelled in Dafny

This project models the core of cudenix, a TypeScript HTTP framework for
Bun, and proves properties of that model. An application is a tree of
modules. Each module holds a chain of links: middleware, stores,
validators, routes, groups and nested modules. A compiler flattens the tree
into per-method lists of endpoints, and each method gets one alternation of
path patterns. A request is dispatched by that alternation to an endpoint.
The endpoint's chain is run over a per-request context, and the content the
chain leaves is turned into an HTTP response. The ecosystem modules (CORS,
compression, OpenAPI and i18n) are built from the same primitives.

The repository has two generations. The current one lives under `src/core`
and `src/ecosystem/modules`/`plugins`. The older one lives under `src` and
`src/ecosystem`. The model covers both. Where the older one behaves
differently, it has its own member, named `Legacy…`, and a lemma compares
the two.

Modules, in dependency order:

- `Base` (base.dfy) holds the JavaScript values the framework inspects and
  their truthiness. It also holds insertion-ordered dictionaries for JS
  objects, Maps and Headers, where the last write wins.
- `Text` (text.dfy) writes out the string operations the source relies on:
  `split`, `join`, `trim`, `toLowerCase`, `replaceAll`, the whole-word
  test, and number-to-string conversion.
- `Records` (records.dfy) covers the Success and Error constructors of both
  generations with their defaulting rules. It also covers Validator, Group
  and Route, and the links and endpoints.
- `Usage` (usage.dfy) is the facet-usage scan: which of body, cookies,
  headers, params and query a chain's source text mentions.
- `PathPattern` (path_pattern.dfy) is `pathToRegexp`, modelled as the exact
  text it produces. `Matcher` (matcher.dfy) states, piece by piece, which
  paths that text accepts. It also models how `fetch` reads the index of
  the alternative that matched.
- `AppState` (app_state.dfy) is the application object's state.
  `Compiler` (compiler.dfy) is the stack-driven `step`/`compile` of both
  generations, with bucket reversal, the alternations and the static route
  table.
- `Builder` (builder.dfy) is the fluent module builder: a class whose
  methods push onto its chain.
- `Cookies` (cookies.dfy) is `getCookies`. `Objects` (merge.dfy) is
  `merge`. `RequestContext` (context.dfy) is the per-request context and its
  facet loaders.
- `Executor` (executor.dfy) is the chain interpreter. It covers middleware
  continuation, store merging, validator aggregation into one 422 Error,
  server-sent-event framing with abort, and the WebSocket hand-off.
  `Responses` (response.dfy) is the three versions of the response
  decision.
- `Application` (app.dfy) covers plugin registration and ordering,
  `compile`, `fetch` and serving an endpoint.
- `Cors`, `Compress`, `OpenApi` and `I18n` (cors.dfy, compress.dfy,
  openapi.dfy, i18n.dfy) are the ecosystem modules, each in both
  generations.

Code that changes state step by step is modelled as classes and methods.
The source's objects become classes: the application, the module builder,
the context and its response, the legacy CORS closure, and the OpenAPI
memory entry. Each such method is proved against a specification
function, and the lemmas state what the source promises about that
function. Developer-supplied functions become parameters: middleware,
stores, handlers, generators, the validator backend and the compressors.
Where the source reads its own ambient state, such as the i18n store or
the request context in scope, that state is a parameter too.

Two behaviours of the source are easy to misread. A repeated query key
keeps its last value, not a list of all of them (src/context.ts:215-225,
`RequestContext.QueryLastWins`). A cookie's value is the text between the
first and the second `=`, not everything after the first `=`
(src/utils/cookies/get/cookies.ts:10-20, `Cookies.CookiePairsWellFormed`).

## Model

| member | source | states |
|---|---|---|
| Records.Success | src/core/success.ts:57-69 | a `Success` is a successful payload that carries the content unchanged |
| Records.Error | src/core/error.ts:59-68 | an `Error` is a failed payload that carries the content unchanged |
| Records.OptionDefaults | src/core/success.ts:57-69 | without options a `Success` has status 200 and transform true; options are copied whole, so a status-only object leaves transform undefined; at src/core/error.ts:59-68: an `Error` defaults status to 400 and transform to true, each field separately |
| Records.LegacySuccess | src/success.ts:48-58 | the positional `Success` is a successful payload carrying the content |
| Records.LegacyError | src/error.ts:50-60 | the positional `Error` is a failed payload carrying the content |
| Records.LegacyAgrees | src/success.ts:48-58 | the positional and options forms agree when arguments are omitted or given in full; a positional `null` status is kept, while the options form replaces it by 400 |
| Records.NewValidator | src/core/validator.ts:102-109 | the validator keeps the request schemas, and its `keys` are the facet names in insertion order |
| Records.NewLegacyValidator | src/validator.ts:88-94 | the legacy validator keeps the request schemas and has no `keys` |
| Records.NewGroup | src/core/group.ts:33-41 | a group link holds the builder's links and the prefix, `""` when none is given |
| Records.NewRoute | src/route.ts:184-197 | the route keeps method, path and handler; it is a generator exactly when the handler's constructor name says so; validator options are wrapped in a validator |
| Records.CoreRoute | src/core/module.ts:387-397 | the route the builder pushes: the same fields, with validator options wrapped in a validator whose `keys` are the option names |
| Builder.ModuleBuilder.Value | src/core/module.ts:347-354 | the module value is exactly the builder's chain and prefix |
| Builder.ModuleBuilder.constructor | src/core/module.ts:347-354 | a new module has an empty chain and the given prefix, or `""` |
| Builder.ModuleBuilder.Push | src/core/module.ts:368-412 | each builder method appends exactly one link, keeps the prefix and returns the module itself |
| Builder.ModuleBuilder.Extends | src/core/module.ts:356-366 | `extends` appends the other module unless `execute` is `false`, in which case the chain is unchanged |
| Builder.ModuleBuilder.Group | src/core/module.ts:368-376 | `group` appends one group link built from the builder and options |
| Builder.ModuleBuilder.Middleware | src/core/module.ts:378-385 | `middleware` appends one middleware link |
| Builder.ModuleBuilder.Route | src/core/module.ts:387-397 | `route` appends one route link |
| Builder.ModuleBuilder.Store | src/core/module.ts:399-403 | `store` appends one store link |
| Builder.ModuleBuilder.Validator | src/core/module.ts:405-412 | `validator` appends one validator link whose `keys` come from the request |
| Builder.NewModule | src/core/module.ts:414-438 | `module()` returns a fresh, empty module with the given prefix, or `""` |
| Cookies.GetCookies | src/utils/cookies/get/cookies.ts:3-25 | the loop leaves exactly the dictionary that writing every declared cookie in header order gives; no `Cookie` header gives no cookies; at src/utils/get-cookies.ts:3-24: the legacy copy behaves identically |
| Cookies.CookiePairsWellFormed | src/utils/cookies/get/cookies.ts:10-20 | every cookie read has a non-empty name and a non-empty value, and neither holds `=` (the value stops at the second `=`) |
| Cookies.CookieLastWins | src/utils/cookies/get/cookies.ts:20 | a name declared more than once reads the value of its last declaration |
| Objects.Merge | src/utils/merge.ts:1-19 | the loop is equal to writing, in key order, each non-empty key of the second object with its value onto the first |
| Objects.CopiesFacts | src/utils/merge.ts:7-16 | the keys copied are exactly the non-empty keys of the second object, each with the value it has there |
| Objects.MergeReads | src/utils/merge.ts:1-19 | after the merge a non-empty key of the second object reads its value there, and every other key reads what it read before |
| Usage.LinkText | src/core/compile.ts:27-38 | validators, groups and modules contribute no text; middleware, store and route links contribute their function's source |
| Usage.WordsIn | src/core/compile.ts:19-25 | a facet is found exactly when its name occurs in the text as a whole word |
| Usage.ChainUsage | src/core/compile.ts:144-170 | a facet is in the chain's usage exactly when some link's text names it |
| Usage.ValidatorsAddNothing | src/core/compile.ts:115-123 | a validator link added to the chain adds no facet to the usage |
| Usage.NothingInEmpty | src/core/compile.ts:155-159 | an empty text names no facet |
| Usage.AddWords | src/core/compile.ts:161-169 | one pass of the five patterns adds exactly the facets the text names |
| Usage.ScanUsage | src/core/compile.ts:140-184 | even with the early stop at five facets and the handler fallback, the usage set is exactly the facets that some chain link or the handler names |
| Usage.ScanChain | src/core/compile.ts:144-170 | the chain loop stops at a link index at most the chain's length, with exactly the facets named by the links before it, and it stops early only once all five facets are found |
| Usage.FullStop | src/core/compile.ts:145-147 | once a prefix of the chain names all five facets, the rest of the scan adds nothing |
| PathPattern.Classify | src/core/compile.ts:52-68 | only the empty segment yields no piece; a piece is optional exactly when the segment ends in `?` |
| PathPattern.PiecesOf | src/core/compile.ts:47-54 | the segments yield at most one piece each, in order |
| PathPattern.Pattern | src/core/compile.ts:40-78 | every pattern starts with the empty marker group `()` |
| PathPattern.PathToRegexp | src/core/compile.ts:40-78 | the segment loop returns exactly the pattern of the classified pieces; at src/utils/regexp.ts:12-50: the legacy copy of the function is the same loop |
| PathPattern.RootPattern | src/core/compile.ts:43-45 | `"/"` gives the marker group and an escaped slash, with one capturing group, whatever the capture flag |
| PathPattern.LiteralPathVerbatim | src/core/compile.ts:66-67 | a path of plain segments appears verbatim after the marker, with no escaping |
| PathPattern.DoubledSlashIgnored | src/core/compile.ts:52-54 | a doubled slash gives the same pattern as a single one |
| PathPattern.TrailingSlashIgnored | src/core/compile.ts:52-54 | a trailing slash gives the same pattern as none |
| PathPattern.PatternCaptures | src/core/compile.ts:62-72 | without name capture the marker is the only capturing group; with it, each parameter and wildcard adds exactly one |
| PathPattern.PatternsAreMarkerAlternatives | src/core/compile.ts:252-262 | the non-capturing patterns of a bucket each hold exactly one capturing group, which opens at their start |
| PathPattern.AlternativeMarkerGroup | src/core/compile.ts:284-289 | in the per-method expression, alternative `k`'s marker is group `3 + k`, and the expression has `2 + n` groups |
| PathPattern.GroupNames | src/core/compile.ts:62-66 | every parameter and wildcard piece opens a group named by its text, in order |
| PathPattern.OneParamPieces | src/core/compile.ts:47-66 | `/:name` is the single parameter `name`, whatever text the name holds |
| PathPattern.OneParamNames | src/core/compile.ts:201 | the endpoint regexp of a one-parameter template is accepted by `new RegExp` exactly when the name is an identifier, so `/:user-id` and `/:` throw a SyntaxError at compile |
| PathPattern.TwoParamPieces | src/core/compile.ts:47-66 | `/:name/:name` is the parameter `name` twice |
| PathPattern.RepeatedParamRejected | src/core/compile.ts:201 | a template naming the same parameter twice opens two groups of one name, which `new RegExp` rejects |
| PathPattern.GroupNameExamples | src/core/compile.ts:63 | `user-id` and the empty name are not group names; `id` is |
| Matcher.FillAccepted | src/core/compile.ts:62-65 | a template whose parameters are filled with runs and whose wildcards are filled with slash-joined runs matches the path that results |
| Matcher.OptionalMayBeAbsent | src/core/compile.ts:70-72 | an optional piece may match nothing |
| Matcher.RequiredPieceNonEmpty | src/core/compile.ts:62-67 | a required piece matches only non-empty text that starts with `/` |
| Matcher.LiteralLanguage | src/core/compile.ts:66-67 | a template with no parameters, wildcards or optional parts matches exactly itself |
| Matcher.FirstMatch | src/core/compile.ts:284-289 | the alternation picks the first alternative that matches: the chosen one matches, none before it does, and no result means none matches |
| Matcher.LastDeclaredWins | src/core/compile.ts:244 | because each bucket is reversed, of the matching routes of one method, the one declared last is chosen |
| Matcher.MatchGroups | src/core/app.ts:335 | the captures of a match: group 2 is the path, and only the chosen alternative's marker holds `""` |
| Matcher.MarkerIndex | src/core/app.ts:343-351 | the index is that of the first marker group holding `""`, or 0 when there is none |
| Matcher.FindMarker | src/core/app.ts:343-351 | the loop computes that index |
| Matcher.MarkerIndexRecovers | src/core/app.ts:343-353 | the index recovered from the markers is the index of the alternative that matched |
| Matcher.UrlPathname | src/core/compile.ts:14-15 | the pathname, when present, starts with `/`, holds no `?` or `#`, and is followed by the end, a `?` or a `#` |
| Compiler.BucketOf | src/core/compile.ts:186 | WebSocket routes are filed under GET; every other method under its own name |
| Compiler.FinalPath | src/core/compile.ts:192-194 | an endpoint path is never empty: `/` stands in for the empty path |
| Compiler.MakeEndpoint | src/core/compile.ts:192-205 | the endpoint keeps the route and its generator flag; its chain is the inherited chain, the local chain, then the route's validator; the chain stays free of routes, groups and modules |
| Compiler.MakeEndpointOf | src/core/compile.ts:140-205 | the endpoint built with the usage scan and the capturing pattern is that endpoint |
| Compiler.Step | src/core/compile.ts:80-212 | the scan of a module's links leaves exactly the chain, path, stack and buckets the specification scan gives |
| Compiler.StepShape | src/core/compile.ts:115-138 | a scan adds to the local chain exactly the middleware, store and validator links, nested modules' included, and adds to the path exactly the nested modules' non-root paths |
| Compiler.FlattenIsFlat | src/core/compile.ts:115-123 | the chain a scan collects never holds a route, group or module |
| Compiler.RouteEndpoint | src/core/compile.ts:140-205 | a route appends one endpoint at the end of its method's bucket, with the chain and path accumulated before it |
| Compiler.GroupFrame | src/core/compile.ts:97-113 | a group pushes one frame: a module with the chain so far and the group's own links, the joined prefix, and nothing further inherited |
| Compiler.NoWebSocketBucket | src/core/compile.ts:186-190 | no scan ever creates a `WS` bucket |
| Compiler.StepGrows | src/core/compile.ts:104-110 | buckets only grow at their end, and the stack only grows at its top |
| Compiler.StepStack | src/core/compile.ts:104-110 | every pushed frame inherits nothing; the work pushed equals the groups met, which makes the stack loop terminate |
| Compiler.Walk | src/core/compile.ts:219-233 | the stack loop leaves the buckets that popping and scanning frames last-in first-out gives |
| Compiler.DrainFiled | src/core/compile.ts:186-196 | after the walk every endpoint sits in its method's bucket, and bucket keys are distinct |
| Compiler.WalkedFiled | src/core/compile.ts:219-233 | the same holds for a compile from no buckets |
| Compiler.Patterns | src/core/compile.ts:262 | one non-capturing pattern per endpoint, in bucket order |
| Compiler.PutRoute | src/core/compile.ts:271-281 | writing an endpoint sets only the entry for its path and route method |
| Compiler.WriteRoutes | src/core/compile.ts:255-282 | an existing table stays present; a missing local table stays missing |
| Compiler.WriteRoutesServe | src/core/compile.ts:255-282 | writing a bucket's static routes in order leaves, per path and method, the last endpoint serving it, and keeps other entries |
| Compiler.ReversedUpTo | src/core/compile.ts:244 | every handled bucket with a key is reversed in place; the others are left as they were |
| Compiler.Finish | src/core/compile.ts:235-290 | the method loop reverses the buckets, builds each method's expression and writes the static routes, as the specification functions give |
| Compiler.FinishMethod | src/core/compile.ts:237-289 | one loop iteration handles exactly one more bucket |
| Compiler.FillMethod | src/core/compile.ts:250-289 | a handled bucket puts its patterns under its method and writes its static routes into the table, created if missing |
| Compiler.WriteBucket | src/core/compile.ts:252-282 | the inner loop returns the bucket's patterns and writes its static routes |
| Compiler.FinishServes | src/core/compile.ts:235-290 | after `n` buckets, the table serves, per path and method, the static endpoint of the latest handled bucket that has one |
| Compiler.FinishRegexp | src/core/compile.ts:284-289 | a handled bucket with a key gets, under its key, the expression built from its reversed endpoints |
| Compiler.StaticTableServesFirst | src/core/compile.ts:244-282 | once all buckets are handled, a static path and method are served by the FIRST endpoint the walk filed for them |
| Compiler.DuplicateStaticRoute | src/core/compile.ts:244-282 | with two routes of the same literal path and method, the alternation picks the later one while the static table serves the earlier one |
| Compiler.InOrderServesLast | src/core/compile.ts:271-281 | writing the static routes in filing order serves the last-declared duplicate, as the alternation does |
| Compiler.LocalRoutesLost | src/compile.ts:227-238 | the legacy standalone compile, on an app without a route table, writes its routes only into a local variable, so the app has no table afterwards |
| Compiler.CompileWith | src/core/compile.ts:214-291 | the validator backend defaults to the standard-schema adapter, then the endpoints, expressions and table are those of the walk followed by the method loop; at src/compile.ts:178-248: the legacy standalone compile is the same method, with its local route table |
| Compiler.CompiledRegexp | src/core/compile.ts:284-289 | after a compile from nothing, each method's expression is the alternation of its reversed bucket |
| Compiler.CompiledStaticRoute | src/core/compile.ts:214-291 | after the current compile from nothing, a static path and method are served by the first endpoint declared for them |
| Application.EntriesRegister | src/core/app.ts:406-438 | every appended entry carries the call's options; a plugin is registered exactly when it is the function passed or a truthy item of the array |
| Application.Plugin | src/core/app.ts:406-438 | the plugin list is created when missing, and the new entries are appended in order after the old ones; at src/app.ts:95-127: the legacy `addon` registration is the same operation |
| Application.CallsMembers | src/core/app.ts:82-98 | the deferred and immediate lists hold plugin calls only; a plugin is in a list exactly when one of its entries qualifies for it |
| Application.ScheduleOrder | src/core/app.ts:72-111 | the compiler runs exactly once; plugins marked `compile: false` never run; those marked `"AFTER"` run after the compiler and all others before it, each in registration order |
| Application.ValidatorAfterCompile | src/core/compile.ts:214-217 | after compiling, the app always has a validator backend: the one registered last by a plugin, or the standard one when none registers |
| Application.RegisteredUnchanged | src/core/app.ts:99 | plugins that register nothing leave the backend as it was, and a present backend stays present |
| Application.CallPlugin | src/core/app.ts:99 | calling a plugin sets the backend it registers, if it registers one |
| Application.CallPlugins | src/core/app.ts:105-107 | calling the listed plugins in order logs exactly those calls and leaves the backend their registrations give |
| Application.SortPlugins | src/core/app.ts:82-101 | the loop splits the plugins into those run now and those deferred until after compiling |
| Application.CompileApp | src/core/app.ts:72-111 | compiling follows the schedule; the endpoints, expressions and route table are those of compiling the stored module; the module and plugin list are then dropped |
| Application.LegacyCompile | src/app.ts:129-380 | the legacy inline compile follows the same schedule, walks the given module onto the existing buckets, and writes its static routes into the app's own table |
| Application.Dispatch | src/core/app.ts:334-362 | a served request had a matching expression for its method; its endpoint comes from that method's bucket; its path is the non-empty group 2 |
| Application.Fetch | src/core/app.ts:334-362 | `fetch` answers exactly as the dispatch function says; at src/app.ts:592-620: the legacy `fetch` is the same operation |
| Application.FetchAfterCompile | src/core/app.ts:343-361 | after a compile from nothing, when alternative `k` matches with a non-empty path, `fetch` serves the endpoint declared `k`-th from the end of that method's bucket |
| Application.FetchMisses | src/core/app.ts:337-359 | a method without an expression, or a match whose path group is empty, is answered 404 |
| Application.CoreResponse | src/core/response.ts:3-58 | the reply is a stream exactly when the unwrapped content is a stream |
| Application.ServeEndpoint | src/core/app.ts:113-332 | serving an endpoint loads the used facets, runs the chain from link 0, and processes the response; a thrown chain gives no reply; at src/app.ts:382-590: the legacy `endpoint` is the same operation, with the legacy response processing |
| Application.ValidationFailureReplies | src/core/app.ts:171-220 | a request that fails validation is answered with the 422 Error of the aggregated failures, serialised as JSON, and the route never runs; when a failure's content is nullish the chain throws and nothing is answered |
| AppState.App.constructor | src/core/app.ts:64-70 | a new application has no endpoints, no expressions and no route table, and keeps the module in memory with no plugins and no validator backend |
| Executor.AggregateLookup | src/core/app.ts:197-210 | a facet's entry in the `errors` map holds every detail logged for it, in order, and only facets that failed have an entry |
| Executor.AggregateOrder | src/core/app.ts:201-210 | the entries appear in the order of each facet's first failure |
| Executor.ErrorContent | src/core/app.ts:214-219 | the Error's content lists one object per failed facet |
| Executor.ErrorGenerationsAgree | src/core/app.ts:213-220 | the current and legacy 422 Errors are the same transformed payload, with status 422; at src/app.ts:438-489: the legacy validator loop builds that same Error |
| Executor.CheckLink | src/core/app.ts:180-211 | the validator loop replaces each passing facet by its validated value and returns the `errors` map of the failures; it reports a throw, checking no later facet, when a failure's content is `null` or `undefined` and its `pop` cannot be read |
| Executor.CheckThrowsIff | src/core/app.ts:180-199 | the checks throw exactly when some facet fails with nullish content |
| Executor.CheckStaysThrown | src/core/app.ts:197-199 | after the throw no later facet is checked: the request and the logged failures stay as they were |
| Executor.ValidatorThrowsIff | src/core/app.ts:171-220 | a validator link throws exactly when one of its facets fails with nullish content, and then the chain ends thrown with the facets validated so far |
| Executor.Framed | src/core/app.ts:250-269 | a transformed chunk ends with its `data:` line, the JSON of the data followed by a blank line |
| Executor.Handled | src/core/app.ts:246-250 | at most every chunk is handled; the loop stops once the client has disconnected, and in the current version also at the first chunk whose nullish data makes `chunk.data.transform` throw |
| Executor.NullishDataEndsStream | src/core/app.ts:244-279 | in the current version a chunk with nullish data and every chunk after it are never emitted (the throw is caught and the stream closes); the legacy stream handles every chunk up to a disconnect |
| Executor.StreamOf | src/core/app.ts:227-285 | the stream holds the pieces of the chunks handled; the current stream always ends closed and never errored; at src/app.ts:492-540: the legacy stream errors exactly when the generator throws before a disconnect, and closes only on a disconnect |
| Executor.Enqueue | src/core/app.ts:242-275 | the `start` loop enqueues exactly the pieces of the chunks handled, stopping at a disconnect or at the first chunk that throws |
| Executor.AbortCuts | src/core/app.ts:246-248 | a disconnect cuts the stream: its content is a prefix of what the whole run would emit |
| Executor.FramingGenerations | src/core/app.ts:250-274 | the generations agree on transformed chunks; an untransformed chunk is sent raw by the current version and still framed by the legacy one |
| Executor.ContentShortCircuits | src/core/app.ts:133-135 | once the content is set, `step` returns at once: no link runs and the route is not called |
| Executor.TraceOrdered | src/core/app.ts:131-327 | links run in chain order, each at most once, and the route runs at most once and last |
| Executor.RouteNeedsWholeChain | src/core/app.ts:147-157 | the route runs only when nothing threw and every middleware from the starting link on called `next` |
| Executor.MiddlewareResumesNext | src/core/app.ts:147-157 | a middleware ends the loop: without `next` nothing after it runs, with `next` the chain resumes at the next link, and a truthy return becomes the content |
| Executor.StoreErrorStops | src/core/app.ts:159-164 | a store that returns an Error sets it as the content, and the chain ends there |
| Executor.StoreMerges | src/core/app.ts:165-168 | any other store result is merged into the store, overwriting keys and skipping the empty key; a nullish result throws |
| Executor.ValidatorFails | src/core/app.ts:171-220 | a validator whose facets fail leaves one 422 Error as the content, listing the failed facets in first-failure order with all their details; when a failure's content is nullish the chain throws instead |
| Executor.WebSocketLeavesContent | src/core/app.ts:288-324 | a WebSocket route hands its return value to the upgrade and leaves the content unset |
| Executor.LegacyValidatorThrows | src/app.ts:451 | reading `keys` of a legacy validator throws as soon as it has a request to validate |
| Executor.KeyedValidatorChecks | src/core/validator.ts:102-109 | a validator built with its `keys` checks every facet of its request in insertion order and the chain goes on; it throws only when a facet fails with nullish content |
| Executor.Restore | src/core/app.ts:131-327 | writing developer code's changes back leaves the context exactly in that state |
| Executor.RunRoute | src/core/app.ts:223-327 | the route step leaves the state the specification run gives, and never throws |
| Executor.RunLink | src/core/app.ts:159-221 | a store or validator link leaves the state the specification step gives, and throws exactly when it says so |
| Executor.RunMiddleware | src/core/app.ts:147-157 | a middleware link, with `next` continuing the chain, leaves the state, trace and outcome of the specification run |
| Executor.StepLink | src/core/app.ts:132-221 | one loop turn either ends `step` with the specification's result or passes to the next link as the specification does |
| Executor.Step | src/core/app.ts:131-327 | `step(chain, index)` leaves the state, trace and outcome of the specification run from `index`; at src/app.ts:382-590: the legacy executor is the same method, with the legacy validator and stream |
| RequestContext.ContextResponse.constructor | src/context.ts:80-83 | a new response has no content, no headers and an empty cookie map |
| RequestContext.Context.constructor | src/context.ts:66-86 | a new context holds its endpoint and raw request, a request with only the path, an empty store and no upgrades |
| RequestContext.Context.LoadRequest | src/context.ts:88-110 | the request gains the body when `body` is used, the headers when `headers` or `cookies` is, and cookies, params and query each when used |
| RequestContext.Context.LoadRequestBody | src/context.ts:112-152 | the body is the JSON for `application/json`, the bytes for `application/octet-stream`, the collapsed form for `multipart/form-data` (type compared lower-cased, before any `;`), else the text |
| RequestContext.Context.LoadRequestCookies | src/context.ts:154-159 | the cookies are the parsed cookie object, or undefined when the header declares none |
| RequestContext.Context.LoadRequestHeaders | src/context.ts:161-170 | the headers are an object with every request header, or undefined when there are none |
| RequestContext.Context.LoadRequestParams | src/context.ts:172-202 | an unmatched path leaves the request as it was; otherwise params holds every group, a capture with `/` split into its pieces |
| RequestContext.Context.LoadRequestQuery | src/context.ts:204-229 | the query holds the pairs with both parts present, `+` read as a space and `[]` keys JSON-decoded, or undefined when none is kept |
| RequestContext.LoadedFacets | src/context.ts:88-101 | body, headers and cookies are loaded exactly when the usage set asks (headers also for cookies); otherwise they keep what they had |
| RequestContext.LoadedParamsQuery | src/context.ts:103-109 | params (only when the path matched) and query are loaded exactly when used, and the path is never overwritten |
| RequestContext.CollapseForm | src/context.ts:131-146 | the `formData.forEach` loop builds the object a step-by-step collapse of the entries gives |
| RequestContext.FormGathers | src/context.ts:134-144 | a form key whose values are plain holds its only value, or the list of all its values in arrival order |
| RequestContext.CollapseSame | src/context.ts:135-143 | one more value for a key extends what it holds: a single value becomes a pair, a list grows by one |
| RequestContext.CollapseOther | src/context.ts:134-144 | a form entry leaves every other key as it was |
| RequestContext.GatheredPlain | src/context.ts:134-144 | every value gathered for a key is one of that key's entry values |
| RequestContext.ParamRoundTrip | src/context.ts:193-198 | the pieces of a split capture join back with `/` into the capture |
| RequestContext.ParamUnchanged | src/context.ts:193-198 | a capture without `/`, or one that is not a string, is stored unchanged |
| RequestContext.NoPlusLeft | src/context.ts:221 | a query value holds no `+` once they are replaced |
| RequestContext.QueryLastWins | src/context.ts:215-225 | a repeated query key reads the value of its last pair with both parts present |
| RequestContext.QueryKeysNonEmpty | src/context.ts:217-225 | no stored query key is empty, and a plain (non-`[]`) value holds no `+` |
| Responses.UnwrapFromWrapped | src/core/response.ts:8-23 | from a given iteration count, the loop peels one layer per pass and stops after the eleventh pass, whatever is left |
| Responses.UnwrapBound | src/core/response.ts:3-23 | content at most eleven functions deep is fully unwrapped, and content twelve deep is left with one function around it; at src/response.ts:3-21: the legacy loop has the same bound |
| Responses.WithoutTransform | src/core/response.ts:43-47 | the serialised record has no `transform` field and keeps its content, status and success |
| Responses.CoreReply | src/core/response.ts:38-58 | a native Response in `content` passes through; otherwise a truthy `transform` gives JSON of the record without `transform`, else the raw content; both use the record's status and the response headers |
| Responses.CoreStreamHeaders | src/core/response.ts:25-31 | a stream gets `no-cache` and `keep-alive`, and `text/event-stream` only when no content type is set; other headers are kept |
| Responses.LegacyStreamHeaders | src/response.ts:23-26 | all three stream headers are forced, the content type included; other headers are kept |
| Responses.ProcessResponse | src/core/response.ts:5-58 | the content is unwrapped and written back into the response, a stream also sets its headers there, and the cookies stay as they were |
| Responses.LegacyProcessResponse | src/response.ts:5-53 | the content is unwrapped into a local only, and a stream forces its headers on the response's header collection |
| Responses.AppReply | src/app.ts:667-710 | a stream goes out with the three stream headers forced; otherwise the inner content is unwrapped once and a truthy transform gives JSON |
| Responses.AppResponse | src/app.ts:667-710 | the unwrapped inner content is written into the content record itself, and the reply is the one the decision gives |
| Responses.PassthroughOrder | src/core/response.ts:38-53 | a transformed record holding a native Response: the current version passes the Response through; at src/app.ts:689-704: the legacy `App.prototype.response` checks the transform first and serialises that record |
| Responses.StreamContentType | src/core/response.ts:29-31 | an existing content type is kept on a stream by the current version; at src/response.ts:26: the legacy version overrides it with `text/event-stream` |
| Cors.VaryWith | src/ecosystem/modules/cors/cors.ts:62-64 | the new Vary value ends with the token, and an empty or missing value is replaced by it |
| Cors.Appended | src/ecosystem/cors/cors.ts:107-110 | `headers.append` extends any existing value, even an empty one, with the token |
| Cors.HeaderList | src/ecosystem/modules/cors/cors.ts:96-98 | the requested headers split at `\s*,\s*` give one entry per comma-separated piece (with the splitting pattern of line 20) |
| Cors.HeaderListRoundTrip | src/ecosystem/modules/cors/cors.ts:96-105 | without white space the list is the comma-separated pieces, and joining them with `,` gives back the request header |
| Cors.OriginStage | src/ecosystem/modules/cors/cors.ts:59-65 | Allow-Origin is set, Vary is extended unless the origin is `*`, and nothing else changes |
| Cors.OptionStage | src/ecosystem/modules/cors/cors.ts:67-76 | Allow-Credentials and Expose-Headers are written only when configured, and nothing else changes |
| Cors.MethodsStage | src/ecosystem/modules/cors/cors.ts:78-86 | Allow-Methods is set and Max-Age when there is one, and nothing else changes |
| Cors.AllowStage | src/ecosystem/modules/cors/cors.ts:102-116 | with allowed headers, Allow-Headers is their `,`-join and Vary gains the request-headers token; without them nothing changes |
| Cors.WriteOrigin | src/ecosystem/modules/cors/cors.ts:59-65 | the response headers become those of the origin stage |
| Cors.WriteOptions | src/ecosystem/modules/cors/cors.ts:67-76 | the response headers become those of the options stage |
| Cors.WriteMethods | src/ecosystem/modules/cors/cors.ts:78-86 | the response headers become those of the methods stage |
| Cors.WriteAllow | src/ecosystem/modules/cors/cors.ts:102-116 | the response headers become those of the allow stage |
| Cors.CoreCors | src/ecosystem/modules/cors/cors.ts:42-121 | the middleware leaves the response headers the staged specification gives |
| Cors.CoreCorsEffect | src/ecosystem/modules/cors/cors.ts:22-121 | Allow-Origin is always written; credentials and exposed headers when configured; on `OPTIONS` the methods (default list included), Max-Age whenever given, the allowed headers (configured, else requested) and a zero Content-Length; every other header is left alone; at src/ecosystem/modules/cors/cors.ts:88-100: the current middleware resolves the allowed headers per request into a local |
| Cors.CredentialsReflectOrigin | src/ecosystem/modules/cors/cors.ts:48-65 | with credentials the wildcard origin becomes the request's own Origin, credentials are allowed, and Vary ends with `Origin` |
| Cors.PreflightReplies | src/ecosystem/modules/cors/cors.ts:124-129 | the current catch-all `OPTIONS` route replies 204 with no body; at src/ecosystem/cors/cors.ts:117-119: the legacy route replies 204 through the JSON path, its transform left at the default |
| Cors.CorsModule | src/ecosystem/modules/cors/cors.ts:40-130 | `cors()` is a fresh module holding the middleware, then the catch-all `OPTIONS` route |
| Cors.LegacyCors.constructor | src/ecosystem/cors/cors.ts:22-37 | the middleware's closure starts with the configured `allowHeaders` |
| Cors.LegacyCors.Enter | src/ecosystem/cors/cors.ts:40-115 | the captured `allowHeaders` is set by the first preflight with requested headers and then kept; the headers are those the legacy specification gives with it |
| Cors.MaxAgeZero | src/ecosystem/modules/cors/cors.ts:84-86 | Max-Age 0 is written by the current middleware; at src/ecosystem/cors/cors.ts:82-87: and skipped by the legacy one, whose test is truthiness |
| Cors.LegacyAllowHeadersLeak | src/ecosystem/cors/cors.ts:89-99 | a second preflight asking for `x-b` is told the first preflight's `x-a` |
| Cors.LegacyVaryOmitsOrigin | src/ecosystem/cors/cors.ts:53-60 | a fixed origin and a request Vary of `accept` give a response Vary of `accept`, without `Origin` |
| Cors.CoreVaryListsOrigin | src/ecosystem/modules/cors/cors.ts:61-65 | the current middleware keeps the response's Vary and appends `Origin` whenever the origin is not `*` |
| Compress.TokensOf | src/ecosystem/modules/compress/index.ts:38-40 | each comma-separated item becomes its trimmed, lower-cased token cut at `;` |
| Compress.NonEmpty | src/ecosystem/modules/compress/index.ts:41-43 | exactly the non-empty tokens are kept |
| Compress.Accepted | src/ecosystem/modules/compress/index.ts:35-44 | an encoding is accepted exactly when it is the non-empty token of some item of the header |
| Compress.FirstAccepted | src/ecosystem/modules/compress/index.ts:46-48 | the index found is that of an accepted encoding with no accepted one before it; none is found only when no candidate is accepted |
| Compress.Negotiate | src/ecosystem/modules/compress/index.ts:29-52 | the encoding chosen is accepted and the first of zstd, br, gzip and deflate the client lists, whatever its weight; none is chosen only when the header is missing or empty or lists none of them; at src/ecosystem/compress/compress.ts:33-56: the legacy negotiation is the same (with the encoding list of line 15) |
| Compress.Piped | src/ecosystem/modules/compress/index.ts:54-63 | the stream goes through one more compressor, for the chosen encoding |
| Compress.StreamHeaders | src/ecosystem/modules/compress/index.ts:65-67 | the stream's header list stays free of duplicate names |
| Compress.WriteCompressed | src/ecosystem/modules/compress/index.ts:106-124 | the response carries the compressed headers and the rebuilt content |
| Compress.PipeStream | src/ecosystem/modules/compress/index.ts:54-70 | the response carries the piped stream and the stream headers |
| Compress.CoreCompress | src/ecosystem/modules/compress/index.ts:17-125 | after `next()`, the content and headers are those the specification gives, and the cookies are untouched |
| Compress.LegacyCompress | src/ecosystem/compress/compress.ts:20-130 | the legacy middleware leaves the content and headers its specification gives, and the cookies are untouched |
| Compress.CoreCompressBuffer | src/ecosystem/modules/compress/index.ts:72-125 | the buffer path leaves the content and headers its specification gives (under the threshold the processed content and headers, otherwise the rebuilt compressed content with Content-Encoding, Content-Length and the reply's content type) and the cookies untouched |
| Compress.LegacyCompressBuffer | src/ecosystem/compress/compress.ts:76-130 | the legacy buffer path leaves the content and headers its specification gives and the cookies untouched |
| Compress.NothingToCompress | src/ecosystem/modules/compress/index.ts:20-52 | no content, a HEAD request, an encoding already applied or no common encoding changes nothing, in either generation; at src/ecosystem/compress/compress.ts:24-56: the legacy skips are the same |
| Compress.StreamsArePiped | src/ecosystem/modules/compress/index.ts:54-70 | both generations pipe a stream through the compressor, set Content-Encoding, drop Content-Length and keep every other header |
| Compress.SmallBodiesUntouched | src/ecosystem/modules/compress/index.ts:72-78 | a body shorter than the threshold is sent as it is, though the current generation has written the unwrapped content back; at src/ecosystem/compress/compress.ts:76-84: the legacy generation leaves content and headers as they were |
| Compress.RepackOptions | src/ecosystem/modules/compress/index.ts:117-124 | the rebuild's options carry the status and a false transform |
| Compress.CoreRepackedKeeps | src/ecosystem/modules/compress/index.ts:116-124 | the rebuilt content is the compressed bytes, a success or an error as before, with its status (an error without one gets 400) and no transform |
| Compress.LegacyRepackedReads | src/ecosystem/compress/compress.ts:126-128 | the legacy rebuild reads the fields of what it is given; content that is not a success or error becomes an error with status 400 |
| Compress.CompressedContent | src/ecosystem/modules/compress/index.ts:80-124 | content that serialises to at least the threshold is replaced by its compressed bytes at the encoding's level; Content-Encoding and Content-Length announce it and the other headers, Content-Type aside, are kept |
| Compress.BufferPath | src/ecosystem/modules/compress/index.ts:72-124 | past the skips, with an encoding chosen, content that is not a stream takes the buffer path in both generations |
| Compress.LegacyBufferWrapped | src/ecosystem/compress/compress.ts:76-128 | a success returned through a function is rebuilt by the legacy buffer path as an error with status 400 |
| Compress.CoreBufferWrapped | src/ecosystem/modules/compress/index.ts:72-124 | the current buffer path rebuilds it from the unwrapped content, keeping its kind and status |
| Compress.LegacyWrappedSuccessBecomesError | src/ecosystem/compress/compress.ts:76-128 | a 200 success returned through a function goes out as a 400 error once compressed |
| Compress.CoreWrappedSuccessStays | src/ecosystem/modules/compress/index.ts:72-124 | the same success stays a 200 success in the current generation |
| OpenApi.WordRun | src/ecosystem/openapi/openapi.ts:32-33 | the `\w+` run at the start of the text is made of word characters and stops before the first other one |
| OpenApi.BracedNoMark | src/ecosystem/openapi/openapi.ts:31-33 | text in which no marker starts is left as it is |
| OpenApi.BracedParam | src/ecosystem/openapi/openapi.ts:31-33 | a marked name becomes the name in braces, and what follows is rewritten on its own |
| OpenApi.DocPathParam | src/ecosystem/openapi/openapi.ts:31-33 | both `:name` and `...name` become `{name}`, and an optional parameter's `?` stays after the brace |
| OpenApi.ParamTokens | src/ecosystem/openapi/openapi.ts:111 | every parameter matched in the template has a non-empty word-character name |
| OpenApi.TokenFields | src/ecosystem/openapi/openapi.ts:115-136 | the name, the optional flag and the wildcard flag are read back from the matched text |
| OpenApi.Location | src/ecosystem/openapi/openapi.ts:53 | a key ending in `s` loses that letter; any other is kept (with the pattern of line 18) |
| OpenApi.PropertyParams | src/ecosystem/openapi/openapi.ts:58-77 | one parameter per property name, in order, with the facet's location, that property's schema and whether `required` lists it |
| OpenApi.MediaContent | src/ecosystem/openapi/openapi.ts:94-107 | each listed media type gets `{ schema }`, and the others keep what they had |
| OpenApi.PutOperation | src/ecosystem/openapi/openapi.ts:143-146 | the operation is stored under its path and method; other methods of the path and other paths are kept |
| OpenApi.DocumentMemory.constructor | src/ecosystem/openapi/openapi.ts:150 | memory starts without a document |
| OpenApi.PushProperties | src/ecosystem/openapi/openapi.ts:63-77 | the loop appends exactly the parameters of the schema's properties |
| OpenApi.WriteMedia | src/ecosystem/openapi/openapi.ts:90-107 | the loop writes the media content for the JSON, multipart and text types |
| OpenApi.DescribeFacets | src/ecosystem/openapi/openapi.ts:43-108 | the loop over a validator's facets gives the operation the facet specification gives |
| OpenApi.DescribeFacet | src/ecosystem/openapi/openapi.ts:48-107 | one facet, as the facet specification gives it: a falsy schema adds nothing, `body` sets the request body's three media types to its schema, any other key adds parameters located by the key without its trailing `s`, one per property when the schema is an object |
| OpenApi.DescribeChain | src/ecosystem/openapi/openapi.ts:36-109 | the loop over the chain gives the operation its validators describe |
| OpenApi.DescribePath | src/ecosystem/openapi/openapi.ts:111-141 | the loop over the matched parameters gives the operation the path specification gives |
| OpenApi.DescribeBucket | src/ecosystem/openapi/openapi.ts:29-147 | the loop over a method's endpoints gives the paths the bucket specification gives |
| OpenApi.Addon | src/ecosystem/openapi/openapi.ts:21-161 | running the addon stores the document of the application's endpoints in memory and returns `"openapi"` |
| OpenApi.OpenApiModule | src/ecosystem/openapi/openapi.ts:164-183 | the module holds the page route at the path (default `/openapi`) and the JSON route under it |
| OpenApi.PageReply | src/ecosystem/openapi/openapi.ts:168-178 | the page is a 200 success built around the stored document, with an HTML content type and the other headers kept |
| OpenApi.JsonReply | src/ecosystem/openapi/openapi.ts:180-182 | the JSON route replies a 200 success holding the serialised document |
| OpenApi.NoValidatorsNothing | src/ecosystem/openapi/openapi.ts:36-41 | a chain without validators documents nothing |
| OpenApi.FalsyFacetsNothing | src/ecosystem/openapi/openapi.ts:48-50 | facets with a falsy schema add nothing |
| OpenApi.ObjectSchemaParams | src/ecosystem/openapi/openapi.ts:52-87 | an object schema yields one parameter per property, required exactly when listed; any other schema yields one parameter without a name |
| OpenApi.BodyFacet | src/ecosystem/openapi/openapi.ts:90-107 | the body yields its schema under the JSON, multipart and text media types, and no parameter |
| OpenApi.PathParamAdded | src/ecosystem/openapi/openapi.ts:115-139 | a matched parameter without a path parameter of its name becomes one, required exactly without `?` and with pattern `.*` exactly for a wildcard; otherwise nothing changes |
| OpenApi.PathOpExtends | src/ecosystem/openapi/openapi.ts:113-141 | matching parameters only ever appends to the parameters already there |
| OpenApi.HasPathParamKept | src/ecosystem/openapi/openapi.ts:118-127 | a path parameter present stays present once more parameters are appended |
| OpenApi.PathParamsDocumented | src/ecosystem/openapi/openapi.ts:111-141 | every parameter of the template ends up documented as a path parameter of its name |
| OpenApi.EndpointDocumented | src/ecosystem/openapi/openapi.ts:29-147 | an endpoint is documented under its document path and lower-case method with its own operation, unless a later endpoint of the bucket has the same document path |
| OpenApi.LaterEndpointWins | src/ecosystem/openapi/openapi.ts:143-146 | a later endpoint of the same document path and method replaces the earlier one |
| OpenApi.DocumentMetadata | src/ecosystem/openapi/openapi.ts:150-158 | the document carries the given title, description and version, or the defaults, and version 3.1.0 |
| OpenApi.ParamsChain | src/ecosystem/openapi/openapi.ts:43-87 | a validator whose only facet is `params`, with one property, documents that one parameter at the location given |
| OpenApi.SingleParamPath | src/ecosystem/openapi/openapi.ts:111 | the template `/:name` matches exactly one required, non-wildcard parameter |
| OpenApi.ParamsDocumentedTwice | src/ecosystem/openapi/openapi.ts:111-127 | such an endpoint documents the parameter twice: with `in: "param"` from the validator and as a path parameter from the template (with the facet parameters of lines 52-53) |
| OpenApi.ParamsDocumentedOnce | src/ecosystem/openapi/openapi.ts:111-127 | naming the location `path` documents the parameter once, with the validator's schema |
| I18n.Placeholder | src/ecosystem/plugins/i18n/i18n.ts:114-117 | the placeholder of a key is non-empty and starts with `${` |
| I18n.ReplacePlaceholders | src/ecosystem/plugins/i18n/i18n.ts:97-121 | the loop leaves the text the replacement specification gives: key after key in map order, empty keys skipped, every `${key}` replaced as `replaceAll` does with a string replacement, so `$$`, `$&`, `` $` `` and `$'` in a value are expanded, and an undefined value counts as `""` |
| I18n.ReplaceKeepsPlainText | src/ecosystem/plugins/i18n/i18n.ts:97-121 | text holding no `${` comes back unchanged, whatever the map |
| I18n.ReplaceSkipsEmptyKeys | src/ecosystem/plugins/i18n/i18n.ts:110-112 | a map whose keys are all empty changes nothing |
| I18n.ReplaceEveryOccurrence | src/ecosystem/plugins/i18n/i18n.ts:114-117 | for a value without `$`, each non-empty key replaces EVERY `${key}` of the text so far by its value, or by the empty string when it is undefined, keeping the text between the occurrences |
| I18n.PlaceholderSubstituted | src/ecosystem/plugins/i18n/i18n.ts:114-117 | the value is a replacement pattern: a text ending in its only placeholder gets the GetSubstitution of the value, `$&` the placeholder, `` $` `` the text before it, `$'` the empty text after it, `$$` one `$` |
| I18n.DollarValues | src/ecosystem/plugins/i18n/i18n.ts:114-117 | `replace("Total: ${p}", {p: "$&"})` gives `Total: ${p}` and `{p: "$$5"}` gives `Total: $5` |
| I18n.GetLanguageReadsSelection | src/ecosystem/plugins/i18n/i18n.ts:169-174 | once a middleware has written the language into the request's store, `getLanguage` reads it back |
| I18n.GetLanguageDefault | src/ecosystem/plugins/i18n/i18n.ts:169-174 | outside a request, or before any selection, the language is the configured default |
| I18n.Substitute | src/ecosystem/plugins/i18n/i18n.ts:207-222 | the replacement loop on the value found substitutes into a phrase exactly as `replace` does, `$` patterns in values expanded, and raises the TypeError when a non-phrase meets a non-empty key |
| I18n.Translate | src/ecosystem/plugins/i18n/i18n.ts:176-225 | the method gives the outcome the translation specification gives: language lookup, the walk along the `.`-separated path, then substitution with `$` patterns in values expanded as `replaceAll` expands them |
| I18n.WalkAppend | src/ecosystem/plugins/i18n/i18n.ts:193-205 | walking a path is walking its first part, then its second from there |
| I18n.EmptySegmentSkipped | src/ecosystem/plugins/i18n/i18n.ts:196-198 | an empty segment (a leading, doubled or trailing `.`) changes nothing |
| I18n.WalkFromEmpty | src/ecosystem/plugins/i18n/i18n.ts:204 | from the empty phrase every further key leads to the empty phrase again |
| I18n.MissingKeyEmpty | src/ecosystem/plugins/i18n/i18n.ts:204 | a key a table does not hold yields `""`, and so does the rest of the path |
| I18n.TableStep | src/ecosystem/plugins/i18n/i18n.ts:204 | a table entry reached by a key is the value found under it |
| I18n.MissingLanguageReturnsPath | src/ecosystem/plugins/i18n/i18n.ts:187-191 | a language without translations, or with a falsy one, yields the path itself |
| I18n.TranslateReplacesLikeReplace | src/ecosystem/plugins/i18n/i18n.ts:207-222 | with translations, the phrase the path reaches is substituted exactly as `replace` does, and the TypeError arises exactly when a non-phrase meets a non-empty key |
| I18n.CoreI18n | src/ecosystem/plugins/i18n/i18n.ts:227-243 | the middleware writes `{ language }` into the store under `i18n`, with the language the specification chooses, and changes nothing else in the store |
| I18n.CoreLanguageSupported | src/ecosystem/plugins/i18n/i18n.ts:234-239 | the chosen language is a listed one or what `getLanguage` answers, and is listed whenever that answer is |
| I18n.CorePriority | src/ecosystem/plugins/i18n/i18n.ts:229-239 | the configured cookie wins over the configured header and the header over `getLanguage`, each only when it names a listed language |
| I18n.LegacyI18n | src/ecosystem/i18n/i18n.ts:128-151 | without the plugin's memory entry the store is unchanged; otherwise `i18n` holds the Accept-Language cookie's or header's language when listed, else the default |
| I18n.LegacyLanguageSupported | src/ecosystem/i18n/i18n.ts:141-143 | the legacy language is a listed one or the default, and listed whenever the default is |
| I18n.LegacyIgnoresConfiguredCookie | src/ecosystem/i18n/i18n.ts:138-140 | a listed language sent in the configured cookie, with no Accept-Language cookie or header, is not chosen: the default is |
| I18n.CoreHonoursConfiguredCookie | src/ecosystem/plugins/i18n/i18n.ts:229-238 | the current middleware chooses the listed language the configured cookie carries |
| I18n.CoreHonoursConfiguredHeader | src/ecosystem/plugins/i18n/i18n.ts:229-238 | and, without that cookie, the listed language the configured header carries |

## Left out

- Regular-expression matching itself belongs to the JavaScript engine. `pathToRegexp` is modelled as the text it produces, and `Matcher` states the paths that text accepts piece by piece. `Application.Dispatch` and `Application.Fetch` take the engine's `exec` as a parameter.
- Regular-expression metacharacters inside literal path segments are treated by `Matcher` as plain text, as the template's author evidently means them. The source emits them unescaped.
- Query tokenisation (`getUrlQueryRegexp`) is not part of this model. `RequestContext.Context.LoadRequestQuery` takes the list of key/value tokens it yields.
- Function source scanning (`toString()`) and `constructor.name` sniffing are modelled as a source-text string and a constructor name carried by each link.
- The Bun server, `listen`, signal handling, `Bun.gc`, the static route handlers and the WebSocket transport are I/O. Only the WebSocket hand-off is kept: the route's return value joins the context's upgrades.
- async/await, promises and `ReadableStream` are left out. A stream is the sequence of pieces enqueued, with its closed and errored flags, and a client disconnect is the index of the chunk at which the abort flag is seen.
- JSON encoding and decoding, the body readers (`json`, `arrayBuffer`, `formData`, `text`) and the compressors are parameters: fields of `RawRequest`, `Env` and `Compress.Io`. The compressor's `!compressed` test is unreachable once the compressor is a total function.
- The `CompressionStream` flush options and level are not modelled. A piped stream records only the encoding.
- Middleware, stores and route handlers are functions of a snapshot of the context that do not throw. A middleware's `next` is called at most once, before it returns. A generator may throw once its chunks are exhausted: `Executor.StreamOf` takes that as a flag, which errors the legacy stream and is swallowed by the current one. The throws the framework itself raises (`Object.keys` of a nullish store result, `keys` of a legacy validator, `pop` of a nullish validation failure, `transform` of nullish SSE data) are modelled.
- Plugins other than the validator backend are abstract. A plugin call is an event in the compile log and may register a backend.
- Application.CompileApp: requires the module still in memory. A second `compile` passes `undefined` to the compiler, which fails in the source. It also inherits the throw that `Compiler.CompileWith` leaves out.
- Compiler.CompileWith: files every route, whatever its parameter names. The source builds `new RegExp` of each endpoint's capturing pattern (src/core/compile.ts:201, src/compile.ts:165), which throws a SyntaxError, and so rejects the compile, when `PathPattern.ValidGroupNames` fails: a name that is not an identifier (`:user-id`, a bare `:` or `...`) or a name used twice. `PathPattern.OneParamNames` and `PathPattern.RepeatedParamRejected` state when that happens; the rejected compile itself is not modelled. Group names are checked as ASCII identifiers; the Unicode letters JavaScript also accepts are not.
- Records.NewGroup: stores the links the group function appends to the module it is given, and the prefix. The source stores the function itself (src/core/group.ts:38) and, at compile, pushes whatever module the function returns (src/core/compile.ts:105); a function that returns some other module, such as a fresh `module()`, is not modelled, and `Compiler.GroupFrame` and `Compiler.RouteEndpoint` rest on this.
- Dictionaries (`Base.Dict`) keep insertion order. JavaScript objects list integer-like keys first, in ascending order, so `Object.keys` and `Object.entries` order differs for such keys: in `I18n.ReplacePlaceholders` (which placeholder is replaced first), in `Objects.Merge` and in OpenAPI `properties`.
- The OpenAPI addon sees endpoints only when it runs after compilation (`compile: "AFTER"`). `OpenApi.Addon` is stated on the application's endpoints as they stand.
- `Object.keys` throws on an undefined `properties` or request. An object schema without `properties`, and a `required` that is not an array, are taken as empty.
- The scalar HTML page and `JSON.stringify` of the document are parameters of `OpenApi.PageReply` and `OpenApi.JsonReply`.
- i18n `load`, `loadTranslations`, file watching, writing `types.d.ts` and the legacy i18n addon that fills memory are filesystem I/O. `I18n.I18nConfig` is the store they leave.
- In the i18n walk, string properties other than an index (such as `length`) and properties inherited from the prototype are read as missing.
- A non-string `language` in `store.i18n` is read as missing, and the default is used.
- The ambient request context (AsyncLocalStorage, `globalContext`) is a parameter: the store in scope, or none.
- The legacy `i18n.translate` and `language` accessors are not part of this model.
- Header names are stored lower-cased, and `Headers` whitespace normalisation is not modelled.
- Cors.CoreCors: a function `origin` gets the request's Origin but not the context, which the model does not pass to it.
- A numeric `maxAge` is an integer. A fractional one would print with its decimals.
- Builder.ModuleBuilder.Extends: appends a snapshot of the other module's chain. Later pushes onto that module are not seen through the link, as they would be through the shared object.
- Objects.Merge: returns the merged dictionary instead of updating `object1` in place, so aliasing of `object1` is not modelled. It follows src/utils/merge.ts for both generations; `@/utils/objects/merge`, which src/core/app.ts:19 imports, is not part of this model.
- Records.CoreRoute: `@/core/route`, which src/core/module.ts:394 constructs, is not part of this model. The record has the fields the legacy `Route` of src/route.ts carries, with validator options wrapped as the current validator wraps them.
- RequestContext.Context: `@/core/context`, which src/core/app.ts:2 imports, is not part of this model. The class follows src/context.ts for both generations.
- RequestContext.Context.LoadRequestHeaders: keeps the headers in the order the request lists them. `Headers.forEach` visits names in sorted order, which changes only the key order of the `headers` object.
- RequestContext.Context.LoadRequestParams: takes the named groups the path regexp yields. It does no decoding of its own, as src/context.ts:171-201 does none.
- RequestContext.Context.LoadRequestQuery: `parse` stands for `JSON.parse` and is total. The SyntaxError it raises on a malformed `[]` value, and the URIError `decodeURIComponent` raises on a malformed escape in the URL, are not modelled.
- Records.Success: requires options that are not `null`. The declared options type excludes `null`, and `new Success(content, null)` throws a TypeError reading `status`, which the model does not capture.
- Text.Lower: folds ASCII letters only. JavaScript's `toLowerCase` also folds other Unicode letters, so `Compress.TokensOf` keeps non-ASCII capitals in a token that JavaScript would lower.
- I18n.ReplaceEveryOccurrence: states the split-and-join form only for a value without `$`. A `$` in the value is expanded at each occurrence, which `I18n.PlaceholderSubstituted` and `I18n.DollarValues` state.
- The client, cluster, events and storage modules, the trycatch modules, the standard-schema adapter and the type-only files are outside the core.

## Findings

| source | as written | input that shows it | evidently intended | confidence | as-written member | corrected member |
|---|---|---|---|---|---|---|
| src/compile.ts:179-238 | `routes ??= {}` assigns the destructured local, so on an app without a route table the static routes are written into a fresh object nobody keeps | an app whose `routes` is undefined, compiled by the standalone legacy `compile` with a route `GET /a` | the table is created on the app, and `GET /a` is served from it | not executed | Compiler.LocalRoutesLost | Compiler.CompiledStaticRoute |
| src/core/compile.ts:244-282 | the static table is written over the reversed bucket, and later writes win, so of two routes with the same literal path and method it serves the first declared one | `route("GET", "/a", h1)` then `route("GET", "/a", h2)`: the alternation picks `h2`, the table serves `h1` | the table serves the last-declared route, as the alternation does | not executed | Compiler.DuplicateStaticRoute | Compiler.InOrderServesLast |
| src/app.ts:451 | the legacy executor reads `link.keys.length`, but the legacy Validator (src/validator.ts:88-94) has no `keys` | any endpoint whose chain holds a legacy validator with a request | the validator checks each facet of its request | not executed | Executor.LegacyValidatorThrows | Executor.KeyedValidatorChecks |
| src/ecosystem/cors/cors.ts:89-99 | the closure's `allowHeaders` is assigned from the first preflight's requested headers and kept for every later request | a preflight requesting `x-a`, then one requesting `x-b`: the second is allowed `x-a` | each preflight is allowed the headers it requests | not executed | Cors.LegacyAllowHeadersLeak | Cors.CoreCorsEffect |
| src/ecosystem/cors/cors.ts:53-60 | Vary is set to the REQUEST's Vary header, or `Origin` when it has none | origin `https://a.example` and a request carrying `Vary: accept`: the response's Vary is `accept` | the response's Vary lists `Origin` | not executed | Cors.LegacyVaryOmitsOrigin | Cors.CoreVaryListsOrigin |
| src/ecosystem/compress/compress.ts:76-128 | the unwrapped content stays local to `processResponse`, and the rebuild reads `success` and `status` of the content the route left | a route returning a function that returns `success(body)`, with a body of at least 512 bytes and gzip accepted: it goes out as an error with status 400 | the compressed reply keeps the kind and status of the unwrapped content | not executed | Compress.LegacyWrappedSuccessBecomesError | Compress.CoreWrappedSuccessStays |
| src/ecosystem/openapi/openapi.ts:52-127 | the `params` facet's parameters get `in: "param"`, and the path scan, which looks only for `in: "path"`, documents the same parameter again | `GET /:id` with a validator on `params` whose schema is an object with property `id` | the parameter is documented once, `in: "path"`, with the validator's schema | not executed | OpenApi.ParamsDocumentedTwice | OpenApi.ParamsDocumentedOnce |
| src/ecosystem/i18n/i18n.ts:138-140 | the legacy middleware reads only the `Accept-Language` cookie and header, whatever cookie the configuration names | configured cookie `lang`, request cookie `lang=fr`, `fr` listed, default `en`, no Accept-Language cookie or header: `en` is chosen | the configured cookie's `fr` is chosen | not executed | I18n.LegacyIgnoresConfiguredCookie | I18n.CoreHonoursConfiguredCookie |
