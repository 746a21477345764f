/**
  * The chain executor (`App.prototype.endpoint`'s inner `step`): an
  * index-driven interpreter over an endpoint's chain that stops at the first
  * content. Middleware continues the chain only through its `next`, stores
  * are merged into the context's store, validator failures are gathered per
  * facet into one 422 Error, and the route ends in a server-sent-event
  * stream, a WebSocket hand-off or a plain return value.
  *
  * Developer functions (middleware, stores, handlers) and the validator
  * backend are given by an `Env` of functions over a snapshot of the context.
  */
module Executor {
  import opened Base
  import opened Records
  import opened Objects
  import opened RequestContext

  datatype Generation = Current | Legacy

  /** What developer code can see and change of a context. */
  datatype State = State(request: Dict<Value>, store: Dict<Value>, content: Value, headers: Headers,
                         cookies: Dict<string>, upgrades: seq<Value>)

  /** One value a generator route yields: `{ id, event, retry, data }`. */
  datatype Chunk = Chunk(id: Value, event: Value, retry: Value, data: Value)

  /**
    * The code the executor calls. A middleware is split at its call of
    * `next`: `enter` runs up to that call (and says whether it is made),
    * `leave` runs the rest and returns the middleware's value. `generate`
    * gives the chunks a generator route yields and whether it then throws.
    * `show` is string conversion, `json` is `JSON.stringify`, and `abortAt`
    * the number of chunks pulled before the client disconnects, if it does.
    */
  datatype Env = Env(enter: (Fn, State) -> (State, bool),
                     leave: (Fn, State) -> (State, Value),
                     store: (Fn, State) -> (State, Value),
                     validate: (Value, Value, string) -> (bool, Value),
                     handle: (Fn, State) -> (State, Value),
                     generate: (Fn, State) -> (seq<Chunk>, bool),
                     show: Value -> string,
                     json: Value -> string,
                     abortAt: Option<nat>)

  /**
    * The end of a run: the state, the chain positions whose links ran in the
    * order they ran (the chain's length standing for the route itself), and
    * whether the run threw.
    */
  datatype Ran = Ran(state: State, trace: seq<nat>, threw: bool)

  function Prefixed(t: seq<nat>, r: Ran): Ran {
    r.(trace := t + r.trace)
  }

  lemma PrefixedTwice(p: seq<nat>, t: seq<nat>, r: Ran)
    ensures Prefixed(p, Prefixed(t, r)) == Prefixed(p + t, r)
  {
    assert p + (t + r.trace) == (p + t) + r.trace;
  }

  // ---------------------------------------------------------------------------
  // Validation
  // ---------------------------------------------------------------------------

  /**
    * The request after the facets checked so far, each failure in order with
    * its details, and whether a check threw.
    */
  datatype Checked = Checked(request: Dict<Value>, failures: seq<(string, seq<Value>)>, threw: bool)

  /** `content.pop ? content : [content]`. */
  function Details(content: Value): seq<Value> {
    if IsArray(content) then content.items else [content]
  }

  /** The verdict of the validator backend on one facet of a request. */
  function Verdict(validate: (Value, Value, string) -> (bool, Value), schemas: Dict<Value>, key: string,
                   request: Dict<Value>): (bool, Value) {
    validate(Lookup(schemas, key).GetOr(Undefined), Lookup(request, key).GetOr(Undefined), key)
  }

  /** A failure whose content is `null` or `undefined`: reading its `pop` throws a TypeError. */
  predicate FailsNullish(verdict: (bool, Value)) {
    !verdict.0 && Nullish(verdict.1)
  }

  /**
    * One facet: a success replaces the facet by the validated value, a failure
    * is logged, and a nullish failure throws, so that no later facet is checked.
    */
  function CheckKey(validate: (Value, Value, string) -> (bool, Value), schemas: Dict<Value>, key: string,
                    c: Checked): Checked {
    if c.threw then c
    else
      var verdict := Verdict(validate, schemas, key, c.request);
      if verdict.0 then c.(request := Put(c.request, key, verdict.1))
      else if Nullish(verdict.1) then c.(threw := true)
      else c.(failures := c.failures + [(key, Details(verdict.1))])
  }

  function CheckUpTo(validate: (Value, Value, string) -> (bool, Value), schemas: Dict<Value>, keys: seq<string>,
                     n: nat, request: Dict<Value>): Checked
    requires n <= |keys|
  {
    if n == 0 then Checked(request, [], false)
    else CheckKey(validate, schemas, keys[n - 1], CheckUpTo(validate, schemas, keys, n - 1, request))
  }

  /** The verdict on facet `keys[k]`, given the request the earlier facets left. */
  function VerdictAt(validate: (Value, Value, string) -> (bool, Value), schemas: Dict<Value>, keys: seq<string>,
                     k: nat, request: Dict<Value>): (bool, Value)
    requires k < |keys|
  {
    Verdict(validate, schemas, keys[k], CheckUpTo(validate, schemas, keys, k, request).request)
  }

  /** Once a check has thrown, the later facets change nothing. */
  lemma {:induction false} CheckStaysThrown(validate: (Value, Value, string) -> (bool, Value), schemas: Dict<Value>,
                                            keys: seq<string>, j: nat, n: nat, request: Dict<Value>)
    requires j <= n <= |keys| && CheckUpTo(validate, schemas, keys, j, request).threw
    ensures CheckUpTo(validate, schemas, keys, n, request) == CheckUpTo(validate, schemas, keys, j, request)
    decreases n
  {
    if n > j {
      CheckStaysThrown(validate, schemas, keys, j, n - 1, request);
    }
  }

  /** The checks of the first `n` facets throw exactly when one of them fails with nullish content. */
  lemma {:induction false} CheckThrowsIff(validate: (Value, Value, string) -> (bool, Value), schemas: Dict<Value>,
                                          keys: seq<string>, n: nat, request: Dict<Value>)
    requires n <= |keys|
    ensures CheckUpTo(validate, schemas, keys, n, request).threw <==>
            exists k :: 0 <= k < n && FailsNullish(VerdictAt(validate, schemas, keys, k, request))
    decreases n
  {
    if n > 0 {
      CheckThrowsIff(validate, schemas, keys, n - 1, request);
      var c := CheckUpTo(validate, schemas, keys, n - 1, request);
      if c.threw {
        var k :| 0 <= k < n - 1 && FailsNullish(VerdictAt(validate, schemas, keys, k, request));
        assert 0 <= k < n;
      } else if FailsNullish(VerdictAt(validate, schemas, keys, n - 1, request)) {
        assert CheckUpTo(validate, schemas, keys, n, request).threw;
      } else {
        assert !CheckUpTo(validate, schemas, keys, n, request).threw;
        forall k | 0 <= k < n
          ensures !FailsNullish(VerdictAt(validate, schemas, keys, k, request))
        {
          if k == n - 1 {
          }
        }
      }
    }
  }

  /** `errors.get(key).details.push(...)` for a known facet, `errors.set(key, ...)` for a new one. */
  function AddFailure(errors: Dict<seq<Value>>, key: string, details: seq<Value>): Dict<seq<Value>> {
    match Lookup(errors, key)
    case Some(d) => Put(errors, key, d + details)
    case None => Put(errors, key, details)
  }

  /** The `errors` map the failures build. */
  function Aggregate(failures: seq<(string, seq<Value>)>): Dict<seq<Value>>
    decreases |failures|
  {
    if failures == [] then []
    else
      var n := |failures| - 1;
      AddFailure(Aggregate(failures[..n]), failures[n].0, failures[n].1)
  }

  /** All details logged for a facet, in order: a reference definition independent of Put. */
  function DetailsFor(failures: seq<(string, seq<Value>)>, key: string): seq<Value>
    decreases |failures|
  {
    if failures == [] then []
    else
      var n := |failures| - 1;
      DetailsFor(failures[..n], key) + (if failures[n].0 == key then failures[n].1 else [])
  }

  /** Each key once, at the position of its first occurrence. */
  function FirstOccurrences(ks: seq<string>): seq<string>
    decreases |ks|
  {
    if ks == [] then []
    else
      var n := |ks| - 1;
      var d := FirstOccurrences(ks[..n]);
      if ks[n] in d then d else d + [ks[n]]
  }

  lemma {:induction false} FirstOccurrencesMembers(ks: seq<string>, k: string)
    ensures k in FirstOccurrences(ks) <==> k in ks
    decreases |ks|
  {
    if ks != [] {
      var n := |ks| - 1;
      FirstOccurrencesMembers(ks[..n], k);
      assert ks == ks[..n] + [ks[n]];
    }
  }

  lemma KeysSnoc<V>(d: Dict<V>, n: nat)
    requires n < |d|
    ensures Keys(d[..n + 1]) == Keys(d[..n]) + [d[n].0]
  {
  }

  lemma {:induction false} DetailsForAbsent(failures: seq<(string, seq<Value>)>, key: string)
    requires key !in Keys(failures)
    ensures DetailsFor(failures, key) == []
    decreases |failures|
  {
    if failures != [] {
      var n := |failures| - 1;
      assert failures[..n + 1] == failures;
      KeysSnoc(failures, n);
      DetailsForAbsent(failures[..n], key);
    }
  }

  lemma AddFailureLookup(a: Dict<seq<Value>>, k: string, d: seq<Value>, key: string)
    ensures Lookup(AddFailure(a, k, d), key) == if key == k then Some(Lookup(a, k).GetOr([]) + d) else Lookup(a, key)
  {
    if Lookup(a, k).None? {
      assert [] + d == d;
    }
  }

  /** A facet's entry holds every detail logged for it, and only logged facets have one. */
  lemma {:induction false} AggregateLookup(failures: seq<(string, seq<Value>)>, key: string)
    ensures Lookup(Aggregate(failures), key) == if key in Keys(failures) then Some(DetailsFor(failures, key)) else None
    decreases |failures|
  {
    if failures != [] {
      var n := |failures| - 1;
      var a := Aggregate(failures[..n]);
      var k := failures[n].0;
      assert Aggregate(failures) == AddFailure(a, k, failures[n].1);
      assert DetailsFor(failures, key) == DetailsFor(failures[..n], key) + (if k == key then failures[n].1 else []);
      AggregateLookup(failures[..n], key);
      AddFailureLookup(a, k, failures[n].1, key);
      assert failures[..n + 1] == failures;
      KeysSnoc(failures, n);
      assert Keys(failures) == Keys(failures[..n]) + [k];
      assert key in Keys(failures) <==> key in Keys(failures[..n]) || key == k;
      var before := DetailsFor(failures[..n], key);
      if key !in Keys(failures[..n]) {
        DetailsForAbsent(failures[..n], key);
        assert [] + failures[n].1 == failures[n].1;
      }
      if key != k {
        assert before + [] == before;
      }
    }
  }

  /** The entries appear in first-failure order. */
  lemma {:induction false} AggregateOrder(failures: seq<(string, seq<Value>)>)
    ensures Keys(Aggregate(failures)) == FirstOccurrences(Keys(failures))
    decreases |failures|
  {
    if failures != [] {
      var n := |failures| - 1;
      var a := Aggregate(failures[..n]);
      var k := failures[n].0;
      AggregateOrder(failures[..n]);
      assert failures[..n + 1] == failures;
      KeysSnoc(failures, n);
      var ks := Keys(failures);
      assert ks[..n] == Keys(failures[..n]);
      LookupKeys(a, k);
      match Lookup(a, k)
      case Some(d) => PutKeys(a, k, d + failures[n].1);
      case None => PutKeys(a, k, failures[n].1);
    }
  }

  /** `Array.from(errors.values())`: one `{ details, type }` object per failed facet. */
  function ErrorContent(errors: Dict<seq<Value>>): (r: Value)
    ensures r.Arr? && |r.items| == |errors|
  {
    Arr(seq(|errors|, j requires 0 <= j < |errors| =>
      Obj([("details", Arr(errors[j].1)), ("type", Str(errors[j].0))])))
  }

  /** `new Error(list, { status: 422 })`, and the legacy positional `new Error(list, 422)`. */
  function ErrorOf(gen: Generation, errors: Dict<seq<Value>>): Value {
    match gen
    case Current => Error(ErrorContent(errors), StatusOnly(422))
    case Legacy => LegacyError(ErrorContent(errors), Num(422), Undefined)
  }

  /** Both generations build the same transformed 422 Error. */
  lemma ErrorGenerationsAgree(errors: Dict<seq<Value>>)
    ensures ErrorOf(Current, errors) == ErrorOf(Legacy, errors)
    ensures ErrorOf(Current, errors) == Payload(ErrorContent(errors), Num(422), false, Bool(true))
  {
    OptionDefaults(ErrorContent(errors), 422);
  }

  /**
    * The validator loop on the context's request (`for (i < link.keys.length)`):
    * it returns the `errors` map, or reports that reading `pop` of a nullish
    * failure threw.
    */
  method CheckLink(ctx: Context, validate: (Value, Value, string) -> (bool, Value), schemas: Dict<Value>,
                   keys: seq<string>) returns (errors: Dict<seq<Value>>, threw: bool)
    modifies ctx`request
    ensures ctx.request == CheckUpTo(validate, schemas, keys, |keys|, old(ctx.request)).request
    ensures threw == CheckUpTo(validate, schemas, keys, |keys|, old(ctx.request)).threw
    ensures errors == Aggregate(CheckUpTo(validate, schemas, keys, |keys|, old(ctx.request)).failures)
  {
    errors := [];
    ghost var failures: seq<(string, seq<Value>)> := [];
    var j := 0;
    while j < |keys|
      invariant j <= |keys|
      invariant Checked(ctx.request, failures, false) == CheckUpTo(validate, schemas, keys, j, old(ctx.request))
      invariant errors == Aggregate(failures)
    {
      var key := keys[j];
      ghost var next := CheckKey(validate, schemas, key, Checked(ctx.request, failures, false));
      assert next == CheckUpTo(validate, schemas, keys, j + 1, old(ctx.request));
      var verdict := validate(Lookup(schemas, key).GetOr(Undefined), Lookup(ctx.request, key).GetOr(Undefined), key);
      if verdict.0 {
        ctx.request := Put(ctx.request, key, verdict.1);
      } else if Nullish(verdict.1) {
        CheckStaysThrown(validate, schemas, keys, j + 1, |keys|, old(ctx.request));
        return errors, true;
      } else {
        var content := Details(verdict.1);
        assert (failures + [(key, content)])[..|failures|] == failures;
        failures := failures + [(key, content)];
        match Lookup(errors, key)
        case Some(d) => errors := Put(errors, key, d + content);
        case None => errors := Put(errors, key, content);
      }
      j := j + 1;
    }
    threw := false;
  }

  // ---------------------------------------------------------------------------
  // Server-sent events
  // ---------------------------------------------------------------------------

  /** `id:`, `event:` and `retry:` lines for the truthy ones, then the `data:` line. */
  function Framed(env: Env, c: Chunk): (r: seq<Value>)
    ensures |r| >= 1 && r[|r| - 1] == Str("data: " + env.json(c.data) + "\n\n")
  {
    (if Truthy(c.id) then [Str("id: " + env.show(c.id) + "\n")] else [])
    + (if Truthy(c.event) then [Str("event: " + env.show(c.event) + "\n")] else [])
    + (if Truthy(c.retry) then [Str("retry: " + env.show(c.retry) + "\n")] else [])
    + [Str("data: " + env.json(c.data) + "\n\n")]
  }

  /** What one chunk puts on the stream: the current version frames transformed data only. */
  function Pieces(env: Env, gen: Generation, c: Chunk): seq<Value> {
    if gen.Current? && !Truthy(Field(c.data, "transform")) then [Field(c.data, "content")] else Framed(env, c)
  }

  function Emitted(env: Env, gen: Generation, chunks: seq<Chunk>): seq<Value>
    decreases |chunks|
  {
    if chunks == [] then []
    else Emitted(env, gen, chunks[..|chunks| - 1]) + Pieces(env, gen, chunks[|chunks| - 1])
  }

  /** Whether the client disconnects before the generator is exhausted. */
  predicate AbortsEarly(env: Env, chunks: seq<Chunk>) {
    env.abortAt.Some? && env.abortAt.value < |chunks|
  }

  /**
    * Whether handling a chunk throws: the current version reads
    * `chunk.data.transform`, which throws on nullish data; the legacy one
    * only stringifies the data.
    */
  predicate ThrowsOn(gen: Generation, c: Chunk) {
    gen.Current? && Nullish(c.data)
  }

  /** How many chunks come before the first one whose handling throws. */
  function Readable(gen: Generation, chunks: seq<Chunk>): (n: nat)
    ensures n <= |chunks|
    decreases |chunks|
  {
    if chunks == [] || ThrowsOn(gen, chunks[0]) then 0 else 1 + Readable(gen, chunks[1..])
  }

  /** The readable chunks are exactly those before the first one that throws. */
  lemma {:induction false} ReadableFirstThrow(gen: Generation, chunks: seq<Chunk>)
    ensures forall k :: 0 <= k < Readable(gen, chunks) ==> !ThrowsOn(gen, chunks[k])
    ensures Readable(gen, chunks) < |chunks| ==> ThrowsOn(gen, chunks[Readable(gen, chunks)])
    decreases |chunks|
  {
    if chunks != [] && !ThrowsOn(gen, chunks[0]) {
      ReadableFirstThrow(gen, chunks[1..]);
      assert forall k :: 1 <= k < |chunks| ==> chunks[k] == chunks[1..][k - 1];
    }
  }

  /**
    * How many chunks are put on the stream: the loop breaks once the abort
    * flag is set, and a chunk whose handling throws ends it (the current
    * version's `catch` swallows the exception and `finally` closes the stream).
    */
  function Handled(env: Env, gen: Generation, chunks: seq<Chunk>): (n: nat)
    ensures n <= Readable(gen, chunks) <= |chunks|
    ensures n < Readable(gen, chunks) ==> env.abortAt.Some? && env.abortAt.value == n
    ensures env.abortAt.Some? ==> n <= env.abortAt.value
  {
    if env.abortAt.Some? && env.abortAt.value < Readable(gen, chunks) then env.abortAt.value else Readable(gen, chunks)
  }

  /**
    * A chunk with nullish data ends the current stream: neither it nor any
    * later chunk is emitted. The legacy stream is cut only by a disconnect.
    */
  lemma NullishDataEndsStream(env: Env, chunks: seq<Chunk>, k: nat)
    requires k < |chunks| && Nullish(chunks[k].data)
    ensures Handled(env, Current, chunks) <= k
    ensures Handled(env, Legacy, chunks) == if AbortsEarly(env, chunks) then env.abortAt.value else |chunks|
  {
    ReadableFirstThrow(Current, chunks);
    LegacyReadsAll(chunks);
  }

  lemma {:induction false} LegacyReadsAll(chunks: seq<Chunk>)
    ensures Readable(Legacy, chunks) == |chunks|
    decreases |chunks|
  {
    if chunks != [] {
      LegacyReadsAll(chunks[1..]);
    }
  }

  /**
    * The stream a generator route produces. The current version swallows
    * exceptions and closes in `finally`; the legacy one closes only when the
    * client disconnects and errors when the generator throws.
    */
  function StreamOf(env: Env, gen: Generation, chunks: seq<Chunk>, throws: bool): (r: Value)
    ensures r.Stream? && r.chunks == Emitted(env, gen, chunks[..Handled(env, gen, chunks)])
    ensures gen.Current? ==> r.closed && !r.errored
    ensures gen.Legacy? ==> (r.errored <==> throws && !AbortsEarly(env, chunks))
    ensures gen.Legacy? ==> (r.closed <==> env.abortAt.Some? && !r.errored)
  {
    var pieces := Emitted(env, gen, chunks[..Handled(env, gen, chunks)]);
    match gen
    case Current => Stream(pieces, true, false, [])
    case Legacy =>
      var errored := throws && !AbortsEarly(env, chunks);
      Stream(pieces, env.abortAt.Some? && !errored, errored, [])
  }

  /**
    * The stream's `start` loop: each chunk is enqueued until the abort flag is
    * seen or handling a chunk throws.
    */
  method Enqueue(env: Env, gen: Generation, chunks: seq<Chunk>) returns (pieces: seq<Value>)
    ensures pieces == Emitted(env, gen, chunks[..Handled(env, gen, chunks)])
  {
    ReadableFirstThrow(gen, chunks);
    pieces := [];
    var k := 0;
    while k < |chunks|
      invariant k <= Handled(env, gen, chunks)
      invariant pieces == Emitted(env, gen, chunks[..k])
    {
      if env.abortAt.Some? && env.abortAt.value <= k {
        break;
      }
      if gen.Current? && Nullish(chunks[k].data) {
        break;
      }
      assert chunks[..k + 1][..k] == chunks[..k];
      pieces := pieces + Pieces(env, gen, chunks[k]);
      k := k + 1;
    }
    assert chunks[..k] == chunks[..Handled(env, gen, chunks)];
  }

  lemma EmittedSnoc(env: Env, gen: Generation, c: seq<Chunk>, x: Chunk)
    ensures Emitted(env, gen, c + [x]) == Emitted(env, gen, c) + Pieces(env, gen, x)
  {
    assert (c + [x])[..|c|] == c;
  }

  lemma {:induction false} EmittedAppend(env: Env, gen: Generation, a: seq<Chunk>, b: seq<Chunk>)
    ensures Emitted(env, gen, a + b) == Emitted(env, gen, a) + Emitted(env, gen, b)
    decreases |b|
  {
    if b == [] {
      assert a + b == a;
    } else {
      var n := |b| - 1;
      assert b == b[..n] + [b[n]];
      Regroup(a, b[..n], [b[n]]);
      EmittedSnoc(env, gen, a + b[..n], b[n]);
      EmittedSnoc(env, gen, b[..n], b[n]);
      EmittedAppend(env, gen, a, b[..n]);
      Regroup(Emitted(env, gen, a), Emitted(env, gen, b[..n]), Pieces(env, gen, b[n]));
    }
  }

  /**
    * A disconnect cuts the stream: what is emitted is exactly the pieces of
    * the chunks before it, a prefix of what the full run would emit.
    */
  lemma AbortCuts(env: Env, gen: Generation, chunks: seq<Chunk>)
    ensures var n := Handled(env, gen, chunks);
            Emitted(env, gen, chunks) == Emitted(env, gen, chunks[..n]) + Emitted(env, gen, chunks[n..])
  {
    var n := Handled(env, gen, chunks);
    assert chunks == chunks[..n] + chunks[n..];
    EmittedAppend(env, gen, chunks[..n], chunks[n..]);
  }

  /**
    * The generations agree on transformed chunks; an untransformed chunk is
    * its raw content in the current version and still framed in the legacy one.
    */
  lemma {:induction false} FramingGenerations(env: Env, chunks: seq<Chunk>)
    ensures (forall k :: 0 <= k < |chunks| ==> Truthy(Field(chunks[k].data, "transform"))) ==>
            Emitted(env, Current, chunks) == Emitted(env, Legacy, chunks)
    ensures forall c: Chunk :: !Truthy(Field(c.data, "transform")) ==>
            Pieces(env, Current, c) == [Field(c.data, "content")] && Pieces(env, Legacy, c) == Framed(env, c)
    decreases |chunks|
  {
    if chunks != [] {
      FramingGenerations(env, chunks[..|chunks| - 1]);
    }
  }

  // ---------------------------------------------------------------------------
  // The run
  // ---------------------------------------------------------------------------

  /** What a store's result does to the state: an Error becomes the content, anything else is merged. */
  function StoreStep(s: State, ret: Value): Option<State> {
    if IsError(ret) then Some(s.(content := ret))
    else match OwnEntries(ret)
      case None => None
      case Some(e) => Some(s.(store := PutAll(s.store, Copies(e, |e|))))
  }

  /** After a link other than middleware: the loop continues (recording whether the link ran), or it threw. */
  datatype Next = Continue(state: State, ran: bool) | Throw(state: State)

  /**
    * A store's result is stored or merged (`Object.keys` throws on `null` and
    * `undefined`); a validator with a `request` checks each of its `keys`
    * (reading `keys` of a validator without them throws, and so does reading
    * `pop` of a nullish failure); anything else is passed over.
    */
  function LinkStep(env: Env, gen: Generation, l: Link, s: State): Next {
    match l
    case Store(fn) =>
      var o := env.store(fn, s);
      (match StoreStep(o.0, o.1)
       case None => Throw(o.0)
       case Some(s1) => Continue(s1, true))
    case ValidatorLink(v) =>
      if v.request.None? then Continue(s, false)
      else if v.keys.None? then Throw(s)
      else
        var c := CheckUpTo(env.validate, v.request.value, v.keys.value, |v.keys.value|, s.request);
        if c.threw then Throw(s.(request := c.request))
        else
          var errors := Aggregate(c.failures);
          Continue(s.(request := c.request, content := if |errors| > 0 then ErrorOf(gen, errors) else s.content), true)
    case _ => Continue(s, false)
  }

  /** The end of `step` once its loop completes: the route runs unless content is set. */
  function Conclude(env: Env, gen: Generation, ep: Endpoint, s: State): Ran {
    if Truthy(s.content) then Ran(s, [], false)
    else if ep.generator then
      var g := env.generate(ep.route.handler, s);
      Ran(s.(content := StreamOf(env, gen, g.0, g.1)), [|ep.chain|], false)
    else
      var o := env.handle(ep.route.handler, s);
      if ep.route.verb == "WS" then Ran(o.0.(upgrades := o.0.upgrades + [o.1]), [|ep.chain|], false)
      else Ran(o.0.(content := o.1), [|ep.chain|], false)
  }

  /** `step(chain, i)`. */
  function Run(env: Env, gen: Generation, ep: Endpoint, i: nat, s: State): Ran
    requires i <= |ep.chain|
    decreases |ep.chain| - i
  {
    if i == |ep.chain| then Conclude(env, gen, ep, s)
    else if Truthy(s.content) then Ran(s, [], false)
    else if ep.chain[i].Middleware? then
      var fn := ep.chain[i].fn;
      var e := env.enter(fn, s);
      var inner := if e.1 then Run(env, gen, ep, i + 1, e.0) else Ran(e.0, [], false);
      if inner.threw then Ran(inner.state, [i] + inner.trace, true)
      else
        var o := env.leave(fn, inner.state);
        Ran(if Truthy(o.1) then o.0.(content := o.1) else o.0, [i] + inner.trace, false)
    else
      match LinkStep(env, gen, ep.chain[i], s)
      case Throw(s1) => Ran(s1, [i], true)
      case Continue(s1, ran) => Prefixed(if ran then [i] else [], Run(env, gen, ep, i + 1, s1))
  }

  lemma RunLinkUnfold(env: Env, gen: Generation, ep: Endpoint, i: nat, s: State)
    requires i < |ep.chain| && !ep.chain[i].Middleware? && !Truthy(s.content)
    ensures var n := LinkStep(env, gen, ep.chain[i], s);
            Run(env, gen, ep, i, s) ==
            if n.Throw? then Ran(n.state, [i], true)
            else Prefixed(if n.ran then [i] else [], Run(env, gen, ep, i + 1, n.state))
  {
  }

  // ---------------------------------------------------------------------------
  // What a run guarantees
  // ---------------------------------------------------------------------------

  predicate Increasing(t: seq<nat>) {
    forall a, b :: 0 <= a < b < |t| ==> t[a] < t[b]
  }

  /** Once the content is set, `step` returns at once: no link runs and the route is not called. */
  lemma ContentShortCircuits(env: Env, gen: Generation, ep: Endpoint, i: nat, s: State)
    requires i <= |ep.chain| && Truthy(s.content)
    ensures Run(env, gen, ep, i, s) == Ran(s, [], false)
  {
  }

  lemma ConsIncreasing(i: nat, t: seq<nat>)
    requires Increasing(t) && forall k :: 0 <= k < |t| ==> i < t[k]
    ensures Increasing([i] + t)
  {
    var u := [i] + t;
    forall a, b | 0 <= a < b < |u| ensures u[a] < u[b] {
      if a > 0 {
        assert u[a] == t[a - 1] && u[b] == t[b - 1];
      } else {
        assert u[b] == t[b - 1];
      }
    }
  }

  /**
    * Links run in chain order, each at most once, and the route, standing at
    * position `|chain|`, at most once and last.
    */
  lemma {:induction false} TraceOrdered(env: Env, gen: Generation, ep: Endpoint, i: nat, s: State)
    requires i <= |ep.chain|
    ensures var t := Run(env, gen, ep, i, s).trace;
            Increasing(t) && forall k :: 0 <= k < |t| ==> i <= t[k] <= |ep.chain|
    decreases |ep.chain| - i
  {
    if i < |ep.chain| && !Truthy(s.content) {
      if ep.chain[i].Middleware? {
        var e := env.enter(ep.chain[i].fn, s);
        if e.1 {
          TraceOrdered(env, gen, ep, i + 1, e.0);
          ConsIncreasing(i, Run(env, gen, ep, i + 1, e.0).trace);
        }
      } else {
        var n := LinkStep(env, gen, ep.chain[i], s);
        if n.Continue? {
          TraceOrdered(env, gen, ep, i + 1, n.state);
          ConsIncreasing(i, Run(env, gen, ep, i + 1, n.state).trace);
        }
      }
    }
  }

  /**
    * The route runs only when nothing threw and every middleware and store
    * from the starting link on has run: each middleware called `next`.
    */
  lemma {:induction false} RouteNeedsWholeChain(env: Env, gen: Generation, ep: Endpoint, i: nat, s: State)
    requires i <= |ep.chain|
    ensures var r := Run(env, gen, ep, i, s);
            |ep.chain| in r.trace ==> !r.threw && RanFrom(ep, i, r.trace)
    decreases |ep.chain| - i
  {
    if i < |ep.chain| && !Truthy(s.content) {
      var r := Run(env, gen, ep, i, s);
      if ep.chain[i].Middleware? {
        var e := env.enter(ep.chain[i].fn, s);
        if e.1 {
          RouteNeedsWholeChain(env, gen, ep, i + 1, e.0);
          var inner := Run(env, gen, ep, i + 1, e.0);
          assert r.trace == [i] + inner.trace;
          if |ep.chain| in r.trace {
            assert |ep.chain| in inner.trace;
            RanFromStep(ep, i, [i], inner.trace);
          }
        }
      } else {
        RunLinkUnfold(env, gen, ep, i, s);
        var n := LinkStep(env, gen, ep.chain[i], s);
        if n.Continue? {
          RouteNeedsWholeChain(env, gen, ep, i + 1, n.state);
          var inner := Run(env, gen, ep, i + 1, n.state);
          var head := if n.ran then [i] else [];
          assert r.trace == head + inner.trace;
          if |ep.chain| in r.trace {
            assert |ep.chain| in inner.trace;
            RanFromStep(ep, i, head, inner.trace);
          }
        }
      }
    }
  }

  /** Every middleware and store link from `i` on ran. */
  ghost predicate RanFrom(ep: Endpoint, i: nat, trace: seq<nat>) {
    forall j :: i <= j < |ep.chain| && (ep.chain[j].Middleware? || ep.chain[j].Store?) ==> j in trace
  }

  lemma RanFromStep(ep: Endpoint, i: nat, head: seq<nat>, trace: seq<nat>)
    requires i < |ep.chain| && RanFrom(ep, i + 1, trace)
    requires ep.chain[i].Middleware? || ep.chain[i].Store? ==> i in head
    ensures RanFrom(ep, i, head + trace)
  {
  }

  /**
    * A middleware always ends the loop: without a call of `next` nothing after
    * it runs; with one, the chain resumes at the next link; a truthy return
    * becomes the content.
    */
  lemma MiddlewareResumesNext(env: Env, gen: Generation, ep: Endpoint, i: nat, s: State)
    requires i < |ep.chain| && ep.chain[i].Middleware? && !Truthy(s.content)
    ensures var e := env.enter(ep.chain[i].fn, s);
            var r := Run(env, gen, ep, i, s);
            (!e.1 ==> r.trace == [i] && !r.threw) &&
            (e.1 ==> r.trace == [i] + Run(env, gen, ep, i + 1, e.0).trace) &&
            (!r.threw ==> var after := if e.1 then Run(env, gen, ep, i + 1, e.0).state else e.0;
                          var o := env.leave(ep.chain[i].fn, after);
                          r.state.content == if Truthy(o.1) then o.1 else o.0.content)
  {
  }

  /** A store's Error becomes the content and ends the chain there. */
  lemma StoreErrorStops(env: Env, gen: Generation, ep: Endpoint, i: nat, s: State)
    requires i < |ep.chain| && ep.chain[i].Store? && !Truthy(s.content)
    requires IsError(env.store(ep.chain[i].fn, s).1)
    ensures var o := env.store(ep.chain[i].fn, s);
            Run(env, gen, ep, i, s) == Ran(o.0.(content := o.1), [i], false)
  {
    var o := env.store(ep.chain[i].fn, s);
    RunLinkUnfold(env, gen, ep, i, s);
    assert Truthy(o.1);
  }

  /**
    * Any other store result is merged into the context's store, overwriting
    * existing keys and skipping the empty key, and the chain goes on; a
    * nullish result throws.
    */
  lemma StoreMerges(env: Env, gen: Generation, ep: Endpoint, i: nat, s: State, k: string)
    requires i < |ep.chain| && ep.chain[i].Store? && !Truthy(s.content)
    requires !IsError(env.store(ep.chain[i].fn, s).1)
    ensures var o := env.store(ep.chain[i].fn, s);
            var r := Run(env, gen, ep, i, s);
            (Nullish(o.1) ==> r == Ran(o.0, [i], true)) &&
            (!Nullish(o.1) ==>
              var e := OwnEntries(o.1).value;
              var merged := PutAll(o.0.store, Copies(e, |e|));
              r == Prefixed([i], Run(env, gen, ep, i + 1, o.0.(store := merged))) &&
              Lookup(merged, k) == if k != "" && Lookup(e, k).Some? then Lookup(e, k) else Lookup(o.0.store, k))
  {
    var o := env.store(ep.chain[i].fn, s);
    RunLinkUnfold(env, gen, ep, i, s);
    if !Nullish(o.1) {
      var e := OwnEntries(o.1).value;
      MergeReads(o.0.store, e, k);
    }
  }

  /**
    * A validator whose facets fail leaves one 422 Error as the content, whose
    * entries list the failed facets in first-failure order with all their
    * details; the chain ends there. A nullish failure throws instead.
    */
  lemma ValidatorFails(env: Env, gen: Generation, ep: Endpoint, i: nat, s: State, key: string)
    requires i < |ep.chain| && ep.chain[i].ValidatorLink? && !Truthy(s.content)
    requires ep.chain[i].validator.request.Some? && ep.chain[i].validator.keys.Some?
    requires var v := ep.chain[i].validator;
             CheckUpTo(env.validate, v.request.value, v.keys.value, |v.keys.value|, s.request).failures != []
    ensures var v := ep.chain[i].validator;
            var c := CheckUpTo(env.validate, v.request.value, v.keys.value, |v.keys.value|, s.request);
            c.threw ==> Run(env, gen, ep, i, s) == Ran(s.(request := c.request), [i], true)
    ensures var v := ep.chain[i].validator;
            var c := CheckUpTo(env.validate, v.request.value, v.keys.value, |v.keys.value|, s.request);
            var errors := Aggregate(c.failures);
            !c.threw ==>
            Run(env, gen, ep, i, s) == Ran(s.(request := c.request, content := ErrorOf(gen, errors)), [i], false) &&
            ErrorOf(gen, errors) == Payload(ErrorContent(errors), Num(422), false, Bool(true)) &&
            Keys(errors) == FirstOccurrences(Keys(c.failures)) &&
            Lookup(errors, key) == if key in Keys(c.failures) then Some(DetailsFor(c.failures, key)) else None
  {
    var v := ep.chain[i].validator;
    var c := CheckUpTo(env.validate, v.request.value, v.keys.value, |v.keys.value|, s.request);
    var errors := Aggregate(c.failures);
    AggregateOrder(c.failures);
    AggregateLookup(c.failures, key);
    assert |errors| > 0 by {
      assert |Keys(c.failures)| > 0;
      FirstOccurrencesMembers(Keys(c.failures), Keys(c.failures)[0]);
    }
    ErrorGenerationsAgree(errors);
    RunLinkUnfold(env, gen, ep, i, s);
  }

  /**
    * A validator link throws exactly when one of its facets fails with
    * `null` or `undefined` content, whose `pop` cannot be read; the facets
    * checked before it keep their validated values.
    */
  lemma ValidatorThrowsIff(env: Env, gen: Generation, ep: Endpoint, i: nat, s: State)
    requires i < |ep.chain| && ep.chain[i].ValidatorLink? && !Truthy(s.content)
    requires ep.chain[i].validator.request.Some? && ep.chain[i].validator.keys.Some?
    ensures var v := ep.chain[i].validator;
            LinkStep(env, gen, ep.chain[i], s).Throw? <==>
            exists k :: 0 <= k < |v.keys.value| &&
                        FailsNullish(VerdictAt(env.validate, v.request.value, v.keys.value, k, s.request))
    ensures var v := ep.chain[i].validator;
            var c := CheckUpTo(env.validate, v.request.value, v.keys.value, |v.keys.value|, s.request);
            c.threw ==> Run(env, gen, ep, i, s) == Ran(s.(request := c.request), [i], true)
  {
    var v := ep.chain[i].validator;
    CheckThrowsIff(env.validate, v.request.value, v.keys.value, |v.keys.value|, s.request);
    RunLinkUnfold(env, gen, ep, i, s);
  }

  /** A WebSocket route hands its return value to the upgrade and leaves the content unset. */
  lemma WebSocketLeavesContent(env: Env, gen: Generation, ep: Endpoint, s: State)
    requires !Truthy(s.content) && !ep.generator && ep.route.verb == "WS"
    ensures var o := env.handle(ep.route.handler, s);
            var r := Run(env, gen, ep, |ep.chain|, s);
            r.state.content == o.0.content && r.state.upgrades == o.0.upgrades + [o.1]
  {
  }

  /**
    * Reading `keys` of a legacy validator, which has none, throws as soon as
    * a request is to be validated.
    */
  lemma LegacyValidatorThrows(env: Env, gen: Generation, ep: Endpoint, i: nat, s: State, request: Dict<Value>)
    requires i < |ep.chain| && ep.chain[i] == ValidatorLink(NewLegacyValidator(request)) && !Truthy(s.content)
    ensures Run(env, gen, ep, i, s) == Ran(s, [i], true)
  {
    RunLinkUnfold(env, gen, ep, i, s);
  }

  /**
    * A validator built with its `keys` checks every facet of its request in
    * insertion order and the chain goes on, unless a facet fails with nullish
    * content, which throws.
    */
  lemma KeyedValidatorChecks(env: Env, gen: Generation, ep: Endpoint, i: nat, s: State, request: Dict<Value>)
    requires i < |ep.chain| && ep.chain[i] == ValidatorLink(NewValidator(request)) && !Truthy(s.content)
    ensures var c := CheckUpTo(env.validate, request, Keys(request), |request|, s.request);
            var errors := Aggregate(c.failures);
            Run(env, gen, ep, i, s) ==
            if c.threw then Ran(s.(request := c.request), [i], true)
            else Prefixed([i], Run(env, gen, ep, i + 1,
                                   s.(request := c.request, content := if |errors| > 0 then ErrorOf(gen, errors) else s.content)))
  {
    RunLinkUnfold(env, gen, ep, i, s);
  }

  // ---------------------------------------------------------------------------
  // The run on a context
  // ---------------------------------------------------------------------------

  function Snapshot(ctx: Context): State
    reads ctx, ctx.response
  {
    State(ctx.request, ctx.store, ctx.response.content, ctx.response.headers, ctx.response.cookies, ctx.upgrades)
  }

  /** Developer code's changes written back to the context. */
  method Restore(ctx: Context, s: State)
    modifies ctx, ctx.response
    ensures Snapshot(ctx) == s
  {
    ctx.request := s.request;
    ctx.store := s.store;
    ctx.upgrades := s.upgrades;
    ctx.response.content := s.content;
    ctx.response.headers := s.headers;
    ctx.response.cookies := s.cookies;
  }

  /** The route at the end of `step`: a stream, a WebSocket upgrade, or the returned value. */
  method RunRoute(ctx: Context, env: Env, gen: Generation) returns (ghost trace: seq<nat>)
    modifies ctx, ctx.response
    ensures Ran(Snapshot(ctx), trace, false) == Run(env, gen, ctx.endpoint, |ctx.endpoint.chain|, old(Snapshot(ctx)))
  {
    trace := Conclude(env, gen, ctx.endpoint, Snapshot(ctx)).trace;
    if Truthy(ctx.response.content) {
      return;
    }
    if ctx.endpoint.generator {
      var g := env.generate(ctx.endpoint.route.handler, Snapshot(ctx));
      var pieces := Enqueue(env, gen, g.0);
      var errored := gen.Legacy? && g.1 && !AbortsEarly(env, g.0);
      var closed := gen.Current? || (env.abortAt.Some? && !errored);
      ctx.response.content := Stream(pieces, closed, errored, []);
      return;
    }
    var o := env.handle(ctx.endpoint.route.handler, Snapshot(ctx));
    Restore(ctx, o.0);
    if ctx.endpoint.route.verb == "WS" {
      ctx.upgrades := ctx.upgrades + [o.1];
      return;
    }
    ctx.response.content := o.1;
  }

  /** A link other than middleware, on the context. */
  method RunLink(ctx: Context, env: Env, gen: Generation, l: Link) returns (threw: bool)
    requires !l.Middleware?
    modifies ctx, ctx.response
    ensures threw <==> LinkStep(env, gen, l, old(Snapshot(ctx))).Throw?
    ensures Snapshot(ctx) == LinkStep(env, gen, l, old(Snapshot(ctx))).state
  {
    if l.Store? {
      var o := env.store(l.fn, Snapshot(ctx));
      Restore(ctx, o.0);
      if IsError(o.1) {
        ctx.response.content := o.1;
        return false;
      }
      var entries := OwnEntries(o.1);
      if entries.None? {
        return true;
      }
      var merged := Merge(ctx.store, entries.value);
      ctx.store := merged;
      return false;
    }
    if l.ValidatorLink? && l.validator.request.Some? {
      if l.validator.keys.None? {
        return true;
      }
      var errors, threw := CheckLink(ctx, env.validate, l.validator.request.value, l.validator.keys.value);
      if threw {
        return true;
      }
      if |errors| > 0 {
        ctx.response.content := ErrorOf(gen, errors);
      }
    }
    return false;
  }

  /**
    * A middleware link: the middleware runs with `next` continuing the chain
    * at the following link; a truthy return becomes the content.
    */
  method RunMiddleware(ctx: Context, env: Env, gen: Generation, i: nat) returns (ghost trace: seq<nat>, threw: bool)
    requires i < |ctx.endpoint.chain| && ctx.endpoint.chain[i].Middleware? && !Truthy(ctx.response.content)
    modifies ctx, ctx.response
    decreases |ctx.endpoint.chain| - i, 0
    ensures Ran(Snapshot(ctx), trace, threw) == Run(env, gen, ctx.endpoint, i, old(Snapshot(ctx)))
  {
    var fn := ctx.endpoint.chain[i].fn;
    var e := env.enter(fn, Snapshot(ctx));
    Restore(ctx, e.0);
    ghost var inner: seq<nat> := [];
    var innerThrew := false;
    if e.1 {
      inner, innerThrew := Step(ctx, env, gen, i + 1);
    }
    if innerThrew {
      return [i] + inner, true;
    }
    var o := env.leave(fn, Snapshot(ctx));
    Restore(ctx, o.0);
    if Truthy(o.1) {
      ctx.response.content := o.1;
    }
    return [i] + inner, false;
  }

  /**
    * One turn of `step`'s loop at link `i`: either the call of `step` ends
    * here (`ended`), or the loop goes on at the next link.
    */
  method StepLink(ctx: Context, env: Env, gen: Generation, i: nat) returns (ghost trace: seq<nat>, threw: bool, ended: bool)
    requires i < |ctx.endpoint.chain|
    modifies ctx, ctx.response
    decreases |ctx.endpoint.chain| - i, 1
    ensures ended ==> Ran(Snapshot(ctx), trace, threw) == Run(env, gen, ctx.endpoint, i, old(Snapshot(ctx)))
    ensures !ended ==> Run(env, gen, ctx.endpoint, i, old(Snapshot(ctx))) ==
                       Prefixed(trace, Run(env, gen, ctx.endpoint, i + 1, Snapshot(ctx)))
  {
    if Truthy(ctx.response.content) {
      return [], false, true;
    }
    var link := ctx.endpoint.chain[i];
    if link.Middleware? {
      trace, threw := RunMiddleware(ctx, env, gen, i);
      return trace, threw, true;
    }
    ghost var before := Snapshot(ctx);
    RunLinkUnfold(env, gen, ctx.endpoint, i, before);
    threw := RunLink(ctx, env, gen, link);
    ended := threw;
    trace := if threw || LinkStep(env, gen, link, before).ran then [i] else [];
  }

  /**
    * `step(chain, index)` on the context: the loop over the links from
    * `index`, middleware continuing through a nested call for `next`.
    */
  method Step(ctx: Context, env: Env, gen: Generation, index: nat) returns (ghost trace: seq<nat>, threw: bool)
    requires index <= |ctx.endpoint.chain|
    modifies ctx, ctx.response
    decreases |ctx.endpoint.chain| - index, 2
    ensures Ran(Snapshot(ctx), trace, threw) == Run(env, gen, ctx.endpoint, index, old(Snapshot(ctx)))
  {
    ghost var goal := Run(env, gen, ctx.endpoint, index, Snapshot(ctx));
    var i := index;
    ghost var prefix: seq<nat> := [];
    while i < |ctx.endpoint.chain|
      invariant index <= i <= |ctx.endpoint.chain|
      invariant Prefixed(prefix, Run(env, gen, ctx.endpoint, i, Snapshot(ctx))) == goal
      decreases |ctx.endpoint.chain| - i
    {
      ghost var t;
      var ended;
      t, threw, ended := StepLink(ctx, env, gen, i);
      if ended {
        assert Prefixed(prefix, Ran(Snapshot(ctx), t, threw)) == Ran(Snapshot(ctx), prefix + t, threw);
        trace := prefix + t;
        return;
      }
      PrefixedTwice(prefix, t, Run(env, gen, ctx.endpoint, i + 1, Snapshot(ctx)));
      prefix := prefix + t;
      i := i + 1;
    }
    assert i == |ctx.endpoint.chain|;
    ghost var t := RunRoute(ctx, env, gen);
    assert Prefixed(prefix, Ran(Snapshot(ctx), t, false)) == Ran(Snapshot(ctx), prefix + t, false);
    trace, threw := prefix + t, false;
  }
}
