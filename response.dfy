/**
  * Turning the content a chain left into the HTTP response: unwrapping
  * functions and promises, then choosing between a server-sent-event
  * stream, a native Response passed through, a JSON body and the raw
  * content. Three versions: the current `processResponse`, the legacy
  * `processResponse`, and the legacy `App.prototype.response`.
  */
module Responses {
  import opened Base
  import opened RequestContext

  /** The response handed to the server. */
  datatype Reply =
    | StreamReply(stream: Value, headers: Headers)
    | Passthrough(response: Value)
    | JsonReply(body: Value, headers: Headers, status: Value)
    | RawReply(body: Value, headers: Headers, status: Value)

  const MaxIterations: nat := 10

  predicate Wrapper(v: Value) {
    v.Thunk? || v.Promise?
  }

  /** Calling a function, or awaiting a promise, once. */
  function Unwrap1(v: Value): Value
    requires Wrapper(v)
  {
    if v.Thunk? then v.result else v.resolved
  }

  /** The unwrap loop from the given iteration count: `if (iterations++ > MAX_ITERATIONS) break`. */
  function UnwrapFrom(v: Value, iterations: nat): Value
    requires iterations <= MaxIterations + 1
    decreases MaxIterations + 1 - iterations
  {
    if !Wrapper(v) || iterations > MaxIterations then v else UnwrapFrom(Unwrap1(v), iterations + 1)
  }

  function Unwrapped(v: Value): Value {
    UnwrapFrom(v, 0)
  }

  /** `x` inside `k` functions returning functions. */
  function Wrapped(x: Value, k: nat): Value {
    if k == 0 then x else Thunk(Wrapped(x, k - 1))
  }

  lemma {:induction false} UnwrapFromWrapped(x: Value, k: nat, iterations: nat)
    requires !Wrapper(x) && iterations <= MaxIterations + 1
    ensures UnwrapFrom(Wrapped(x, k), iterations) ==
            if k + iterations <= MaxIterations + 1 then x else Wrapped(x, k + iterations - MaxIterations - 1)
    decreases k
  {
    if k > 0 && iterations <= MaxIterations {
      UnwrapFromWrapped(x, k - 1, iterations + 1);
    }
  }

  /**
    * The loop unwraps at most eleven layers: content eleven functions deep
    * is fully unwrapped, one layer more is left wrapped.
    */
  lemma UnwrapBound(x: Value, k: nat)
    requires !Wrapper(x)
    ensures k <= MaxIterations + 1 ==> Unwrapped(Wrapped(x, k)) == x
    ensures k == MaxIterations + 2 ==> Unwrapped(Wrapped(x, k)) == Thunk(x)
  {
    UnwrapFromWrapped(x, k, 0);
  }

  // ---------------------------------------------------------------------------
  // The decision
  // ---------------------------------------------------------------------------

  /** `{ ...v, transform: undefined }`. */
  function WithoutTransform(v: Value): (r: Value)
    ensures (v.Obj? || v.Payload?) ==> Field(r, "transform") == Undefined
    ensures v.Payload? ==> r.Payload? && r.content == v.content && r.status == v.status && r.success == v.success
  {
    match v
    case Payload(c, st, ok, _) => Payload(c, st, ok, Undefined)
    case Obj(fields) => Obj(Put(fields, "transform", Undefined))
    case _ => v
  }

  /** The non-stream part of the current decision: native Response first, then transform. */
  function CoreReply(content: Value, headers: Headers): (r: Reply)
    ensures Field(content, "content").NativeResponse? ==> r == Passthrough(Field(content, "content"))
    ensures r.JsonReply? <==> !Field(content, "content").NativeResponse? && Truthy(Field(content, "transform"))
    ensures r.JsonReply? ==> Field(r.body, "transform") == Undefined && r.status == Field(content, "status") && r.headers == headers
    ensures r.RawReply? ==> r.body == Field(content, "content") && r.status == Field(content, "status") && r.headers == headers
  {
    if Field(content, "content").NativeResponse? then Passthrough(Field(content, "content"))
    else if Truthy(Field(content, "transform")) then JsonReply(WithoutTransform(content), headers, Field(content, "status"))
    else RawReply(Field(content, "content"), headers, Field(content, "status"))
  }

  lemma StreamHeaderNames()
    ensures "content-type" != "cache-control" && "content-type" != "connection" && "connection" != "cache-control"
  {
    assert "content-type"[3] == 't' && "cache-control"[3] == 'h' && "connection"[3] == 'n';
  }

  /** The current stream headers: no caching, keep-alive, and an event-stream type unless one is set. */
  function CoreStreamHeaders(headers: Headers): (r: Headers)
    ensures Lookup(r, "cache-control") == Some("no-cache")
    ensures Lookup(r, "connection") == Some("keep-alive")
    ensures Lookup(r, "content-type") ==
            if Lookup(headers, "content-type").Some? then Lookup(headers, "content-type") else Some("text/event-stream")
  {
    var h := Put(Put(headers, "cache-control", "no-cache"), "connection", "keep-alive");
    StreamHeaderNames();
    if Lookup(h, "content-type").Some? then h else Put(h, "content-type", "text/event-stream")
  }

  /** The legacy stream headers: all three forced, whatever the content type was. */
  function LegacyStreamHeaders(headers: Headers): (r: Headers)
    ensures Lookup(r, "cache-control") == Some("no-cache")
    ensures Lookup(r, "connection") == Some("keep-alive")
    ensures Lookup(r, "content-type") == Some("text/event-stream")
    ensures forall k :: k != "cache-control" && k != "connection" && k != "content-type" ==> Lookup(r, k) == Lookup(headers, k)
  {
    StreamHeaderNames();
    Put(Put(Put(headers, "cache-control", "no-cache"), "connection", "keep-alive"), "content-type", "text/event-stream")
  }

  /**
    * `processResponse(context.response)`: the content is unwrapped and
    * written back; a stream gets its headers set on the response's own
    * header collection.
    */
  method ProcessResponse(response: ContextResponse) returns (reply: Reply)
    modifies response
    ensures response.content == Unwrapped(old(response.content))
    ensures response.cookies == old(response.cookies)
    ensures response.content.Stream? ==> response.headers == CoreStreamHeaders(old(response.headers))
                                         && reply == StreamReply(response.content, response.headers)
    ensures !response.content.Stream? ==> response.headers == old(response.headers)
                                          && reply == CoreReply(response.content, response.headers)
  {
    var iterations := 0;
    while Wrapper(response.content)
      invariant iterations <= MaxIterations + 1
      invariant UnwrapFrom(response.content, iterations) == Unwrapped(old(response.content))
      invariant response.headers == old(response.headers) && response.cookies == old(response.cookies)
      decreases MaxIterations + 1 - iterations
    {
      if iterations > MaxIterations {
        break;
      }
      iterations := iterations + 1;
      if response.content.Thunk? {
        response.content := response.content.result;
      } else {
        response.content := response.content.resolved;
      }
    }
    if response.content.Stream? {
      response.headers := Put(response.headers, "cache-control", "no-cache");
      response.headers := Put(response.headers, "connection", "keep-alive");
      if Lookup(response.headers, "content-type").None? {
        response.headers := Put(response.headers, "content-type", "text/event-stream");
      }
      return StreamReply(response.content, response.headers);
    }
    if Field(response.content, "content").NativeResponse? {
      return Passthrough(Field(response.content, "content"));
    }
    if Truthy(Field(response.content, "transform")) {
      return JsonReply(WithoutTransform(response.content), response.headers, Field(response.content, "status"));
    }
    return RawReply(Field(response.content, "content"), response.headers, Field(response.content, "status"));
  }

  /**
    * The legacy `processResponse({ content, headers })`: the content is
    * unwrapped into a local only; the stream headers are forced on the
    * response's header collection.
    */
  method LegacyProcessResponse(response: ContextResponse) returns (reply: Reply)
    modifies response`headers
    ensures Unwrapped(response.content).Stream? ==> response.headers == LegacyStreamHeaders(old(response.headers))
                                                    && reply == StreamReply(Unwrapped(response.content), response.headers)
    ensures !Unwrapped(response.content).Stream? ==> response.headers == old(response.headers)
                                                     && reply == CoreReply(Unwrapped(response.content), response.headers)
  {
    var content := response.content;
    var iterations := 0;
    while Wrapper(content)
      invariant iterations <= MaxIterations + 1
      invariant UnwrapFrom(content, iterations) == Unwrapped(response.content)
      decreases MaxIterations + 1 - iterations
    {
      if iterations > MaxIterations {
        break;
      }
      iterations := iterations + 1;
      content := Unwrap1(content);
    }
    if content.Stream? {
      response.headers := LegacyStreamHeaders(response.headers);
      return StreamReply(content, response.headers);
    }
    reply := CoreReply(content, response.headers);
  }

  // ---------------------------------------------------------------------------
  // The legacy App.prototype.response
  // ---------------------------------------------------------------------------

  /** `v.content = c` on a record or an object. */
  function WithContent(v: Value, c: Value): (r: Value)
    ensures (v.Obj? || v.Payload?) ==> Field(r, "content") == c
  {
    match v
    case Payload(_, st, ok, tr) => Payload(c, st, ok, tr)
    case Obj(fields) => Obj(Put(fields, "content", c))
    case _ => v
  }

  /** A function in `content.content` is called once, then a promise there is awaited once. */
  function InnerUnwrapped(v: Value): Value {
    var once := if Field(v, "content").Thunk? then WithContent(v, Field(v, "content").result) else v;
    if Field(once, "content").Promise? then WithContent(once, Field(once, "content").resolved) else once
  }

  /**
    * The legacy `App.prototype.response`: a stream goes out with the three
    * stream headers forced on a copy of the headers; otherwise the inner
    * content is unwrapped, and the transform is checked BEFORE the native
    * Response passthrough.
    */
  function AppReply(content: Value, headers: Headers): (r: Reply)
    ensures content.Stream? ==> r == StreamReply(content, LegacyStreamHeaders(headers))
    ensures !content.Stream? && Truthy(Field(InnerUnwrapped(content), "transform")) ==> r.JsonReply?
  {
    if content.Stream? then StreamReply(content, LegacyStreamHeaders(headers))
    else
      var v := InnerUnwrapped(content);
      if Truthy(Field(v, "transform")) then JsonReply(WithoutTransform(v), headers, Field(v, "status"))
      else if Field(v, "content").NativeResponse? then Passthrough(Field(v, "content"))
      else RawReply(Field(v, "content"), headers, Field(v, "status"))
  }

  /**
    * `App.prototype.response`: the unwrapped inner content is written into
    * the content record itself, which the context's response also holds.
    */
  method AppResponse(response: ContextResponse) returns (reply: Reply)
    modifies response`content
    ensures response.content == if old(response.content).Stream? then old(response.content) else InnerUnwrapped(old(response.content))
    ensures reply == AppReply(old(response.content), response.headers)
  {
    if response.content.Stream? {
      return StreamReply(response.content, LegacyStreamHeaders(response.headers));
    }
    if Field(response.content, "content").Thunk? {
      response.content := WithContent(response.content, Field(response.content, "content").result);
    }
    if Field(response.content, "content").Promise? {
      response.content := WithContent(response.content, Field(response.content, "content").resolved);
    }
    var v := response.content;
    if Truthy(Field(v, "transform")) {
      return JsonReply(WithoutTransform(v), response.headers, Field(v, "status"));
    }
    if Field(v, "content").NativeResponse? {
      return Passthrough(Field(v, "content"));
    }
    return RawReply(Field(v, "content"), response.headers, Field(v, "status"));
  }

  /**
    * A transformed record holding a native Response: the current version
    * passes the Response through, the legacy `App.prototype.response`
    * serialises the record instead.
    */
  lemma PassthroughOrder(id: nat, status: Value, success: bool, headers: Headers)
    ensures CoreReply(Payload(NativeResponse(id), status, success, Bool(true)), headers) == Passthrough(NativeResponse(id))
    ensures AppReply(Payload(NativeResponse(id), status, success, Bool(true)), headers) ==
            JsonReply(Payload(NativeResponse(id), status, success, Undefined), headers, status)
  {
  }

  /**
    * A stream reply keeps an existing content type in the current version and
    * overrides it in the legacy ones.
    */
  lemma StreamContentType(headers: Headers, t: string)
    requires Lookup(headers, "content-type") == Some(t)
    ensures Lookup(CoreStreamHeaders(headers), "content-type") == Some(t)
    ensures Lookup(LegacyStreamHeaders(headers), "content-type") == Some("text/event-stream")
  {
  }
}
