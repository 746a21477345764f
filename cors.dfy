/**
  * The CORS module (`src/ecosystem/modules/cors/cors.ts`) and its legacy
  * counterpart (`src/ecosystem/cors/cors.ts`): a middleware that writes the
  * Access-Control headers on the response before handing on to `next`, and
  * a catch-all `OPTIONS` route that answers preflight requests with 204.
  */
module Cors {
  import opened Base
  import opened Text
  import opened Records
  import opened RequestContext
  import opened Builder
  import opened Responses
  import opened Application

  /** The `origin` option: a fixed string, or a function of the request's Origin (the context it also gets is not modelled). */
  datatype OriginOption = Fixed(value: string) | Computed(resolve: Option<string> -> Option<string>)

  /** The options object; an absent field is `None` (`false` for `credentials`). */
  datatype CorsOptions = CorsOptions(allowHeaders: Option<seq<string>>, allowMethods: Option<seq<string>>,
                                     credentials: bool, exposeHeaders: Option<seq<string>>,
                                     maxAge: Option<int>, origin: Option<OriginOption>)

  const DefaultMethods: seq<string> := ["DELETE", "GET", "HEAD", "OPTIONS", "PATCH", "POST", "PUT"]

  /** `allowMethods` with its default. */
  function Methods(o: CorsOptions): seq<string> {
    o.allowMethods.GetOr(DefaultMethods)
  }

  /** `origin` with its default, `"*"`. */
  function OriginSetting(o: CorsOptions): OriginOption {
    o.origin.GetOr(Fixed("*"))
  }

  // The header names, in the lower case a Headers collection reports.
  const AllowOrigin: string := "access-control-allow-origin"
  const VaryName: string := "vary"
  const AllowCredentials: string := "access-control-allow-credentials"
  const ExposeHeaders: string := "access-control-expose-headers"
  const AllowMethods: string := "access-control-allow-methods"
  const MaxAge: string := "access-control-max-age"
  const AllowHeaders: string := "access-control-allow-headers"
  const ContentLength: string := "content-length"
  const RequestHeaders: string := "access-control-request-headers"

  /** The names differ in length, except the two of length 28, which differ at index 21. */
  lemma HeaderNames()
    ensures |AllowOrigin| == 27 && |VaryName| == 4 && |AllowCredentials| == 32 && |ExposeHeaders| == 29
    ensures |AllowMethods| == 28 && |MaxAge| == 22 && |AllowHeaders| == 28 && |ContentLength| == 14
    ensures AllowMethods != AllowHeaders
  {
    assert AllowMethods[21] == 'm' && AllowHeaders[21] == 'h';
  }

  /** The names the middleware writes. */
  predicate Written(k: string) {
    k == AllowOrigin || k == VaryName || k == AllowCredentials || k == ExposeHeaders
    || k == AllowMethods || k == MaxAge || k == AllowHeaders || k == ContentLength
  }

  // ---------------------------------------------------------------------------
  // Values
  // ---------------------------------------------------------------------------

  /** `vary ? `${vary}, ${token}` : token`: an empty or missing value is replaced. */
  function VaryWith(vary: Option<string>, token: string): (r: string)
    ensures EndsWith(r, token)
  {
    if vary.Some? && vary.value != "" then vary.value + ", " + token else token
  }

  /** `headers.append(name, token)`: any existing value, even an empty one, is extended. */
  function Appended(value: Option<string>, token: string): (r: string)
    ensures EndsWith(r, token)
  {
    if value.Some? then value.value + ", " + token else token
  }

  /**
    * `value.split(/\s*,\s*\/)`: the text is cut at each comma, and the white
    * space next to a comma goes with it; white space at the very start and
    * end stays.
    */
  function HeaderList(s: string): (r: seq<string>)
    ensures |r| == |Split(s, ',')|
  {
    var pieces := Split(s, ',');
    seq(|pieces|, i requires 0 <= i < |pieces| =>
      var p := if i < |pieces| - 1 then TrimEnd(pieces[i]) else pieces[i];
      if i > 0 then TrimStart(p) else p)
  }

  predicate NoSpace(s: string) {
    forall i :: 0 <= i < |s| ==> !IsSpace(s[i])
  }

  lemma TrimsNothing(s: string)
    requires NoSpace(s)
    ensures TrimStart(s) == s && TrimEnd(s) == s
  {
  }

  lemma {:induction false} SplitNoSpace(s: string, c: char)
    requires NoSpace(s)
    ensures forall i :: 0 <= i < |Split(s, c)| ==> NoSpace(Split(s, c)[i])
  {
    if s != [] {
      SplitNoSpace(s[1..], c);
      var t := Split(s[1..], c);
      if s[0] != c {
        forall i | 0 <= i < |Split(s, c)| ensures NoSpace(Split(s, c)[i]) {
          if i == 0 {
            assert Split(s, c)[0] == [s[0]] + t[0];
          } else {
            assert Split(s, c)[i] == t[i];
          }
        }
      }
    }
  }

  /**
    * Without white space the list is the comma-separated pieces, and joining
    * them with `,` gives back the header value.
    */
  lemma HeaderListRoundTrip(s: string)
    requires NoSpace(s)
    ensures HeaderList(s) == Split(s, ',')
    ensures Join(HeaderList(s), ",") == s
  {
    var pieces := Split(s, ',');
    SplitNoSpace(s, ',');
    var list := HeaderList(s);
    forall i | 0 <= i < |pieces| ensures list[i] == pieces[i] {
      assert NoSpace(pieces[i]);
      TrimsNothing(pieces[i]);
    }
    assert list == pieces;
    JoinSplit(s, ',');
  }

  // ---------------------------------------------------------------------------
  // The current middleware
  // ---------------------------------------------------------------------------

  /**
    * The origin written: a string origin is used as configured, except that
    * `"*"` with credentials reflects the request's Origin (or `""`); a
    * function's result is used, or `"*"` when it returns nothing.
    */
  function CoreOrigin(o: CorsOptions, raw: RawRequest): string {
    var requestOrigin := Lookup(raw.headers, "origin").GetOr("");
    match OriginSetting(o)
    case Fixed(s) => if o.credentials && s == "*" then requestOrigin else s
    case Computed(f) => f(Some(requestOrigin)).GetOr("*")
  }

  /** The configured list, else the request's Access-Control-Request-Headers when non-empty. */
  function CoreAllowHeaders(o: CorsOptions, raw: RawRequest): Option<seq<string>> {
    if o.allowHeaders.Some? then o.allowHeaders
    else
      match Lookup(raw.headers, RequestHeaders)
      case Some(v) => if v != "" then Some(HeaderList(v)) else None
      case None => None
  }

  // The middleware writes the headers in four groups; each group changes only its own names.

  /** Allow-Origin, then Vary when the origin is not `*`. */
  function OriginStage(origin: string, vary: string, h: Headers): (r: Headers)
    ensures Lookup(r, AllowOrigin) == Some(origin)
    ensures Lookup(r, VaryName) == if origin != "*" then Some(vary) else Lookup(h, VaryName)
    ensures forall k :: k != AllowOrigin && k != VaryName ==> Lookup(r, k) == Lookup(h, k)
  {
    HeaderNames();
    var h1 := Put(h, AllowOrigin, origin);
    if origin != "*" then Put(h1, VaryName, vary) else h1
  }

  /** Allow-Credentials and Expose-Headers, each when configured. */
  function OptionStage(credentials: bool, expose: Option<seq<string>>, h: Headers): (r: Headers)
    ensures Lookup(r, AllowCredentials) == if credentials then Some("true") else Lookup(h, AllowCredentials)
    ensures Lookup(r, ExposeHeaders) == if expose.Some? then Some(Join(expose.value, ",")) else Lookup(h, ExposeHeaders)
    ensures forall k :: k != AllowCredentials && k != ExposeHeaders ==> Lookup(r, k) == Lookup(h, k)
  {
    HeaderNames();
    var h1 := if credentials then Put(h, AllowCredentials, "true") else h;
    if expose.Some? then Put(h1, ExposeHeaders, Join(expose.value, ",")) else h1
  }

  /** Allow-Methods, then Max-Age when there is one to write. */
  function MethodsStage(methods: string, maxAge: Option<string>, h: Headers): (r: Headers)
    ensures Lookup(r, AllowMethods) == Some(methods)
    ensures Lookup(r, MaxAge) == if maxAge.Some? then maxAge else Lookup(h, MaxAge)
    ensures forall k :: k != AllowMethods && k != MaxAge ==> Lookup(r, k) == Lookup(h, k)
  {
    HeaderNames();
    var h1 := Put(h, AllowMethods, methods);
    if maxAge.Some? then Put(h1, MaxAge, maxAge.value) else h1
  }

  const RequestHeadersToken: string := "Access-Control-Request-Headers"

  /** Allow-Headers and the Vary token, when headers are allowed; `append` is `headers.append`, else the truthiness test. */
  function AllowStage(allow: Option<seq<string>>, append: bool, h: Headers): (r: Headers)
    ensures Lookup(r, AllowHeaders) == if allow.Some? then Some(Join(allow.value, ",")) else Lookup(h, AllowHeaders)
    ensures Lookup(r, VaryName) ==
            if allow.None? then Lookup(h, VaryName)
            else if append then Some(Appended(Lookup(h, VaryName), RequestHeadersToken))
            else Some(VaryWith(Lookup(h, VaryName), RequestHeadersToken))
    ensures forall k :: k != AllowHeaders && k != VaryName ==> Lookup(r, k) == Lookup(h, k)
  {
    HeaderNames();
    if allow.None? then h
    else
      var h1 := Put(h, AllowHeaders, Join(allow.value, ","));
      Put(h1, VaryName, if append then Appended(Lookup(h1, VaryName), RequestHeadersToken)
                        else VaryWith(Lookup(h1, VaryName), RequestHeadersToken))
  }

  /** The Max-Age text: written whenever the option is given. */
  function CoreMaxAge(o: CorsOptions): Option<string> {
    if o.maxAge.Some? then Some(IntToString(o.maxAge.value)) else None
  }

  /** The headers the current middleware leaves, group by group. */
  function CoreCorsHeaders(o: CorsOptions, raw: RawRequest, h: Headers): Headers {
    var h4 := OptionStage(o.credentials, o.exposeHeaders,
                          OriginStage(CoreOrigin(o, raw), VaryWith(Lookup(h, VaryName), "Origin"), h));
    if raw.verb != "OPTIONS" then h4
    else Put(AllowStage(CoreAllowHeaders(o, raw), false, MethodsStage(Join(Methods(o), ","), CoreMaxAge(o), h4)),
             ContentLength, "0")
  }

  method WriteOrigin(response: ContextResponse, origin: string, vary: string)
    modifies response`headers
    ensures response.headers == OriginStage(origin, vary, old(response.headers))
  {
    response.headers := Put(response.headers, AllowOrigin, origin);
    if Lookup(response.headers, AllowOrigin) != Some("*") {
      response.headers := Put(response.headers, VaryName, vary);
    }
  }

  method WriteOptions(response: ContextResponse, credentials: bool, expose: Option<seq<string>>)
    modifies response`headers
    ensures response.headers == OptionStage(credentials, expose, old(response.headers))
  {
    if credentials {
      response.headers := Put(response.headers, AllowCredentials, "true");
    }
    if expose.Some? {
      response.headers := Put(response.headers, ExposeHeaders, Join(expose.value, ","));
    }
  }

  method WriteMethods(response: ContextResponse, methods: string, maxAge: Option<string>)
    modifies response`headers
    ensures response.headers == MethodsStage(methods, maxAge, old(response.headers))
  {
    response.headers := Put(response.headers, AllowMethods, methods);
    if maxAge.Some? {
      response.headers := Put(response.headers, MaxAge, maxAge.value);
    }
  }

  method WriteAllow(response: ContextResponse, allow: Option<seq<string>>, append: bool)
    modifies response`headers
    ensures response.headers == AllowStage(allow, append, old(response.headers))
  {
    if allow.Some? {
      response.headers := Put(response.headers, AllowHeaders, Join(allow.value, ","));
      var vary := Lookup(response.headers, VaryName);
      response.headers := Put(response.headers, VaryName,
                              if append then Appended(vary, RequestHeadersToken) else VaryWith(vary, RequestHeadersToken));
    }
  }

  /** The middleware's work before it returns `next()`. */
  method CoreCors(o: CorsOptions, raw: RawRequest, response: ContextResponse)
    modifies response`headers
    ensures response.headers == CoreCorsHeaders(o, raw, old(response.headers))
  {
    var vary := Lookup(response.headers, VaryName);
    WriteOrigin(response, CoreOrigin(o, raw), VaryWith(vary, "Origin"));
    WriteOptions(response, o.credentials, o.exposeHeaders);
    if raw.verb == "OPTIONS" {
      var maxAge := if o.maxAge.Some? then Some(IntToString(o.maxAge.value)) else None;
      WriteMethods(response, Join(Methods(o), ","), maxAge);
      var allow := o.allowHeaders;
      if allow.None? {
        var requested := Lookup(raw.headers, RequestHeaders);
        if requested.Some? && requested.value != "" {
          allow := Some(HeaderList(requested.value));
        }
      }
      WriteAllow(response, allow, false);
      response.headers := Put(response.headers, ContentLength, "0");
    }
  }

  /** The Vary value after the middleware: Origin appended unless the origin is `*`, then the request-headers token on a preflight that allows headers. */
  function CoreVary(o: CorsOptions, raw: RawRequest, vary: Option<string>): Option<string> {
    var v1 := if CoreOrigin(o, raw) != "*" then Some(VaryWith(vary, "Origin")) else vary;
    if raw.verb == "OPTIONS" && CoreAllowHeaders(o, raw).Some? then Some(VaryWith(v1, RequestHeadersToken)) else v1
  }

  /**
    * Header by header: Allow-Origin is always written; credentials and
    * exposed headers when configured; on `OPTIONS` the methods, Max-Age
    * whenever it is given (0 included), the allowed headers when there are
    * any, and a zero Content-Length; every other header is left alone.
    */
  lemma CoreCorsEffect(o: CorsOptions, raw: RawRequest, h: Headers)
    ensures var r := CoreCorsHeaders(o, raw, h);
            Lookup(r, AllowOrigin) == Some(CoreOrigin(o, raw)) &&
            Lookup(r, VaryName) == CoreVary(o, raw, Lookup(h, VaryName)) &&
            Lookup(r, AllowCredentials) == (if o.credentials then Some("true") else Lookup(h, AllowCredentials)) &&
            Lookup(r, ExposeHeaders) == (if o.exposeHeaders.Some? then Some(Join(o.exposeHeaders.value, ",")) else Lookup(h, ExposeHeaders))
    ensures var r := CoreCorsHeaders(o, raw, h);
            var preflight := raw.verb == "OPTIONS";
            var allow := CoreAllowHeaders(o, raw);
            Lookup(r, AllowMethods) == (if preflight then Some(Join(Methods(o), ",")) else Lookup(h, AllowMethods)) &&
            Lookup(r, MaxAge) == (if preflight && o.maxAge.Some? then Some(IntToString(o.maxAge.value)) else Lookup(h, MaxAge)) &&
            Lookup(r, AllowHeaders) == (if preflight && allow.Some? then Some(Join(allow.value, ",")) else Lookup(h, AllowHeaders)) &&
            Lookup(r, ContentLength) == (if preflight then Some("0") else Lookup(h, ContentLength))
    ensures forall k :: !Written(k) ==> Lookup(CoreCorsHeaders(o, raw, h), k) == Lookup(h, k)
  {
    HeaderNames();
  }

  /** With credentials, the wildcard origin becomes the request's own Origin, which Vary then lists. */
  lemma CredentialsReflectOrigin(o: CorsOptions, raw: RawRequest, h: Headers, requestOrigin: string)
    requires o.credentials && OriginSetting(o) == Fixed("*")
    requires Lookup(raw.headers, "origin") == Some(requestOrigin) && requestOrigin != "*"
    requires raw.verb != "OPTIONS"
    ensures Lookup(CoreCorsHeaders(o, raw, h), AllowOrigin) == Some(requestOrigin)
    ensures Lookup(CoreCorsHeaders(o, raw, h), AllowCredentials) == Some("true")
    ensures EndsWith(Lookup(CoreCorsHeaders(o, raw, h), VaryName).value, "Origin")
  {
    CoreCorsEffect(o, raw, h);
  }

  // ---------------------------------------------------------------------------
  // The preflight route
  // ---------------------------------------------------------------------------

  const PreflightPath: string := "/...path?"

  /** `success(undefined, { status: 204, transform: false })`. */
  function CorePreflight(): Value {
    Success(Undefined, Obj([("status", Num(204)), ("transform", Bool(false))]))
  }

  /** The legacy `success(undefined, 204)`, transform left to its default. */
  function LegacyPreflight(): Value {
    LegacySuccess(Undefined, Num(204), Undefined)
  }

  /**
    * A preflight is answered with status 204: without a body in the current
    * generation, and through the JSON path (the legacy default transform)
    * in the legacy one.
    */
  lemma PreflightReplies(h: Headers)
    ensures CoreResponse(CorePreflight(), h) == RawReply(Undefined, h, Num(204))
    ensures AppReply(LegacyPreflight(), h) == JsonReply(Payload(Undefined, Num(204), true, Undefined), h, Num(204))
  {
    var o := Obj([("status", Num(204)), ("transform", Bool(false))]);
    assert "status" != "transform";
    assert o.fields[1..] == [("transform", Bool(false))];
    assert Field(o, "transform") == Bool(false);
    assert CorePreflight() == Payload(Undefined, Num(204), true, Bool(false));
  }

  /** `cors(options)`: a fresh module holding the middleware, then the catch-all `OPTIONS` route. */
  method CorsModule(middleware: Fn, preflight: Fn) returns (m: ModuleBuilder)
    ensures fresh(m)
    ensures m.Value() == Module([Middleware(middleware), RouteLink(CoreRoute("OPTIONS", PreflightPath, preflight, None))], "")
  {
    m := NewModule(None);
    m := m.Middleware(middleware);
    m := m.Route("OPTIONS", PreflightPath, preflight, None);
  }

  // ---------------------------------------------------------------------------
  // The legacy middleware
  // ---------------------------------------------------------------------------

  /** A string origin as configured; a function gets the Origin header or `undefined`, and `"*"` stands in for no result. */
  function LegacyOrigin(o: CorsOptions, raw: RawRequest): string {
    match OriginSetting(o)
    case Fixed(s) => s
    case Computed(f) => f(Lookup(raw.headers, "origin")).GetOr("*")
  }

  /** The captured `allowHeaders` after a request: set by the first preflight carrying requested headers, then kept. */
  function Remembered(allow: Option<seq<string>>, raw: RawRequest): Option<seq<string>> {
    if raw.verb == "OPTIONS" && allow.None? then
      match Lookup(raw.headers, RequestHeaders)
      case Some(v) => if v != "" then Some(HeaderList(v)) else None
      case None => None
    else allow
  }

  /** The legacy Vary value: the request's own Vary header when non-empty, else `Origin`. */
  function LegacyVary(raw: RawRequest): string {
    var requestVary := Lookup(raw.headers, VaryName);
    if requestVary.Some? && requestVary.value != "" then requestVary.value else "Origin"
  }

  /** The Max-Age text: written only when the option is truthy, so not for 0. */
  function LegacyMaxAge(o: CorsOptions): Option<string> {
    if o.maxAge.Some? && o.maxAge.value != 0 then Some(IntToString(o.maxAge.value)) else None
  }

  /** The headers the legacy middleware leaves, given the captured list as it stands after the request. */
  function LegacyCorsHeaders(o: CorsOptions, raw: RawRequest, allow: Option<seq<string>>, h: Headers): Headers {
    var h4 := OptionStage(o.credentials, o.exposeHeaders, OriginStage(LegacyOrigin(o, raw), LegacyVary(raw), h));
    if raw.verb != "OPTIONS" then h4
    else AllowStage(allow, true, MethodsStage(Join(Methods(o), ","), LegacyMaxAge(o), h4))
  }

  /**
    * `cors.module(options)`: the options' `allowHeaders` is a variable of the
    * closure the middleware shares across requests.
    */
  class LegacyCors {
    const options: CorsOptions
    var allowHeaders: Option<seq<string>>

    constructor (options: CorsOptions)
      ensures this.options == options && allowHeaders == options.allowHeaders
    {
      this.options := options;
      allowHeaders := options.allowHeaders;
    }

    /** The middleware's work before it awaits `next()`. */
    method Enter(raw: RawRequest, response: ContextResponse)
      modifies this`allowHeaders, response`headers
      ensures allowHeaders == Remembered(old(allowHeaders), raw)
      ensures response.headers == LegacyCorsHeaders(options, raw, allowHeaders, old(response.headers))
    {
      WriteOrigin(response, LegacyOrigin(options, raw), LegacyVary(raw));
      WriteOptions(response, options.credentials, options.exposeHeaders);
      if raw.verb == "OPTIONS" {
        var maxAge := if options.maxAge.Some? && options.maxAge.value != 0 then Some(IntToString(options.maxAge.value)) else None;
        WriteMethods(response, Join(Methods(options), ","), maxAge);
        if allowHeaders.None? {
          var requested := Lookup(raw.headers, RequestHeaders);
          if requested.Some? && requested.value != "" {
            allowHeaders := Some(HeaderList(requested.value));
          }
        }
        WriteAllow(response, allowHeaders, true);
      }
    }
  }

  /** Max-Age 0 is written by the current middleware and skipped by the legacy one. */
  lemma MaxAgeZero(o: CorsOptions, raw: RawRequest, allow: Option<seq<string>>, h: Headers)
    requires o.maxAge == Some(0) && raw.verb == "OPTIONS"
    ensures Lookup(CoreCorsHeaders(o, raw, h), MaxAge) == Some("0")
    ensures Lookup(LegacyCorsHeaders(o, raw, allow, h), MaxAge) == Lookup(h, MaxAge)
  {
    CoreCorsEffect(o, raw, h);
    HeaderNames();
  }

  /**
    * As written, the legacy middleware remembers the first preflight's
    * requested headers: a later preflight from another client asking for
    * other headers is told the first client's list.
    */
  lemma LegacyAllowHeadersLeak(o: CorsOptions, first: RawRequest, second: RawRequest, h: Headers)
    requires o.allowHeaders.None? && first.verb == "OPTIONS" && second.verb == "OPTIONS"
    requires Lookup(first.headers, RequestHeaders) == Some("x-a")
    requires Lookup(second.headers, RequestHeaders) == Some("x-b")
    ensures var allow := Remembered(Remembered(o.allowHeaders, first), second);
            Lookup(LegacyCorsHeaders(o, second, allow, h), AllowHeaders) == Some("x-a")
    ensures Lookup(CoreCorsHeaders(o, second, h), AllowHeaders) == Some("x-b")
  {
    HeaderNames();
    assert NoSpace("x-a") && NoSpace("x-b");
    HeaderListRoundTrip("x-a");
    HeaderListRoundTrip("x-b");
    CoreCorsEffect(o, second, h);
  }

  /**
    * As written, the legacy middleware copies the REQUEST's Vary header into
    * the response when the origin is not `*`, so the response need not list
    * Origin at all.
    */
  lemma LegacyVaryOmitsOrigin(o: CorsOptions, raw: RawRequest, h: Headers)
    requires OriginSetting(o) == Fixed("https://a.example") && raw.verb == "GET"
    requires Lookup(raw.headers, VaryName) == Some("accept")
    ensures Lookup(LegacyCorsHeaders(o, raw, o.allowHeaders, h), VaryName) == Some("accept")
  {
    HeaderNames();
  }

  /** The current middleware keeps the response's Vary and appends Origin whenever the origin is not `*`. */
  lemma CoreVaryListsOrigin(o: CorsOptions, raw: RawRequest, h: Headers)
    requires CoreOrigin(o, raw) != "*" && raw.verb != "OPTIONS"
    ensures Lookup(CoreCorsHeaders(o, raw, h), VaryName) == Some(VaryWith(Lookup(h, VaryName), "Origin"))
    ensures EndsWith(Lookup(CoreCorsHeaders(o, raw, h), VaryName).value, "Origin")
  {
    CoreCorsEffect(o, raw, h);
  }
}
