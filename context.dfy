/**
  * The per-request context (`src/context.ts`): the request facets a handler
  * may read, loaded only when the endpoint's usage set names them, the
  * store the chain's stores fill, and the response under construction.
  */
module RequestContext {
  import opened Base
  import opened Text
  import opened Records
  import opened Cookies

  /**
    * The incoming request as the context reads it: its URL, method and
    * headers, and what each body reader (`json()`, `arrayBuffer()`,
    * `formData()`, `text()`) would resolve to.
    */
  datatype RawRequest = RawRequest(url: string, verb: string, headers: Headers,
                                   json: Value, bytes: seq<byte>, form: seq<(string, Value)>, text: string)

  /** `context.response`: the content set so far, the response headers and the cookie map. */
  class ContextResponse {
    var content: Value
    var headers: Headers
    var cookies: Dict<string>

    constructor ()
      ensures content == Undefined && headers == [] && cookies == []
    {
      content := Undefined;
      headers := [];
      cookies := [];
    }
  }

  class Context {
    const endpoint: Endpoint
    const raw: RawRequest
    /** `context.request` without its `raw` entry: the path and the loaded facets. */
    var request: Dict<Value>
    var store: Dict<Value>
    const response: ContextResponse
    /** The WebSocket upgrades handed to `context.server`, each with the handler's callbacks. */
    var upgrades: seq<Value>

    /** `new Context(endpoint, memory, path, request, server)`: only the path is loaded. */
    constructor (endpoint: Endpoint, path: string, raw: RawRequest)
      ensures this.endpoint == endpoint && this.raw == raw
      ensures request == [("path", Str(path))] && store == [] && upgrades == []
      ensures fresh(response) && response.content == Undefined && response.headers == [] && response.cookies == []
    {
      this.endpoint := endpoint;
      this.raw := raw;
      request := [("path", Str(path))];
      store := [];
      response := new ContextResponse();
      upgrades := [];
    }

    /**
      * `loadRequest`: the body when `body` is used, the headers when
      * `headers` or `cookies` is, then cookies, params and query each when
      * used. `groups` is what the endpoint's capturing expression yields on
      * the path, and `pairs` the query's key/value tokens.
      */
    method LoadRequest(groups: Option<Dict<Value>>, pairs: seq<(string, string)>, parse: string -> Value)
      modifies this`request
      ensures request == Loaded(old(request), endpoint.use, FacetsOf(raw, groups, pairs, parse))
    {
      if Body in endpoint.use {
        LoadRequestBody();
      }
      if Headers in endpoint.use || Cookies in endpoint.use {
        LoadRequestHeaders();
      }
      if Cookies in endpoint.use {
        LoadRequestCookies();
      }
      if Params in endpoint.use {
        LoadRequestParams(groups);
      }
      if Query in endpoint.use {
        LoadRequestQuery(pairs, parse);
      }
    }

    method LoadRequestBody()
      modifies this`request
      ensures request == PutWhen(true, old(request), "body", BodyValue(raw))
    {
      var contentType := MediaType(raw.headers);
      if contentType == Some("application/json") {
        request := Put(request, "body", raw.json);
        return;
      }
      if contentType == Some("application/octet-stream") {
        request := Put(request, "body", Bytes(raw.bytes));
        return;
      }
      if contentType == Some("multipart/form-data") {
        var result := CollapseForm(raw.form);
        request := Put(request, "body", Obj(result));
        return;
      }
      request := Put(request, "body", Str(raw.text));
    }

    method LoadRequestCookies()
      modifies this`request
      ensures request == PutWhen(true, old(request), "cookies", CookiesValue(raw.headers))
    {
      var cookies := GetCookies(raw.headers);
      request := Put(request, "cookies", if |cookies| > 0 then Obj(Strings(cookies)) else Undefined);
    }

    method LoadRequestHeaders()
      modifies this`request
      ensures request == PutWhen(true, old(request), "headers", HeadersValue(raw.headers))
    {
      var headers: Dict<Value> := [];
      var i := 0;
      while i < |raw.headers|
        invariant i <= |raw.headers|
        invariant headers == PutAll([], Strings(raw.headers[..i]))
        invariant request == old(request)
      {
        assert Strings(raw.headers[..i + 1]) == Strings(raw.headers[..i]) + [(raw.headers[i].0, Str(raw.headers[i].1))];
        PutAllSnoc([], Strings(raw.headers[..i]), raw.headers[i].0, Str(raw.headers[i].1));
        headers := Put(headers, raw.headers[i].0, Str(raw.headers[i].1));
        i := i + 1;
      }
      assert raw.headers[..i] == raw.headers;
      request := Put(request, "headers", if |headers| > 0 then Obj(headers) else Undefined);
    }

    method LoadRequestParams(groups: Option<Dict<Value>>)
      modifies this`request
      ensures request == PutWhen(groups.Some?, old(request), "params",
                                 if groups.Some? then Obj(SplitParams(groups.value)) else Undefined)
    {
      if groups.None? {
        return;
      }
      var params := groups.value;
      var i := 0;
      while i < |params|
        invariant i <= |params| == |groups.value|
        invariant forall j :: 0 <= j < i ==> params[j] == (groups.value[j].0, SplitParam(groups.value[j].1))
        invariant forall j :: i <= j < |params| ==> params[j] == groups.value[j]
      {
        var value := params[i].1;
        if value.Str? && '/' in value.s {
          params := params[i := (params[i].0, Arr(Pieces(Split(value.s, '/'))))];
        }
        i := i + 1;
      }
      assert params == SplitParams(groups.value);
      request := Put(request, "params", Obj(params));
    }

    method LoadRequestQuery(pairs: seq<(string, string)>, parse: string -> Value)
      modifies this`request
      ensures request == PutWhen(true, old(request), "query", QueryValue(pairs, parse))
    {
      var params: Dict<Value> := [];
      var i := 0;
      while i < |pairs|
        invariant i <= |pairs|
        invariant params == PutAll([], QueryEntries(pairs[..i], parse))
        invariant request == old(request)
      {
        assert pairs[..i + 1][..i] == pairs[..i];
        var (key, value) := pairs[i];
        if key != "" && value != "" {
          var spaced := ReplaceAll(value, "+", " ");
          var v := if EndsWith(key, "[]") then parse(spaced) else Str(spaced);
          PutAllSnoc([], QueryEntries(pairs[..i], parse), key, v);
          params := Put(params, key, v);
        }
        i := i + 1;
      }
      assert pairs[..i] == pairs;
      request := Put(request, "query", if |params| > 0 then Obj(params) else Undefined);
    }
  }

  // ---------------------------------------------------------------------------
  // What each loader stores
  // ---------------------------------------------------------------------------

  /** The lower-cased `Content-Type` up to its first `;`, if the header is present. */
  function MediaType(headers: Headers): Option<string> {
    match Lookup(headers, "content-type")
    case None => None
    case Some(h) => Some(Split(Lower(h), ';')[0])
  }

  /** The parsed body: JSON, raw bytes, collapsed multipart fields, else text. */
  function BodyValue(raw: RawRequest): Value {
    var contentType := MediaType(raw.headers);
    if contentType == Some("application/json") then raw.json
    else if contentType == Some("application/octet-stream") then Bytes(raw.bytes)
    else if contentType == Some("multipart/form-data") then Obj(FormUpTo(raw.form, |raw.form|))
    else Str(raw.text)
  }

  function Strings(d: Dict<string>): (r: Dict<Value>)
    ensures |r| == |d|
    ensures forall i :: 0 <= i < |d| ==> r[i] == (d[i].0, Str(d[i].1))
  {
    seq(|d|, i requires 0 <= i < |d| => (d[i].0, Str(d[i].1)))
  }

  /** The request headers as an object of strings; undefined when there are none. */
  function HeadersValue(headers: Headers): Value {
    if |PutAll([], Strings(headers))| > 0 then Obj(PutAll([], Strings(headers))) else Undefined
  }

  /** The cookies as an object of strings; undefined when the header declares none. */
  function CookiesValue(headers: Headers): Value {
    var cookies := PutAll([], CookiePairs(CookiePieces(headers)));
    if |cookies| > 0 then Obj(Strings(cookies)) else Undefined
  }

  function Pieces(parts: seq<string>): (r: seq<Value>)
    ensures |r| == |parts|
    ensures forall i :: 0 <= i < |parts| ==> r[i] == Str(parts[i])
  {
    seq(|parts|, i requires 0 <= i < |parts| => Str(parts[i]))
  }

  /** A captured parameter holding `/` becomes the list of its `/`-separated pieces. */
  function SplitParam(v: Value): Value {
    if v.Str? && '/' in v.s then Arr(Pieces(Split(v.s, '/'))) else v
  }

  function SplitParams(groups: Dict<Value>): (r: Dict<Value>)
    ensures |r| == |groups|
    ensures forall i :: 0 <= i < |groups| ==> r[i] == (groups[i].0, SplitParam(groups[i].1))
  {
    seq(|groups|, i requires 0 <= i < |groups| => (groups[i].0, SplitParam(groups[i].1)))
  }

  /** The query entries kept: both parts non-empty, `+` read as a space, `[]` keys JSON-decoded. */
  function QueryEntries(pairs: seq<(string, string)>, parse: string -> Value): Dict<Value>
    decreases |pairs|
  {
    if pairs == [] then []
    else
      var before := QueryEntries(pairs[..|pairs| - 1], parse);
      var (key, value) := pairs[|pairs| - 1];
      if key == "" || value == "" then before
      else
        var spaced := ReplaceAll(value, "+", " ");
        before + [(key, if EndsWith(key, "[]") then parse(spaced) else Str(spaced))]
  }

  function QueryValue(pairs: seq<(string, string)>, parse: string -> Value): Value {
    var params := PutAll([], QueryEntries(pairs, parse));
    if |params| > 0 then Obj(params) else Undefined
  }

  /** `d[k] = v` when the condition holds. */
  function PutWhen(c: bool, d: Dict<Value>, k: string, v: Value): (r: Dict<Value>)
    ensures forall j :: Lookup(r, j) == if c && j == k then Some(v) else Lookup(d, j)
  {
    if c then Put(d, k, v) else d
  }

  /** What each loader would store: the params only when the path matched. */
  datatype Facets = Facets(body: Value, headers: Value, cookies: Value, params: Option<Value>, query: Value)

  function FacetsOf(raw: RawRequest, groups: Option<Dict<Value>>, pairs: seq<(string, string)>,
                    parse: string -> Value): Facets
  {
    Facets(BodyValue(raw), HeadersValue(raw.headers), CookiesValue(raw.headers),
           if groups.Some? then Some(Obj(SplitParams(groups.value))) else None,
           QueryValue(pairs, parse))
  }

  /** The request after `loadRequest`, facet by facet in the order it loads them. */
  function Loaded(request: Dict<Value>, use: set<Facet>, f: Facets): Dict<Value> {
    var r1 := PutWhen(Body in use, request, "body", f.body);
    var r2 := PutWhen(Headers in use || Cookies in use, r1, "headers", f.headers);
    var r3 := PutWhen(Cookies in use, r2, "cookies", f.cookies);
    var r4 := PutWhen(Params in use && f.params.Some?, r3, "params", f.params.GetOr(Undefined));
    PutWhen(Query in use, r4, "query", f.query)
  }

  /**
    * Each facet is loaded exactly when the usage set asks for it (headers
    * also for cookies, params only when the path matched); an unused facet,
    * and the path, keep what they had.
    */
  lemma LoadedFacets(request: Dict<Value>, use: set<Facet>, f: Facets)
    ensures Lookup(Loaded(request, use, f), "body") == if Body in use then Some(f.body) else Lookup(request, "body")
    ensures Lookup(Loaded(request, use, f), "headers") ==
            if Headers in use || Cookies in use then Some(f.headers) else Lookup(request, "headers")
    ensures Lookup(Loaded(request, use, f), "cookies") == if Cookies in use then Some(f.cookies) else Lookup(request, "cookies")
  {
    assert "body"[0] == 'b' && "headers"[0] == 'h' && "cookies"[0] == 'c' && "query"[0] == 'q';
    assert "params"[0] == 'p';
  }

  /** Params (when the path matched) and query likewise; the path is never overwritten. */
  lemma LoadedParamsQuery(request: Dict<Value>, use: set<Facet>, f: Facets)
    ensures Lookup(Loaded(request, use, f), "params") ==
            if Params in use && f.params.Some? then f.params else Lookup(request, "params")
    ensures Lookup(Loaded(request, use, f), "query") == if Query in use then Some(f.query) else Lookup(request, "query")
    ensures Lookup(Loaded(request, use, f), "path") == Lookup(request, "path")
  {
    assert "body"[0] == 'b' && "headers"[0] == 'h' && "cookies"[0] == 'c' && "query"[0] == 'q';
    assert "params"[0] == 'p' && "params"[2] == 'r' && "path"[2] == 't';
  }

  // ---------------------------------------------------------------------------
  // Multipart fields
  // ---------------------------------------------------------------------------

  /**
    * One `formData.forEach` step: a key whose stored value is falsy gets the
    * value; a stored list is extended; a stored single value becomes a pair.
    */
  function Collapse(result: Dict<Value>, key: string, value: Value): Dict<Value> {
    var current := Lookup(result, key).GetOr(Undefined);
    if !Truthy(current) then Put(result, key, value)
    else if IsArray(current) then Put(result, key, Arr(current.items + [value]))
    else Put(result, key, Arr([current, value]))
  }

  function FormUpTo(entries: seq<(string, Value)>, n: nat): Dict<Value>
    requires n <= |entries|
  {
    if n == 0 then [] else Collapse(FormUpTo(entries, n - 1), entries[n - 1].0, entries[n - 1].1)
  }

  method CollapseForm(entries: seq<(string, Value)>) returns (result: Dict<Value>)
    ensures result == FormUpTo(entries, |entries|)
  {
    result := [];
    var i := 0;
    while i < |entries|
      invariant i <= |entries|
      invariant result == FormUpTo(entries, i)
    {
      var (key, value) := entries[i];
      if Truthy(Lookup(result, key).GetOr(Undefined)) {
        var current := Lookup(result, key).value;
        if IsArray(current) {
          result := Put(result, key, Arr(current.items + [value]));
        } else {
          result := Put(result, key, Arr([current, value]));
        }
      } else {
        result := Put(result, key, value);
      }
      i := i + 1;
    }
  }

  /** The values the first `n` entries give a key, in arrival order: a reference independent of `Collapse`. */
  function ValuesFor(entries: seq<(string, Value)>, n: nat, key: string): seq<Value>
    requires n <= |entries|
  {
    if n == 0 then []
    else ValuesFor(entries, n - 1, key) + (if entries[n - 1].0 == key then [entries[n - 1].1] else [])
  }

  /** A form value that `Collapse` keeps: truthy and not a list. */
  predicate Plain(v: Value) {
    Truthy(v) && !IsArray(v)
  }

  /** What a key holds once its values are gathered: nothing, the single value, or the list. */
  function Gathered(values: seq<Value>): Option<Value> {
    if |values| == 0 then None else if |values| == 1 then Some(values[0]) else Some(Arr(values))
  }

  /**
    * A key whose values are all plain holds its only value, or the list of
    * all its values in arrival order.
    */
  lemma {:induction false} FormGathers(entries: seq<(string, Value)>, n: nat, key: string)
    requires n <= |entries|
    requires forall j :: 0 <= j < n && entries[j].0 == key ==> Plain(entries[j].1)
    ensures Lookup(FormUpTo(entries, n), key) == Gathered(ValuesFor(entries, n, key))
  {
    if n > 0 {
      FormGathers(entries, n - 1, key);
      var before := ValuesFor(entries, n - 1, key);
      var v := entries[n - 1].1;
      var result := FormUpTo(entries, n - 1);
      assert FormUpTo(entries, n) == Collapse(result, entries[n - 1].0, v);
      if entries[n - 1].0 != key {
        assert ValuesFor(entries, n, key) == before;
        CollapseOther(result, entries[n - 1].0, v, key);
      } else {
        assert ValuesFor(entries, n, key) == before + [v];
        GatheredPlain(entries, n - 1, key);
        CollapseSame(result, key, v, before);
      }
    }
  }

  /** Adding a value to a key holding its gathered plain values gathers one more. */
  lemma CollapseSame(result: Dict<Value>, key: string, v: Value, before: seq<Value>)
    requires Lookup(result, key) == Gathered(before)
    requires forall i :: 0 <= i < |before| ==> Plain(before[i])
    ensures Lookup(Collapse(result, key, v), key) == Gathered(before + [v])
  {
    if |before| == 0 {
      assert before + [v] == [v];
    } else if |before| == 1 {
      assert before + [v] == [before[0], v];
    }
  }

  lemma CollapseOther(result: Dict<Value>, k: string, v: Value, key: string)
    requires k != key
    ensures Lookup(Collapse(result, k, v), key) == Lookup(result, key)
  {
  }

  /** The values gathered for a key are among its entries' values. */
  lemma {:induction false} GatheredPlain(entries: seq<(string, Value)>, n: nat, key: string)
    requires n <= |entries|
    requires forall j :: 0 <= j < n && entries[j].0 == key ==> Plain(entries[j].1)
    ensures forall i :: 0 <= i < |ValuesFor(entries, n, key)| ==> Plain(ValuesFor(entries, n, key)[i])
  {
    if n > 0 {
      GatheredPlain(entries, n - 1, key);
    }
  }

  // ---------------------------------------------------------------------------
  // Params and query
  // ---------------------------------------------------------------------------

  /** The pieces of a split capture join back, with `/`, into the capture. */
  lemma ParamRoundTrip(s: string)
    requires '/' in s
    ensures SplitParam(Str(s)).Arr?
    ensures Join(StringsOf(SplitParam(Str(s)).items), "/") == s
  {
    var parts := Split(s, '/');
    assert StringsOf(Pieces(parts)) == parts;
    JoinSplit(s, '/');
  }

  function StringsOf(items: seq<Value>): seq<string> {
    seq(|items|, i requires 0 <= i < |items| => if items[i].Str? then items[i].s else "")
  }

  /** A capture without `/` (or a missing one) is stored unchanged. */
  lemma ParamUnchanged(v: Value)
    requires !v.Str? || '/' !in v.s
    ensures SplitParam(v) == v
  {
  }

  /** Replacing every `+` by a space leaves no `+`. */
  lemma {:induction false} NoPlusLeft(s: string)
    ensures '+' !in ReplaceAll(s, "+", " ")
    decreases |s|
  {
    if s != [] {
      NoPlusLeft(s[1..]);
      if s[0] != '+' {
        assert !StartsWith(s, "+");
      }
    }
  }

  /**
    * A query key reads the value of its LAST pair with both parts present;
    * a plain value never holds `+`.
    */
  lemma QueryLastWins(pairs: seq<(string, string)>, parse: string -> Value, key: string)
    ensures Lookup(PutAll([], QueryEntries(pairs, parse)), key) == LastValue(QueryEntries(pairs, parse), key)
  {
    LastWins([], QueryEntries(pairs, parse), key);
  }

  /** Pairs with an empty key or value are dropped, so no entry has an empty key. */
  lemma {:induction false} QueryKeysNonEmpty(pairs: seq<(string, string)>, parse: string -> Value)
    ensures forall j :: 0 <= j < |QueryEntries(pairs, parse)| ==> QueryEntries(pairs, parse)[j].0 != ""
    ensures forall j :: 0 <= j < |QueryEntries(pairs, parse)| && !EndsWith(QueryEntries(pairs, parse)[j].0, "[]") ==>
              QueryEntries(pairs, parse)[j].1.Str? && '+' !in QueryEntries(pairs, parse)[j].1.s
    decreases |pairs|
  {
    if pairs != [] {
      QueryKeysNonEmpty(pairs[..|pairs| - 1], parse);
      NoPlusLeft(pairs[|pairs| - 1].1);
    }
  }
}
