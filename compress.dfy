/**
  * The compression module (`src/ecosystem/modules/compress/index.ts`) and
  * its legacy counterpart (`src/ecosystem/compress/compress.ts`): a
  * middleware that lets the rest of the chain run, then negotiates an
  * encoding from Accept-Encoding and compresses the response, a stream by
  * piping it through a compressor and anything else by serialising it and
  * replacing the content with the compressed bytes.
  */
module Compress {
  import opened Base
  import opened Text
  import opened Records
  import opened RequestContext
  import opened Responses

  /** The options object: `threshold` (default 512 bytes) and the compression `level`. */
  datatype CompressOptions = CompressOptions(threshold: Option<int>, level: Option<int>)

  /** The encodings offered, in the server's order of preference. */
  const Encodings: seq<string> := ["zstd", "br", "gzip", "deflate"]

  function Threshold(o: CompressOptions): int {
    o.threshold.GetOr(512)
  }

  /** `level ??` the encoder's default: 4 for zstd, 11 for brotli, 6 for gzip and deflate. */
  function LevelFor(o: CompressOptions, encoding: string): int {
    o.level.GetOr(if encoding == "zstd" then 4 else if encoding == "br" then 11 else 6)
  }

  /**
    * What the middleware asks of the platform: the bytes of the Response
    * built from a reply (`arrayBuffer()`), that Response's Content-Type, and
    * the compressor for an encoding at a level.
    */
  datatype Io = Io(serialize: Reply -> seq<byte>, contentType: Reply -> Option<string>,
                   compress: (string, seq<byte>, int) -> seq<byte>)

  const ContentEncoding: string := "content-encoding"
  const TransferEncoding: string := "transfer-encoding"
  const ContentLength: string := "content-length"
  const ContentType: string := "content-type"

  // ---------------------------------------------------------------------------
  // Negotiation
  // ---------------------------------------------------------------------------

  /** One comma-separated item: trimmed, lower-cased and cut at `;`, so parameters such as `q` are dropped. */
  function Token(item: string): string {
    Split(Lower(Trim(item)), ';')[0]
  }

  /** `.map(token)` over the items. */
  function TokensOf(items: seq<string>): (r: seq<string>)
    ensures |r| == |items| && forall i :: 0 <= i < |items| ==> r[i] == Token(items[i])
  {
    if items == [] then [] else [Token(items[0])] + TokensOf(items[1..])
  }

  /** `.filter(Boolean)`: the non-empty tokens, in order. */
  function NonEmpty(tokens: seq<string>): (r: seq<string>)
    ensures forall t :: t in r <==> t in tokens && t != ""
    ensures |r| <= |tokens|
  {
    if tokens == [] then []
    else if tokens[0] == "" then NonEmpty(tokens[1..])
    else [tokens[0]] + NonEmpty(tokens[1..])
  }

  /** The encodings the client accepts: each comma-separated item's token, when it is not empty. */
  function Accepted(header: string): (r: seq<string>)
    ensures forall t :: t in r <==> t != "" && t in TokensOf(Split(header, ','))
  {
    NonEmpty(TokensOf(Split(header, ',')))
  }

  /** The index of the first candidate in `accepted`. */
  function FirstAccepted(candidates: seq<string>, accepted: seq<string>): (r: Option<nat>)
    ensures r.Some? ==> r.value < |candidates| && candidates[r.value] in accepted
    ensures r.Some? ==> forall j :: 0 <= j < r.value ==> candidates[j] !in accepted
    ensures r.None? ==> forall j :: 0 <= j < |candidates| ==> candidates[j] !in accepted
    decreases |candidates|
  {
    if candidates == [] then None
    else if candidates[0] in accepted then Some(0)
    else
      match FirstAccepted(candidates[1..], accepted)
      case None => None
      case Some(k) => Some(k + 1)
  }

  /**
    * The encoding chosen: none without a non-empty Accept-Encoding; else the
    * first of zstd, br, gzip and deflate the client lists, whatever weights
    * it gives them.
    */
  function Negotiate(acceptEncoding: Option<string>): (r: Option<string>)
    ensures r.Some? ==> acceptEncoding.Some? && r.value in Accepted(acceptEncoding.value)
    ensures r.Some? ==> exists k :: 0 <= k < |Encodings| && r.value == Encodings[k] &&
                          forall i :: 0 <= i < k ==> Encodings[i] !in Accepted(acceptEncoding.value)
    ensures r.None? && acceptEncoding.Some? && acceptEncoding.value != "" ==>
              forall k :: 0 <= k < |Encodings| ==> Encodings[k] !in Accepted(acceptEncoding.value)
  {
    if acceptEncoding.None? || acceptEncoding.value == "" then None
    else
      match FirstAccepted(Encodings, Accepted(acceptEncoding.value))
      case None => None
      case Some(k) => Some(Encodings[k])
  }

  // ---------------------------------------------------------------------------
  // The decision
  // ---------------------------------------------------------------------------

  /** Nothing to do: no content, a HEAD request, or an encoding already applied. */
  predicate Skipped(verb: string, content: Value, headers: Headers) {
    !Truthy(content) || verb == "HEAD" || Lookup(headers, ContentEncoding).Some? || Lookup(headers, TransferEncoding).Some?
  }

  /** `content.pipeThrough(new CompressionStream(encoding, …))`. */
  function Piped(content: Value, encoding: string): (r: Value)
    requires content.Stream?
    ensures r.Stream? && r.pipes == content.pipes + [encoding]
  {
    content.(pipes := content.pipes + [encoding])
  }

  /** A stream is announced with its encoding and loses its Content-Length. */
  function StreamHeaders(headers: Headers, encoding: string): (r: Headers)
    requires UniqueKeys(headers)
    ensures UniqueKeys(r)
  {
    PutKeepsUnique(headers, ContentEncoding, encoding);
    Remove(Put(headers, ContentEncoding, encoding), ContentLength)
  }

  /** Content-Encoding and Content-Length of the compressed bytes, and the Content-Type of the serialised response when it has one. */
  function CompressedHeaders(headers: Headers, encoding: string, size: nat, contentType: Option<string>): Headers {
    var h := Put(Put(headers, ContentEncoding, encoding), ContentLength, NatToString(size));
    if contentType.Some? && contentType.value != "" then Put(h, ContentType, contentType.value) else h
  }

  /** The current rebuild: an untransformed success or error, as `content.success` says, with `content.status`. */
  function CoreRepacked(content: Value, compressed: seq<byte>): Value {
    var options := Obj([("status", Field(content, "status")), ("transform", Bool(false))]);
    if Truthy(Field(content, "success")) then Success(Bytes(compressed), options) else Error(Bytes(compressed), options)
  }

  /** The legacy rebuild with the positional constructors. */
  function LegacyRepacked(content: Value, compressed: seq<byte>): Value {
    if Truthy(Field(content, "success")) then LegacySuccess(Bytes(compressed), Field(content, "status"), Bool(false))
    else LegacyError(Bytes(compressed), Field(content, "status"), Bool(false))
  }

  /** What `processResponse` returns and leaves on the response in the current generation. */
  function CoreProcessed(content: Value, headers: Headers): (Reply, Value, Headers) {
    var c := Unwrapped(content);
    if c.Stream? then (StreamReply(c, CoreStreamHeaders(headers)), c, CoreStreamHeaders(headers))
    else (CoreReply(c, headers), c, headers)
  }

  /** The current handling of content that is not a stream, once an encoding is chosen. */
  function CoreBuffer(o: CompressOptions, content: Value, headers: Headers, encoding: string, io: Io): (Value, Headers) {
    var p := CoreProcessed(content, headers);
    var bytes := io.serialize(p.0);
    if |bytes| < Threshold(o) then (p.1, p.2)
    else
      var z := io.compress(encoding, bytes, LevelFor(o, encoding));
      (CoreRepacked(p.1, z), CompressedHeaders(p.2, encoding, |z|, io.contentType(p.0)))
  }

  /** The content and headers the current middleware leaves once `next()` has returned. */
  function CoreCompressed(o: CompressOptions, raw: RawRequest, content: Value, headers: Headers, io: Io): (Value, Headers)
    requires UniqueKeys(headers)
  {
    var encoding := Negotiate(Lookup(raw.headers, "accept-encoding"));
    if Skipped(raw.verb, content, headers) || encoding.None? then (content, headers)
    else if content.Stream? then (Piped(content, encoding.value), StreamHeaders(headers, encoding.value))
    else CoreBuffer(o, content, headers, encoding.value, io)
  }

  /** Writes the compressed body and its headers. */
  method WriteCompressed(response: ContextResponse, encoding: string, compressed: seq<byte>, contentType: Option<string>, repacked: Value)
    modifies response`headers, response`content
    ensures response.headers == CompressedHeaders(old(response.headers), encoding, |compressed|, contentType)
    ensures response.content == repacked
  {
    response.headers := Put(response.headers, ContentEncoding, encoding);
    response.headers := Put(response.headers, ContentLength, NatToString(|compressed|));
    if contentType.Some? && contentType.value != "" {
      response.headers := Put(response.headers, ContentType, contentType.value);
    }
    response.content := repacked;
  }

  /** Pipes a stream through the compressor. */
  method PipeStream(response: ContextResponse, encoding: string)
    requires response.content.Stream? && UniqueKeys(response.headers)
    modifies response`headers, response`content
    ensures response.content == Piped(old(response.content), encoding)
    ensures response.headers == StreamHeaders(old(response.headers), encoding)
  {
    response.content := Piped(response.content, encoding);
    response.headers := StreamHeaders(response.headers, encoding);
  }

  /** The current handling of content that is not a stream, once `encoding` is chosen. */
  method CoreCompressBuffer(o: CompressOptions, response: ContextResponse, encoding: string, io: Io)
    modifies response
    ensures (response.content, response.headers) == CoreBuffer(o, old(response.content), old(response.headers), encoding, io)
    ensures response.cookies == old(response.cookies)
  {
    var reply := ProcessResponse(response);
    var bytes := io.serialize(reply);
    if |bytes| < Threshold(o) {
      return;
    }
    var compressed := io.compress(encoding, bytes, LevelFor(o, encoding));
    WriteCompressed(response, encoding, compressed, io.contentType(reply), CoreRepacked(response.content, compressed));
  }

  /** The current middleware's work after `next()`. */
  method CoreCompress(o: CompressOptions, raw: RawRequest, response: ContextResponse, io: Io)
    requires UniqueKeys(response.headers)
    modifies response
    ensures (response.content, response.headers) == CoreCompressed(o, raw, old(response.content), old(response.headers), io)
    ensures response.cookies == old(response.cookies)
  {
    var encoding := Negotiate(Lookup(raw.headers, "accept-encoding"));
    if Skipped(raw.verb, response.content, response.headers) || encoding.None? {
      return;
    }
    ghost var content, headers := response.content, response.headers;
    if response.content.Stream? {
      PipeStream(response, encoding.value);
    } else {
      BufferPath(o, raw, content, headers, io, encoding.value);
      CoreCompressBuffer(o, response, encoding.value, io);
    }
  }

  /** What the legacy `processResponse` returns and leaves on the headers; the content itself is not written back. */
  function LegacyProcessed(content: Value, headers: Headers): (Reply, Headers) {
    var c := Unwrapped(content);
    if c.Stream? then (StreamReply(c, LegacyStreamHeaders(headers)), LegacyStreamHeaders(headers))
    else (CoreReply(c, headers), headers)
  }

  /** The legacy handling of content that is not a stream, once an encoding is chosen. */
  function LegacyBuffer(o: CompressOptions, content: Value, headers: Headers, encoding: string, io: Io): (Value, Headers) {
    var p := LegacyProcessed(content, headers);
    var bytes := io.serialize(p.0);
    if |bytes| < Threshold(o) then (content, p.1)
    else
      var z := io.compress(encoding, bytes, LevelFor(o, encoding));
      (LegacyRepacked(content, z), CompressedHeaders(p.1, encoding, |z|, io.contentType(p.0)))
  }

  /** The content and headers the legacy middleware leaves once `next()` has returned. */
  function LegacyCompressed(o: CompressOptions, raw: RawRequest, content: Value, headers: Headers, io: Io): (Value, Headers)
    requires UniqueKeys(headers)
  {
    var encoding := Negotiate(Lookup(raw.headers, "accept-encoding"));
    if Skipped(raw.verb, content, headers) || encoding.None? then (content, headers)
    else if content.Stream? then (Piped(content, encoding.value), StreamHeaders(headers, encoding.value))
    else LegacyBuffer(o, content, headers, encoding.value, io)
  }

  /** The legacy handling of content that is not a stream, once `encoding` is chosen. */
  method LegacyCompressBuffer(o: CompressOptions, response: ContextResponse, encoding: string, io: Io)
    modifies response
    ensures (response.content, response.headers) == LegacyBuffer(o, old(response.content), old(response.headers), encoding, io)
    ensures response.cookies == old(response.cookies)
  {
    var reply := LegacyProcessResponse(response);
    var bytes := io.serialize(reply);
    if |bytes| < Threshold(o) {
      return;
    }
    var compressed := io.compress(encoding, bytes, LevelFor(o, encoding));
    WriteCompressed(response, encoding, compressed, io.contentType(reply), LegacyRepacked(response.content, compressed));
  }

  /** The legacy middleware's work after `next()`. */
  method LegacyCompress(o: CompressOptions, raw: RawRequest, response: ContextResponse, io: Io)
    requires UniqueKeys(response.headers)
    modifies response
    ensures (response.content, response.headers) == LegacyCompressed(o, raw, old(response.content), old(response.headers), io)
    ensures response.cookies == old(response.cookies)
  {
    var encoding := Negotiate(Lookup(raw.headers, "accept-encoding"));
    if Skipped(raw.verb, response.content, response.headers) || encoding.None? {
      return;
    }
    ghost var content, headers := response.content, response.headers;
    if response.content.Stream? {
      PipeStream(response, encoding.value);
    } else {
      BufferPath(o, raw, content, headers, io, encoding.value);
      LegacyCompressBuffer(o, response, encoding.value, io);
    }
  }

  // ---------------------------------------------------------------------------
  // Properties
  // ---------------------------------------------------------------------------

  lemma HeaderNames()
    ensures |ContentEncoding| == 16 && |TransferEncoding| == 17 && |ContentLength| == 14 && |ContentType| == 12
  {
  }

  /** When there is nothing to compress, or no encoding both sides know, neither generation changes anything. */
  lemma NothingToCompress(o: CompressOptions, raw: RawRequest, content: Value, headers: Headers, io: Io)
    requires UniqueKeys(headers)
    requires Skipped(raw.verb, content, headers) || Negotiate(Lookup(raw.headers, "accept-encoding")).None?
    ensures CoreCompressed(o, raw, content, headers, io) == (content, headers)
    ensures LegacyCompressed(o, raw, content, headers, io) == (content, headers)
  {
  }

  /** A stream is piped through the compressor, gets Content-Encoding, loses Content-Length, and keeps every other header. */
  lemma StreamsArePiped(o: CompressOptions, raw: RawRequest, content: Value, headers: Headers, io: Io, e: string)
    requires UniqueKeys(headers) && content.Stream? && !Skipped(raw.verb, content, headers)
    requires Negotiate(Lookup(raw.headers, "accept-encoding")) == Some(e)
    ensures var r := CoreCompressed(o, raw, content, headers, io);
            r == LegacyCompressed(o, raw, content, headers, io) &&
            r.0 == Piped(content, e) &&
            Lookup(r.1, ContentEncoding) == Some(e) && Lookup(r.1, ContentLength) == None &&
            forall k :: k != ContentEncoding && k != ContentLength ==> Lookup(r.1, k) == Lookup(headers, k)
  {
    HeaderNames();
  }

  /**
    * A body shorter than the threshold is sent as it is; the current
    * generation has still written the unwrapped content back.
    */
  lemma SmallBodiesUntouched(o: CompressOptions, raw: RawRequest, content: Value, headers: Headers, io: Io)
    requires UniqueKeys(headers) && !content.Stream? && !Unwrapped(content).Stream?
    requires |io.serialize(CoreReply(Unwrapped(content), headers))| < Threshold(o)
    ensures CoreCompressed(o, raw, content, headers, io) ==
            (if Skipped(raw.verb, content, headers) || Negotiate(Lookup(raw.headers, "accept-encoding")).None?
             then content else Unwrapped(content), headers)
    ensures LegacyCompressed(o, raw, content, headers, io) == (content, headers)
  {
  }

  /** The options object the current middleware rebuilds the content with. */
  lemma RepackOptions(status: Value)
    ensures Field(Obj([("status", status), ("transform", Bool(false))]), "status") == status
    ensures Field(Obj([("status", status), ("transform", Bool(false))]), "transform") == Bool(false)
  {
    var fields := [("status", status), ("transform", Bool(false))];
    assert |"status"| == 6 && |"transform"| == 9;
    assert fields[1..] == [("transform", Bool(false))];
    assert Lookup(fields[1..], "transform") == Some(Bool(false));
  }

  /**
    * The current rebuild keeps the kind of a success or error and its
    * status (an error without one gets 400), and turns the transform off.
    */
  lemma CoreRepackedKeeps(content: Value, z: seq<byte>)
    requires content.Payload?
    ensures var r := CoreRepacked(content, z);
            r.Payload? && r.content == Bytes(z) && r.success == content.success && r.transform == Bool(false) &&
            r.status == if !content.success && Nullish(content.status) then Num(400) else content.status
  {
    RepackOptions(content.status);
  }

  /**
    * The legacy rebuild reads the fields of whatever it is given: content
    * that is not a success or error (a function returning one, say) becomes
    * an error with status 400.
    */
  lemma LegacyRepackedReads(content: Value, z: seq<byte>)
    ensures content.Payload? ==>
              LegacyRepacked(content, z) ==
              Payload(Bytes(z), if content.status.Undefined? then Num(if content.success then 200 else 400) else content.status,
                      content.success, Bool(false))
    ensures !content.Payload? && !content.Obj? ==> LegacyRepacked(content, z) == Payload(Bytes(z), Num(400), false, Bool(false))
  {
  }

  /**
    * Content at least as long as the threshold once serialised is replaced
    * by its compressed bytes; the headers announce the encoding and the
    * compressed length, carry the serialised Content-Type when there is one,
    * and are otherwise unchanged.
    */
  lemma CompressedContent(o: CompressOptions, raw: RawRequest, content: Value, headers: Headers, io: Io, e: string)
    requires UniqueKeys(headers) && !Skipped(raw.verb, content, headers)
    requires Negotiate(Lookup(raw.headers, "accept-encoding")) == Some(e)
    requires content.Payload? && !Unwrapped(content).Stream?
    requires |io.serialize(CoreReply(content, headers))| >= Threshold(o)
    ensures var z := io.compress(e, io.serialize(CoreReply(content, headers)), LevelFor(o, e));
            var r := CoreCompressed(o, raw, content, headers, io);
            r.0 == CoreRepacked(content, z) &&
            Lookup(r.1, ContentEncoding) == Some(e) && Lookup(r.1, ContentLength) == Some(NatToString(|z|)) &&
            forall k :: k != ContentEncoding && k != ContentLength && k != ContentType ==> Lookup(r.1, k) == Lookup(headers, k)
  {
    HeaderNames();
    assert Unwrapped(content) == content;
    assert CoreCompressed(o, raw, content, headers, io) == CoreBuffer(o, content, headers, e, io);
  }

  /** Past the skips, with an encoding chosen, content that is not a stream is handled by the buffer path. */
  lemma BufferPath(o: CompressOptions, raw: RawRequest, content: Value, headers: Headers, io: Io, e: string)
    requires UniqueKeys(headers) && !Skipped(raw.verb, content, headers) && !content.Stream?
    requires Negotiate(Lookup(raw.headers, "accept-encoding")) == Some(e)
    ensures CoreCompressed(o, raw, content, headers, io) == CoreBuffer(o, content, headers, e, io)
    ensures LegacyCompressed(o, raw, content, headers, io) == LegacyBuffer(o, content, headers, e, io)
  {
  }

  /** The bytes a function-wrapped success is compressed to. */
  function WrappedBytes(o: CompressOptions, p: Value, headers: Headers, io: Io, e: string): seq<byte> {
    io.compress(e, io.serialize(CoreReply(p, headers)), LevelFor(o, e))
  }

  lemma LegacyBufferWrapped(o: CompressOptions, p: Value, headers: Headers, io: Io, e: string)
    requires p.Payload? && |io.serialize(CoreReply(p, headers))| >= Threshold(o)
    ensures LegacyBuffer(o, Thunk(p), headers, e, io).0 == Payload(Bytes(WrappedBytes(o, p, headers, io, e)), Num(400), false, Bool(false))
  {
    UnwrapBound(p, 1);
    assert Wrapped(p, 1) == Thunk(p);
    assert LegacyProcessed(Thunk(p), headers) == (CoreReply(p, headers), headers);
    LegacyRepackedReads(Thunk(p), WrappedBytes(o, p, headers, io, e));
  }

  lemma CoreBufferWrapped(o: CompressOptions, p: Value, headers: Headers, io: Io, e: string)
    requires p.Payload? && p.success && |io.serialize(CoreReply(p, headers))| >= Threshold(o)
    ensures CoreBuffer(o, Thunk(p), headers, e, io).0 == Payload(Bytes(WrappedBytes(o, p, headers, io, e)), p.status, true, Bool(false))
  {
    UnwrapBound(p, 1);
    assert Wrapped(p, 1) == Thunk(p);
    assert CoreProcessed(Thunk(p), headers) == (CoreReply(p, headers), p, headers);
    CoreRepackedKeeps(p, WrappedBytes(o, p, headers, io, e));
  }

  /**
    * As written, the legacy middleware rebuilds from the content as the
    * route left it, not from the unwrapped value: a success returned through
    * a function is sent as an error with status 400.
    */
  lemma LegacyWrappedSuccessBecomesError(o: CompressOptions, raw: RawRequest, p: Value, headers: Headers, io: Io, e: string)
    requires UniqueKeys(headers) && p.Payload? && p.success && p.status == Num(200)
    requires raw.verb != "HEAD" && Lookup(headers, ContentEncoding).None? && Lookup(headers, TransferEncoding).None?
    requires Negotiate(Lookup(raw.headers, "accept-encoding")) == Some(e)
    requires |io.serialize(CoreReply(p, headers))| >= Threshold(o)
    ensures LegacyCompressed(o, raw, Thunk(p), headers, io).0 ==
            Payload(Bytes(WrappedBytes(o, p, headers, io, e)), Num(400), false, Bool(false))
  {
    assert Truthy(Thunk(p));
    assert Lookup(headers, ContentEncoding).None?;
    assert !Skipped(raw.verb, Thunk(p), headers);
    BufferPath(o, raw, Thunk(p), headers, io, e);
    LegacyBufferWrapped(o, p, headers, io, e);
  }

  /** The current middleware rebuilds from the unwrapped content, so the same success stays a success with status 200. */
  lemma CoreWrappedSuccessStays(o: CompressOptions, raw: RawRequest, p: Value, headers: Headers, io: Io, e: string)
    requires UniqueKeys(headers) && p.Payload? && p.success && p.status == Num(200)
    requires raw.verb != "HEAD" && Lookup(headers, ContentEncoding).None? && Lookup(headers, TransferEncoding).None?
    requires Negotiate(Lookup(raw.headers, "accept-encoding")) == Some(e)
    requires |io.serialize(CoreReply(p, headers))| >= Threshold(o)
    ensures CoreCompressed(o, raw, Thunk(p), headers, io).0 ==
            Payload(Bytes(WrappedBytes(o, p, headers, io, e)), Num(200), true, Bool(false))
  {
    assert Truthy(Thunk(p));
    assert Lookup(headers, ContentEncoding).None?;
    assert !Skipped(raw.verb, Thunk(p), headers);
    BufferPath(o, raw, Thunk(p), headers, io, e);
    CoreBufferWrapped(o, p, headers, io, e);
  }
}
