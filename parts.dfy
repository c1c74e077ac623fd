/**
 * Part bookkeeping: the `onParse*` callbacks the scanner makes
 * (index.js:468-559), `clearPartVars` (index.js:759-770), and the routing of
 * a finished header block to `handleField`, `handleFile` or `handlePart`
 * (index.js:614-757) as far as it concerns the emit queue and the counters.
 *
 * Header names and values are kept as bytes; `toLowerCase` is ASCII case
 * folding.
 */
module Parts {
  import opened Common
  import opened Numbers
  import opened Disposition
  import opened State
  import opened Queue

  const CONTENT_DISPOSITION: seq<byte> := Ascii("content-disposition")
  const CONTENT_TRANSFER_ENCODING: seq<byte> := Ascii("content-transfer-encoding")
  const SEVEN_BIT: seq<byte> := Ascii("7bit")
  const EIGHT_BIT: seq<byte> := Ascii("8bit")
  const BASE64: seq<byte> := Ascii("base64")

  /** `clearPartVars`: forget everything about the current part and start a new header line. */
  function ClearPartVars(s: FormState): (r: FormState)
    ensures r.partHeaders == map[] && r.partName.None? && r.partFilename.None? && r.destStream.None?
    ensures r.partTransferEncoding == BINARY && r.headerField == [] && r.headerValue == []
    ensures SameScan(r, s) && r.log == s.log && r.error == s.error && r.emitQueue == s.emitQueue
  {
    NewHeaderLine(ForgetPart(s))
  }

  /** The part's headers, name, filename and stream are dropped and its encoding is binary again (index.js:760-764). */
  function ForgetPart(s: FormState): FormState
  {
    s.(partHeaders := map[], partName := None, partFilename := None, partTransferEncoding := BINARY, destStream := None)
  }

  /** The header name and value being read start over (index.js:766-769, 494-497). */
  function NewHeaderLine(s: FormState): FormState
  {
    s.(headerField := [], headerValue := [])
  }

  /** `onParsePartBegin`. */
  function OnPartBegin(s: FormState): (r: FormState)
    ensures SameScan(r, s) && s.log <= r.log && r.error == s.error
    ensures r.destStream.None?
  {
    ClearPartVars(s.(log := s.log + [PartBegin]))
  }

  /** `onParseHeaderField`: the bytes extend the header name being read. */
  function OnHeaderField(s: FormState, b: seq<byte>): (r: FormState)
    ensures SameScan(r, s) && s.log <= r.log && r.error == s.error
  {
    s.(headerField := s.headerField + b, log := s.log + [HeaderFieldData(b)])
  }

  /** `onParseHeaderValue`: the bytes extend the header value being read. */
  function OnHeaderValue(s: FormState, b: seq<byte>): (r: FormState)
    ensures SameScan(r, s) && s.log <= r.log && r.error == s.error
  {
    s.(headerValue := s.headerValue + b, log := s.log + [HeaderValueData(b)])
  }

  /**
   * What a finished header does besides being recorded: a
   * content-disposition header sets the part's name when it carries one and
   * always sets its filename; a content-transfer-encoding header sets the
   * encoding, lower-cased; other headers change nothing here.
   */
  function ApplyHeader(s: FormState, field: seq<byte>, value: seq<byte>): (r: FormState)
    ensures field == CONTENT_DISPOSITION ==>
              r == s.(partFilename := ParseFilename(value),
                      partName := if FindName(value).Some? then FindName(value) else s.partName)
    ensures field == CONTENT_TRANSFER_ENCODING ==> r == s.(partTransferEncoding := ToLowerBytes(value))
    ensures field != CONTENT_DISPOSITION && field != CONTENT_TRANSFER_ENCODING ==> r == s
  {
    if field == CONTENT_DISPOSITION then
      s.(partName := (match FindName(value) case Some(n) => Some(n) case None => s.partName),
         partFilename := ParseFilename(value))
    else if field == CONTENT_TRANSFER_ENCODING then
      s.(partTransferEncoding := ToLowerBytes(value))
    else s
  }

  /**
   * `onParseHeaderEnd`: record the header under its lower-cased name (a later
   * header of the same name overwrites an earlier one), apply it, and start
   * name and value over.
   */
  function OnHeaderEnd(s: FormState): (r: FormState)
    ensures r.partHeaders == s.partHeaders[ToLowerBytes(s.headerField) := s.headerValue]
    ensures r.headerField == [] && r.headerValue == []
    ensures SameScan(r, s) && s.log <= r.log && r.error == s.error
  {
    var field := ToLowerBytes(s.headerField);
    var value := s.headerValue;
    var s1 := s.(log := s.log + [HeaderEnd], headerField := field, partHeaders := s.partHeaders[field := value]);
    NewHeaderLine(ApplyHeader(s1, field, value))
  }

  /** `onParsePartData`: the bytes go to the part stream; its `write` answer sets backpressure. */
  function OnPartData(s: FormState, b: seq<byte>, congested: bool): (r: FormState)
    ensures r.log == s.log + [Data(b)] && r.backpressure == congested
    ensures r == s.(log := r.log, backpressure := congested)
  {
    s.(log := s.log + [Data(b)], backpressure := congested)
  }

  /**
   * `onParsePartEnd`: with a part stream, the postponed write callbacks are
   * released (its `end` is scheduled and comes back through
   * `PartStreamEnded`, `FieldEnded` or `FileClosed`); the part's variables
   * are cleared either way.
   */
  function OnPartEnd(s: FormState): (r: FormState)
    ensures SameScan(r, s) && s.log + [PartEnd] <= r.log && r.error == s.error
    ensures r.destStream.None?
  {
    var s1 := s.(log := s.log + [PartEnd]);
    ClearPartVars(if s1.destStream.Some? then FlushWriteCbs(s1) else s1)
  }

  /**
   * The transfer-encoding switch of `onParseHeadersEnd` (section 6.1 of
   * RFC 2045): binary, 7bit and 8bit become binary, base64 stays, anything
   * else is refused.
   */
  function NormalizeEncoding(enc: seq<byte>): (r: Option<seq<byte>>)
    ensures r.Some? <==> enc in {BINARY, SEVEN_BIT, EIGHT_BIT, BASE64}
    ensures r.Some? ==> r.value == if enc == BASE64 then BASE64 else BINARY
  {
    if enc == BINARY || enc == SEVEN_BIT || enc == EIGHT_BIT then Some(BINARY)
    else if enc == BASE64 then Some(BASE64)
    else None
  }

  /** The routing of `onParseHeadersEnd`. */
  function RouteOf(cfg: Config, filename: Option<seq<byte>>): (r: Route)
    ensures r == ToField <==> filename.None? && cfg.autoFields
    ensures r == ToFile <==> filename.Some? && cfg.autoFiles
  {
    if filename.None? && cfg.autoFields then ToField
    else if filename.Some? && cfg.autoFiles then ToFile
    else ToPart
  }

  /**
   * `byteCount` of a part: its own content-length when that header is
   * non-empty; otherwise, when the request's expected length is a non-zero
   * number, what remains of it after the part's offset, the delimiter and
   * the final `--\r\n`; otherwise undefined.
   */
  function ByteCount(cfg: Config, headers: map<seq<byte>, seq<byte>>, expected: Measure, byteOffset: int): (r: Measure)
    ensures HasLength(headers) ==> r == (match ParseInt(headers[CONTENT_LENGTH]) case Some(n) => Count(n) case None => NotANumber)
    ensures !HasLength(headers) && expected.Truthy() ==>
              r == Count(expected.n - byteOffset - |cfg.boundary| - LAST_BOUNDARY_SUFFIX_LEN)
    ensures !HasLength(headers) && !expected.Truthy() ==> r == Nothing
  {
    if HasLength(headers) then
      match ParseInt(headers[CONTENT_LENGTH])
      case Some(n) => Count(n)
      case None => NotANumber
    else if expected.Truthy() then
      Count(expected.n - byteOffset - |cfg.boundary| - LAST_BOUNDARY_SUFFIX_LEN)
    else Nothing
  }

  /**
   * Hand the new part stream to its consumer: `handleField` and
   * `handleFile` hold an emit-queue item until the field has been read or
   * the file written (`handleFile` does nothing once an error is recorded);
   * `handlePart` holds one and releases it at once with the `part` emission.
   * Each counts one more flush.
   */
  function Dispatch(s: FormState, d: PartStream): (r: FormState)
    ensures SameScan(r, s) && s.log <= r.log && r.error == s.error && r.destStream == s.destStream
  {
    match d.route
    case ToField => Hold(BeginFlush(s), Some(d.id))
    case ToFile => if s.error.Some? then s else Hold(BeginFlush(s), Some(d.id))
    case ToPart => Release(Hold(BeginFlush(s), Some(d.id)), s.nextItem, EmitPart(d.id))
  }

  /** The part stream `onParseHeadersEnd` creates, for a part counted as number `s.totalFieldCount`. */
  function NewPartStream(cfg: Config, s: FormState, offset: nat): (d: PartStream)
    ensures d.id == s.totalFieldCount && d.encoding == s.partTransferEncoding
    ensures d.headers == s.partHeaders && d.name == s.partName && d.filename == s.partFilename
    ensures d.byteOffset == s.bytesReceived + offset
    ensures d.byteCount == ByteCount(cfg, s.partHeaders, s.bytesExpected, s.bytesReceived + offset)
    ensures d.route == RouteOf(cfg, s.partFilename)
    ensures d.item == if d.route == ToFile && s.error.Some? then None else Some(s.nextItem)
  {
    var byteOffset := s.bytesReceived + offset;
    var route := RouteOf(cfg, s.partFilename);
    PartStream(s.totalFieldCount, s.partHeaders, s.partName, s.partFilename, s.partTransferEncoding,
               byteOffset, ByteCount(cfg, s.partHeaders, s.bytesExpected, byteOffset),
               route, if route == ToFile && s.error.Some? then None else Some(s.nextItem))
  }

  /**
   * `onParseHeadersEnd(offset)`, `offset` being the position in the chunk
   * right after the blank line. Returns the new state and the error
   * `_write` must raise, if any.
   */
  function OnHeadersEnd(cfg: Config, s: FormState, offset: nat): (r: (FormState, Option<Failure>))
    ensures SameScan(r.0, s) && s.log <= r.0.log && r.0.error == s.error
    ensures r.1.None? ==> r.0.destStream.Some?
  {
    var s0 := s.(log := s.log + [HeadersEnd(offset)]);
    match NormalizeEncoding(s0.partTransferEncoding)
    case None => (s0, Some(UnknownTransferEncoding(s0.partTransferEncoding)))
    case Some(enc) => CountAndRoute(cfg, s0.(partTransferEncoding := enc), offset)
  }

  /** The part is counted against `maxFields` and, within it, gets its stream. */
  function CountAndRoute(cfg: Config, s: FormState, offset: nat): (r: (FormState, Option<Failure>))
    ensures SameScan(r.0, s) && s.log <= r.0.log && r.0.error == s.error
    ensures r.1.None? ==> r.0.destStream.Some?
    ensures s.totalFieldCount + 1 <= cfg.maxFields ==> r == (RoutePart(cfg, s.(totalFieldCount := s.totalFieldCount + 1), offset), None)
  {
    var s1 := s.(totalFieldCount := s.totalFieldCount + 1);
    if s1.totalFieldCount > cfg.maxFields then
      (s1, Some(MaxFieldsExceeded(cfg.maxFields)))
    else
      (RoutePart(cfg, s1, offset), None)
  }

  /** The counted part gets its stream, which is handed to its consumer. */
  function RoutePart(cfg: Config, s: FormState, offset: nat): (r: FormState)
    ensures SameScan(r, s) && s.log <= r.log && r.error == s.error && r.destStream.Some?
  {
    var d := NewPartStream(cfg, s, offset);
    Dispatch(s.(destStream := Some(d)), d)
  }

  /** The `end` of a stream handed out by `handlePart` (index.js:668-670). */
  function PartStreamEnded(s: FormState): (r: FormState)
    ensures r.flushing == s.flushing - 1
    ensures SameScan(r, s) && s.log <= r.log && (s.error.Some? ==> r.error == s.error)
  {
    EndFlush(s)
  }

  /** The `end` of a field stream (index.js:751-756): emit the field in its turn, then end the flush. */
  function FieldEnded(s: FormState, stream: nat, item: nat): (r: FormState)
    ensures r.flushing == s.flushing - 1
    ensures SameScan(r, s) && s.log <= r.log && (s.error.Some? ==> r.error == s.error)
  {
    EndFlush(Release(s, item, EmitField(stream)))
  }

  /** The `close` of a file's write stream (index.js:719-725): unless an error is recorded, emit the file in its turn and end the flush. */
  function FileClosed(s: FormState, stream: nat, item: nat): (r: FormState)
    ensures s.error.Some? ==> r == s
    ensures s.error.None? ==> r.flushing == s.flushing - 1
    ensures SameScan(r, s) && s.log <= r.log
  {
    if s.error.Some? then s else EndFlush(Release(s, item, EmitFile(stream)))
  }

  // ---------------------------------------------------------------------
  // Properties of the header block's end
  // ---------------------------------------------------------------------

  /** An encoding outside binary, 7bit, 8bit and base64 is refused before the part is counted. */
  lemma UnknownEncodingRefused(cfg: Config, s: FormState, offset: nat)
    requires s.partTransferEncoding !in {BINARY, SEVEN_BIT, EIGHT_BIT, BASE64}
    ensures OnHeadersEnd(cfg, s, offset).1 == Some(UnknownTransferEncoding(s.partTransferEncoding))
    ensures OnHeadersEnd(cfg, s, offset).0.totalFieldCount == s.totalFieldCount
  {
  }

  /** A known encoding counts the part; the count passing `maxFields` is a 413 error. */
  lemma HeadersEndCounts(cfg: Config, s: FormState, offset: nat)
    requires s.partTransferEncoding in {BINARY, SEVEN_BIT, EIGHT_BIT, BASE64}
    ensures var (r, err) := OnHeadersEnd(cfg, s, offset);
            r.totalFieldCount == s.totalFieldCount + 1 &&
            (err.Some? <==> s.totalFieldCount + 1 > cfg.maxFields) &&
            (err.Some? ==> err == Some(MaxFieldsExceeded(cfg.maxFields)))
  {
  }

  /**
   * A counted part gets a part stream with the normalised encoding (binary
   * for binary, 7bit and 8bit; base64 kept), the part's headers, name and
   * filename, and its offset in the request body.
   */
  lemma HeadersEndStream(cfg: Config, s: FormState, offset: nat)
    requires s.partTransferEncoding in {BINARY, SEVEN_BIT, EIGHT_BIT, BASE64}
    requires s.totalFieldCount + 1 <= cfg.maxFields
    ensures var (r, err) := OnHeadersEnd(cfg, s, offset);
            var d := r.destStream.value;
            err.None? &&
            d.id == s.totalFieldCount + 1 &&
            d.encoding == (if s.partTransferEncoding == BASE64 then BASE64 else BINARY) &&
            r.partTransferEncoding == d.encoding &&
            d.headers == s.partHeaders && d.name == s.partName && d.filename == s.partFilename &&
            d.byteOffset == s.bytesReceived + offset &&
            d.route == RouteOf(cfg, s.partFilename)
  {
  }

  /** With a known encoding, the end of the header block is the counting and routing of the part. */
  lemma HeadersEndIsRoute(cfg: Config, s: FormState, offset: nat)
    requires s.partTransferEncoding in {BINARY, SEVEN_BIT, EIGHT_BIT, BASE64}
    ensures OnHeadersEnd(cfg, s, offset) ==
            CountAndRoute(cfg, s.(log := s.log + [HeadersEnd(offset)]).(partTransferEncoding := NormalizeEncoding(s.partTransferEncoding).value), offset)
  {
  }

  /**
   * Routing: a part without filename goes to `handleField` when fields are
   * collected, a part with one to `handleFile` when files are; both hold an
   * unreleased queue item for the part and count one more flush. Anything
   * else goes to `handlePart`, whose `part` emission is released at once
   * and so runs as soon as every earlier held item has run.
   */
  lemma RouteHolds(cfg: Config, s: FormState, offset: nat)
    requires s.error.None?
    ensures var r := RoutePart(cfg, s, offset);
            var d := r.destStream.value;
            r.flushing == s.flushing + 1 &&
            r.nextItem == s.nextItem + 1 &&
            (d.route != ToPart ==>
               r.emitQueue == s.emitQueue + [Item(s.nextItem, Some(d.id), None, None)] &&
               d.item == Some(s.nextItem)) &&
            (d.route == ToPart && |s.emitQueue| == 0 ==>
               r.emitQueue == [] && r.log[|r.log| - 1] == Invoked(s.nextItem, EmitPart(d.id)))
  {
    var d := NewPartStream(cfg, s, offset);
    DispatchHolds(s.(destStream := Some(d)), d);
  }

  /**
   * Dispatching with no error recorded counts a flush and holds a new item;
   * a field or file item waits at the queue's end, and a part's item is
   * released at once, so with nothing ahead of it `part` is emitted now.
   */
  lemma DispatchHolds(s: FormState, d: PartStream)
    requires s.error.None?
    ensures var r := Dispatch(s, d);
            r.flushing == s.flushing + 1 && r.nextItem == s.nextItem + 1 &&
            (d.route != ToPart ==> r.emitQueue == s.emitQueue + [Item(s.nextItem, Some(d.id), None, None)]) &&
            (d.route == ToPart && |s.emitQueue| == 0 ==>
               r.emitQueue == [] && r.log[|r.log| - 1] == Invoked(s.nextItem, EmitPart(d.id)))
  {
    if d.route == ToPart && |s.emitQueue| == 0 {
      var h := Hold(BeginFlush(s), Some(d.id));
      assert h.emitQueue == [Item(s.nextItem, Some(d.id), None, None)];
      var q := SetCallback(h.emitQueue, s.nextItem, EmitPart(d.id));
      assert q == [Item(s.nextItem, Some(d.id), Some(EmitPart(d.id)), None)];
      assert ReleasedPrefix(q) == 1;
      assert q[..1] == q;
      assert Invocations(q) == Invocation(q[0]);
    }
  }

  /** A header's name is stored lower-cased, and a later header of the same name, in any case, replaces it. */
  lemma LaterHeaderOverwrites(s: FormState, f1: seq<byte>, v1: seq<byte>, f2: seq<byte>, v2: seq<byte>)
    requires ToLowerBytes(f1) == ToLowerBytes(f2)
    ensures var r1 := OnHeaderEnd(s.(headerField := f1, headerValue := v1));
            var r2 := OnHeaderEnd(r1.(headerField := f2, headerValue := v2));
            ToLowerBytes(f1) in r2.partHeaders && r2.partHeaders[ToLowerBytes(f1)] == v2 &&
            r2.partHeaders.Keys == s.partHeaders.Keys + {ToLowerBytes(f1)}
  {
  }

  /** A content-disposition header, in any case, names the part. */
  lemma DispositionNamesPart(s: FormState, f: seq<byte>, n: seq<byte>)
    requires ToLowerBytes(f) == CONTENT_DISPOSITION
    requires |n| > 0 && QUOTE !in n
    ensures OnHeaderEnd(s.(headerField := f, headerValue := NAME_PREFIX + n + [QUOTE])).partName == Some(n)
  {
    NameRoundTrip(n);
  }
}
