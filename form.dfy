/**
 * The `Form` object itself: the fields `_write` and its callbacks update in
 * place, the `lookbehind` buffer as an array, the emit queue as a sequence
 * that items are pushed onto and shifted off, and the counters. Every
 * method is proved to leave the form in the state the pure function of the
 * same name computes from the state it found, so what is proved about those
 * functions holds of the object.
 *
 * `_write` keeps the scanner's `state` and `index` in locals while it scans
 * a chunk and stores them at the chunk's end. The methods it calls take
 * those locals as the ghost parameters `st` and `idx` and are specified on
 * `View(st, idx)`, the form as the scanner sees it; none of them touches
 * the fields `state` and `index`.
 */
module Parser {
  import opened Common
  import opened Numbers
  import opened Disposition
  import opened State
  import opened Queue
  import opened Parts
  import opened Scanner
  import ScannerProofs
  import opened Ordering

  class Form {
    const cfg: Config
    const lookbehind: array<byte>
    /** The bytes that occur in the delimiter, which the skip looks up. */
    const boundaryChars: set<byte>
    // boundary scanner
    var state: ScanState
    var index: int
    var partBoundaryFlag: bool
    var headerFieldMark: Option<nat>
    var headerValueMark: Option<nat>
    var partDataMark: Option<nat>
    // the part being parsed
    var headerField: seq<byte>
    var headerValue: seq<byte>
    var partHeaders: map<seq<byte>, seq<byte>>
    var partName: Option<seq<byte>>
    var partFilename: Option<seq<byte>>
    var partTransferEncoding: seq<byte>
    var destStream: Option<PartStream>
    // counters
    var bytesReceived: nat
    var bytesExpected: Measure
    var totalFieldCount: nat
    var totalFieldSize: nat
    var totalFileSize: int
    var flushing: int
    // ordering and errors
    var emitQueue: seq<Item>
    var nextItem: nat
    var error: Option<Failure>
    var backpressure: bool
    var writeCbs: seq<nat>
    var log: seq<Event>

    /** The form as a value. */
    ghost function Model(): FormState
      reads this, lookbehind
    {
      View(state, index)
    }

    /** The form while `_write` holds the scanner's state and index in its locals `st` and `idx`. */
    ghost function View(st: ScanState, idx: int): FormState
      reads this, lookbehind
    {
      FormState(st, idx, lookbehind[..], partBoundaryFlag, headerFieldMark, headerValueMark, partDataMark,
                headerField, headerValue, partHeaders, partName, partFilename, partTransferEncoding, destStream,
                bytesReceived, bytesExpected, totalFieldCount, totalFieldSize, totalFileSize, flushing,
                emitQueue, nextItem, error, backpressure, writeCbs, log)
    }

    /** What one scanner step leaves: a stop on an error, or the position to go on from. */
    ghost function Result(st: ScanState, idx: int, at: nat, stopped: bool): Outcome
      reads this, lookbehind
    {
      if stopped then Stop(View(st, idx)) else Next(View(st, idx), at)
    }

    /** What holds between calls to the form's methods. */
    ghost predicate Valid()
      reads this, lookbehind
    {
      CharsOf(boundaryChars, cfg.boundary) && Sound(cfg, Model())
    }

    static ghost predicate CharsOf(chars: set<byte>, b: seq<byte>)
    {
      forall c :: c in chars <==> c in b
    }

    /** Looking a byte up in the set is looking for it in the delimiter. */
    static lemma LookUp(chars: set<byte>, b: seq<byte>, c: byte)
      requires CharsOf(chars, b)
      ensures c in chars <==> c in b
    {
    }

    /**
     * `new Form(options)` followed by `setUpParser(token)`: the delimiter is
     * built, the lookbehind buffer is allocated zero-filled with room for the
     * delimiter and 8 more bytes, and scanning starts at START.
     */
    constructor (o: Options, token: seq<byte>, expected: Measure)
      requires |token| > 0
      ensures cfg == Configure(o, token)
      ensures Model() == Initial(cfg, expected) && Valid()
      ensures fresh(lookbehind)
    {
      var boundary := Configure(o, token).boundary;
      var chars: set<byte> := {};
      for k := 0 to |boundary|
        invariant CharsOf(chars, boundary[..k])
      {
        assert boundary[..k + 1] == boundary[..k] + [boundary[k]];
        chars := chars + {boundary[k]};
      }
      assert boundary[..|boundary|] == boundary;
      boundaryChars := chars;
      cfg := Configure(o, token);
      lookbehind := new byte[|token| + 4 + 8](_ => 0);
      state, index, partBoundaryFlag := Start, 0, false;
      headerFieldMark, headerValueMark, partDataMark := None, None, None;
      headerField, headerValue, partHeaders := [], [], map[];
      partName, partFilename, partTransferEncoding, destStream := None, None, BINARY, None;
      bytesReceived, bytesExpected := 0, expected;
      totalFieldCount, totalFieldSize, totalFileSize, flushing := 0, 0, 0, 1;
      emitQueue, nextItem, error, backpressure, writeCbs, log := [], 0, None, false, [], [];
      new;
      assert lookbehind[..] == seq(|cfg.boundary| + 8, _ => 0);
      InitialSound(cfg, expected);
    }

    /** Callbacks made or events emitted, recorded in the log in order. */
    method Emit(events: seq<Event>, ghost st: ScanState, ghost idx: int)
      modifies this
      ensures View(st, idx) == old(View(st, idx)).(log := old(log) + events)
      ensures unchanged(this`state, this`index)
    {
      log := log + events;
    }

    // -------------------------------------------------------------------
    // The emit queue and the flush counter
    // -------------------------------------------------------------------

    /** `beginFlush`. */
    method BeginFlush(ghost st: ScanState, ghost idx: int)
      modifies this
      ensures View(st, idx) == Queue.BeginFlush(old(View(st, idx)))
      ensures unchanged(this`state, this`index)
    {
      flushing := flushing + 1;
    }

    /** `holdEmitQueue(self, ee)`: push an unreleased item and return its id, which names the closure. */
    method Hold(ee: Option<nat>, ghost st: ScanState, ghost idx: int) returns (id: nat)
      modifies this
      ensures id == old(nextItem)
      ensures View(st, idx) == Queue.Hold(old(View(st, idx)), ee)
      ensures unchanged(this`state, this`index)
    {
      id := nextItem;
      emitQueue := emitQueue + [Item(id, ee, None, None)];
      nextItem := nextItem + 1;
    }

    /** `flushEmitQueue`: shift and invoke items while the head has its callback. */
    method FlushEmitQueue(ghost st: ScanState, ghost idx: int)
      modifies this
      ensures View(st, idx) == Flush(old(View(st, idx)))
      ensures unchanged(this`state, this`index)
    {
      ghost var v := View(st, idx);
      var queue, events := ShiftReleased(emitQueue, log);
      assert Flush(v) == v.(emitQueue := queue, log := events);
      emitQueue, log := queue, events;
    }

    /** The loop of `flushEmitQueue` on the queue `q` and the log `e` it appends to. */
    static method ShiftReleased(q: seq<Item>, e: seq<Event>) returns (queue: seq<Item>, events: seq<Event>)
      ensures queue == q[ReleasedPrefix(q)..]
      ensures events == e + Invocations(q[..ReleasedPrefix(q)])
    {
      queue, events := q, e;
      ghost var n := 0;
      while |queue| > 0 && queue[0].cb.Some?
        invariant n <= ReleasedPrefix(q) && queue == q[n..]
        invariant events == e + Invocations(q[..n])
        decreases |queue|
      {
        var item := queue[0];
        queue := queue[1..];
        events := events + [Invoked(item.id, item.cb.value)];
        if item.err.Some? && item.ee.Some? {
          events := events + [StreamError(item.ee.value, item.err.value)];
        }
        assert q[..n + 1] == q[..n] + [item];
        InvocationsSnoc(q[..n], item);
        n := n + 1;
      }
    }

    /** The closure `holdEmitQueue` returned for item `id`, called with `cb`. */
    method Release(id: nat, cb: Callback, ghost st: ScanState, ghost idx: int)
      modifies this
      ensures View(st, idx) == Queue.Release(old(View(st, idx)), id, cb)
      ensures unchanged(this`state, this`index)
    {
      emitQueue := SetCallback(emitQueue, id, cb);
      FlushEmitQueue(st, idx);
    }

    /** `errorEventQueue`: emit now, or tag every item of the emitter with the error. */
    method ErrorEventQueue(ee: nat, err: Failure, ghost st: ScanState, ghost idx: int)
      modifies this
      ensures View(st, idx) == Queue.ErrorEventQueue(old(View(st, idx)), ee, err)
      ensures unchanged(this`state, this`index)
    {
      if !Holds(emitQueue, ee) {
        Emit([StreamError(ee, err)], st, idx);
        return;
      }
      var queue := TagItems(emitQueue, ee, err);
      emitQueue := queue;
    }

    /** The loop of `errorEventQueue` that sets `err` on every item of emitter `ee`. */
    static method TagItems(q: seq<Item>, ee: nat, err: Failure) returns (queue: seq<Item>)
      ensures queue == Tag(q, ee, err)
    {
      queue := q;
      for k := 0 to |queue|
        invariant |queue| == |q|
        invariant forall j | 0 <= j < |q| ::
                    queue[j] == if j < k && q[j].ee == Some(ee) then q[j].(err := Some(err)) else q[j]
      {
        if queue[k].ee == Some(ee) {
          queue := queue[k := queue[k].(err := Some(err))];
        }
      }
    }

    /** `handleError`: only the first error is recorded, passed to the part stream, and emitted. */
    method HandleError(e: Failure, ghost st: ScanState, ghost idx: int)
      modifies this
      ensures View(st, idx) == Queue.HandleError(old(View(st, idx)), e)
      ensures unchanged(this`state, this`index)
    {
      if error.Some? {
        return;
      }
      RecordError(e, st, idx);
      if destStream.Some? {
        ErrorEventQueue(destStream.value.id, e, st, idx);
      }
      Emit([Error(e)], st, idx);
    }

    /** The first error is kept in `error`. */
    method RecordError(e: Failure, ghost st: ScanState, ghost idx: int)
      modifies this
      ensures View(st, idx) == old(View(st, idx)).(error := Some(e))
      ensures unchanged(this`state, this`index)
    {
      error := Some(e);
    }

    /** `maybeClose`. */
    method MaybeClose(ghost st: ScanState, ghost idx: int)
      modifies this
      ensures View(st, idx) == Queue.MaybeClose(old(View(st, idx)))
      ensures unchanged(this`state, this`index)
    {
      if flushing > 0 || error.Some? {
        return;
      }
      var id := Hold(None, st, idx);
      Release(id, EmitClose, st, idx);
    }

    /** `endFlush`. */
    method EndFlush(ghost st: ScanState, ghost idx: int)
      modifies this
      ensures View(st, idx) == Queue.EndFlush(old(View(st, idx)))
      ensures unchanged(this`state, this`index)
    {
      flushing := flushing - 1;
      if flushing < 0 {
        HandleError(UnexpectedEndFlush, st, idx);
        return;
      }
      ghost var v := View(st, idx);
      assert Queue.EndFlush(old(View(st, idx))) == Queue.MaybeClose(v);
      MaybeClose(st, idx);
    }

    /** `flushWriteCbs`: schedule every postponed write callback in order, then empty the queue. */
    method FlushWriteCbs(ghost st: ScanState, ghost idx: int)
      modifies this
      ensures View(st, idx) == Queue.FlushWriteCbs(old(View(st, idx)))
      ensures unchanged(this`state, this`index)
    {
      var acks := Schedule(writeCbs);
      Emit(acks, st, idx);
      ClearWriteCbs(st, idx);
    }

    /** The `forEach` of `flushWriteCbs`: one acknowledgement per postponed callback, in order. */
    static method Schedule(cbs: seq<nat>) returns (acks: seq<Event>)
      ensures acks == Acks(cbs)
    {
      acks := [];
      for k := 0 to |cbs|
        invariant acks == Acks(cbs[..k])
      {
        acks := acks + [WriteAck(cbs[k])];
        assert Acks(cbs[..k + 1]) == Acks(cbs[..k]) + [WriteAck(cbs[k])];
      }
      assert cbs[..|cbs|] == cbs;
    }

    /** No callback is postponed any more and the part stream is taken to accept data again. */
    method ClearWriteCbs(ghost st: ScanState, ghost idx: int)
      modifies this
      ensures View(st, idx) == old(View(st, idx)).(writeCbs := [], backpressure := false)
      ensures unchanged(this`state, this`index)
    {
      writeCbs := [];
      backpressure := false;
    }

    // -------------------------------------------------------------------
    // Part callbacks (index.js:468-559, 759-770)
    // -------------------------------------------------------------------

    /** `clearPartVars`. */
    method ClearPartVars(ghost st: ScanState, ghost idx: int)
      modifies this
      ensures View(st, idx) == Parts.ClearPartVars(old(View(st, idx)))
      ensures unchanged(this`state, this`index)
    {
      ForgetPart(st, idx);
      NewHeaderLine(st, idx);
    }

    /** The first half of `clearPartVars`. */
    method ForgetPart(ghost st: ScanState, ghost idx: int)
      modifies this
      ensures View(st, idx) == Parts.ForgetPart(old(View(st, idx)))
      ensures unchanged(this`state, this`index)
    {
      partHeaders := map[];
      partName := None;
      partFilename := None;
      partTransferEncoding := BINARY;
      destStream := None;
    }

    /** The header name and value start over. */
    method NewHeaderLine(ghost st: ScanState, ghost idx: int)
      modifies this
      ensures View(st, idx) == Parts.NewHeaderLine(old(View(st, idx)))
      ensures unchanged(this`state, this`index)
    {
      headerField := [];
      headerValue := [];
    }

    /** `onParsePartBegin`. */
    method OnPartBegin(ghost st: ScanState, ghost idx: int)
      modifies this
      ensures View(st, idx) == Parts.OnPartBegin(old(View(st, idx)))
      ensures unchanged(this`state, this`index)
    {
      Emit([PartBegin], st, idx);
      ClearPartVars(st, idx);
    }

    /** `onParseHeaderField`. */
    method OnHeaderField(b: seq<byte>, ghost st: ScanState, ghost idx: int)
      modifies this
      ensures View(st, idx) == Parts.OnHeaderField(old(View(st, idx)), b)
      ensures unchanged(this`state, this`index)
    {
      log := log + [HeaderFieldData(b)];
      headerField := headerField + b;
    }

    /** `onParseHeaderValue`. */
    method OnHeaderValue(b: seq<byte>, ghost st: ScanState, ghost idx: int)
      modifies this
      ensures View(st, idx) == Parts.OnHeaderValue(old(View(st, idx)), b)
      ensures unchanged(this`state, this`index)
    {
      log := log + [HeaderValueData(b)];
      headerValue := headerValue + b;
    }

    /** `onParseHeaderEnd`. */
    method OnHeaderEnd(ghost st: ScanState, ghost idx: int)
      modifies this
      ensures View(st, idx) == Parts.OnHeaderEnd(old(View(st, idx)))
      ensures unchanged(this`state, this`index)
    {
      Emit([HeaderEnd], st, idx);
      StoreHeader(st, idx);
      ApplyHeader(headerField, headerValue, st, idx);
      NewHeaderLine(st, idx);
    }

    /** The header name is lower-cased and the header recorded under it, replacing one of the same name. */
    method StoreHeader(ghost st: ScanState, ghost idx: int)
      modifies this
      ensures View(st, idx) == old(View(st, idx)).(headerField := ToLowerBytes(old(headerField)),
                                                   partHeaders := old(partHeaders)[ToLowerBytes(old(headerField)) := old(headerValue)])
      ensures unchanged(this`state, this`index)
    {
      headerField := ToLowerBytes(headerField);
      partHeaders := partHeaders[headerField := headerValue];
    }

    /** What the header just read sets besides the header map: name and filename, or the encoding. */
    method ApplyHeader(field: seq<byte>, value: seq<byte>, ghost st: ScanState, ghost idx: int)
      modifies this
      ensures View(st, idx) == Parts.ApplyHeader(old(View(st, idx)), field, value)
      ensures unchanged(this`state, this`index)
    {
      if field == CONTENT_DISPOSITION {
        ApplyDisposition(value, st, idx);
      } else if field == CONTENT_TRANSFER_ENCODING {
        partTransferEncoding := ToLowerBytes(value);
      }
    }

    /** A content-disposition header: the name when it carries one, and the filename it gives or lacks. */
    method ApplyDisposition(value: seq<byte>, ghost st: ScanState, ghost idx: int)
      modifies this
      ensures View(st, idx) == old(View(st, idx)).(partName := if FindName(value).Some? then FindName(value) else old(partName),
                                                   partFilename := ParseFilename(value))
      ensures unchanged(this`state, this`index)
    {
      var m := FindName(value);
      if m.Some? {
        partName := m;
      }
      partFilename := ParseFilename(value);
    }

    /** `onParsePartData`: `congested` is the part stream's answer to `write`. */
    method OnPartData(b: seq<byte>, congested: bool, ghost st: ScanState, ghost idx: int)
      modifies this
      ensures View(st, idx) == Parts.OnPartData(old(View(st, idx)), b, congested)
      ensures unchanged(this`state, this`index)
    {
      log := log + [Data(b)];
      backpressure := congested;
    }

    /** `onParsePartEnd`. */
    method OnPartEnd(ghost st: ScanState, ghost idx: int)
      modifies this
      ensures View(st, idx) == Parts.OnPartEnd(old(View(st, idx)))
      ensures unchanged(this`state, this`index)
    {
      Emit([PartEnd], st, idx);
      if destStream.Some? {
        FlushWriteCbs(st, idx);
      }
      ClearPartVars(st, idx);
    }

    /** `handleField`: one more flush, and an item held until the field has been read. */
    method HandleField(d: PartStream, ghost st: ScanState, ghost idx: int)
      requires d.route == ToField
      modifies this
      ensures View(st, idx) == Dispatch(old(View(st, idx)), d)
      ensures unchanged(this`state, this`index)
    {
      BeginFlush(st, idx);
      var _ := Hold(Some(d.id), st, idx);
    }

    /** `handleFile`: nothing after an error; otherwise one more flush and an item held until the file is written. */
    method HandleFile(d: PartStream, ghost st: ScanState, ghost idx: int)
      requires d.route == ToFile
      modifies this
      ensures View(st, idx) == Dispatch(old(View(st, idx)), d)
      ensures unchanged(this`state, this`index)
    {
      if error.Some? {
        return;
      }
      BeginFlush(st, idx);
      var _ := Hold(Some(d.id), st, idx);
    }

    /** `handlePart`: one more flush, and an item released at once with the `part` emission. */
    method HandlePart(d: PartStream, ghost st: ScanState, ghost idx: int)
      requires d.route == ToPart
      modifies this
      ensures View(st, idx) == Dispatch(old(View(st, idx)), d)
      ensures unchanged(this`state, this`index)
    {
      BeginFlush(st, idx);
      var id := Hold(Some(d.id), st, idx);
      Release(id, EmitPart(d.id), st, idx);
    }

    /**
     * `onParseHeadersEnd(offset)`: check and normalise the transfer
     * encoding, count the part, then build its stream and route it. Returns
     * the error `_write` must raise, if any.
     */
    method OnHeadersEnd(offset: nat, ghost st: ScanState, ghost idx: int) returns (err: Option<Failure>)
      modifies this
      ensures (View(st, idx), err) == Parts.OnHeadersEnd(cfg, old(View(st, idx)), offset)
      ensures unchanged(this`state, this`index)
    {
      Emit([HeadersEnd(offset)], st, idx);
      var known := NormalizeTransferEncoding(st, idx);
      if !known {
        return Some(UnknownTransferEncoding(partTransferEncoding));
      }
      err := CountAndRoute(offset, st, idx);
    }

    /** The part is counted; past `maxFields` that is the error, otherwise the part is routed. */
    method CountAndRoute(offset: nat, ghost st: ScanState, ghost idx: int) returns (err: Option<Failure>)
      modifies this
      ensures (View(st, idx), err) == Parts.CountAndRoute(cfg, old(View(st, idx)), offset)
      ensures unchanged(this`state, this`index)
    {
      CountPart(st, idx);
      if totalFieldCount > cfg.maxFields {
        return Some(MaxFieldsExceeded(cfg.maxFields));
      }
      Route(offset, st, idx);
      return None;
    }

    /** The `switch` on the transfer encoding: binary, 7bit and 8bit become binary, base64 stays. */
    method NormalizeTransferEncoding(ghost st: ScanState, ghost idx: int) returns (known: bool)
      modifies this
      ensures known == NormalizeEncoding(old(partTransferEncoding)).Some?
      ensures known ==> View(st, idx) == old(View(st, idx)).(partTransferEncoding := NormalizeEncoding(old(partTransferEncoding)).value)
      ensures !known ==> View(st, idx) == old(View(st, idx))
      ensures unchanged(this`state, this`index)
    {
      if partTransferEncoding == BINARY || partTransferEncoding == SEVEN_BIT || partTransferEncoding == EIGHT_BIT {
        partTransferEncoding := BINARY;
      } else if partTransferEncoding != BASE64 {
        return false;
      }
      return true;
    }

    /** `totalFieldCount += 1`. */
    method CountPart(ghost st: ScanState, ghost idx: int)
      modifies this
      ensures View(st, idx) == old(View(st, idx)).(totalFieldCount := old(totalFieldCount) + 1)
      ensures unchanged(this`state, this`index)
    {
      totalFieldCount := totalFieldCount + 1;
    }

    /** The part stream of a counted part, with its properties, handed to `handleField`, `handleFile` or `handlePart`. */
    method Route(offset: nat, ghost st: ScanState, ghost idx: int)
      modifies this
      ensures View(st, idx) == RoutePart(cfg, old(View(st, idx)), offset)
      ensures unchanged(this`state, this`index)
    {
      ghost var v := View(st, idx);
      var byteOffset := bytesReceived + offset;
      var route := RouteOf(cfg, partFilename);
      var d := PartStream(totalFieldCount, partHeaders, partName, partFilename, partTransferEncoding,
                          byteOffset, ByteCount(cfg, partHeaders, bytesExpected, byteOffset),
                          route, if route == ToFile && error.Some? then None else Some(nextItem));
      assert d == NewPartStream(cfg, v, offset);
      Attach(d, st, idx);
      match route {
        case ToField => HandleField(d, st, idx);
        case ToFile => HandleFile(d, st, idx);
        case ToPart => HandlePart(d, st, idx);
      }
    }

    /** `self.destStream = ...`: the part's stream becomes the one data is written to. */
    method Attach(d: PartStream, ghost st: ScanState, ghost idx: int)
      modifies this
      ensures View(st, idx) == old(View(st, idx)).(destStream := Some(d))
      ensures unchanged(this`state, this`index)
    {
      destStream := Some(d);
    }

    // -------------------------------------------------------------------
    // The cases of the `switch` in `_write` (index.js:243-440)
    // -------------------------------------------------------------------

    /** START_BOUNDARY (index.js:251-272): one byte of the first delimiter, or of the preamble before it. */
    method StartBoundaryByte(buffer: seq<byte>, i: nat, idx: int) returns (st1: ScanState, idx1: int, at: nat, stopped: bool)
      requires Ready(cfg, View(StartBoundary, idx), buffer, i)
      modifies this
      ensures StartBoundaryStep(cfg, old(View(StartBoundary, idx)), buffer, i) == Result(st1, idx1, at, stopped)
      ensures unchanged(this`state, this`index)
    {
      var boundaryLength := |cfg.boundary|;
      var c := buffer[i];
      if idx == boundaryLength - 2 && c == HYPHEN {
        return CloseBoundary, 1, i + 1, false;
      } else if idx == boundaryLength - 2 {
        if c != CR {
          HandleError(ExpectedCR(c), StartBoundary, idx);
          return StartBoundary, idx, i, true;
        }
        return StartBoundary, idx + 1, i + 1, false;
      } else if idx == boundaryLength - 1 {
        if c != LF {
          HandleError(ExpectedLF(c), StartBoundary, idx);
          return StartBoundary, idx, i, true;
        }
        OnPartBegin(StartBoundary, 0);
        return HeaderFieldStart, 0, i + 1, false;
      }
      var index := idx;
      if c != cfg.boundary[index + 2] {
        index := -2;
      }
      if c == cfg.boundary[index + 2] {
        index := index + 1;
      }
      return StartBoundary, index, i + 1, false;
    }

    /** HEADER_FIELD (index.js:282-312): one byte of a header name, or the CR of the blank line. */
    method HeaderFieldByte(buffer: seq<byte>, i: nat, idx: int) returns (st1: ScanState, idx1: int, at: nat, stopped: bool)
      requires Ready(cfg, View(HeaderField, idx), buffer, i)
      modifies this
      ensures HeaderFieldStep(cfg, old(View(HeaderField, idx)), buffer, i) == Result(st1, idx1, at, stopped)
      ensures unchanged(this`state, this`index)
    {
      var c := buffer[i];
      if c == CR {
        headerFieldMark := None;
        return HeadersAlmostDone, idx, i + 1, false;
      }
      var index := idx + 1;
      if c == HYPHEN {
        return HeaderField, index, i + 1, false;
      }
      if c == COLON {
        if index == 1 {
          HandleError(EmptyHeaderField, HeaderField, idx);
          return HeaderField, idx, i, true;
        }
        OnHeaderField(buffer[Mark(headerFieldMark)..i], HeaderField, idx);
        headerFieldMark := None;
        return HeaderValueStart, index, i + 1, false;
      }
      var cl := Lower(c);
      if cl < A || cl > Z {
        HandleError(ExpectedAlphabetic(c), HeaderField, idx);
        return HeaderField, idx, i, true;
      }
      return HeaderField, index, i + 1, false;
    }

    /** HEADER_VALUE (index.js:319-330): a byte of a header value; CR ends the header. */
    method HeaderValueByte(buffer: seq<byte>, i: nat, idx: int) returns (st1: ScanState, idx1: int, at: nat, stopped: bool)
      requires Ready(cfg, View(HeaderValue, idx), buffer, i)
      modifies this
      ensures HeaderValueStep(cfg, old(View(HeaderValue, idx)), buffer, i) == Result(st1, idx1, at, stopped)
      ensures unchanged(this`state, this`index)
    {
      if buffer[i] == CR {
        OnHeaderValue(buffer[Mark(headerValueMark)..i], HeaderValue, idx);
        headerValueMark := None;
        OnHeaderEnd(HeaderValue, idx);
        return HeaderValueAlmostDone, idx, i + 1, false;
      }
      return HeaderValue, idx, i + 1, false;
    }

    /** HEADERS_ALMOST_DONE (index.js:336-342): the LF of the blank line, then the part is handed on. */
    method HeadersAlmostDoneByte(buffer: seq<byte>, i: nat, idx: int) returns (st1: ScanState, idx1: int, at: nat, stopped: bool)
      requires Ready(cfg, View(HeadersAlmostDone, idx), buffer, i)
      modifies this
      ensures HeadersAlmostDoneStep(cfg, old(View(HeadersAlmostDone, idx)), buffer, i) == Result(st1, idx1, at, stopped)
      ensures unchanged(this`state, this`index)
    {
      var c := buffer[i];
      if c != LF {
        HandleError(ExpectedLF(c), HeadersAlmostDone, idx);
        return HeadersAlmostDone, idx, i, true;
      }
      var err := OnHeadersEnd(i + 1, HeadersAlmostDone, idx);
      if err.Some? {
        HandleError(err.value, HeadersAlmostDone, idx);
        return HeadersAlmostDone, idx, i, true;
      }
      return PartDataStart, 0, i + 1, false;
    }

    /** CLOSE_BOUNDARY (index.js:424-433): the second hyphen of the close delimiter. */
    method CloseBoundaryByte(buffer: seq<byte>, i: nat, idx: int) returns (st1: ScanState, idx1: int, at: nat, stopped: bool)
      requires Ready(cfg, View(CloseBoundary, idx), buffer, i)
      modifies this
      ensures CloseBoundaryStep(cfg, old(View(CloseBoundary, idx)), buffer, i) == Result(st1, idx1, at, stopped)
      ensures unchanged(this`state, this`index)
    {
      var c := buffer[i];
      if c != HYPHEN {
        HandleError(ExpectedHyphen(c), CloseBoundary, idx);
        return CloseBoundary, idx, i, true;
      }
      if idx == 1 {
        OnPartEnd(CloseBoundary, idx);
        return End, 2, i + 1, false;
      } else if idx > 1 {
        HandleError(InvalidState, CloseBoundary, idx);
        return CloseBoundary, idx, i, true;
      }
      return CloseBoundary, idx + 1, i + 1, false;
    }

    /**
     * The Boyer-Moore-Horspool skip of PART_DATA (index.js:353-362): probe
     * the byte a delimiter starting at `j` would end on, and move a whole
     * delimiter length on while it is not a delimiter byte.
     */
    method SkipAhead(buffer: seq<byte>, i: nat) returns (land: nat)
      requires ValidConfig(cfg) && CharsOf(boundaryChars, cfg.boundary) && i <= |buffer|
      ensures land == Skip(cfg, buffer, i)
    {
      var boundaryEnd := |cfg.boundary| - 1;
      var j := i + boundaryEnd;
      while j < |buffer| && buffer[j] !in boundaryChars
        invariant i <= j - boundaryEnd <= |buffer|
        invariant Skip(cfg, buffer, i) == Skip(cfg, buffer, j - boundaryEnd)
        decreases |buffer| - j
      {
        LookUp(boundaryChars, cfg.boundary, buffer[j]);
        assert Skip(cfg, buffer, j - boundaryEnd) == Skip(cfg, buffer, j - boundaryEnd + |cfg.boundary|);
        j := j + |cfg.boundary|;
      }
      if j < |buffer| {
        LookUp(boundaryChars, cfg.boundary, buffer[j]);
      }
      land := j - boundaryEnd;
    }

    /**
     * PART_DATA after the skip (index.js:364-421): byte `j` extends a
     * candidate delimiter, completes one, or breaks it; the bytes of a
     * broken candidate are sent on as part data and byte `j` is scanned
     * again. The three branches on the matched length are the methods below.
     */
    method PartDataByte(buffer: seq<byte>, j: nat, prevIndex: int, congested: bool)
      returns (st1: ScanState, idx1: int, at: nat, stopped: bool)
      requires Ready(cfg, View(PartData, prevIndex), buffer, j)
      modifies this, lookbehind
      ensures Scanner.PartDataByte(cfg, old(View(PartData, prevIndex)), buffer, j, congested) == Result(st1, idx1, at, stopped)
      ensures unchanged(this`state, this`index)
    {
      if prevIndex < |cfg.boundary| {
        st1, idx1, at, stopped := WithinDelimiter(buffer, j, prevIndex, congested);
      } else if prevIndex == |cfg.boundary| {
        st1, idx1, at, stopped := AfterDelimiter(buffer, j, congested);
      } else {
        st1, idx1, at, stopped := AfterPartBoundaryCR(buffer, j, congested);
      }
    }

    /** Fewer than all delimiter bytes matched (index.js:364-376): the first match sends the data before it on. */
    method WithinDelimiter(buffer: seq<byte>, j: nat, prevIndex: int, congested: bool)
      returns (st1: ScanState, idx1: int, at: nat, stopped: bool)
      requires Ready(cfg, View(PartData, prevIndex), buffer, j) && prevIndex < |cfg.boundary|
      modifies this, lookbehind
      ensures Scanner.PartDataByte(cfg, old(View(PartData, prevIndex)), buffer, j, congested) == Result(st1, idx1, at, stopped)
      ensures unchanged(this`state, this`index)
    {
      var c := buffer[j];
      var index := prevIndex;
      if cfg.boundary[index] == c {
        if index == 0 {
          OnPartData(buffer[Mark(partDataMark)..j], congested, PartData, 0);
          partDataMark := None;
        }
        index := index + 1;
      } else {
        index := 0;
      }
      st1, idx1, at, stopped := KeepOrReplay(buffer, j, index, prevIndex, congested);
    }

    /** The whole delimiter matched (index.js:377-391): CR may start a part boundary, a hyphen the close delimiter. */
    method AfterDelimiter(buffer: seq<byte>, j: nat, congested: bool)
      returns (st1: ScanState, idx1: int, at: nat, stopped: bool)
      requires Ready(cfg, View(PartData, |cfg.boundary|), buffer, j)
      modifies this, lookbehind
      ensures Scanner.PartDataByte(cfg, old(View(PartData, |cfg.boundary|)), buffer, j, congested) == Result(st1, idx1, at, stopped)
      ensures unchanged(this`state, this`index)
    {
      var c := buffer[j];
      var prevIndex := |cfg.boundary|;
      var index := prevIndex + 1;
      if c == CR {
        partBoundaryFlag := true;
      } else if c == HYPHEN {
        return CloseBoundary, 1, j + 1, false;
      } else {
        index := 0;
      }
      st1, idx1, at, stopped := KeepOrReplay(buffer, j, index, prevIndex, congested);
    }

    /** The delimiter and a CR matched (index.js:392-405): LF ends the part and begins the next. */
    method AfterPartBoundaryCR(buffer: seq<byte>, j: nat, congested: bool)
      returns (st1: ScanState, idx1: int, at: nat, stopped: bool)
      requires Ready(cfg, View(PartData, |cfg.boundary| + 1), buffer, j)
      modifies this, lookbehind
      ensures Scanner.PartDataByte(cfg, old(View(PartData, |cfg.boundary| + 1)), buffer, j, congested) == Result(st1, idx1, at, stopped)
      ensures unchanged(this`state, this`index)
    {
      var c := buffer[j];
      var prevIndex := |cfg.boundary| + 1;
      var index;
      if partBoundaryFlag {
        index := 0;
        if c == LF {
          st1, idx1, at, stopped := NextPart(j);
          return;
        }
      } else {
        index := 0;
      }
      st1, idx1, at, stopped := KeepOrReplay(buffer, j, index, prevIndex, congested);
    }

    /** CR LF after a delimiter: the part ends, the next one begins, and its headers follow. */
    method NextPart(j: nat) returns (st1: ScanState, idx1: int, at: nat, stopped: bool)
      modifies this
      ensures Result(st1, idx1, at, stopped) ==
              Next(Parts.OnPartBegin(Parts.OnPartEnd(old(View(PartData, 0)).(partBoundaryFlag := false))).(state := HeaderFieldStart), j + 1)
      ensures unchanged(this`state, this`index)
    {
      partBoundaryFlag := false;
      OnPartEnd(PartData, 0);
      OnPartBegin(PartData, 0);
      return HeaderFieldStart, 0, j + 1, false;
    }

    /**
     * The end of a PART_DATA step (index.js:407-421): a byte that extends a
     * candidate delimiter is kept in `lookbehind`; when the candidate broke,
     * the bytes held for it are part data and byte `j` is scanned again.
     */
    method KeepOrReplay(buffer: seq<byte>, j: nat, index: int, prevIndex: int, congested: bool)
      returns (st1: ScanState, idx1: int, at: nat, stopped: bool)
      requires j < |buffer| && 0 <= index <= lookbehind.Length && 0 <= prevIndex <= lookbehind.Length
      modifies this, lookbehind
      ensures index > 0 ==>
                Result(st1, idx1, at, stopped) ==
                Next(old(View(PartData, index)).(lookbehind := old(lookbehind[..])[index - 1 := buffer[j]]), j + 1)
      ensures index == 0 ==> Result(st1, idx1, at, stopped) == Replay(old(View(PartData, prevIndex)), prevIndex, j, congested)
      ensures unchanged(this`state, this`index)
    {
      if index > 0 {
        lookbehind[index - 1] := buffer[j];
      } else if prevIndex > 0 {
        OnPartData(lookbehind[..prevIndex], congested, PartData, 0);
        partDataMark := Some(j);
        return PartData, 0, j, false;
      }
      return PartData, index, j + 1, false;
    }

    /** PART_DATA (index.js:347-423): skip when nothing is matched, then look at the byte landed on. */
    method PartDataScan(buffer: seq<byte>, i: nat, idx: int, congested: bool)
      returns (st1: ScanState, idx1: int, at: nat, stopped: bool)
      requires Ready(cfg, View(PartData, idx), buffer, i) && CharsOf(boundaryChars, cfg.boundary)
      modifies this, lookbehind
      ensures PartDataStep(cfg, old(View(PartData, idx)), buffer, i, congested) == Result(st1, idx1, at, stopped)
      ensures unchanged(this`state, this`index)
    {
      var j := i;
      if idx == 0 {
        j := SkipAhead(buffer, i);
        if j >= |buffer| {
          return PartData, idx, |buffer|, false;
        }
      }
      st1, idx1, at, stopped := PartDataByte(buffer, j, idx, congested);
    }

    /** One iteration of the `for` loop of `_write`: the `switch` on the state, with its fall-throughs. */
    method StepByte(buffer: seq<byte>, i: nat, st: ScanState, idx: int, congested: bool)
      returns (st1: ScanState, idx1: int, at: nat, stopped: bool)
      requires Ready(cfg, View(st, idx), buffer, i) && CharsOf(boundaryChars, cfg.boundary)
      modifies this, lookbehind
      ensures Step(cfg, old(View(st, idx)), buffer, i, congested) == Result(st1, idx1, at, stopped)
      ensures unchanged(this`state, this`index)
    {
      if st.PartDataStart? || st.PartData? || st.CloseBoundary? || st.End? {
        st1, idx1, at, stopped := BodyStep(buffer, i, st, idx, congested);
      } else {
        st1, idx1, at, stopped := HeaderStep(buffer, i, st, idx);
      }
    }

    /** A header name starts at byte `i`. */
    method MarkField(i: nat, ghost st: ScanState, ghost idx: int)
      modifies this
      ensures View(st, idx) == old(View(st, idx)).(headerFieldMark := Some(i))
      ensures unchanged(this`state, this`index)
    {
      headerFieldMark := Some(i);
    }

    /** A header value starts at byte `i`. */
    method MarkValue(i: nat, ghost st: ScanState, ghost idx: int)
      modifies this
      ensures View(st, idx) == old(View(st, idx)).(headerValueMark := Some(i))
      ensures unchanged(this`state, this`index)
    {
      headerValueMark := Some(i);
    }

    /** Part data starts at byte `i`. */
    method MarkData(i: nat, ghost st: ScanState, ghost idx: int)
      modifies this
      ensures View(st, idx) == old(View(st, idx)).(partDataMark := Some(i))
      ensures unchanged(this`state, this`index)
    {
      partDataMark := Some(i);
    }

    /** The cases of the `switch` from START to HEADERS_ALMOST_DONE. */
    method HeaderStep(buffer: seq<byte>, i: nat, st: ScanState, idx: int)
      returns (st1: ScanState, idx1: int, at: nat, stopped: bool)
      requires Ready(cfg, View(st, idx), buffer, i)
      requires !(st.PartDataStart? || st.PartData? || st.CloseBoundary? || st.End?)
      modifies this, lookbehind
      ensures Step(cfg, old(View(st, idx)), buffer, i, false) == Result(st1, idx1, at, stopped)
      ensures unchanged(this`state, this`index)
    {
      if st.Start? || st.StartBoundary? || st.HeaderFieldStart? || st.HeaderField? {
        st1, idx1, at, stopped := NameStep(buffer, i, st, idx);
      } else {
        st1, idx1, at, stopped := ValueStep(buffer, i, st, idx);
      }
    }

    /** The cases from START to HEADER_FIELD: the boundary line and header names. */
    method NameStep(buffer: seq<byte>, i: nat, st: ScanState, idx: int)
      returns (st1: ScanState, idx1: int, at: nat, stopped: bool)
      requires Ready(cfg, View(st, idx), buffer, i)
      requires st.Start? || st.StartBoundary? || st.HeaderFieldStart? || st.HeaderField?
      modifies this, lookbehind
      ensures Step(cfg, old(View(st, idx)), buffer, i, false) == Result(st1, idx1, at, stopped)
      ensures unchanged(this`state, this`index)
    {
      match st {
        case Start =>
          st1, idx1, at, stopped := StartBoundaryByte(buffer, i, 0);
        case StartBoundary =>
          st1, idx1, at, stopped := StartBoundaryByte(buffer, i, idx);
        case HeaderFieldStart =>
          MarkField(i, st, idx);
          st1, idx1, at, stopped := HeaderFieldByte(buffer, i, 0);
        case HeaderField =>
          st1, idx1, at, stopped := HeaderFieldByte(buffer, i, idx);
      }
    }

    /** The cases from HEADER_VALUE_START to HEADERS_ALMOST_DONE: header values and the blank line. */
    method ValueStep(buffer: seq<byte>, i: nat, st: ScanState, idx: int)
      returns (st1: ScanState, idx1: int, at: nat, stopped: bool)
      requires Ready(cfg, View(st, idx), buffer, i)
      requires st.HeaderValueStart? || st.HeaderValue? || st.HeaderValueAlmostDone? || st.HeadersAlmostDone?
      modifies this, lookbehind
      ensures Step(cfg, old(View(st, idx)), buffer, i, false) == Result(st1, idx1, at, stopped)
      ensures unchanged(this`state, this`index)
    {
      match st {
        case HeaderValueStart =>
          if buffer[i] == SPACE {
            return HeaderValueStart, idx, i + 1, false;
          }
          MarkValue(i, st, idx);
          st1, idx1, at, stopped := HeaderValueByte(buffer, i, idx);
        case HeaderValue =>
          st1, idx1, at, stopped := HeaderValueByte(buffer, i, idx);
        case HeaderValueAlmostDone =>
          if buffer[i] != LF {
            HandleError(ExpectedLF(buffer[i]), st, idx);
            return st, idx, i, true;
          }
          return HeaderFieldStart, idx, i + 1, false;
        case HeadersAlmostDone =>
          st1, idx1, at, stopped := HeadersAlmostDoneByte(buffer, i, idx);
      }
    }

    /** The cases of the `switch` from PART_DATA_START to END. */
    method BodyStep(buffer: seq<byte>, i: nat, st: ScanState, idx: int, congested: bool)
      returns (st1: ScanState, idx1: int, at: nat, stopped: bool)
      requires Ready(cfg, View(st, idx), buffer, i) && CharsOf(boundaryChars, cfg.boundary)
      requires st.PartDataStart? || st.PartData? || st.CloseBoundary? || st.End?
      modifies this, lookbehind
      ensures Step(cfg, old(View(st, idx)), buffer, i, congested) == Result(st1, idx1, at, stopped)
      ensures unchanged(this`state, this`index)
    {
      match st {
        case PartDataStart =>
          MarkData(i, st, idx);
          st1, idx1, at, stopped := PartDataScan(buffer, i, idx, congested);
        case PartData =>
          st1, idx1, at, stopped := PartDataScan(buffer, i, idx, congested);
        case CloseBoundary =>
          st1, idx1, at, stopped := CloseBoundaryByte(buffer, i, idx);
        case End =>
          return End, idx, i + 1, false;
      }
    }

    // -------------------------------------------------------------------
    // `_write` (index.js:223-466)
    // -------------------------------------------------------------------

    /** The end of the loop (index.js:442-453): send every open span on and move its mark to 0. */
    method FlushSpans(buffer: seq<byte>, congested: bool, ghost st: ScanState, ghost idx: int)
      requires MarksWithin(View(st, idx), |buffer|)
      modifies this
      ensures View(st, idx) == Scanner.FlushSpans(old(View(st, idx)), buffer, congested)
      ensures unchanged(this`state, this`index)
    {
      FlushFieldSpan(buffer, st, idx);
      FlushValueSpan(buffer, st, idx);
      FlushDataSpan(buffer, congested, st, idx);
    }

    /** The header name read so far in this chunk is sent on. */
    method FlushFieldSpan(buffer: seq<byte>, ghost st: ScanState, ghost idx: int)
      requires MarksWithin(View(st, idx), |buffer|)
      modifies this
      ensures View(st, idx) == Scanner.FlushFieldSpan(old(View(st, idx)), buffer)
      ensures unchanged(this`state, this`index)
    {
      if headerFieldMark.Some? {
        OnHeaderField(buffer[headerFieldMark.value..], st, idx);
        headerFieldMark := Some(0);
      }
    }

    /** The header value read so far in this chunk is sent on. */
    method FlushValueSpan(buffer: seq<byte>, ghost st: ScanState, ghost idx: int)
      requires MarksWithin(View(st, idx), |buffer|)
      modifies this
      ensures View(st, idx) == Scanner.FlushValueSpan(old(View(st, idx)), buffer)
      ensures unchanged(this`state, this`index)
    {
      if headerValueMark.Some? {
        OnHeaderValue(buffer[headerValueMark.value..], st, idx);
        headerValueMark := Some(0);
      }
    }

    /** The part data read so far in this chunk is sent on. */
    method FlushDataSpan(buffer: seq<byte>, congested: bool, ghost st: ScanState, ghost idx: int)
      requires MarksWithin(View(st, idx), |buffer|)
      modifies this
      ensures View(st, idx) == Scanner.FlushDataSpan(old(View(st, idx)), buffer, congested)
      ensures unchanged(this`state, this`index)
    {
      if partDataMark.Some? {
        OnPartData(buffer[partDataMark.value..], congested, st, idx);
        partDataMark := Some(0);
      }
    }

    /** The chunk's bytes are counted and reported (index.js:458-459). */
    method CountChunk(n: nat)
      modifies this
      ensures Model() == CountBytes(old(Model()), n)
    {
      bytesReceived := bytesReceived + n;
      log := log + [Progress(bytesReceived, bytesExpected)];
    }

    /** The chunk's callback is called, or queued while the part stream pushes back (index.js:461-465). */
    method AnswerWrite(cb: nat)
      modifies this
      ensures Model() == Answer(old(Model()), cb)
    {
      if backpressure {
        writeCbs := writeCbs + [cb];
      } else {
        log := log + [WriteAck(cb)];
      }
    }

    /** After the loop (index.js:442-465): spans flushed, `index` and `state` stored, the chunk acknowledged. */
    method EndOfChunk(buffer: seq<byte>, cb: nat, congested: bool, st: ScanState, idx: int)
      requires MarksWithin(View(st, idx), |buffer|)
      modifies this
      ensures Model() == Scanner.Acknowledge(Scanner.FlushSpans(old(View(st, idx)), buffer, congested), |buffer|, cb)
    {
      ghost var scanned := View(st, idx);
      FlushSpans(buffer, congested, st, idx);
      index := idx;
      state := st;
      assert Model() == Scanner.FlushSpans(scanned, buffer, congested);
      CountChunk(|buffer|);
      AnswerWrite(cb);
    }

    /**
     * `_write(buffer, encoding, cb)`. The scanner's state and index live in
     * locals; an error returns at once without storing them.
     */
    method Write(buffer: seq<byte>, cb: nat, congested: bool)
      requires Valid()
      modifies this, lookbehind
      ensures Model() == Scanner.Write(cfg, old(Model()), buffer, cb, congested)
      ensures Valid()
    {
      ghost var s0 := Model();
      WriteSound(cfg, s0, buffer, cb, congested);
      if error.Some? {
        return;
      }
      var st, idx, stopped := Scan(buffer, congested);
      if stopped {
        return;
      }
      EndOfChunk(buffer, cb, congested, st, idx);
    }

    /** The `for` loop of `_write` (index.js:243-440) over the whole chunk, or up to the step that fails. */
    method Scan(buffer: seq<byte>, congested: bool) returns (st: ScanState, idx: int, stopped: bool)
      requires Valid() && error.None?
      modifies this, lookbehind
      ensures Run(cfg, old(Model()), buffer, 0, congested) == if stopped then Stop(View(st, idx)) else Next(View(st, idx), |buffer|)
      ensures stopped ==> Model() == Restore(old(Model()), View(st, idx))
      ensures unchanged(this`state, this`index)
    {
      ghost var s0 := Model();
      var i := 0;
      st, idx := state, index;
      while i < |buffer|
        invariant i <= |buffer|
        invariant WellFormed(cfg, View(st, idx)) && MarksWithin(View(st, idx), i)
        invariant Run(cfg, s0, buffer, 0, congested) == Run(cfg, View(st, idx), buffer, i, congested)
        invariant state == s0.state && index == s0.index
        decreases |buffer| - i, Rank(View(st, idx))
      {
        ScannerProofs.RunUnfold(cfg, View(st, idx), buffer, i, congested);
        var st1, idx1, at, stop := StepByte(buffer, i, st, idx, congested);
        if stop {
          return st1, idx1, true;
        }
        st, idx, i := st1, idx1, at;
      }
      return st, idx, false;
    }

    // -------------------------------------------------------------------
    // Events from outside `_write`
    // -------------------------------------------------------------------

    /** The `finish` handler of `setUpParser` (index.js:789-794). */
    method Finish()
      requires Valid()
      modifies this
      ensures Valid()
      ensures Model() == Scanner.Finish(old(Model()))
    {
      FinishSound(cfg, Model());
      if state != End {
        HandleError(StreamEndedUnexpectedly, state, index);
      }
      EndFlush(state, index);
    }

    /** The `drain` handler of a part stream (index.js:539-541). */
    method Drained()
      requires Valid()
      modifies this
      ensures Valid()
      ensures Model() == Queue.FlushWriteCbs(old(Model()))
    {
      DrainSound(cfg, Model());
      FlushWriteCbs(state, index);
    }

    /** An `error` from a field or file stream, or from the file system, reaches `handleError`. */
    method StreamFailed(e: Failure)
      requires Valid()
      modifies this
      ensures Valid()
      ensures Model() == Queue.HandleError(old(Model()), e)
    {
      HandleErrorSound(cfg, Model(), e);
      HandleError(e, state, index);
    }

    /** The `end` of a stream handed out by `handlePart` (index.js:668-670). */
    method PartStreamEnded()
      requires Valid()
      modifies this
      ensures Valid()
      ensures Model() == Parts.PartStreamEnded(old(Model()))
    {
      EndFlushSound(cfg, Model());
      EndFlush(state, index);
    }

    /** A chunk of `n` bytes read from a field stream (index.js:739-749). */
    method FieldData(n: nat)
      requires Valid()
      modifies this
      ensures Valid()
      ensures Model() == FieldChunk(cfg, old(Model()), n)
    {
      ghost var m := Model();
      FieldSizeSound(cfg, m, n);
      totalFieldSize := totalFieldSize + n;
      ghost var m1 := Model();
      assert m1 == View(state, index) == m.(totalFieldSize := m.totalFieldSize + n);
      if totalFieldSize > cfg.maxFieldsSize {
        HandleErrorSound(cfg, m1, MaxFieldsSizeExceeded(cfg.maxFieldsSize));
        HandleError(MaxFieldsSizeExceeded(cfg.maxFieldsSize), state, index);
        assert Model() == View(state, index) == Queue.HandleError(m1, MaxFieldsSizeExceeded(cfg.maxFieldsSize));
      }
    }

    /** The `end` of a field stream (index.js:751-756). */
    method FieldEnded(stream: nat, item: nat)
      requires Valid()
      modifies this
      ensures Valid()
      ensures Model() == Parts.FieldEnded(old(Model()), stream, item)
    {
      ghost var m := Model();
      FieldEndedSound(cfg, m, stream, item);
      assert View(state, index) == m;
      Release(item, EmitField(stream), state, index);
      assert Model() == View(state, index) == Queue.Release(m, item, EmitField(stream));
      EndFlush(state, index);
    }

    /** A `progress` event of a file's write stream (index.js:713-718); returns the new `prevByteCount`. */
    method FileProgress(prevByteCount: int, size: int) returns (next: int)
      requires Valid()
      modifies this
      ensures Valid()
      ensures (Model(), next) == Queue.FileProgress(old(Model()), prevByteCount, size)
    {
      FileProgressSound(cfg, Model(), prevByteCount, size);
      var delta := size - prevByteCount;
      totalFileSize := totalFileSize + delta;
      next := size;
    }

    /** The `close` of a file's slicer (index.js:719-725). */
    method FileClosed(stream: nat, item: nat)
      requires Valid()
      modifies this
      ensures Valid()
      ensures Model() == Parts.FileClosed(old(Model()), stream, item)
    {
      FileClosedSound(cfg, Model(), stream, item);
      if error.Some? {
        return;
      }
      ghost var m := Model();
      assert View(state, index) == m;
      Release(item, EmitFile(stream), state, index);
      assert Model() == View(state, index) == Queue.Release(m, item, EmitFile(stream));
      EndFlush(state, index);
    }
  }
}
