/**
 * The state a multiparty `Form` carries while it parses one request body
 * (the fields `Form` (index.js:51-88), `setUpParser` (index.js:772-795) and
 * `clearPartVars` (index.js:759-770) give it), the configuration it is built
 * with, and the invariants of the boundary scanner.
 *
 * Callbacks the parser makes (`onParse*`, the `error` event, the queued
 * `part`/`field`/`file`/`close` emissions, stream errors, write
 * acknowledgements and `progress`) are appended to `log`.
 */
module State {
  import opened Common
  import opened Numbers

  /** The default of `maxFields` (index.js:61). */
  const DEFAULT_MAX_FIELDS: nat := 1000
  /** The default of `maxFieldsSize`, 2 MiB (index.js:62). */
  const DEFAULT_MAX_FIELDS_SIZE: nat := 2 * 1024 * 1024
  /** `LAST_BOUNDARY_SUFFIX_LEN`, the length of the final `--\r\n` (index.js:46). */
  const LAST_BOUNDARY_SUFFIX_LEN: nat := 4

  /** Options as given to `new Form(options)`; 0 stands for an absent or falsy option. */
  datatype Options = Options(autoFields: bool, autoFiles: bool, maxFields: nat,
                             maxFieldsSize: nat, maxFilesSize: nat)

  /**
   * What one parse works with: the delimiter `CR LF "--" token` that
   * `setUpParser` builds, the routing switches and the limits
   * (`maxFilesSize` None is `Infinity`).
   */
  datatype Config = Config(boundary: seq<byte>, autoFields: bool, autoFiles: bool,
                           maxFields: nat, maxFieldsSize: nat, maxFilesSize: Option<nat>)

  /** The delimiter: CR LF, two hyphens, then the token of the content-type. */
  function Delimiter(token: seq<byte>): (b: seq<byte>)
    ensures |b| == |token| + 4 && b[4..] == token
  {
    [CR, LF, HYPHEN, HYPHEN] + token
  }

  /** The configuration `new Form(options)` followed by `setUpParser(token)` produces. */
  function Configure(o: Options, token: seq<byte>): (cfg: Config)
    requires |token| > 0
    ensures ValidConfig(cfg) && cfg.boundary[4..] == token
    ensures cfg.maxFields > 0 && cfg.maxFieldsSize > 0
    ensures o.maxFields > 0 ==> cfg.maxFields == o.maxFields
    ensures o.maxFieldsSize > 0 ==> cfg.maxFieldsSize == o.maxFieldsSize
    ensures cfg.maxFilesSize.None? <==> o.maxFilesSize == 0
  {
    Config(Delimiter(token), o.autoFields, o.autoFiles,
           if o.maxFields == 0 then DEFAULT_MAX_FIELDS else o.maxFields,
           if o.maxFieldsSize == 0 then DEFAULT_MAX_FIELDS_SIZE else o.maxFieldsSize,
           if o.maxFilesSize == 0 then None else Some(o.maxFilesSize))
  }

  predicate ValidConfig(cfg: Config)
  {
    |cfg.boundary| >= 5 && cfg.boundary[..4] == [CR, LF, HYPHEN, HYPHEN]
  }

  /** The scanner states of index.js:22-33. */
  datatype ScanState =
    | Start | StartBoundary | HeaderFieldStart | HeaderField | HeaderValueStart
    | HeaderValue | HeaderValueAlmostDone | HeadersAlmostDone | PartDataStart
    | PartData | CloseBoundary | End

  /** The errors the core raises, with the byte that caused them where the message names one. */
  datatype Failure =
    | ExpectedCR(got: byte)             // 400
    | ExpectedLF(got: byte)             // 400
    | EmptyHeaderField                  // 400
    | ExpectedAlphabetic(got: byte)     // 400
    | ExpectedHyphen(got: byte)         // 400
    | InvalidState                      // no status
    | UnknownTransferEncoding(enc: seq<byte>)  // 400
    | MaxFieldsExceeded(limit: nat)     // 413
    | StreamEndedUnexpectedly           // 400
    | UnexpectedEndFlush                // no status
    | MaxFieldsSizeExceeded(limit: nat) // 413
    | External(code: nat)               // a stream or file-system error from outside the core

  /** Where `onParseHeadersEnd` sends a part. */
  datatype Route = ToField | ToFile | ToPart

  /** The `destStream` of a part, with the properties `onParseHeadersEnd` sets on it. */
  datatype PartStream = PartStream(
    id: nat,                                   // the value of totalFieldCount when it was made
    headers: map<seq<byte>, seq<byte>>,
    name: Option<seq<byte>>,
    filename: Option<seq<byte>>,
    encoding: seq<byte>,
    byteOffset: int,
    byteCount: Measure,
    route: Route,
    item: Option<nat>)                         // its emit-queue item, once held

  /** The callbacks held in the emit queue: emitting `part`, `field`, `file` or `close`. */
  datatype Callback = EmitPart(stream: nat) | EmitField(stream: nat) | EmitFile(stream: nat) | EmitClose

  /** An emit-queue entry `{cb, ee, err}`; `id` stands for the object's identity. */
  datatype Item = Item(id: nat, ee: Option<nat>, cb: Option<Callback>, err: Option<Failure>)

  datatype Event =
    | PartBegin
    | HeaderFieldData(bytes: seq<byte>)
    | HeaderValueData(bytes: seq<byte>)
    | HeaderEnd
    | HeadersEnd(offset: nat)
    | Data(bytes: seq<byte>)                   // onParsePartData
    | PartEnd
    | Error(f: Failure)                        // the form's `error` event
    | Invoked(item: nat, cb: Callback)         // a released emit-queue callback ran
    | StreamError(stream: nat, f: Failure)     // `error` emitted on a part stream
    | WriteAck(token: nat)                     // a `_write` callback was called or scheduled
    | Progress(received: nat, expected: Measure)

  datatype FormState = FormState(
    // boundary scanner
    state: ScanState,
    index: int,
    lookbehind: seq<byte>,
    partBoundaryFlag: bool,
    headerFieldMark: Option<nat>,
    headerValueMark: Option<nat>,
    partDataMark: Option<nat>,
    // the part being parsed
    headerField: seq<byte>,
    headerValue: seq<byte>,
    partHeaders: map<seq<byte>, seq<byte>>,
    partName: Option<seq<byte>>,
    partFilename: Option<seq<byte>>,
    partTransferEncoding: seq<byte>,
    destStream: Option<PartStream>,
    // counters
    bytesReceived: nat,
    bytesExpected: Measure,
    totalFieldCount: nat,
    totalFieldSize: nat,
    totalFileSize: int,
    flushing: int,
    // ordering and errors
    emitQueue: seq<Item>,
    nextItem: nat,
    error: Option<Failure>,
    backpressure: bool,
    writeCbs: seq<nat>,
    log: seq<Event>)

  const BINARY: seq<byte> := Ascii("binary")

  /**
   * The state after the constructor and `setUpParser`: scanner at START,
   * a zero-filled lookbehind of boundary length + 8, and the one `flushing`
   * count that the `finish` handler releases.
   */
  function Initial(cfg: Config, bytesExpected: Measure): (s: FormState)
    requires ValidConfig(cfg)
    ensures Scanning(cfg, s) && AtRest(s)
    ensures s.state == Start && s.flushing == 1 && s.log == [] && s.emitQueue == []
  {
    FormState(Start, 0, seq(|cfg.boundary| + 8, _ => 0), false, None, None, None,
              [], [], map[], None, None, BINARY, None,
              0, bytesExpected, 0, 0, 0, 1,
              [], 0, None, false, [], [])
  }

  /**
   * What every scanner step needs of a state: a lookbehind of the size
   * `setUpParser` gives it and an `index` inside the range the state reads.
   */
  predicate WellFormed(cfg: Config, s: FormState)
  {
    ValidConfig(cfg) &&
    |s.lookbehind| == |cfg.boundary| + 8 &&
    (s.state == StartBoundary ==> -2 <= s.index <= |cfg.boundary| - 1) &&
    ((s.state == PartDataStart || s.state == PartData) ==> 0 <= s.index <= |cfg.boundary| + 1)
  }

  /** A byte position inside the current chunk that every set mark is at or before. */
  predicate MarksWithin(s: FormState, n: nat)
  {
    (s.headerFieldMark.Some? ==> s.headerFieldMark.value <= n) &&
    (s.headerValueMark.Some? ==> s.headerValueMark.value <= n) &&
    (s.partDataMark.Some? ==> s.partDataMark.value <= n)
  }

  /** Between chunks every mark is unset or at the start of the next chunk. */
  predicate AtRest(s: FormState)
  {
    MarksWithin(s, 0)
  }

  /** The bytes of a possible delimiter the scanner holds back in PART_DATA. */
  function Pending(s: FormState): seq<byte>
    requires 0 <= s.index <= |s.lookbehind|
  {
    s.lookbehind[..s.index]
  }

  /**
   * The scanner's invariant while no error is recorded: a mark is open
   * exactly in the state that collects its span; in PART_DATA the held-back
   * bytes are a prefix of the delimiter (followed by the CR that
   * `partBoundaryFlag` records at index L+1); CLOSE_BOUNDARY is entered with
   * index 1; and a part stream exists while part data flows.
   */
  predicate Scanning(cfg: Config, s: FormState)
  {
    var L := |cfg.boundary|;
    WellFormed(cfg, s) &&
    s.error.None? &&
    (s.headerFieldMark.Some? <==> s.state == HeaderField) &&
    (s.headerValueMark.Some? <==> s.state == HeaderValue) &&
    (s.partDataMark.Some? <==> s.state == PartData && s.index == 0) &&
    (s.state == HeaderField ==> s.index >= 0) &&
    (s.state == PartDataStart ==> s.index == 0) &&
    (s.state == PartData ==>
       s.lookbehind[..Min(s.index, L)] == cfg.boundary[..Min(s.index, L)] &&
       (s.index == L + 1 ==> s.partBoundaryFlag && s.lookbehind[L] == CR)) &&
    ((s.state == PartDataStart || s.state == PartData) ==> s.destStream.Some?) &&
    (s.state == CloseBoundary ==> s.index == 1)
  }

  /** What holds of a `Form` between calls: scanning, or an error recorded and the scanner left as it was. */
  predicate Resting(cfg: Config, s: FormState)
  {
    WellFormed(cfg, s) && (s.error.None? ==> Scanning(cfg, s) && AtRest(s))
  }

  /** The fields only `_write` itself sets agree: the scanner's and `bytesReceived`. */
  predicate SameScan(a: FormState, b: FormState)
  {
    a.state == b.state && a.index == b.index && a.lookbehind == b.lookbehind &&
    a.bytesReceived == b.bytesReceived &&
    a.partBoundaryFlag == b.partBoundaryFlag && a.headerFieldMark == b.headerFieldMark &&
    a.headerValueMark == b.headerValueMark && a.partDataMark == b.partDataMark
  }
}
