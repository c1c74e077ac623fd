/**
 * The boundary scanner of `Form.prototype._write` (index.js:223-466) as pure
 * functions: one step per byte, the run over a chunk, the end-of-chunk
 * flush, and the `finish` handler of `setUpParser` (index.js:789-793).
 *
 * `_write` keeps `state` and `index` in locals and stores them only after
 * the whole chunk has been scanned; everything else it changes on the form
 * directly. A step that raises an error therefore returns the form with its
 * other changes kept, and `Write` puts back the state and index the chunk
 * started with. The answer of the part stream's `write` (which sets
 * `backpressure`) is the parameter `congested`.
 */
module Scanner {
  import opened Common
  import opened Numbers
  import opened State
  import opened Queue
  import opened Parts

  /** The result of one step: go on at position `at`, or stop on an error. */
  datatype Outcome = Next(s: FormState, at: nat) | Stop(s: FormState)

  function Fail(s: FormState, e: Failure): (o: Outcome)
    ensures o.Stop? && o.s.error.Some? && SameScan(o.s, s) && s.log <= o.s.log
  {
    Stop(HandleError(s, e))
  }

  /** A false-match replay rescans the same byte; it only happens with a candidate delimiter held. */
  function Rank(s: FormState): nat
  {
    if (s.state == PartDataStart || s.state == PartData) && s.index > 0 then 1 else 0
  }

  /** The start of a slice whose mark is unset: `buffer.slice(null, i)` slices from 0. */
  function Mark(m: Option<nat>): nat
  {
    match m
    case Some(v) => v
    case None => 0
  }

  /**
   * What every step promises: the log only grows; an error is recorded on a
   * stop; otherwise scanning goes on from a later position, or from the same
   * one with the candidate delimiter dropped, in a well-formed state whose
   * marks lie before that position.
   */
  predicate Advances(cfg: Config, s: FormState, buf: seq<byte>, i: nat, o: Outcome)
  {
    s.log <= o.s.log && o.s.bytesReceived == s.bytesReceived &&
    match o
    case Stop(r) => r.error.Some? && |r.lookbehind| == |s.lookbehind|
    case Next(r, at) =>
      i <= at <= |buf| && r.error == s.error && WellFormed(cfg, r) && MarksWithin(r, at) &&
      (at == i ==> Rank(r) < Rank(s))
  }

  predicate Ready(cfg: Config, s: FormState, buf: seq<byte>, i: nat)
  {
    WellFormed(cfg, s) && i < |buf| && MarksWithin(s, i)
  }

  // ---------------------------------------------------------------------
  // START and START_BOUNDARY (index.js:246-273)
  // ---------------------------------------------------------------------

  /**
   * Looking for the first delimiter. `index` counts matched bytes of
   * `--token` (the delimiter without its CR LF, so `boundary[index + 2]` is
   * the next byte wanted); a mismatch drops it to -2, from where a CR LF
   * must come first. After the token, a hyphen starts the close delimiter,
   * CR LF starts the first part, anything else is an error.
   */
  function StartBoundaryStep(cfg: Config, s: FormState, buf: seq<byte>, i: nat): (o: Outcome)
    requires Ready(cfg, s, buf, i) && s.state == StartBoundary
    ensures Advances(cfg, s, buf, i, o)
  {
    var L := |cfg.boundary|;
    var c := buf[i];
    var idx := s.index;
    if idx == L - 2 && c == HYPHEN then
      Next(s.(index := 1, state := CloseBoundary), i + 1)
    else if idx == L - 2 then
      if c != CR then Fail(s, ExpectedCR(c)) else Next(s.(index := idx + 1), i + 1)
    else if idx == L - 1 then
      if c != LF then Fail(s, ExpectedLF(c))
      else Next(OnPartBegin(s.(index := 0)).(state := HeaderFieldStart), i + 1)
    else
      var idx1 := if c != cfg.boundary[idx + 2] then -2 else idx;
      var idx2 := if c == cfg.boundary[idx1 + 2] then idx1 + 1 else idx1;
      Next(s.(index := idx2), i + 1)
  }

  // ---------------------------------------------------------------------
  // Header lines (index.js:274-346)
  // ---------------------------------------------------------------------

  /**
   * A byte of a header name. CR ends the header block; a hyphen is taken;
   * a colon ends the name (and is an error as the first byte); anything
   * else must be an ASCII letter. `index` counts the bytes of the name.
   */
  function HeaderFieldStep(cfg: Config, s: FormState, buf: seq<byte>, i: nat): (o: Outcome)
    requires Ready(cfg, s, buf, i) && s.state == HeaderField
    ensures Advances(cfg, s, buf, i, o)
  {
    var c := buf[i];
    if c == CR then
      Next(s.(headerFieldMark := None, state := HeadersAlmostDone), i + 1)
    else
      var idx := s.index + 1;
      if c == HYPHEN then Next(s.(index := idx), i + 1)
      else if c == COLON then
        if idx == 1 then Fail(s, EmptyHeaderField)
        else
          var name := buf[Mark(s.headerFieldMark)..i];
          Next(OnHeaderField(s, name).(headerFieldMark := None, state := HeaderValueStart, index := idx), i + 1)
      else if Lower(c) < A || Lower(c) > Z then Fail(s, ExpectedAlphabetic(c))
      else Next(s.(index := idx), i + 1)
  }

  /** A byte of a header value: CR ends it, records the header and expects LF. */
  function HeaderValueStep(cfg: Config, s: FormState, buf: seq<byte>, i: nat): (o: Outcome)
    requires Ready(cfg, s, buf, i) && s.state == HeaderValue
    ensures Advances(cfg, s, buf, i, o)
  {
    if buf[i] == CR then
      var value := buf[Mark(s.headerValueMark)..i];
      var s1 := OnHeaderValue(s, value).(headerValueMark := None);
      Next(OnHeaderEnd(s1).(state := HeaderValueAlmostDone), i + 1)
    else
      Next(s, i + 1)
  }

  /**
   * The header block ended with CR, which must be followed by LF; the part's
   * headers are then checked and the part handed on. Part data starts with
   * no delimiter bytes held, so `index` is reset here.
   */
  function HeadersAlmostDoneStep(cfg: Config, s: FormState, buf: seq<byte>, i: nat): (o: Outcome)
    requires Ready(cfg, s, buf, i) && s.state == HeadersAlmostDone
    ensures Advances(cfg, s, buf, i, o)
  {
    var c := buf[i];
    if c != LF then Fail(s, ExpectedLF(c))
    else
      var (s1, err) := OnHeadersEnd(cfg, s, i + 1);
      if err.Some? then Fail(s1, err.value)
      else Next(s1.(state := PartDataStart, index := 0), i + 1)
  }

  /**
   * The same step as index.js:336-342 writes it: `index` keeps whatever the
   * header-name state left in it, which is the length of a last header line
   * that had no colon.
   */
  function HeadersAlmostDoneAsWritten(cfg: Config, s: FormState, buf: seq<byte>, i: nat): (o: Outcome)
    requires Ready(cfg, s, buf, i) && s.state == HeadersAlmostDone
  {
    var c := buf[i];
    if c != LF then Fail(s, ExpectedLF(c))
    else
      var (s1, err) := OnHeadersEnd(cfg, s, i + 1);
      if err.Some? then Fail(s1, err.value)
      else Next(s1.(state := PartDataStart), i + 1)
  }

  /**
   * A PART_DATA byte as index.js:348-422 handles it when `index` is above
   * L + 1, which only the as-written end of the header block can leave
   * behind: none of the three tests on `index` applies, so `index` stays and
   * no delimiter byte is ever matched; the byte is only stored at
   * `lookbehind[index - 1]`, a write that a Node Buffer drops when it falls
   * past the buffer's end.
   */
  function StaleByte(cfg: Config, s: FormState, c: byte): (r: FormState)
    requires s.state == PartData && s.index > |cfg.boundary| + 1
    ensures r == s.(lookbehind := r.lookbehind) && |r.lookbehind| == |s.lookbehind|
  {
    if s.index - 1 < |s.lookbehind| then s.(lookbehind := s.lookbehind[s.index - 1 := c]) else s
  }

  /** The `for` loop over the rest of a chunk in that state: only `lookbehind` ever changes. */
  function StaleRun(cfg: Config, s: FormState, buf: seq<byte>, i: nat): (r: FormState)
    requires s.state == PartData && s.index > |cfg.boundary| + 1 && i <= |buf|
    ensures r == s.(lookbehind := r.lookbehind) && |r.lookbehind| == |s.lookbehind|
    decreases |buf| - i
  {
    if i == |buf| then s else StaleRun(cfg, StaleByte(cfg, s, buf[i]), buf, i + 1)
  }

  // ---------------------------------------------------------------------
  // Part data (index.js:347-423)
  // ---------------------------------------------------------------------

  /**
   * The Boyer-Moore-Horspool skip: from `i`, look at the byte a delimiter
   * starting there would end on, and move a whole delimiter length on while
   * that byte occurs nowhere in the delimiter.
   */
  function Skip(cfg: Config, buf: seq<byte>, i: nat): (land: nat)
    requires ValidConfig(cfg) && i <= |buf|
    ensures i <= land <= |buf|
    ensures land + |cfg.boundary| - 1 >= |buf| || buf[land + |cfg.boundary| - 1] in cfg.boundary
    decreases |buf| - i
  {
    var probe := i + |cfg.boundary| - 1;
    if probe < |buf| && buf[probe] !in cfg.boundary then Skip(cfg, buf, i + |cfg.boundary|) else i
  }

  /**
   * A candidate delimiter turned out not to be one. When bytes were held
   * for it they are part data after all, and the current byte is scanned
   * again; otherwise scanning moves on.
   */
  function Replay(s: FormState, prevIndex: nat, j: nat, congested: bool): (o: Outcome)
    requires prevIndex <= |s.lookbehind|
    ensures o.Next? && o.s.state == s.state && o.s.error == s.error
  {
    if prevIndex > 0 then
      Next(OnPartData(s, s.lookbehind[..prevIndex], congested).(index := 0, partDataMark := Some(j)), j)
    else
      Next(s.(index := 0), j + 1)
  }

  /**
   * Byte `j` of part data with `index` delimiter bytes matched so far.
   * Below the delimiter's length a matching byte extends the match (and the
   * first one sends the data before it on); at the full delimiter CR
   * announces a part boundary and a hyphen the close delimiter; after the
   * CR, LF confirms the boundary. Every other byte is a mismatch. Matched
   * bytes are kept in `lookbehind`.
   */
  function PartDataByte(cfg: Config, s: FormState, buf: seq<byte>, j: nat, congested: bool): (o: Outcome)
    requires Ready(cfg, s, buf, j) && s.state == PartData
    ensures Advances(cfg, s, buf, j, o)
  {
    var L := |cfg.boundary|;
    var c := buf[j];
    var prev := s.index;
    if prev < L then
      if cfg.boundary[prev] == c then
        var s1 := if prev == 0 then OnPartData(s, buf[Mark(s.partDataMark)..j], congested).(partDataMark := None) else s;
        Next(s1.(index := prev + 1, lookbehind := s1.lookbehind[prev := c]), j + 1)
      else Replay(s, prev, j, congested)
    else if prev == L then
      if c == CR then Next(s.(index := L + 1, partBoundaryFlag := true, lookbehind := s.lookbehind[L := c]), j + 1)
      else if c == HYPHEN then Next(s.(index := 1, state := CloseBoundary), j + 1)
      else Replay(s, prev, j, congested)
    else if s.partBoundaryFlag && c == LF then
      Next(OnPartBegin(OnPartEnd(s.(partBoundaryFlag := false, index := 0))).(state := HeaderFieldStart), j + 1)
    else
      Replay(s, prev, j, congested)
  }

  /** A step in PART_DATA: with nothing matched, skip first; a skip past the chunk's end ends it. */
  function PartDataStep(cfg: Config, s: FormState, buf: seq<byte>, i: nat, congested: bool): (o: Outcome)
    requires Ready(cfg, s, buf, i) && s.state == PartData
    ensures Advances(cfg, s, buf, i, o)
  {
    if s.index == 0 then
      var land := Skip(cfg, buf, i);
      if land >= |buf| then Next(s, |buf|) else PartDataByte(cfg, s, buf, land, congested)
    else
      PartDataByte(cfg, s, buf, i, congested)
  }

  // ---------------------------------------------------------------------
  // The close delimiter and the end (index.js:424-437)
  // ---------------------------------------------------------------------

  /** After `--token-`, a second hyphen ends the last part; anything else is an error. */
  function CloseBoundaryStep(cfg: Config, s: FormState, buf: seq<byte>, i: nat): (o: Outcome)
    requires Ready(cfg, s, buf, i) && s.state == CloseBoundary
    ensures Advances(cfg, s, buf, i, o)
  {
    var c := buf[i];
    if c != HYPHEN then Fail(s, ExpectedHyphen(c))
    else if s.index == 1 then Next(OnPartEnd(s).(state := End, index := 2), i + 1)
    else if s.index > 1 then Fail(s, InvalidState)
    else Next(s.(index := s.index + 1), i + 1)
  }

  /** One iteration of the `for` loop of `_write`, following the `switch` and its fall-throughs. */
  function Step(cfg: Config, s: FormState, buf: seq<byte>, i: nat, congested: bool): (o: Outcome)
    requires Ready(cfg, s, buf, i)
    ensures Advances(cfg, s, buf, i, o)
  {
    match s.state
    case Start => StartBoundaryStep(cfg, s.(index := 0, state := StartBoundary), buf, i)
    case StartBoundary => StartBoundaryStep(cfg, s, buf, i)
    case HeaderFieldStart =>
      HeaderFieldStep(cfg, s.(state := HeaderField, headerFieldMark := Some(i), index := 0), buf, i)
    case HeaderField => HeaderFieldStep(cfg, s, buf, i)
    case HeaderValueStart =>
      if buf[i] == SPACE then Next(s, i + 1)
      else HeaderValueStep(cfg, s.(headerValueMark := Some(i), state := HeaderValue), buf, i)
    case HeaderValue => HeaderValueStep(cfg, s, buf, i)
    case HeaderValueAlmostDone =>
      if buf[i] != LF then Fail(s, ExpectedLF(buf[i])) else Next(s.(state := HeaderFieldStart), i + 1)
    case HeadersAlmostDone => HeadersAlmostDoneStep(cfg, s, buf, i)
    case PartDataStart => PartDataStep(cfg, s.(state := PartData, partDataMark := Some(i)), buf, i, congested)
    case PartData => PartDataStep(cfg, s, buf, i, congested)
    case CloseBoundary => CloseBoundaryStep(cfg, s, buf, i)
    case End => Next(s, i + 1)
  }

  /** The loop of `_write` from position `i` to the end of the chunk or the first error. */
  function Run(cfg: Config, s: FormState, buf: seq<byte>, i: nat, congested: bool): (o: Outcome)
    requires WellFormed(cfg, s) && i <= |buf| && MarksWithin(s, i)
    ensures s.log <= o.s.log && o.s.bytesReceived == s.bytesReceived
    ensures o.Stop? ==> o.s.error.Some? && |o.s.lookbehind| == |s.lookbehind|
    ensures o.Next? ==> o.at == |buf| && o.s.error == s.error && WellFormed(cfg, o.s) && MarksWithin(o.s, |buf|)
    decreases |buf| - i, Rank(s)
  {
    if i == |buf| then Next(s, i)
    else
      match Step(cfg, s, buf, i, congested)
      case Stop(r) => Stop(r)
      case Next(r, at) => Run(cfg, r, buf, at, congested)
  }

  /**
   * After the loop (index.js:442-453): every open span is sent on and its
   * mark moved to the start of the next chunk.
   */
  function FlushSpans(s: FormState, buf: seq<byte>, congested: bool): (r: FormState)
    requires MarksWithin(s, |buf|)
    ensures AtRest(r)
    ensures r.headerFieldMark.Some? == s.headerFieldMark.Some? && r.headerValueMark.Some? == s.headerValueMark.Some?
    ensures r.partDataMark.Some? == s.partDataMark.Some?
    ensures r.state == s.state && r.index == s.index && r.lookbehind == s.lookbehind
    ensures r.partBoundaryFlag == s.partBoundaryFlag && r.bytesReceived == s.bytesReceived
    ensures r.error == s.error && r.destStream == s.destStream && s.log <= r.log
  {
    FlushDataSpan(FlushValueSpan(FlushFieldSpan(s, buf), buf), buf, congested)
  }

  /** What sending one span on leaves alone: the scanner, the count, the error, the part stream and the log so far. */
  predicate SpanKept(s: FormState, r: FormState)
  {
    r.state == s.state && r.index == s.index && r.lookbehind == s.lookbehind &&
    r.partBoundaryFlag == s.partBoundaryFlag && r.bytesReceived == s.bytesReceived &&
    r.error == s.error && r.destStream == s.destStream && s.log <= r.log
  }

  /** The header name read so far in the chunk is sent on (index.js:442-445). */
  function FlushFieldSpan(s: FormState, buf: seq<byte>): (r: FormState)
    requires MarksWithin(s, |buf|)
    ensures r.headerFieldMark == if s.headerFieldMark.Some? then Some(0) else None
    ensures r.headerValueMark == s.headerValueMark && r.partDataMark == s.partDataMark && SpanKept(s, r)
  {
    if s.headerFieldMark.Some? then OnHeaderField(s, buf[s.headerFieldMark.value..]).(headerFieldMark := Some(0)) else s
  }

  /** The header value read so far in the chunk is sent on (index.js:446-449). */
  function FlushValueSpan(s: FormState, buf: seq<byte>): (r: FormState)
    requires MarksWithin(s, |buf|)
    ensures r.headerValueMark == if s.headerValueMark.Some? then Some(0) else None
    ensures r.headerFieldMark == s.headerFieldMark && r.partDataMark == s.partDataMark && SpanKept(s, r)
  {
    if s.headerValueMark.Some? then OnHeaderValue(s, buf[s.headerValueMark.value..]).(headerValueMark := Some(0)) else s
  }

  /** The part data read so far in the chunk is sent on (index.js:450-453). */
  function FlushDataSpan(s: FormState, buf: seq<byte>, congested: bool): (r: FormState)
    requires MarksWithin(s, |buf|)
    ensures r.partDataMark == if s.partDataMark.Some? then Some(0) else None
    ensures r.headerFieldMark == s.headerFieldMark && r.headerValueMark == s.headerValueMark && SpanKept(s, r)
  {
    if s.partDataMark.Some? then OnPartData(s, buf[s.partDataMark.value..], congested).(partDataMark := Some(0)) else s
  }

  /**
   * The rest of the chunk's end (index.js:458-465): `bytesReceived` grows by
   * the chunk's length and is reported; the write callback is called, or
   * queued while the part stream pushes back.
   */
  function Acknowledge(s: FormState, n: nat, cb: nat): (r: FormState)
    ensures r.bytesReceived == s.bytesReceived + n
    ensures r.log == s.log + [Progress(r.bytesReceived, s.bytesExpected)] + (if s.backpressure then [] else [WriteAck(cb)])
    ensures r.writeCbs == s.writeCbs + (if s.backpressure then [cb] else [])
    ensures r == s.(bytesReceived := r.bytesReceived, log := r.log, writeCbs := r.writeCbs)
  {
    Answer(CountBytes(s, n), cb)
  }

  /** `bytesReceived` grows by `n` and a `progress` event reports it (index.js:458-459). */
  function CountBytes(s: FormState, n: nat): FormState
  {
    s.(bytesReceived := s.bytesReceived + n, log := s.log + [Progress(s.bytesReceived + n, s.bytesExpected)])
  }

  /** The write callback is queued while the part stream pushes back, and called otherwise (index.js:461-465). */
  function Answer(s: FormState, cb: nat): FormState
  {
    if s.backpressure then s.(writeCbs := s.writeCbs + [cb]) else s.(log := s.log + [WriteAck(cb)])
  }

  /**
   * `_write(buffer, encoding, cb)`: nothing once an error is recorded;
   * otherwise the chunk is scanned, and on an error the form keeps the
   * scanner state and index it had before the chunk.
   */
  function Write(cfg: Config, s: FormState, buf: seq<byte>, cb: nat, congested: bool): (r: FormState)
    requires Resting(cfg, s)
    ensures WellFormed(cfg, r)
    ensures s.error.Some? ==> r == s
    ensures s.log <= r.log
    ensures r.error.None? ==> AtRest(r) && r.bytesReceived == s.bytesReceived + |buf|
    ensures s.error.None? && r.error.Some? ==>
              r.state == s.state && r.index == s.index && r.bytesReceived == s.bytesReceived
  {
    if s.error.Some? then s
    else
      var o := Run(cfg, s, buf, 0, congested);
      if o.Stop? then Restore(s, o.s)
      else Acknowledge(FlushSpans(o.s, buf, congested), |buf|, cb)
  }

  /** An error inside the loop leaves the form's `state` and `index` as the chunk found them. */
  function Restore(s: FormState, r: FormState): (t: FormState)
    ensures t.state == s.state && t.index == s.index
    ensures t == r.(state := s.state, index := s.index)
  {
    r.(state := s.state, index := s.index)
  }

  /** The `finish` handler: a body that did not reach the close delimiter is an error; then one flush ends. */
  function Finish(s: FormState): (r: FormState)
    ensures s.state != End && s.error.None? ==> r.error == Some(StreamEndedUnexpectedly) && Error(StreamEndedUnexpectedly) in r.log
    ensures s.state == End || s.error.Some? ==> r == EndFlush(s)
  {
    var s1 := if s.state != End then HandleError(s, StreamEndedUnexpectedly) else s;
    EndFlush(s1)
  }
}
