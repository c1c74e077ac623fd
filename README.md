# multiparty `Form` parser — a Dafny model

This project models the core of `index.js`, the streaming
`multipart/form-data` parser of multiparty. The model has four parts.

**The boundary scanner.** This is `Form.prototype._write` together with `setUpParser`. It is a resumable byte-level state machine. It splits the request body at the delimiter, which is CR LF `--` followed by the token. The last delimiter is followed by `--`, as in section 5.1.1 of RFC 2046.
- The pure functions of module `Scanner` describe it:
  - `Step` is one iteration of the `for` loop;
  - `Run` is the loop over a chunk;
  - `Write` is a whole `_write` call.
- The class `Parser.Form` does the same work in place. It has the form's fields, a `lookbehind` array and the emit queue as a sequence. Every method is proved to leave the object in the state the function of the same name computes.
- Every callback the parser makes is appended to an event log. This covers the `onParse*` callbacks, the `error` event, the queued `part`/`field`/`file`/`close` emissions, stream errors, write acknowledgements and `progress`. Properties about the emitted bytes are stated over that log.

**The part bookkeeping** is module `Parts`. It covers:
- the `onParse*` callbacks and `clearPartVars`;
- the transfer-encoding check, which accepts only binary, 7bit, 8bit and base64 of the encodings in section 6.1 of RFC 2045 and refuses the rest, quoted-printable included;
- the `maxFields` limit;
- `byteOffset` and `byteCount`;
- the three-way routing to `handleField`, `handleFile` or `handlePart`.

**The ordering coordinator** is module `Queue`. It covers:
- the emit queue (`holdEmitQueue`, `flushEmitQueue` and `errorEventQueue`);
- the `flushing` counter (`beginFlush`, `endFlush` and `maybeClose`);
- the first-error-wins rule of `handleError`;
- the postponed write callbacks (`flushWriteCbs`);
- the field-size and file-progress counters.

**The small pure helpers** are:
- `getBytesExpected` and JavaScript `parseInt` (module `Numbers`);
- `lower` and ASCII case folding (module `Common`);
- the `name` regular expression and `parseFilename` (module `Disposition`), with the `filename*=utf-8''` ext-value form of section 3.2 of RFC 8187;
- the `FILE_EXT_RE` trim of `uploadPath` (module `Upload`).

Bytes are `bv8`, and header names and values are byte sequences. Callbacks held in the emit queue are tokens (`Callback`), and invoking one is logging it.

Facts about `index.js` that shape the model:
- What `index` holds depends on the state (`boundaryLength` is L):
  - In START_BOUNDARY it lies in [-2, L - 1]. It drops to -2 or -1 while a preamble is skipped (index.js:271-272).
  - In HEADER_FIELD it counts the bytes of the current header name (index.js:290), with no upper bound.
  - In PART_DATA it lies in [0, L + 1] in the corrected model. It reaches L + 1 on the CR after a full delimiter (index.js:377-384). As written, a colon-less header line can leave it above L + 1 (see "## Findings").
  - In CLOSE_BOUNDARY it is 1 (index.js:385-388).
- The lookbehind buffer has `boundaryLength` + 8 bytes (index.js:778).
- In START_BOUNDARY, a byte right after the token that is neither a hyphen nor CR is an error (index.js:253-264).
- `maxFilesSize` is enforced by the file's write stream (index.js:700), which is outside this model.
- Between calls, the form keeps `Parser.Form.Valid()`: the scanner is at rest with every invariant of `Scanner` holding, and the emit queue is ordered (ids increase along the queue, and invoked callbacks precede queued ones in hold order). Every method that answers an outside event keeps it.

## Model

| member | source | states |
|---|---|---|
| State.Configure | index.js:51-63 | The delimiter `setUpParser` builds (index.js:773-776) is CR LF `--` followed by the token. An absent limit takes its default (1000 fields, 2 MiB of field bytes) and a given one is kept. An absent `maxFilesSize` means no limit. |
| State.Delimiter | index.js:773-776 | The delimiter is 4 bytes longer than the token and ends with it. |
| State.Initial | index.js:772-788 | A new form, after its constructor (index.js:67-79) and `setUpParser`, is at START. Nothing is logged or queued, exactly one flush is outstanding (the one the `finish` handler ends), and the scanner invariant holds. |
| Common.LowerRangeIsLetter | index.js:307-311 | The header-name test `lower(c) < A \|\| lower(c) > Z` rejects exactly the bytes that are not ASCII letters. On letters, `lower` (index.js:823-825) is ASCII lower-casing. |
| Common.Lower | index.js:823-825 | `lower` maps A-Z onto a-z and keeps a-z. Its result is a lower-case letter exactly when its input is a letter. |
| Common.ToLowerBytes | index.js:480-482 | Lower-casing keeps the length and folds each byte independently. |
| Common.ToLowerBytesIdempotent | index.js:481 | Lower-casing an already lower-cased name changes nothing. |
| Numbers.ParseIntDecimal | index.js:569-572 | `parseInt` gives back n for the decimal text of n, whatever non-digit text follows it. |
| Numbers.ParseInt | index.js:572 | Text that starts with a digit parses to a non-negative number, and empty text is NaN. |
| Numbers.ParseIntNegative | index.js:572 | A leading minus sign negates the value. |
| Numbers.ParseIntNoDigit | index.js:572 | Text without a digit parses to NaN. |
| Numbers.GetBytesExpected | index.js:569-578 | A non-empty content-length gives its parsed value. Otherwise the result is 0 without transfer-encoding, and null (`Nothing`) exactly when only transfer-encoding is present. |
| Numbers.BytesExpectedFromLength | index.js:569-572 | A request with `content-length: n` expects exactly n bytes. |
| Upload.TrimExtension | index.js:797-798 | `ext.replace(FILE_EXT_RE, '$1')` (FILE_EXT_RE at index.js:45): the trimmed extension is a prefix of the input. Without a dot it is unchanged. With one, it keeps the text up to the first dot, the dot, and at most 16 name characters, and the run kept is the longest the pattern allows: it stops at 16, at the end of the text, or at the first byte outside the class. |
| Upload.TrimExtensionIdempotent | index.js:45 | Trimming twice is the same as trimming once. |
| Upload.CleanExtensionKept | index.js:45 | A dot followed by at most 16 name characters is kept whole. |
| Upload.LongExtensionCut | index.js:45 | A longer extension keeps its first 16 characters. |
| Disposition.FindName | index.js:486 | A `name` that is found is non-empty and holds no quote. |
| Disposition.NameRoundTrip | index.js:486-488 | `name="n"` yields n for every non-empty, quote-free n. |
| Disposition.ParseFilename | index.js:803-821 | A filename that is returned never contains a backslash. |
| Disposition.ExtFilenameRoundTrip | index.js:805-810 | Without a quoted form, `filename*=utf-8''n` yields n for every n without the bytes the clean-up rewrites and without a `; ` inside. |
| Disposition.QuotedFormWins | index.js:804-806 | When both forms are present, the quoted `filename="n"` is the one used. |
| Disposition.UnescapeQuotes | index.js:816 | The quote unescaping adds nothing: the result is no longer than its input, and each byte is a quote or a byte of the input. What it rewrites is stated by `UnescapePercentQuote` and `UnescapeBackslashQuote`. |
| Disposition.UnescapePercentQuote | index.js:816 | `%22` becomes a quote: text without `%` or a backslash is kept, then a quote, then the rest unescaped in turn. |
| Disposition.UnescapeBackslashQuote | index.js:816 | `\"` becomes a quote, in the same way. |
| Disposition.ReplaceCharRefs | index.js:817-819 | The character-reference replacement never lengthens the text, and a leading byte that starts no reference is kept. What it rewrites is stated by `CharRefDecoded`. |
| Disposition.CharRefDecoded | index.js:817-819 | `&#dddd;` becomes the UTF-8 bytes of the character with code dddd (always below 0xD800): text without `&` is kept, then those bytes, then the rest replaced in turn. |
| Disposition.AfterLastBackslash | index.js:820 | The result is the suffix after the last backslash, and the whole value when there is none. |
| Disposition.LastIndexOf | index.js:820 | Returns -1 or a position of the byte, with no occurrence after it. |
| Disposition.QuotedCapture | index.js:804 | The quoted form captures the whole of a quote-free, single-line value. |
| Disposition.FilenameRoundTrip | index.js:803-821 | `filename="n"` yields n for every n without the bytes the clean-up rewrites. |
| Disposition.FilenameDropsDirectory | index.js:815-820 | A Windows path in the quoted form yields only its last component. |
| Disposition.UnescapeQuotesPlain | index.js:816 | Text without `%` and without a backslash passes the quote unescaping unchanged. |
| Disposition.ReplaceCharRefsPlain | index.js:817-819 | Text without `&` passes the character-reference replacement unchanged. |
| Queue.Hold | index.js:627-629 | An unreleased item for the emitter joins the end of the queue, under the next fresh id. |
| Queue.Release | index.js:630-633 | The release closure never grows the queue. The scanner, the error and the flush count are untouched, and the log only grows. |
| Queue.Tag | index.js:646-648 | Every item of the emitter gets the error and every other item is kept, in place. |
| Queue.BeginFlush | index.js:580-582 | The flush count grows by one and nothing else changes. |
| Queue.MaybeClose | index.js:597-612 | With a flush outstanding or an error recorded, nothing changes. Either way the scanner, the error and the flush count are untouched and the log only grows. |
| Queue.FlushWriteCbs | index.js:561-567 | Every postponed write callback is acknowledged in order, one log entry each. None stays postponed and backpressure is off. |
| Queue.Flush | index.js:651-663 | The queue loses exactly its released prefix, which is invoked in queue order. The flush stops at the first unreleased item, and only the queue and the log change. |
| Queue.ErrorEventQueue | index.js:636-649 | With no item held for the emitter, the error is emitted on it at once. Otherwise the emitter's items are tagged and nothing is emitted. |
| Queue.HandleError | index.js:197-213 | A second error changes nothing. The first is recorded and emitted as the last event, and the scanner state is untouched. |
| Queue.EndFlush | index.js:584-595 | The count drops by one. Going below zero is the "unexpected endFlush" error, otherwise `maybeClose` follows. |
| Queue.FieldChunk | index.js:743-747 | The field total grows by the chunk's length. An error is recorded exactly when the total passes `maxFieldsSize`, or when one already was. |
| Queue.FileProgress | index.js:713-718 | The total minus the new size equals the old total minus the size last seen, and the new size is remembered. |
| Queue.FileProgressTelescopes | index.js:707-718 | After any run of progress events, the file total has grown by exactly the last reported size. |
| Queue.FieldLimit | index.js:743-746 | The first chunk past the limit records the 413 `maxFieldsSize` error. |
| Queue.OrderedHold | index.js:627-629 | Holding an item keeps the ordering invariant: ids increase along the queue, and invocations precede queued items in increasing id order. |
| Queue.OrderedFlush | index.js:651-663 | Flushing keeps the ordering invariant. |
| Queue.OrderedRelease | index.js:630-663 | Releasing any item keeps the invariant, so held callbacks run strictly in hold order. |
| Queue.OrderedErrorEventQueue | index.js:636-649 | Routing an error to an emitter keeps the invariant. |
| Queue.OrderedHandleError | index.js:197-213 | Recording an error keeps the invariant. |
| Queue.OrderedEndFlush | index.js:584-612 | Ending a flush, and the `close` it may queue, keep the invariant. |
| Queue.ReleaseBehindHeadWaits | index.js:630-633 | Releasing an item behind an unreleased head invokes nothing and only sets its callback. |
| Queue.ReleaseHeadRuns | index.js:651-663 | Releasing the head invokes it first. A deferred error on it is emitted right after its callback. |
| Queue.CloseWaitsForHeldItems | index.js:597-611 | When nothing is flushing and no error is recorded, `close` is emitted at once on an empty queue. Behind an unreleased head it is queued last and not emitted. |
| Queue.CloseNeedsQuiet | index.js:597-598 | `maybeClose` does nothing while a flush is outstanding or after an error. |
| Queue.EndFlushBelowZero | index.js:584-591 | `endFlush` at zero records the "unexpected endFlush" error and leaves the count at -1. |
| Queue.FirstErrorWins | index.js:197-213 | A second `handleError` leaves the state as the first left it. The recorded error is the first one. |
| Parts.ClearPartVars | index.js:759-770 | Headers, name, filename and stream are dropped, and the encoding is binary again. The scanner, the log, the error and the queue are untouched. |
| Parts.OnPartBegin | index.js:468-470 | A new part starts with no stream. The scanner and error are untouched and the log only grows. |
| Parts.OnHeaderField | index.js:472-474 | Adding to the header name leaves the scanner and error untouched, and the log only grows. |
| Parts.OnHeaderValue | index.js:476-478 | Adding to the header value leaves the scanner and error untouched, and the log only grows. |
| Parts.ApplyHeader | index.js:484-492 | content-disposition sets the filename always and the name only when one is found. content-transfer-encoding sets the lower-cased encoding. Any other header changes nothing. |
| Parts.OnHeaderEnd | index.js:480-498 | The header is stored under its lower-cased name, replacing any earlier value. Name and value start over. |
| Parts.OnPartData | index.js:500-506 | The bytes are logged as sent on to the part stream, whose answer becomes the backpressure flag. Nothing else changes. |
| Parts.PartStreamEnded | index.js:668-670 | The flush count drops by one. The scanner is untouched, the log only grows, and a recorded error stays. |
| Parts.FieldEnded | index.js:751-756 | The same for the end of a field stream. |
| Parts.FileClosed | index.js:719-725 | With an error recorded nothing changes. Otherwise the flush count drops by one, the scanner is untouched and the log only grows. |
| Parts.OnPartEnd | index.js:508-517 | PartEnd is logged first. The part's stream is gone afterwards, and the scanner and error are untouched. |
| Parts.NormalizeEncoding | index.js:521-531 | Accepted exactly for binary, 7bit, 8bit and base64. base64 is kept and the others become binary. |
| Parts.RouteOf | index.js:552-558 | The part goes to a field exactly when it has no filename and fields are collected, and to a file exactly when it has one and files are collected. Otherwise it goes to a part. |
| Parts.ByteCount | index.js:546-550 | `byteCount` is the part's own content-length when that is non-empty. Otherwise it is what the expected length leaves after the offset, the delimiter and the final `--\r\n`. Otherwise it is undefined. |
| Parts.NewPartStream | index.js:538-550 | The stream carries the part's headers, name and filename, the normalised encoding, the body offset `bytesReceived + offset`, its byte count and its route. |
| Parts.Dispatch | index.js:665-735 | Handing the stream on leaves the scanner, the error and the current stream alone, and only appends to the log. |
| Parts.OnHeadersEnd | index.js:519-559 | The end of the header block leaves the scanner and error untouched. When it raises no error, the part has a stream. |
| Parts.CountAndRoute | index.js:533-558 | Within `maxFields`, the part is counted and routed and no error is raised. |
| Parts.RoutePart | index.js:538-558 | A routed part always has a stream. The scanner and error are untouched. |
| Parts.UnknownEncodingRefused | index.js:521-531 | Any other encoding is a 400 error raised before the part is counted. |
| Parts.HeadersEndCounts | index.js:533-536 | A known encoding counts the part. The 413 `maxFields` error is raised exactly when the new count passes the limit. |
| Parts.HeadersEndStream | index.js:521-550 | Within the limit, the part's stream has the normalised encoding, the part's headers, name and filename, its body offset and its route. |
| Parts.HeadersEndIsRoute | index.js:519-536 | With a known encoding, the end of the header block is exactly the counting and routing of the part. |
| Parts.RouteHolds | index.js:552-558 | A field or file holds a new unreleased queue item at the end. A part's `part` emission runs at once when nothing is queued ahead of it. Each counts one more flush. |
| Parts.DispatchHolds | index.js:665-735 | The same, stated for `handleField`, `handleFile` and `handlePart` on a given stream. |
| Parts.LaterHeaderOverwrites | index.js:480-482 | A later header whose name is equal ignoring case replaces the earlier value, and adds no second key. |
| Parts.DispositionNamesPart | index.js:480-488 | A content-disposition header, in any case, with `name="n"` names the part n. |
| Scanner.Fail | index.js:297-298 | A failing step stops with an error recorded. The scanner is untouched and the log only grows. |
| Scanner.StartBoundaryStep | index.js:251-273 | Every step in START_BOUNDARY either stops with an error or advances, keeping `index` in [-2, boundaryLength - 1] and the marks behind the position. |
| Scanner.HeaderFieldStep | index.js:282-312 | A header-name byte either stops with an error or advances to a well-formed state. |
| Scanner.HeaderValueStep | index.js:319-330 | A header-value byte either advances or ends the header. |
| Scanner.HeadersAlmostDoneStep | index.js:336-342 | LF after the blank line's CR ends the header block (corrected: `index` is reset to 0). Anything else is an error. |
| Scanner.Skip | index.js:353-362 | The skip lands at or after `i` and within the chunk. It stops only where the last byte of the window occurs in the delimiter, or the window reaches past the chunk. |
| Scanner.Replay | index.js:407-421 | A false lead always continues scanning, in the same state and with the same error. |
| Scanner.PartDataByte | index.js:364-421 | Every PART_DATA byte either stops with an error or advances. It advances to a later position, or rescans the same byte after dropping the candidate delimiter. |
| Scanner.PartDataStep | index.js:348-423 | The same, for the skip followed by the byte landed on. |
| Scanner.CloseBoundaryStep | index.js:424-433 | A byte after `--token-` either stops with an error or advances. |
| Scanner.Step | index.js:243-440 | Every iteration of the loop either stops with an error recorded, or advances with the log only growing and the marks behind the new position. |
| Scanner.Run | index.js:243-440 | The loop either reaches the chunk's end in a well-formed state with the error unchanged, or stops with an error recorded. |
| Scanner.FlushSpans | index.js:442-453 | At the chunk's end every open span is sent on and its mark moved to 0. The scanner, `bytesReceived`, the error and the stream are untouched. |
| Scanner.FlushFieldSpan | index.js:442-445 | An open header-name span is sent on and its mark becomes 0. |
| Scanner.FlushValueSpan | index.js:446-449 | An open header-value span is sent on and its mark becomes 0. |
| Scanner.FlushDataSpan | index.js:450-453 | An open part-data span is sent on and its mark becomes 0. |
| Scanner.Acknowledge | index.js:458-465 | `bytesReceived` grows by the chunk's length and `progress` reports it. The write callback is called, or queued while there is backpressure. |
| Scanner.Write | index.js:223-466 | After an error, a write changes nothing. Otherwise, on success every mark is at rest and `bytesReceived` grew by the chunk's length. On an error in the chunk, `state`, `index` and `bytesReceived` are as the chunk found them. |
| Scanner.Finish | index.js:789-794 | Finishing anywhere but END records the 400 "stream ended unexpectedly" error, then one flush ends. |
| ScannerProofs.StepKeepsScanning | index.js:243-440 | Every step that does not stop keeps the scanner invariant: marks open exactly in their states, and held bytes a prefix of the delimiter. |
| ScannerProofs.RunKeepsScanning | index.js:243-440 | A whole chunk that does not stop keeps the scanner invariant. |
| ScannerProofs.WriteKeepsResting | index.js:223-466 | `_write` keeps the between-calls invariant, whatever the chunk. |
| ScannerProofs.StepAccounts | index.js:343-423 | In part data, the bytes sent on plus the bytes held equal what was there before plus the bytes scanned. |
| ScannerProofs.PartDataAccounts | index.js:348-423 | The same for one PART_DATA step, skip included. |
| ScannerProofs.SkipAccounts | index.js:353-362 | The same for a step that starts with a skip. |
| ScannerProofs.PartDataByteAccounts | index.js:364-421 | The same for the byte the skip lands on. |
| ScannerProofs.MatchAccounts | index.js:364-376 | A byte that extends a candidate delimiter moves from the chunk to the held bytes. |
| ScannerProofs.CrAccounts | index.js:377-384 | A CR after a full delimiter is held too. |
| ScannerProofs.ReplayAccounts | index.js:407-421 | A false lead sends exactly the held bytes on, with none dropped or duplicated. |
| ScannerProofs.RunAccounts | index.js:243-440 | Over a chunk that stays in one part, all bytes are accounted for. |
| ScannerProofs.WriteAccounts | index.js:343-453 | After a `_write` that stays in one part, part data sent on plus bytes held equals what was there before plus the whole chunk. |
| ScannerProofs.LeavingPartData | index.js:377-401 | PART_DATA is left only for CLOSE_BOUNDARY, or for HEADER_FIELD_START with PartEnd logged first. |
| ScannerProofs.ClosingStaysClosed | index.js:424-435 | Once in CLOSE_BOUNDARY or END, scanning never leaves them. |
| ScannerProofs.SkipSound | index.js:353-362 | No position the skip passes over starts a delimiter that lies inside the chunk. |
| ScannerProofs.SkipWitness | index.js:353-362 | Every skipped position has, within one delimiter length, a byte that is not in the delimiter. |
| ScannerProofs.PartBoundaryConfirmed | index.js:392-400 | A full delimiter, CR and LF mean the held bytes were the delimiter. The part ends (postponed write callbacks released), a new part begins, and scanning goes to HEADER_FIELD_START. |
| ScannerProofs.CloseDelimiterConfirmed | index.js:377-433 | A full delimiter followed by `--` ends the part and reaches END. |
| ScannerProofs.EndIgnoresRest | index.js:434-435 | In END, every further byte is ignored. |
| ScannerProofs.TokenMatched | index.js:251-273 | Matching the rest of `--token` CR LF from any point begins the first part. |
| ScannerProofs.FirstDelimiterOpensPart | index.js:246-273 | A body starting with `--token` CR LF begins a part and logs only PartBegin. |
| ScannerProofs.AfterFirstToken | index.js:253-268 | After the token: HYPHEN goes to CLOSE_BOUNDARY with index 1, CR then LF begins a part, and any other byte is the CR or LF error. |
| ScannerProofs.PreambleResets | index.js:271-272 | A mismatching byte in the preamble drops `index` to -2, or to -1 when it is a CR. |
| ScannerProofs.HeaderNameByte | index.js:282-312 | A header-name byte fails exactly when it is not a letter, hyphen, colon or CR, or when it is a leading colon. The error names the byte. |
| ScannerProofs.EmptyHeaderName | index.js:274-299 | A colon as the first byte of a header line is the "Empty header field" error. |
| ScannerProofs.LineEndNeedsLF | index.js:331-338 | After a header line's CR or the blank line's CR, only LF is accepted. |
| ScannerProofs.HeaderNameRead | index.js:294-304 | A colon after a non-empty name sends the name on and starts the value. |
| ScannerProofs.HeaderValueRead | index.js:319-330 | CR ends the value and stores the header under its lower-cased name. |
| ScannerProofs.HeadersEndStartsData | index.js:336-342 | With the correction, part data starts holding no stale bytes. |
| ScannerProofs.HeaderLettersCounted | index.js:282-312 | A run of letters then CR reaches HEADERS_ALMOST_DONE with `index` grown by the number of letters. |
| ScannerProofs.ColonlessLineKeepsIndex | index.js:274-312 | A header line of letters without a colon ends the header block with `index` equal to its length. |
| ScannerProofs.AsWrittenReportsStaleBytes | index.js:336-421 | As written, such a block starts part data with that `index`. The first byte that does not match the delimiter sends that many stale lookbehind bytes on as part data. |
| Scanner.HeadersAlmostDoneAsWritten | index.js:336-342 | As written, LF after the blank line's CR enters part data with `index` left as it was. Anything else is an error. |
| Scanner.StaleByte | index.js:407-411 | With `index` past `boundaryLength` + 1, a byte is stored in the lookbehind at `index` - 1 when that is inside it. Only the lookbehind changes, and its length stays. |
| Scanner.StaleRun | index.js:343-423 | The same for every later byte of the chunk. State, `index` and log are unchanged. |
| ScannerProofs.AsWrittenReplaysWholeLookbehind | index.js:392-421 | As written, with `index` at `boundaryLength` + 1 left over from a header line, the first byte of part data after the header block's LF, whatever it is, reaches the `else` at index.js:402-404. The first `boundaryLength` + 1 held bytes are sent on as data. |
| ScannerProofs.AsWrittenClosesEarly | index.js:385-453 | As written, with `index` at `boundaryLength` left over, the body bytes `--` after LF are taken for the close delimiter: CLOSE_BOUNDARY, then END, with PartEnd logged and the rest of the chunk skipped by the loop. The part-data mark is still open and the part's stream is gone, so the chunk-end flush (index.js:450-451) writes to no stream, and in JavaScript this `_write` throws a TypeError at index.js:504. |
| ScannerProofs.AsWrittenWedges | index.js:364-405 | As written, with `index` past `boundaryLength` + 1, no byte changes state or `index` again. All the rest of the chunk is sent on as data, and finishing is the "stream ended unexpectedly" error. |
| ScannerProofs.StaleReplay | index.js:343-421 | PART_DATA_START entered with a non-zero `index` replays the lookbehind bytes below it. |
| ScannerProofs.StaleZerosExample | index.js:336-421 | A concrete case: token `X`, header line `abc` CR, then LF and `h` sends three zero bytes on as part data. |
| Ordering.InitialSound | index.js:772-788 | A new form is sound: the scanner is at rest and the emit queue is ordered. |
| Ordering.OrderedStep | index.js:243-440 | One loop iteration keeps the queue ordered. |
| Ordering.OrderedRun | index.js:243-440 | The whole loop over a chunk keeps the queue ordered. |
| Ordering.OrderedHeadersEnd | index.js:519-559 | The end of a header block, which may hold and release queue items, keeps the queue ordered. |
| Ordering.OrderedWrite | index.js:223-466 | A whole `_write` keeps the queue ordered. |
| Ordering.WriteSound | index.js:223-466 | A whole `_write` keeps the form sound. |
| Ordering.HandleErrorSound | index.js:197-213 | `handleError` keeps the form sound. |
| Ordering.ReleaseSound | index.js:630-633 | Releasing a held item keeps the form sound. |
| Ordering.EndFlushSound | index.js:584-612 | `endFlush`, with the `close` it may queue, keeps the form sound. |
| Ordering.FinishSound | index.js:789-794 | The `finish` handler keeps the form sound. |
| Ordering.DrainSound | index.js:539-541 | A part stream's `drain` keeps the form sound. |
| Ordering.FieldSizeSound | index.js:743-748 | Counting a field chunk, before any limit error, keeps the form sound. |
| Ordering.FieldEndedSound | index.js:751-756 | The end of a field stream keeps the form sound. |
| Ordering.FileClosedSound | index.js:719-725 | The `close` of a file keeps the form sound. |
| Ordering.FileProgressSound | index.js:713-718 | A file's `progress` keeps the form sound. |
| Parser.Form.constructor | index.js:772-795 | The new object is the initial state of its configuration, with a fresh zero-filled lookbehind array and the delimiter's byte set. |
| Parser.Form.Write | index.js:223-466 | `_write` on the object leaves it in the state `Scanner.Write` computes, and keeps the between-calls invariant. |
| Parser.Form.Scan | index.js:227-440 | The loop with `state` and `index` in locals ends where `Scanner.Run` does. On an error the stored `state` and `index` are the old ones. |
| Parser.Form.StepByte | index.js:243-440 | One loop iteration on the object is `Scanner.Step`. |
| Parser.Form.HeaderStep | index.js:246-342 | The header-line states on the object are `Scanner.Step`. |
| Parser.Form.NameStep | index.js:246-312 | START, START_BOUNDARY and the header-name states on the object are `Scanner.Step`. |
| Parser.Form.ValueStep | index.js:313-342 | The header-value and line-end states on the object are `Scanner.Step`. |
| Parser.Form.BodyStep | index.js:343-435 | The part-data, close and end states on the object are `Scanner.Step`. |
| Parser.Form.StartBoundaryByte | index.js:251-273 | START_BOUNDARY on the object is `Scanner.StartBoundaryStep`. |
| Parser.Form.HeaderFieldByte | index.js:282-312 | HEADER_FIELD on the object is `Scanner.HeaderFieldStep`. |
| Parser.Form.HeaderValueByte | index.js:319-330 | HEADER_VALUE on the object is `Scanner.HeaderValueStep`. |
| Parser.Form.HeadersAlmostDoneByte | index.js:336-342 | HEADERS_ALMOST_DONE on the object is the corrected `Scanner.HeadersAlmostDoneStep`. |
| Parser.Form.CloseBoundaryByte | index.js:424-433 | CLOSE_BOUNDARY on the object is `Scanner.CloseBoundaryStep`. |
| Parser.Form.SkipAhead | index.js:353-362 | The skip loop, which looks bytes up in the delimiter's byte set, lands where `Scanner.Skip` does. |
| Parser.Form.PartDataScan | index.js:348-423 | PART_DATA on the object is `Scanner.PartDataStep`. |
| Parser.Form.PartDataByte | index.js:364-421 | The byte landed on is handled as `Scanner.PartDataByte`. |
| Parser.Form.WithinDelimiter | index.js:364-421 | Below the delimiter's length, the object does what `Scanner.PartDataByte` does. |
| Parser.Form.AfterDelimiter | index.js:377-421 | At the delimiter's length, the object does what `Scanner.PartDataByte` does. |
| Parser.Form.AfterPartBoundaryCR | index.js:392-421 | After the CR, the object does what `Scanner.PartDataByte` does. |
| Parser.Form.NextPart | index.js:395-400 | LF after the delimiter's CR ends the part and begins the next at HEADER_FIELD_START. |
| Parser.Form.KeepOrReplay | index.js:407-421 | A matched byte is written into the lookbehind array. A broken candidate is `Scanner.Replay`. |
| Parser.Form.FlushSpans | index.js:442-453 | The end-of-loop flush on the object is `Scanner.FlushSpans`. |
| Parser.Form.FlushFieldSpan | index.js:442-445 | As `Scanner.FlushFieldSpan`. |
| Parser.Form.FlushValueSpan | index.js:446-449 | As `Scanner.FlushValueSpan`. |
| Parser.Form.FlushDataSpan | index.js:450-453 | As `Scanner.FlushDataSpan`. |
| Parser.Form.EndOfChunk | index.js:442-465 | Flushing the spans, storing `state` and `index`, counting and answering is `Acknowledge` after `FlushSpans`. |
| Parser.Form.CountChunk | index.js:458-459 | Adds the chunk's length to `bytesReceived` and reports `progress`. |
| Parser.Form.AnswerWrite | index.js:461-465 | The write callback is queued under backpressure and called otherwise. |
| Parser.Form.Hold | index.js:627-629 | `holdEmitQueue` on the object is `Queue.Hold`, and returns the new item's id. |
| Parser.Form.Release | index.js:630-633 | The closure `holdEmitQueue` returns is `Queue.Release`. |
| Parser.Form.FlushEmitQueue | index.js:651-663 | The shift-and-invoke loop is `Queue.Flush`. |
| Parser.Form.ShiftReleased | index.js:652-662 | The loop removes exactly the released prefix and logs its invocations in order. |
| Parser.Form.ErrorEventQueue | index.js:636-649 | As `Queue.ErrorEventQueue`. |
| Parser.Form.TagItems | index.js:646-648 | Every item of the emitter is tagged with the error and no other item changes. |
| Parser.Form.HandleError | index.js:197-213 | As `Queue.HandleError`. |
| Parser.Form.BeginFlush | index.js:580-582 | As `Queue.BeginFlush`. |
| Parser.Form.EndFlush | index.js:584-595 | As `Queue.EndFlush`. |
| Parser.Form.MaybeClose | index.js:597-612 | As `Queue.MaybeClose`. |
| Parser.Form.FlushWriteCbs | index.js:561-567 | As `Queue.FlushWriteCbs`. |
| Parser.Form.Schedule | index.js:562-564 | Every postponed callback is acknowledged, in order. |
| Parser.Form.ClearPartVars | index.js:759-770 | As `Parts.ClearPartVars`. |
| Parser.Form.OnPartBegin | index.js:468-470 | As `Parts.OnPartBegin`. |
| Parser.Form.OnHeaderField | index.js:472-474 | As `Parts.OnHeaderField`. |
| Parser.Form.OnHeaderValue | index.js:476-478 | As `Parts.OnHeaderValue`. |
| Parser.Form.OnHeaderEnd | index.js:480-498 | As `Parts.OnHeaderEnd`. |
| Parser.Form.ApplyHeader | index.js:484-492 | As `Parts.ApplyHeader`. |
| Parser.Form.OnPartData | index.js:500-506 | As `Parts.OnPartData`. |
| Parser.Form.OnPartEnd | index.js:508-517 | As `Parts.OnPartEnd`. |
| Parser.Form.OnHeadersEnd | index.js:519-559 | As `Parts.OnHeadersEnd`, including the error it returns. |
| Parser.Form.NormalizeTransferEncoding | index.js:521-531 | Reports whether the encoding is known, and normalises it when it is. |
| Parser.Form.CountAndRoute | index.js:533-558 | As `Parts.CountAndRoute`. |
| Parser.Form.Route | index.js:538-558 | As `Parts.RoutePart`. |
| Parser.Form.HandleField | index.js:730-735 | `handleField` on the object is `Parts.Dispatch` of a field. |
| Parser.Form.HandleFile | index.js:676-690 | `handleFile` on the object is `Parts.Dispatch` of a file. |
| Parser.Form.HandlePart | index.js:665-674 | `handlePart` on the object is `Parts.Dispatch` of a part. |
| Parser.Form.Finish | index.js:789-794 | The `finish` handler on the object is `Scanner.Finish`. The object stays valid. |
| Parser.Form.Drained | index.js:539-541 | The part stream's `drain` releases the postponed write callbacks. The object stays valid. |
| Parser.Form.StreamFailed | index.js:691-693 | A part stream's `error` goes through `handleError`. The object stays valid. |
| Parser.Form.PartStreamEnded | index.js:668-670 | The `end` of a `handlePart` stream ends one flush. The object stays valid. |
| Parser.Form.FieldData | index.js:739-747 | A chunk read from a field stream is `Queue.FieldChunk`. The object stays valid. |
| Parser.Form.FieldEnded | index.js:751-756 | The end of a field stream emits `field` in its turn and ends one flush. The object stays valid. |
| Parser.Form.FileProgress | index.js:713-718 | A `progress` event is `Queue.FileProgress`. The object stays valid. |
| Parser.Form.FileClosed | index.js:719-725 | The file's `close` emits `file` in its turn and ends one flush, unless an error is recorded. The object stays valid. |

## Left out

- Text decoding. `StringDecoder` (index.js:473, 477, 494-497, 732, 748, 766-768) is not modelled. Header names, header values and field data stay bytes, and lower-casing is ASCII only.
- The text of a field's value (index.js:748, 753). Only its size is counted. The `field` emission names the stream, not the value.
- Base64 decoding of part data by the part stream (index.js:502). The raw bytes are what is sent on, and the stream records its encoding.
- `decodeURI` of the `filename*=` form (index.js:808). It is a library call, so the captured bytes are returned undecoded. On a malformed `%` sequence `decodeURI` throws a URIError, which escapes `_write`; the model returns the bytes instead.
- Disposition.ParseFilename: the two regular expressions are matched on bytes. In JavaScript their `.` also refuses U+2028 and U+2029 (UTF-8 E2 80 A8 and E2 80 A9), so a `filename="..."` holding either finds no filename and the part is routed as a field; the model captures those bytes.
- Numbers.ParseInt: leading white space is the ASCII TAB, LF, VT, FF, CR and SPACE only. JavaScript `parseInt` also skips U+00A0, U+FEFF and the other Unicode space characters.
- File-system work:
  - `fs.open`, `fd-slicer` and the write stream of `handleFile` (index.js:678-706, 726);
  - `cleanupOpenFiles` and its `fs.unlink` (index.js:208, 614-625);
  - the `maxFilesSize` limit enforced by the write stream (index.js:700, 708-712).

  A file's `progress`, `close` and `error` are instead method calls (`Parser.Form.FileProgress`, `FileClosed` and `StreamFailed`).
- `uploadPath`'s `uid.sync`, `path.extname` and `path.join` (index.js:797-801). `Upload.TrimExtension` takes the extension as given.
- Request plumbing in `parse` (index.js:91-218): request events, content-type and boundary extraction, `validationError` and callback aggregation. The boundary token is a constructor parameter.
- The `handleError` calls to `req.removeListener` (index.js:201-202).
- The `console.log` at index.js:252.
- `process.nextTick` deferrals (index.js:512-514, 563, 608-610). A deferred action is logged when it is scheduled. The part stream's `end` comes back as a method call (`PartStreamEnded`, `FieldEnded`, `FileClosed`).
- The `newListener` handler (index.js:82-88), which switches `autoFields` or `autoFiles` on when a listener is added. The switches are fixed when the form is made.
- The `uploadDir` and `encoding` options (index.js:64-65), which only feed the parts left out above.
- JavaScript numbers are doubles. Counters and `parseInt` results are unbounded integers, so precision loss on very large lengths is not modelled.
- `maxFilesSize` `Infinity` (index.js:63) is `None`.
- `index` starting as `null` (index.js:785) is 0 here. START sets it to 0 before any use (index.js:248), so nothing differs.
- The `default` branch of the `switch` (index.js:436-438) is absent. The state type has only the twelve states, so it cannot be reached.
- The `else` at index.js:402-404 is merged into the replay branch of the corrected model, where it is unreachable: the scanner invariant makes `index` equal to `boundaryLength` + 1 imply `partBoundaryFlag`. As written it is reached after a colon-less header line (`ScannerProofs.AsWrittenReplaysWholeLookbehind`).
- Parts.OnPartData: JavaScript throws a TypeError out of `_write` when there is no part stream (index.js:504), and the model logs the data instead. In the corrected scanner the invariant keeps the mark open only in PART_DATA, so nothing is flushed after the part has ended. Reaching END with the mark open is the as-written case of `ScannerProofs.AsWrittenClosesEarly`.
- Scanner.Write: every part-stream `write` within one chunk is given the same answer, `congested`. In JavaScript each call may answer differently.
- Parser.Form.Write: the `encoding` argument of `_write` is not modelled, because a Writable in buffer mode ignores it.

## Findings

| source | as written | input that shows it | evidently intended | confidence | as-written member | corrected member |
|---|---|---|---|---|---|---|
| index.js:336-342 | A header line with no colon ends at its CR (index.js:284-287) with `index` left at the number of letters read. HEADERS_ALMOST_DONE then enters part data with that `index`. PART_DATA treats it as a partly matched delimiter, and at the first mismatch it sends that many stale `lookbehind` bytes on as part data. With `boundaryLength` + 1 letters, the first data byte after the LF reaches the `else` at index.js:402-404 and sends the whole stale prefix on. With exactly `boundaryLength` letters, `--` in the body is taken for the close delimiter (index.js:385-388). END is reached with the part-data mark still open and no part stream, so the chunk-end flush (index.js:450-451) makes `_write` throw a TypeError at index.js:504. With more, the scanner never matches again: all later bytes are data and finishing is an error. | Token `X`, body `--X` CR LF `abc` CR LF `h...`. The part's data begins with three zero bytes that are not in the body. | Part data starts with nothing matched (`index` 0), as HEADER_FIELD_START and the comment at index.js:352 assume, so only body bytes are sent on. | not executed | ScannerProofs.AsWrittenReportsStaleBytes | Scanner.HeadersAlmostDoneStep |
