/**
 * The emit queue's hold order over the whole parser: `Ordered` (module
 * `Queue`) holds of a new form, survives every scanner step, every `_write`
 * call and every event that reaches the form from its part streams, so the
 * `part`, `field`, `file` and `close` emissions of one request body are
 * invoked strictly in the order their items were held (index.js:614-664).
 * Together with the scanner's own invariant this is what holds of the form
 * between calls.
 */
module Ordering {
  import opened Common
  import opened Numbers
  import opened State
  import opened Queue
  import opened Parts
  import opened Scanner
  import ScannerProofs

  /** What holds of a form between calls: the scanner rests and the emit queue keeps hold order. */
  predicate Sound(cfg: Config, s: FormState)
  {
    Resting(cfg, s) && Ordered(s)
  }

  /** `r` leaves the emit queue alone and adds to the log only events that invoke no callback. */
  predicate InvokesNothing(s: FormState, r: FormState)
  {
    r.emitQueue == s.emitQueue && r.nextItem == s.nextItem && s.log <= r.log &&
    forall k | |s.log| <= k < |r.log| :: !r.log[k].Invoked?
  }

  /** `r` changes neither the scanner nor the part stream, and can only add an error. */
  predicate ScanAlone(s: FormState, r: FormState)
  {
    SameScan(r, s) && r.destStream == s.destStream && (r.error.Some? || r.error == s.error)
  }

  lemma OrderedKept(s: FormState, r: FormState)
    requires Ordered(s) && InvokesNothing(s, r)
    ensures Ordered(r)
  {
    var evs := r.log[|s.log|..];
    assert r.log == s.log + evs;
    assert forall k | 0 <= k < |evs| :: !evs[k].Invoked? by {
      forall k | 0 <= k < |evs| ensures !evs[k].Invoked? {
        assert evs[k] == r.log[|s.log| + k];
      }
    }
    OrderedAppend(s, evs);
  }

  lemma RestingKept(cfg: Config, s: FormState, r: FormState)
    requires Resting(cfg, s) && ScanAlone(s, r)
    ensures Resting(cfg, r)
  {
  }

  lemma InvokesNothingChain(a: FormState, b: FormState, c: FormState)
    requires InvokesNothing(a, b) && InvokesNothing(b, c)
    ensures InvokesNothing(a, c)
  {
    forall k | |a.log| <= k < |c.log| ensures !c.log[k].Invoked? {
      if k < |b.log| {
        assert c.log[k] == b.log[k];
      }
    }
  }

  // ---------------------------------------------------------------------
  // The callbacks the scanner makes
  // ---------------------------------------------------------------------

  lemma PartBeginInvokesNothing(s: FormState)
    ensures InvokesNothing(s, OnPartBegin(s))
  {
    assert OnPartBegin(s).log == s.log + [PartBegin];
  }

  lemma PartEndInvokesNothing(s: FormState)
    ensures InvokesNothing(s, OnPartEnd(s))
  {
    var s1 := s.(log := s.log + [PartEnd]);
    var s2 := if s1.destStream.Some? then FlushWriteCbs(s1) else s1;
    assert s2.log == s.log + [PartEnd] + (if s1.destStream.Some? then Acks(s.writeCbs) else []);
    assert OnPartEnd(s).log == s2.log;
  }

  lemma HeaderEndInvokesNothing(s: FormState)
    ensures InvokesNothing(s, OnHeaderEnd(s))
  {
    assert OnHeaderEnd(s).log == s.log + [HeaderEnd];
  }

  lemma ReplayInvokesNothing(s: FormState, prevIndex: nat, j: nat, congested: bool)
    requires prevIndex <= |s.lookbehind|
    ensures InvokesNothing(s, Replay(s, prevIndex, j, congested).s)
  {
  }

  /** Failing records the error and routes it through the queue, which keeps hold order. */
  lemma OrderedFail(s: FormState, e: Failure)
    requires Ordered(s)
    ensures Ordered(Fail(s, e).s)
  {
    OrderedHandleError(s, e);
  }

  /** Handing a part to its consumer holds an item and may release it at once; hold order is kept. */
  lemma OrderedHeadersEnd(cfg: Config, s: FormState, offset: nat)
    requires Ordered(s)
    ensures Ordered(OnHeadersEnd(cfg, s, offset).0)
  {
    var s0 := s.(log := s.log + [HeadersEnd(offset)]);
    OrderedAppend(s, [HeadersEnd(offset)]);
    match NormalizeEncoding(s0.partTransferEncoding)
    case None =>
    case Some(enc) =>
      var s1 := s0.(partTransferEncoding := enc);
      assert Ordered(s1);
      OrderedCountAndRoute(cfg, s1, offset);
  }

  /** Counting the part and routing it keeps hold order. */
  lemma OrderedCountAndRoute(cfg: Config, s: FormState, offset: nat)
    requires Ordered(s)
    ensures Ordered(CountAndRoute(cfg, s, offset).0)
  {
    var s1 := s.(totalFieldCount := s.totalFieldCount + 1);
    var r := CountAndRoute(cfg, s, offset).0;
    if s1.totalFieldCount > cfg.maxFields {
      assert r == s1;
      OrderedSameQueue(s, r);
    } else {
      assert r == RoutePart(cfg, s1, offset);
      OrderedSameQueue(s, s1);
      OrderedRoutePart(cfg, s1, offset);
    }
  }

  /** Giving the part its stream and handing it on keeps hold order. */
  lemma OrderedRoutePart(cfg: Config, s: FormState, offset: nat)
    requires Ordered(s)
    ensures Ordered(RoutePart(cfg, s, offset))
  {
    var d := NewPartStream(cfg, s, offset);
    var s1 := s.(destStream := Some(d));
    OrderedSameQueue(s, s1);
    OrderedDispatch(s1, d);
  }

  /** Hold order only looks at the queue, the log and the next id. */
  lemma OrderedSameQueue(s: FormState, r: FormState)
    requires Ordered(s)
    requires r.emitQueue == s.emitQueue && r.log == s.log && r.nextItem == s.nextItem
    ensures Ordered(r)
  {
  }

  /** Handing stream `d` to its consumer keeps hold order. */
  lemma OrderedDispatch(s: FormState, d: PartStream)
    requires Ordered(s)
    ensures Ordered(Dispatch(s, d))
  {
    var b := BeginFlush(s);
    assert Ordered(b);
    match d.route
    case ToField => OrderedHold(b, Some(d.id));
    case ToFile => if s.error.None? { OrderedHold(b, Some(d.id)); }
    case ToPart =>
      OrderedHold(b, Some(d.id));
      OrderedRelease(Hold(b, Some(d.id)), s.nextItem, EmitPart(d.id));
  }

  // ---------------------------------------------------------------------
  // Scanner steps
  // ---------------------------------------------------------------------

  lemma OrderedStartBoundary(cfg: Config, s: FormState, buf: seq<byte>, i: nat)
    requires Ordered(s) && Ready(cfg, s, buf, i) && s.state == StartBoundary
    ensures Ordered(StartBoundaryStep(cfg, s, buf, i).s)
  {
    var o := StartBoundaryStep(cfg, s, buf, i);
    if o.Stop? {
      OrderedHandleError(s, o.s.error.value);
    } else if s.index == |cfg.boundary| - 1 {
      PartBeginInvokesNothing(s.(index := 0));
      OrderedKept(s.(index := 0), OnPartBegin(s.(index := 0)));
    }
  }

  lemma OrderedHeaderField(cfg: Config, s: FormState, buf: seq<byte>, i: nat)
    requires Ordered(s) && Ready(cfg, s, buf, i) && s.state == HeaderField
    ensures Ordered(HeaderFieldStep(cfg, s, buf, i).s)
  {
    var o := HeaderFieldStep(cfg, s, buf, i);
    if o.Stop? {
      OrderedHandleError(s, o.s.error.value);
    } else if buf[i] == COLON {
      OrderedAppend(s, [HeaderFieldData(buf[Mark(s.headerFieldMark)..i])]);
    }
  }

  lemma OrderedHeaderValue(cfg: Config, s: FormState, buf: seq<byte>, i: nat)
    requires Ordered(s) && Ready(cfg, s, buf, i) && s.state == HeaderValue
    ensures Ordered(HeaderValueStep(cfg, s, buf, i).s)
  {
    if buf[i] == CR {
      var value := buf[Mark(s.headerValueMark)..i];
      var s1 := OnHeaderValue(s, value).(headerValueMark := None);
      OrderedAppend(s, [HeaderValueData(value)]);
      HeaderEndInvokesNothing(s1);
      OrderedKept(s1, OnHeaderEnd(s1));
    }
  }

  lemma OrderedHeadersAlmostDone(cfg: Config, s: FormState, buf: seq<byte>, i: nat)
    requires Ordered(s) && Ready(cfg, s, buf, i) && s.state == HeadersAlmostDone
    ensures Ordered(HeadersAlmostDoneStep(cfg, s, buf, i).s)
  {
    if buf[i] != LF {
      OrderedHandleError(s, ExpectedLF(buf[i]));
    } else {
      var (s1, err) := OnHeadersEnd(cfg, s, i + 1);
      OrderedHeadersEnd(cfg, s, i + 1);
      if err.Some? {
        OrderedHandleError(s1, err.value);
      }
    }
  }

  lemma OrderedPartDataByte(cfg: Config, s: FormState, buf: seq<byte>, j: nat, congested: bool)
    requires Ordered(s) && Ready(cfg, s, buf, j) && s.state == PartData
    ensures Ordered(PartDataByte(cfg, s, buf, j, congested).s)
  {
    var L := |cfg.boundary|;
    var c := buf[j];
    var prev := s.index;
    if prev < L {
      if cfg.boundary[prev] == c {
        if prev == 0 {
          OrderedAppend(s, [Data(buf[Mark(s.partDataMark)..j])]);
        }
      } else {
        ReplayInvokesNothing(s, prev, j, congested);
        OrderedKept(s, Replay(s, prev, j, congested).s);
      }
    } else if prev == L {
      if c != CR && c != HYPHEN {
        ReplayInvokesNothing(s, prev, j, congested);
        OrderedKept(s, Replay(s, prev, j, congested).s);
      }
    } else if s.partBoundaryFlag && c == LF {
      var t := s.(partBoundaryFlag := false, index := 0);
      PartEndInvokesNothing(t);
      PartBeginInvokesNothing(OnPartEnd(t));
      InvokesNothingChain(t, OnPartEnd(t), OnPartBegin(OnPartEnd(t)));
      OrderedKept(t, OnPartBegin(OnPartEnd(t)));
    } else {
      ReplayInvokesNothing(s, prev, j, congested);
      OrderedKept(s, Replay(s, prev, j, congested).s);
    }
  }

  lemma OrderedPartData(cfg: Config, s: FormState, buf: seq<byte>, i: nat, congested: bool)
    requires Ordered(s) && Ready(cfg, s, buf, i) && s.state == PartData
    ensures Ordered(PartDataStep(cfg, s, buf, i, congested).s)
  {
    if s.index == 0 {
      var land := Skip(cfg, buf, i);
      if land < |buf| {
        OrderedPartDataByte(cfg, s, buf, land, congested);
      }
    } else {
      OrderedPartDataByte(cfg, s, buf, i, congested);
    }
  }

  lemma OrderedCloseBoundary(cfg: Config, s: FormState, buf: seq<byte>, i: nat)
    requires Ordered(s) && Ready(cfg, s, buf, i) && s.state == CloseBoundary
    ensures Ordered(CloseBoundaryStep(cfg, s, buf, i).s)
  {
    var o := CloseBoundaryStep(cfg, s, buf, i);
    if o.Stop? {
      OrderedHandleError(s, o.s.error.value);
    } else if s.index == 1 {
      PartEndInvokesNothing(s);
      OrderedKept(s, OnPartEnd(s));
    }
  }

  /** Every step of the `for` loop of `_write` keeps hold order. */
  lemma OrderedStep(cfg: Config, s: FormState, buf: seq<byte>, i: nat, congested: bool)
    requires Ordered(s) && Ready(cfg, s, buf, i)
    ensures Ordered(Step(cfg, s, buf, i, congested).s)
  {
    match s.state
    case Start => OrderedStartBoundary(cfg, s.(index := 0, state := StartBoundary), buf, i);
    case StartBoundary => OrderedStartBoundary(cfg, s, buf, i);
    case HeaderFieldStart =>
      OrderedHeaderField(cfg, s.(state := HeaderField, headerFieldMark := Some(i), index := 0), buf, i);
    case HeaderField => OrderedHeaderField(cfg, s, buf, i);
    case HeaderValueStart =>
      if buf[i] != SPACE {
        OrderedHeaderValue(cfg, s.(headerValueMark := Some(i), state := HeaderValue), buf, i);
      }
    case HeaderValue => OrderedHeaderValue(cfg, s, buf, i);
    case HeaderValueAlmostDone =>
      if buf[i] != LF {
        OrderedHandleError(s, ExpectedLF(buf[i]));
      }
    case HeadersAlmostDone => OrderedHeadersAlmostDone(cfg, s, buf, i);
    case PartDataStart => OrderedPartData(cfg, s.(state := PartData, partDataMark := Some(i)), buf, i, congested);
    case PartData => OrderedPartData(cfg, s, buf, i, congested);
    case CloseBoundary => OrderedCloseBoundary(cfg, s, buf, i);
    case End =>
  }

  lemma {:induction false} OrderedRun(cfg: Config, s: FormState, buf: seq<byte>, i: nat, congested: bool)
    requires Ordered(s) && WellFormed(cfg, s) && i <= |buf| && MarksWithin(s, i)
    ensures Ordered(Run(cfg, s, buf, i, congested).s)
    decreases |buf| - i, Rank(s)
  {
    if i < |buf| {
      OrderedStep(cfg, s, buf, i, congested);
      ScannerProofs.RunUnfold(cfg, s, buf, i, congested);
      match Step(cfg, s, buf, i, congested)
      case Stop(r) =>
      case Next(r, at) => OrderedRun(cfg, r, buf, at, congested);
    }
  }

  /** The spans flushed at a chunk's end are callbacks that invoke nothing. */
  lemma FlushSpansInvokesNothing(s: FormState, buf: seq<byte>, congested: bool)
    requires MarksWithin(s, |buf|)
    ensures InvokesNothing(s, FlushSpans(s, buf, congested))
  {
    var a := FlushFieldSpan(s, buf);
    var b := FlushValueSpan(a, buf);
    var c := FlushDataSpan(b, buf, congested);
    assert InvokesNothing(s, a);
    assert InvokesNothing(a, b);
    assert InvokesNothing(b, c);
    InvokesNothingChain(s, a, b);
    InvokesNothingChain(s, b, c);
  }

  /** A whole `_write` call keeps hold order, whether it ends the chunk or fails inside it. */
  lemma OrderedWrite(cfg: Config, s: FormState, buf: seq<byte>, cb: nat, congested: bool)
    requires Resting(cfg, s) && Ordered(s)
    ensures Ordered(Write(cfg, s, buf, cb, congested))
  {
    if s.error.None? {
      var o := Run(cfg, s, buf, 0, congested);
      OrderedRun(cfg, s, buf, 0, congested);
      if o.Next? {
        var f := FlushSpans(o.s, buf, congested);
        FlushSpansInvokesNothing(o.s, buf, congested);
        OrderedKept(o.s, f);
        OrderedKept(f, Acknowledge(f, |buf|, cb));
      }
    }
  }

  // ---------------------------------------------------------------------
  // The form between calls
  // ---------------------------------------------------------------------

  /** A new form is sound. */
  lemma InitialSound(cfg: Config, expected: Measure)
    requires ValidConfig(cfg)
    ensures Sound(cfg, Initial(cfg, expected))
  {
  }

  /** `_write` keeps the form sound. */
  lemma WriteSound(cfg: Config, s: FormState, buf: seq<byte>, cb: nat, congested: bool)
    requires Sound(cfg, s)
    ensures Sound(cfg, Write(cfg, s, buf, cb, congested))
  {
    ScannerProofs.WriteKeepsResting(cfg, s, buf, cb, congested);
    OrderedWrite(cfg, s, buf, cb, congested);
  }

  lemma HandleErrorSound(cfg: Config, s: FormState, e: Failure)
    requires Sound(cfg, s)
    ensures Sound(cfg, HandleError(s, e))
  {
    OrderedHandleError(s, e);
    assert ScanAlone(s, HandleError(s, e));
    RestingKept(cfg, s, HandleError(s, e));
  }

  lemma ReleaseSound(cfg: Config, s: FormState, id: nat, cb: Callback)
    requires Sound(cfg, s)
    ensures Sound(cfg, Release(s, id, cb))
  {
    OrderedRelease(s, id, cb);
    RestingKept(cfg, s, Release(s, id, cb));
  }

  /** `endFlush`, and the `close` emission it may queue, keep the form sound. */
  lemma EndFlushSound(cfg: Config, s: FormState)
    requires Sound(cfg, s)
    ensures Sound(cfg, EndFlush(s))
  {
    var s1 := s.(flushing := s.flushing - 1);
    assert Sound(cfg, s1);
    if s1.flushing < 0 {
      HandleErrorSound(cfg, s1, UnexpectedEndFlush);
    } else {
      MaybeCloseSound(cfg, s1);
    }
  }

  /** `maybeClose` keeps the form sound. */
  lemma MaybeCloseSound(cfg: Config, s: FormState)
    requires Sound(cfg, s)
    ensures Sound(cfg, MaybeClose(s))
  {
    if s.flushing <= 0 && s.error.None? {
      var h := Hold(s, None);
      OrderedHold(s, None);
      assert Sound(cfg, h);
      ReleaseSound(cfg, h, s.nextItem, EmitClose);
    }
  }

  /** The `finish` handler keeps the form sound. */
  lemma FinishSound(cfg: Config, s: FormState)
    requires Sound(cfg, s)
    ensures Sound(cfg, Scanner.Finish(s))
  {
    var s1 := if s.state != End then HandleError(s, StreamEndedUnexpectedly) else s;
    if s.state != End {
      HandleErrorSound(cfg, s, StreamEndedUnexpectedly);
    }
    EndFlushSound(cfg, s1);
  }

  /** A part stream's `drain` keeps the form sound. */
  lemma DrainSound(cfg: Config, s: FormState)
    requires Sound(cfg, s)
    ensures Sound(cfg, FlushWriteCbs(s))
  {
    assert InvokesNothing(s, FlushWriteCbs(s));
    OrderedKept(s, FlushWriteCbs(s));
  }

  /** Counting a field stream's bytes keeps the form sound; passing the limit then goes through `HandleErrorSound`. */
  lemma FieldSizeSound(cfg: Config, s: FormState, n: nat)
    requires Sound(cfg, s)
    ensures Sound(cfg, s.(totalFieldSize := s.totalFieldSize + n))
  {
    var s1 := s.(totalFieldSize := s.totalFieldSize + n);
    assert ScanAlone(s, s1);
    RestingKept(cfg, s, s1);
  }

  /** The end of a field stream keeps the form sound. */
  lemma FieldEndedSound(cfg: Config, s: FormState, stream: nat, item: nat)
    requires Sound(cfg, s)
    ensures Sound(cfg, Parts.FieldEnded(s, stream, item))
  {
    ReleaseSound(cfg, s, item, EmitField(stream));
    EndFlushSound(cfg, Release(s, item, EmitField(stream)));
  }

  /** The close of a file keeps the form sound. */
  lemma FileClosedSound(cfg: Config, s: FormState, stream: nat, item: nat)
    requires Sound(cfg, s)
    ensures Sound(cfg, Parts.FileClosed(s, stream, item))
  {
    if s.error.None? {
      ReleaseSound(cfg, s, item, EmitFile(stream));
      EndFlushSound(cfg, Release(s, item, EmitFile(stream)));
    }
  }

  /** A file's progress keeps the form sound. */
  lemma FileProgressSound(cfg: Config, s: FormState, prevByteCount: int, size: int)
    requires Sound(cfg, s)
    ensures Sound(cfg, Queue.FileProgress(s, prevByteCount, size).0)
  {
  }
}
