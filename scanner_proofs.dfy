/**
 * What the boundary scanner of `_write` (index.js:223-466) guarantees: its
 * invariant survives every step and every chunk, the part data it reports
 * is exactly the body bytes between delimiters, the Horspool skip passes
 * over no delimiter, and delimiters are confirmed as RFC 2046 section 5.1.1
 * describes them.
 */
module ScannerProofs {
  import opened Common
  import opened Numbers
  import opened State
  import opened Queue
  import opened Parts
  import opened Scanner

  // ---------------------------------------------------------------------
  // The scanner invariant
  // ---------------------------------------------------------------------

  /** Every step that does not stop keeps the scanner invariant. */
  lemma StepKeepsScanning(cfg: Config, s: FormState, buf: seq<byte>, i: nat, congested: bool)
    requires Scanning(cfg, s) && Ready(cfg, s, buf, i)
    ensures Step(cfg, s, buf, i, congested).Next? ==> Scanning(cfg, Step(cfg, s, buf, i, congested).s)
  {
    match s.state
    case Start => StartKeepsScanning(cfg, s, buf, i, congested);
    case StartBoundary => StartKeepsScanning(cfg, s, buf, i, congested);
    case HeaderFieldStart => HeaderFieldKeepsScanning(cfg, s.(state := HeaderField, headerFieldMark := Some(i), index := 0), buf, i);
    case HeaderField => HeaderFieldKeepsScanning(cfg, s, buf, i);
    case HeaderValueStart =>
      if buf[i] != SPACE {
        HeaderValueKeepsScanning(cfg, s.(headerValueMark := Some(i), state := HeaderValue), buf, i);
      }
    case HeaderValue => HeaderValueKeepsScanning(cfg, s, buf, i);
    case HeaderValueAlmostDone =>
    case HeadersAlmostDone => HeadersAlmostDoneKeepsScanning(cfg, s, buf, i);
    case PartDataStart =>
      PartDataKeepsScanning(cfg, s.(state := PartData, partDataMark := Some(i)), buf, i, congested);
    case PartData =>
      PartDataKeepsScanning(cfg, s, buf, i, congested);
    case CloseBoundary => CloseKeepsScanning(cfg, s, buf, i);
    case End =>
  }

  lemma StartKeepsScanning(cfg: Config, s: FormState, buf: seq<byte>, i: nat, congested: bool)
    requires Scanning(cfg, s) && Ready(cfg, s, buf, i) && (s.state == Start || s.state == StartBoundary)
    ensures Step(cfg, s, buf, i, congested).Next? ==> Scanning(cfg, Step(cfg, s, buf, i, congested).s)
  {
  }

  lemma HeaderFieldKeepsScanning(cfg: Config, s: FormState, buf: seq<byte>, i: nat)
    requires Scanning(cfg, s) && Ready(cfg, s, buf, i) && s.state == HeaderField
    ensures HeaderFieldStep(cfg, s, buf, i).Next? ==> Scanning(cfg, HeaderFieldStep(cfg, s, buf, i).s)
  {
  }

  lemma HeaderValueKeepsScanning(cfg: Config, s: FormState, buf: seq<byte>, i: nat)
    requires Scanning(cfg, s) && Ready(cfg, s, buf, i) && s.state == HeaderValue
    ensures HeaderValueStep(cfg, s, buf, i).Next? ==> Scanning(cfg, HeaderValueStep(cfg, s, buf, i).s)
  {
  }

  lemma HeadersAlmostDoneKeepsScanning(cfg: Config, s: FormState, buf: seq<byte>, i: nat)
    requires Scanning(cfg, s) && Ready(cfg, s, buf, i) && s.state == HeadersAlmostDone
    ensures HeadersAlmostDoneStep(cfg, s, buf, i).Next? ==> Scanning(cfg, HeadersAlmostDoneStep(cfg, s, buf, i).s)
  {
  }

  lemma CloseKeepsScanning(cfg: Config, s: FormState, buf: seq<byte>, i: nat)
    requires Scanning(cfg, s) && Ready(cfg, s, buf, i) && s.state == CloseBoundary
    ensures CloseBoundaryStep(cfg, s, buf, i).Next? ==> Scanning(cfg, CloseBoundaryStep(cfg, s, buf, i).s)
  {
  }

  lemma PartDataKeepsScanning(cfg: Config, s: FormState, buf: seq<byte>, i: nat, congested: bool)
    requires Scanning(cfg, s) && Ready(cfg, s, buf, i) && s.state == PartData
    ensures PartDataStep(cfg, s, buf, i, congested).Next? ==> Scanning(cfg, PartDataStep(cfg, s, buf, i, congested).s)
  {
    if s.index == 0 {
      var land := Skip(cfg, buf, i);
      if land < |buf| {
        PartDataByteKeepsScanning(cfg, s, buf, land, congested);
      }
    } else {
      PartDataByteKeepsScanning(cfg, s, buf, i, congested);
    }
  }

  lemma PartDataByteKeepsScanning(cfg: Config, s: FormState, buf: seq<byte>, j: nat, congested: bool)
    requires Scanning(cfg, s) && Ready(cfg, s, buf, j) && s.state == PartData
    ensures PartDataByte(cfg, s, buf, j, congested).Next? ==> Scanning(cfg, PartDataByte(cfg, s, buf, j, congested).s)
  {
    var L := |cfg.boundary|;
    var prev := s.index;
    var c := buf[j];
    if prev < L && cfg.boundary[prev] == c {
      MatchKeepsScanning(cfg, s, buf, j, congested);
    } else if prev == L && c == CR {
      var r := s.(index := L + 1, partBoundaryFlag := true, lookbehind := s.lookbehind[L := c]);
      assert r.lookbehind[..L] == s.lookbehind[..L];
    }
  }

  /** A byte that extends the candidate delimiter keeps the held bytes a prefix of the delimiter. */
  lemma MatchKeepsScanning(cfg: Config, s: FormState, buf: seq<byte>, j: nat, congested: bool)
    requires Scanning(cfg, s) && Ready(cfg, s, buf, j) && s.state == PartData
    requires s.index < |cfg.boundary| && cfg.boundary[s.index] == buf[j]
    ensures PartDataByte(cfg, s, buf, j, congested).Next? && Scanning(cfg, PartDataByte(cfg, s, buf, j, congested).s)
  {
    var prev := s.index;
    var c := buf[j];
    var s1 := if prev == 0 then OnPartData(s, buf[Mark(s.partDataMark)..j], congested).(partDataMark := None) else s;
    var r := s1.(index := prev + 1, lookbehind := s1.lookbehind[prev := c]);
    assert r.lookbehind[..prev + 1] == s.lookbehind[..prev] + [c];
    assert cfg.boundary[..prev + 1] == cfg.boundary[..prev] + [c];
  }

  /** A run over a chunk that reaches its end keeps the scanner invariant. */
  lemma {:induction false} RunKeepsScanning(cfg: Config, s: FormState, buf: seq<byte>, i: nat, congested: bool)
    requires Scanning(cfg, s) && i <= |buf| && MarksWithin(s, i)
    ensures Run(cfg, s, buf, i, congested).Next? ==> Scanning(cfg, Run(cfg, s, buf, i, congested).s)
    decreases |buf| - i, Rank(s)
  {
    if i < |buf| {
      StepKeepsScanning(cfg, s, buf, i, congested);
      match Step(cfg, s, buf, i, congested)
      case Stop(_) =>
      case Next(r, at) => RunKeepsScanning(cfg, r, buf, at, congested);
    }
  }

  /**
   * `_write` keeps a form resting: scanning with every mark at the start of
   * the next chunk, or with an error recorded and the scanner as it was.
   */
  lemma WriteKeepsResting(cfg: Config, s: FormState, buf: seq<byte>, cb: nat, congested: bool)
    requires Resting(cfg, s)
    ensures Resting(cfg, Write(cfg, s, buf, cb, congested))
  {
    if s.error.None? {
      RunKeepsScanning(cfg, s, buf, 0, congested);
    }
  }

  // ---------------------------------------------------------------------
  // Part data: every body byte reported once, in order
  // ---------------------------------------------------------------------

  /** The bytes `onParsePartData` has been given, in order. */
  function DataOf(log: seq<Event>): (d: seq<byte>)
    ensures |log| == 0 ==> d == []
  {
    if |log| == 0 then []
    else DataOf(log[..|log| - 1]) + (match log[|log| - 1] case Data(b) => b case _ => [])
  }

  lemma {:induction false} DataOfAppend(a: seq<Event>, b: seq<Event>)
    ensures DataOf(a + b) == DataOf(a) + DataOf(b)
    decreases |b|
  {
    if |b| > 0 {
      var b' := b[..|b| - 1];
      var tail := match b[|b| - 1] case Data(d) => d case _ => [];
      assert (a + b)[..|a + b| - 1] == a + b';
      assert (a + b)[|a + b| - 1] == b[|b| - 1];
      assert DataOf(a + b) == DataOf(a + b') + tail;
      assert DataOf(b) == DataOf(b') + tail;
      DataOfAppend(a, b');
    } else {
      assert a + b == a;
    }
  }

  /**
   * The part data read from position `i` of the chunk but not yet reported:
   * the bytes since the part-data mark, and the bytes held in `lookbehind`
   * as a possible delimiter.
   */
  function Held(s: FormState, buf: seq<byte>, i: nat): seq<byte>
    requires i <= |buf| && 0 <= s.index <= |s.lookbehind| && MarksWithin(s, i)
  {
    (match s.partDataMark case Some(m) => buf[m..i] case None => []) + s.lookbehind[..s.index]
  }

  /** The part data held between chunks. */
  function Holding(s: FormState): seq<byte>
    requires 0 <= s.index <= |s.lookbehind|
  {
    if s.partDataMark.Some? then [] else s.lookbehind[..s.index]
  }

  /** A step that stays in the part's data reports and holds exactly the bytes it read. */
  lemma StepAccounts(cfg: Config, s: FormState, buf: seq<byte>, i: nat, congested: bool)
    requires Scanning(cfg, s) && Ready(cfg, s, buf, i) && (s.state == PartDataStart || s.state == PartData)
    ensures var o := Step(cfg, s, buf, i, congested);
            o.Next? && o.s.state == PartData ==>
              DataOf(o.s.log) + Held(o.s, buf, o.at) == DataOf(s.log) + Held(s, buf, i) + buf[i..o.at]
  {
    if s.state == PartDataStart {
      var s' := s.(state := PartData, partDataMark := Some(i));
      assert Held(s', buf, i) == [] == Held(s, buf, i);
      PartDataAccounts(cfg, s', buf, i, congested);
    } else {
      PartDataAccounts(cfg, s, buf, i, congested);
    }
  }

  lemma PartDataAccounts(cfg: Config, s: FormState, buf: seq<byte>, i: nat, congested: bool)
    requires Scanning(cfg, s) && Ready(cfg, s, buf, i) && s.state == PartData
    ensures var o := PartDataStep(cfg, s, buf, i, congested);
            o.Next? && o.s.state == PartData ==>
              DataOf(o.s.log) + Held(o.s, buf, o.at) == DataOf(s.log) + Held(s, buf, i) + buf[i..o.at]
  {
    if s.index == 0 {
      SkipAccounts(cfg, s, buf, i, congested);
    } else {
      PartDataByteAccounts(cfg, s, buf, i, congested);
    }
  }

  /** With nothing held, the skipped bytes join the open span, and the byte the skip lands on is accounted as one step. */
  lemma SkipAccounts(cfg: Config, s: FormState, buf: seq<byte>, i: nat, congested: bool)
    requires Scanning(cfg, s) && Ready(cfg, s, buf, i) && s.state == PartData && s.index == 0
    ensures var o := PartDataStep(cfg, s, buf, i, congested);
            o.Next? && o.s.state == PartData ==>
              DataOf(o.s.log) + Held(o.s, buf, o.at) == DataOf(s.log) + Held(s, buf, i) + buf[i..o.at]
  {
    var land := Skip(cfg, buf, i);
    if land < |buf| {
      PartDataByteAccounts(cfg, s, buf, land, congested);
      var o := PartDataByte(cfg, s, buf, land, congested);
      if o.Next? && o.s.state == PartData {
        var before := DataOf(s.log) + Held(s, buf, i);
        SkipHolds(s, buf, i, land);
        assert DataOf(s.log) + Held(s, buf, land) == before + buf[i..land];
        Chain(DataOf(o.s.log) + Held(o.s, buf, o.at), DataOf(s.log) + Held(s, buf, land), before,
              buf[i..land], buf[land..o.at]);
        SplitAt(buf, i, land, o.at);
      }
    }
  }

  /** Bytes skipped with nothing held join the span since the part-data mark. */
  lemma SkipHolds(s: FormState, buf: seq<byte>, i: nat, land: nat)
    requires i <= land <= |buf| && s.index == 0 && 0 <= |s.lookbehind| && s.partDataMark.Some?
    requires MarksWithin(s, i)
    ensures Held(s, buf, land) == Held(s, buf, i) + buf[i..land]
  {
    SplitAt(buf, s.partDataMark.value, i, land);
  }

  lemma Chain(c: seq<byte>, m: seq<byte>, b: seq<byte>, d1: seq<byte>, d2: seq<byte>)
    requires m == b + d1 && c == m + d2
    ensures c == b + (d1 + d2)
  {
  }

  lemma SplitRest(buf: seq<byte>, i: nat, k: nat)
    requires i <= k <= |buf|
    ensures buf[i..] == buf[i..k] + buf[k..]
  {
  }

  lemma SplitAt(buf: seq<byte>, i: nat, k: nat, j: nat)
    requires i <= k <= j <= |buf|
    ensures buf[i..j] == buf[i..k] + buf[k..j]
  {
  }

  lemma PartDataByteAccounts(cfg: Config, s: FormState, buf: seq<byte>, j: nat, congested: bool)
    requires Scanning(cfg, s) && Ready(cfg, s, buf, j) && s.state == PartData
    ensures var o := PartDataByte(cfg, s, buf, j, congested);
            o.Next? && o.s.state == PartData ==>
              DataOf(o.s.log) + Held(o.s, buf, o.at) == DataOf(s.log) + Held(s, buf, j) + buf[j..o.at]
  {
    var L := |cfg.boundary|;
    var prev := s.index;
    var c := buf[j];
    if prev < L && cfg.boundary[prev] == c {
      MatchAccounts(cfg, s, buf, j, congested);
    } else if prev == L && c == CR {
      CrAccounts(cfg, s, buf, j, congested);
    } else if prev == L && c == HYPHEN {
    } else if prev == L + 1 && s.partBoundaryFlag && c == LF {
    } else {
      ReplayAccounts(cfg, s, buf, j, congested);
    }
  }

  /** A byte that extends a candidate delimiter is held; the first one sends the data before it on. */
  lemma MatchAccounts(cfg: Config, s: FormState, buf: seq<byte>, j: nat, congested: bool)
    requires Scanning(cfg, s) && Ready(cfg, s, buf, j) && s.state == PartData
    requires s.index < |cfg.boundary| && cfg.boundary[s.index] == buf[j]
    ensures var o := PartDataByte(cfg, s, buf, j, congested);
            o.Next? && o.at == j + 1 && 0 <= o.s.index <= |o.s.lookbehind| && MarksWithin(o.s, j + 1) &&
            DataOf(o.s.log) + Held(o.s, buf, j + 1) == DataOf(s.log) + Held(s, buf, j) + buf[j..j + 1]
  {
    if s.index == 0 {
      FirstMatchAccounts(cfg, s, buf, j, congested);
    } else {
      var prev := s.index;
      var r := s.(index := prev + 1, lookbehind := s.lookbehind[prev := buf[j]]);
      assert PartDataByte(cfg, s, buf, j, congested) == Next(r, j + 1);
      assert r.lookbehind[..prev + 1] == s.lookbehind[..prev] + buf[j..j + 1];
    }
  }

  /** The first byte of a candidate delimiter: the data before it is sent on, and the byte is held. */
  lemma FirstMatchAccounts(cfg: Config, s: FormState, buf: seq<byte>, j: nat, congested: bool)
    requires Scanning(cfg, s) && Ready(cfg, s, buf, j) && s.state == PartData
    requires s.index == 0 && cfg.boundary[0] == buf[j]
    ensures var o := PartDataByte(cfg, s, buf, j, congested);
            o.Next? && o.at == j + 1 && 0 <= o.s.index <= |o.s.lookbehind| && MarksWithin(o.s, j + 1) &&
            DataOf(o.s.log) + Held(o.s, buf, j + 1) == DataOf(s.log) + Held(s, buf, j) + buf[j..j + 1]
  {
    var m := s.partDataMark.value;
    var s1 := OnPartData(s, buf[m..j], congested).(partDataMark := None);
    var r := s1.(index := 1, lookbehind := s1.lookbehind[0 := buf[j]]);
    assert PartDataByte(cfg, s, buf, j, congested) == Next(r, j + 1);
    assert r.lookbehind[..1] == buf[j..j + 1];
    DataOfAppend(s.log, [Data(buf[m..j])]);
  }

  /** CR after a full delimiter is held with it. */
  lemma CrAccounts(cfg: Config, s: FormState, buf: seq<byte>, j: nat, congested: bool)
    requires Scanning(cfg, s) && Ready(cfg, s, buf, j) && s.state == PartData
    requires s.index == |cfg.boundary| && buf[j] == CR
    ensures var o := PartDataByte(cfg, s, buf, j, congested);
            o.Next? && o.at == j + 1 && 0 <= o.s.index <= |o.s.lookbehind| && MarksWithin(o.s, j + 1) &&
            DataOf(o.s.log) + Held(o.s, buf, j + 1) == DataOf(s.log) + Held(s, buf, j) + buf[j..j + 1]
  {
    var L := |cfg.boundary|;
    var r := s.(index := L + 1, partBoundaryFlag := true, lookbehind := s.lookbehind[L := CR]);
    assert PartDataByte(cfg, s, buf, j, congested) == Next(r, j + 1);
    assert buf[j..j + 1] == [CR];
    assert r.lookbehind[..L + 1] == s.lookbehind[..L] + [CR];
  }

  /** A false candidate: the held bytes are sent on as data, or with nothing held the byte is data. */
  lemma ReplayAccounts(cfg: Config, s: FormState, buf: seq<byte>, j: nat, congested: bool)
    requires Scanning(cfg, s) && Ready(cfg, s, buf, j) && s.state == PartData
    ensures var o := Replay(s, s.index, j, congested);
            o.Next? && j <= o.at <= j + 1 && 0 <= o.s.index <= |o.s.lookbehind| && MarksWithin(o.s, o.at) &&
            DataOf(o.s.log) + Held(o.s, buf, o.at) == DataOf(s.log) + Held(s, buf, j) + buf[j..o.at]
  {
    if s.index > 0 {
      var d := s.lookbehind[..s.index];
      var o := Replay(s, s.index, j, congested);
      assert o.s.log == s.log + [Data(d)] && o.at == j && o.s.index == 0;
      DataOfAppend(s.log, [Data(d)]);
      assert DataOf(o.s.log) == DataOf(s.log) + d;
    } else {
      var m := s.partDataMark.value;
      assert buf[m..j + 1] == buf[m..j] + buf[j..j + 1];
    }
  }

  /** Leaving the part's data goes through a confirmed delimiter: a part boundary or the close delimiter. */
  lemma LeavingPartData(cfg: Config, s: FormState, buf: seq<byte>, i: nat, congested: bool)
    requires Scanning(cfg, s) && Ready(cfg, s, buf, i) && (s.state == PartDataStart || s.state == PartData)
    ensures var o := Step(cfg, s, buf, i, congested);
            o.Next? && o.s.state != PartData ==>
              o.s.state == CloseBoundary ||
              (o.s.state == HeaderFieldStart && |o.s.log| > |s.log| && o.s.log[|s.log|] == PartEnd)
  {
    if s.state == PartDataStart {
      LeavingByte(cfg, s.(state := PartData, partDataMark := Some(i)), buf, i, congested);
    } else {
      LeavingByte(cfg, s, buf, i, congested);
    }
  }

  /** `LeavingPartData` for one step in PART_DATA, the skip included. */
  lemma LeavingByte(cfg: Config, s: FormState, buf: seq<byte>, i: nat, congested: bool)
    requires Ready(cfg, s, buf, i) && s.state == PartData
    ensures var o := PartDataStep(cfg, s, buf, i, congested);
            o.Next? && o.s.state != PartData ==>
              o.s.state == CloseBoundary ||
              (o.s.state == HeaderFieldStart && |o.s.log| > |s.log| && o.s.log[|s.log|] == PartEnd)
  {
    var j := if s.index == 0 then Skip(cfg, buf, i) else i;
    assert j == |buf| || PartDataStep(cfg, s, buf, i, congested) == PartDataByte(cfg, s, buf, j, congested);
  }

  /** Once the close delimiter has begun, scanning never returns to part data. */
  lemma {:induction false} ClosingStaysClosed(cfg: Config, s: FormState, buf: seq<byte>, i: nat, congested: bool)
    requires WellFormed(cfg, s) && i <= |buf| && MarksWithin(s, i)
    requires s.state == CloseBoundary || s.state == End
    ensures var o := Run(cfg, s, buf, i, congested);
            o.Next? ==> o.s.state == CloseBoundary || o.s.state == End
    decreases |buf| - i
  {
    if i < |buf| {
      ClosingStep(cfg, s, buf, i, congested);
      RunUnfold(cfg, s, buf, i, congested);
      match Step(cfg, s, buf, i, congested)
      case Stop(_) =>
      case Next(r, at) => ClosingStaysClosed(cfg, r, buf, at, congested);
    }
  }

  /** From CLOSE_BOUNDARY or END a step goes to CLOSE_BOUNDARY or END, or stops. */
  lemma ClosingStep(cfg: Config, s: FormState, buf: seq<byte>, i: nat, congested: bool)
    requires Ready(cfg, s, buf, i) && (s.state == CloseBoundary || s.state == End)
    ensures var o := Step(cfg, s, buf, i, congested);
            o.Next? ==> o.s.state == CloseBoundary || o.s.state == End
  {
    if s.state == CloseBoundary {
      assert Step(cfg, s, buf, i, congested) == CloseBoundaryStep(cfg, s, buf, i);
    }
  }

  /**
   * Over a run that stays inside one part's data (it ends there and reports
   * no part end), the bytes reported plus the bytes still held grow by
   * exactly the bytes read: none is dropped, duplicated or reordered, false
   * delimiter candidates included.
   */
  lemma {:induction false} RunAccounts(cfg: Config, s: FormState, buf: seq<byte>, i: nat, congested: bool)
    requires Scanning(cfg, s) && i <= |buf| && MarksWithin(s, i)
    requires s.state == PartDataStart || s.state == PartData
    ensures var o := Run(cfg, s, buf, i, congested);
            o.Next? && o.s.state == PartData && PartEnd !in o.s.log[|s.log|..] ==>
              DataOf(o.s.log) + Held(o.s, buf, |buf|) == DataOf(s.log) + Held(s, buf, i) + buf[i..]
    decreases |buf| - i, Rank(s), 1
  {
    if i < |buf| {
      var o1 := Step(cfg, s, buf, i, congested);
      RunUnfold(cfg, s, buf, i, congested);
      if o1.Next? {
        var r, at := o1.s, o1.at;
        var o := Run(cfg, r, buf, at, congested);
        if o.Next? && o.s.state == PartData && PartEnd !in o.s.log[|s.log|..] {
          LeavingPartData(cfg, s, buf, i, congested);
          PartEndKept(s.log, r.log, o.s.log);
          if r.state == PartData {
            RunAccountsStep(cfg, s, buf, i, congested);
          } else if r.state == CloseBoundary {
            ClosingStaysClosed(cfg, r, buf, at, congested);
          }
        }
      }
    }
  }

  /** The turn of `RunAccounts` that stays in the part's data. */
  lemma {:induction false} RunAccountsStep(cfg: Config, s: FormState, buf: seq<byte>, i: nat, congested: bool)
    requires Scanning(cfg, s) && Ready(cfg, s, buf, i)
    requires s.state == PartDataStart || s.state == PartData
    requires Step(cfg, s, buf, i, congested).Next? && Step(cfg, s, buf, i, congested).s.state == PartData
    ensures var o1 := Step(cfg, s, buf, i, congested);
            var o := Run(cfg, o1.s, buf, o1.at, congested);
            o.Next? && o.s.state == PartData && PartEnd !in o.s.log[|s.log|..] ==>
              DataOf(o.s.log) + Held(o.s, buf, |buf|) == DataOf(s.log) + Held(s, buf, i) + buf[i..]
    decreases |buf| - i, Rank(s), 0
  {
    var o1 := Step(cfg, s, buf, i, congested);
    var r, at := o1.s, o1.at;
    var o := Run(cfg, r, buf, at, congested);
    if o.Next? && o.s.state == PartData && PartEnd !in o.s.log[|s.log|..] {
      StepKeepsScanning(cfg, s, buf, i, congested);
      StepAccounts(cfg, s, buf, i, congested);
      PartEndFreeSuffix(s.log, r.log, o.s.log);
      RunAccounts(cfg, r, buf, at, congested);
      SplitRest(buf, i, at);
      Chain(DataOf(o.s.log) + Held(o.s, buf, |buf|), DataOf(r.log) + Held(r, buf, at),
            DataOf(s.log) + Held(s, buf, i), buf[i..at], buf[at..]);
    }
  }

  /** One turn of the loop. */
  lemma RunUnfold(cfg: Config, s: FormState, buf: seq<byte>, i: nat, congested: bool)
    requires WellFormed(cfg, s) && i < |buf| && MarksWithin(s, i)
    ensures var o1 := Step(cfg, s, buf, i, congested);
            Run(cfg, s, buf, i, congested) == if o1.Stop? then Stop(o1.s) else Run(cfg, o1.s, buf, o1.at, congested)
  {
  }

  /** A log with no part end after position |a| has none after a later position either. */
  lemma PartEndFreeSuffix(a: seq<Event>, b: seq<Event>, c: seq<Event>)
    requires a <= b <= c && PartEnd !in c[|a|..]
    ensures PartEnd !in c[|b|..]
  {
    assert c[|b|..] == c[|a|..][|b| - |a|..];
  }

  /** A log with no part end after position |a| had none there at an earlier point either. */
  lemma PartEndFreePrefix(a: seq<Event>, b: seq<Event>, c: seq<Event>)
    requires a <= b <= c && PartEnd !in c[|a|..]
    ensures PartEnd !in b[|a|..]
  {
    forall j | 0 <= j < |b| - |a|
      ensures b[|a|..][j] != PartEnd
    {
      assert b[|a|..][j] == c[|a|..][j];
    }
  }

  lemma PartEndKept(a: seq<Event>, b: seq<Event>, c: seq<Event>)
    requires a <= b <= c
    ensures |b| > |a| && b[|a|] == PartEnd ==> PartEnd in c[|a|..]
  {
    if |b| > |a| {
      assert c[|a|..][0] == b[|a|];
    }
  }

  /**
   * The chunk-level statement: a `_write` that starts and ends inside one
   * part's data, without reporting its end, reports every byte of the chunk
   * after the bytes it held before, keeping back only a possible delimiter.
   */
  lemma WriteAccounts(cfg: Config, s: FormState, buf: seq<byte>, cb: nat, congested: bool)
    requires Resting(cfg, s) && s.error.None? && (s.state == PartDataStart || s.state == PartData)
    ensures var r := Write(cfg, s, buf, cb, congested);
            r.error.None? && r.state == PartData && PartEnd !in r.log[|s.log|..] ==>
              DataOf(r.log) + Holding(r) == DataOf(s.log) + Holding(s) + buf
  {
    var o := Run(cfg, s, buf, 0, congested);
    WriteUnfold(cfg, s, buf, cb, congested);
    if o.Next? {
      var f := FlushSpans(o.s, buf, congested);
      var r := Acknowledge(f, |buf|, cb);
      if r.state == PartData && PartEnd !in r.log[|s.log|..] {
        PartEndFreePrefix(s.log, o.s.log, r.log);
        RunDataAccounts(cfg, s, buf, congested);
        FlushSpansData(o.s, buf, congested);
        AcknowledgeKeepsData(f, |buf|, cb);
      }
    }
  }

  /** `RunAccounts` over a whole chunk, from a resting form. */
  lemma RunDataAccounts(cfg: Config, s: FormState, buf: seq<byte>, congested: bool)
    requires Resting(cfg, s) && s.error.None? && (s.state == PartDataStart || s.state == PartData)
    requires var o := Run(cfg, s, buf, 0, congested);
             o.Next? && o.s.state == PartData && PartEnd !in o.s.log[|s.log|..]
    ensures var o := Run(cfg, s, buf, 0, congested);
            Scanning(cfg, o.s) && DataOf(o.s.log) + Held(o.s, buf, |buf|) == DataOf(s.log) + Holding(s) + buf
  {
    assert Held(s, buf, 0) == Holding(s);
    RunKeepsScanning(cfg, s, buf, 0, congested);
    RunAccounts(cfg, s, buf, 0, congested);
  }

  lemma WriteUnfold(cfg: Config, s: FormState, buf: seq<byte>, cb: nat, congested: bool)
    requires Resting(cfg, s) && s.error.None?
    ensures var o := Run(cfg, s, buf, 0, congested);
            Write(cfg, s, buf, cb, congested) ==
            if o.Stop? then Restore(s, o.s) else Acknowledge(FlushSpans(o.s, buf, congested), |buf|, cb)
  {
  }

  /** Acknowledging a chunk reports no data and leaves what is held alone. */
  lemma AcknowledgeKeepsData(s: FormState, n: nat, cb: nat)
    requires 0 <= s.index <= |s.lookbehind|
    ensures var r := Acknowledge(s, n, cb);
            DataOf(r.log) == DataOf(s.log) && Holding(r) == Holding(s) && r.state == s.state
  {
    var r := Acknowledge(s, n, cb);
    DataOfAppend(s.log, r.log[|s.log|..]);
    assert r.log == s.log + r.log[|s.log|..];
  }

  /** At the chunk's end, the open part-data span is the only data reported. */
  lemma FlushSpansData(s: FormState, buf: seq<byte>, congested: bool)
    requires MarksWithin(s, |buf|) && s.headerFieldMark.None? && s.headerValueMark.None?
    requires 0 <= s.index <= |s.lookbehind| && (s.partDataMark.Some? ==> s.index == 0)
    ensures var r := FlushSpans(s, buf, congested);
            DataOf(r.log) + Holding(r) == DataOf(s.log) + Held(s, buf, |buf|)
  {
    if s.partDataMark.Some? {
      DataOfAppend(s.log, [Data(buf[s.partDataMark.value..])]);
    }
  }

  // ---------------------------------------------------------------------
  // The Horspool skip
  // ---------------------------------------------------------------------

  /** The delimiter starts at `p`: in full, or cut off by the chunk's end. */
  predicate DelimiterAt(cfg: Config, buf: seq<byte>, p: nat)
    requires p <= |buf|
  {
    var e := Min(p + |cfg.boundary|, |buf|);
    buf[p..e] == cfg.boundary[..e - p]
  }

  /** Every window the skip passes over ends on a byte that occurs nowhere in the delimiter. */
  lemma {:induction false} SkipWitness(cfg: Config, buf: seq<byte>, i: nat, p: nat)
    requires ValidConfig(cfg) && i <= |buf| && i <= p < Skip(cfg, buf, i)
    ensures exists q :: p <= q < p + |cfg.boundary| && q < |buf| && buf[q] !in cfg.boundary
    decreases |buf| - i
  {
    var L := |cfg.boundary|;
    if p < i + L {
      var q := i + L - 1;
      assert p <= q < p + L && q < |buf| && buf[q] !in cfg.boundary;
    } else {
      SkipWitness(cfg, buf, i + L, p);
    }
  }

  /**
   * The skip is sound: it lands at or after where it started, and no
   * delimiter, whole or cut off by the chunk's end, starts at a position it
   * passes over.
   */
  lemma SkipSound(cfg: Config, buf: seq<byte>, i: nat)
    requires ValidConfig(cfg) && i <= |buf|
    ensures i <= Skip(cfg, buf, i)
    ensures forall p | i <= p < Skip(cfg, buf, i) :: !DelimiterAt(cfg, buf, p)
  {
    forall p | i <= p < Skip(cfg, buf, i)
      ensures !DelimiterAt(cfg, buf, p)
    {
      SkipWitness(cfg, buf, i, p);
      var q :| p <= q < p + |cfg.boundary| && q < |buf| && buf[q] !in cfg.boundary;
      var e := Min(p + |cfg.boundary|, |buf|);
      assert buf[p..e][q - p] !in cfg.boundary;
      assert cfg.boundary[..e - p][q - p] in cfg.boundary;
    }
  }

  // ---------------------------------------------------------------------
  // Delimiters in part data
  // ---------------------------------------------------------------------

  /**
   * A full delimiter followed by CR LF ends the part and begins the next
   * one: the part's end is reported, the postponed write callbacks are
   * released, and header parsing starts.
   */
  lemma PartBoundaryConfirmed(cfg: Config, s: FormState, buf: seq<byte>, i: nat, congested: bool)
    requires Scanning(cfg, s) && Ready(cfg, s, buf, i)
    requires s.state == PartData && s.index == |cfg.boundary| + 1 && buf[i] == LF
    ensures Pending(s) + [LF] == cfg.boundary + [CR, LF]
    ensures var o := Step(cfg, s, buf, i, congested);
            o.Next? && o.at == i + 1 && o.s.state == HeaderFieldStart && o.s.index == 0 &&
            o.s.log == s.log + [PartEnd] + Acks(s.writeCbs) + [PartBegin] &&
            o.s.writeCbs == [] && !o.s.partBoundaryFlag && o.s.destStream.None?
  {
    var L := |cfg.boundary|;
    assert s.lookbehind[..L + 1] == s.lookbehind[..L] + [CR];
  }

  /** A full delimiter followed by two hyphens is the close delimiter: the part ends and scanning ends. */
  lemma CloseDelimiterConfirmed(cfg: Config, s: FormState, buf: seq<byte>, i: nat, congested: bool)
    requires Scanning(cfg, s) && Ready(cfg, s, buf, i) && i + 1 < |buf|
    requires s.state == PartData && s.index == |cfg.boundary| && buf[i] == HYPHEN && buf[i + 1] == HYPHEN
    ensures Pending(s) == cfg.boundary
    ensures var o := Step(cfg, s, buf, i, congested);
            o.Next? && o.at == i + 1 && o.s.state == CloseBoundary &&
            var o2 := Step(cfg, o.s, buf, i + 1, congested);
            o2.Next? && o2.at == i + 2 && o2.s.state == End &&
            o2.s.log == s.log + [PartEnd] + Acks(s.writeCbs)
  {
  }

  /** After the close delimiter every further byte is ignored. */
  lemma {:induction false} EndIgnoresRest(cfg: Config, s: FormState, buf: seq<byte>, i: nat, congested: bool)
    requires WellFormed(cfg, s) && i <= |buf| && MarksWithin(s, i) && s.state == End
    ensures Run(cfg, s, buf, i, congested) == Next(s, |buf|)
    decreases |buf| - i
  {
    if i < |buf| {
      EndIgnoresRest(cfg, s, buf, i + 1, congested);
    }
  }

  // ---------------------------------------------------------------------
  // The first delimiter
  // ---------------------------------------------------------------------

  /** The body's first line: the delimiter without its leading CR LF, then CR LF. */
  function FirstLine(cfg: Config): (b: seq<byte>)
    requires ValidConfig(cfg)
    ensures |b| == |cfg.boundary|
  {
    cfg.boundary[2..] + [CR, LF]
  }

  lemma {:induction false} TokenMatched(cfg: Config, s: FormState, k: nat, congested: bool)
    requires WellFormed(cfg, s) && s.state == StartBoundary && s.index == k && k <= |cfg.boundary| - 2
    requires s.headerFieldMark.None? && s.headerValueMark.None? && s.partDataMark.None?
    ensures Run(cfg, s, FirstLine(cfg), k, congested) ==
            Next(OnPartBegin(s.(index := 0)).(state := HeaderFieldStart), |cfg.boundary|)
    decreases |cfg.boundary| - k
  {
    var L := |cfg.boundary|;
    var buf := FirstLine(cfg);
    if k == L - 2 {
      var s1 := s.(index := L - 1);
      CrAfterToken(cfg, s, congested);
      LfAfterToken(cfg, s1, congested);
      IndexOverwrite(s, L - 1, 0);
    } else {
      TokenByte(cfg, s, k, congested);
      TokenMatched(cfg, s.(index := k + 1), k + 1, congested);
      IndexOverwrite(s, k + 1, 0);
    }
  }

  /** Only the last of two writes of `index` counts. */
  lemma IndexOverwrite(s: FormState, k: int, m: int)
    ensures s.(index := k).(index := m) == s.(index := m)
  {
  }

  lemma TokenByte(cfg: Config, s: FormState, k: nat, congested: bool)
    requires WellFormed(cfg, s) && s.state == StartBoundary && s.index == k && k < |cfg.boundary| - 2
    requires s.headerFieldMark.None? && s.headerValueMark.None? && s.partDataMark.None?
    ensures Run(cfg, s, FirstLine(cfg), k, congested) == Run(cfg, s.(index := k + 1), FirstLine(cfg), k + 1, congested)
  {
    var buf := FirstLine(cfg);
    assert buf[k] == cfg.boundary[k + 2];
    assert Step(cfg, s, buf, k, congested) == Next(s.(index := k + 1), k + 1);
  }

  lemma CrAfterToken(cfg: Config, s: FormState, congested: bool)
    requires WellFormed(cfg, s) && s.state == StartBoundary && s.index == |cfg.boundary| - 2
    requires s.headerFieldMark.None? && s.headerValueMark.None? && s.partDataMark.None?
    ensures var L := |cfg.boundary|;
            Run(cfg, s, FirstLine(cfg), L - 2, congested) == Run(cfg, s.(index := L - 1), FirstLine(cfg), L - 1, congested)
  {
    var L := |cfg.boundary|;
    var buf := FirstLine(cfg);
    assert buf[L - 2] == CR;
    assert Step(cfg, s, buf, L - 2, congested) == Next(s.(index := L - 1), L - 1);
  }

  lemma LfAfterToken(cfg: Config, s: FormState, congested: bool)
    requires WellFormed(cfg, s) && s.state == StartBoundary && s.index == |cfg.boundary| - 1
    requires s.headerFieldMark.None? && s.headerValueMark.None? && s.partDataMark.None?
    ensures var L := |cfg.boundary|;
            Run(cfg, s, FirstLine(cfg), L - 1, congested) == Next(OnPartBegin(s.(index := 0)).(state := HeaderFieldStart), L)
  {
    var L := |cfg.boundary|;
    var buf := FirstLine(cfg);
    var s2 := OnPartBegin(s.(index := 0)).(state := HeaderFieldStart);
    assert buf[L - 1] == LF;
    assert Step(cfg, s, buf, L - 1, congested) == Next(s2, L);
    assert Run(cfg, s2, buf, L, congested) == Next(s2, L);
  }

  /** A body that opens with `--token` CR LF begins the first part and moves to its headers. */
  lemma FirstDelimiterOpensPart(cfg: Config, s: FormState, congested: bool)
    requires Scanning(cfg, s) && s.state == Start
    ensures var o := Run(cfg, s, FirstLine(cfg), 0, congested);
            o.Next? && o.s.state == HeaderFieldStart && o.s.index == 0 &&
            o.s.log == s.log + [PartBegin] && o.s.destStream.None?
  {
    var s' := s.(index := 0, state := StartBoundary);
    var buf := FirstLine(cfg);
    assert Step(cfg, s, buf, 0, congested) == Step(cfg, s', buf, 0, congested);
    TokenMatched(cfg, s', 0, congested);
  }

  /**
   * After the token of the first delimiter: a hyphen starts the close
   * delimiter, CR must come next otherwise, and LF must follow that CR; a
   * wrong byte is a 400 error.
   */
  lemma AfterFirstToken(cfg: Config, s: FormState, buf: seq<byte>, i: nat, congested: bool)
    requires Scanning(cfg, s) && Ready(cfg, s, buf, i) && s.state == StartBoundary
    ensures var L := |cfg.boundary|;
            var o := Step(cfg, s, buf, i, congested);
            var c := buf[i];
            (s.index == L - 2 && c == HYPHEN ==> o == Next(s.(index := 1, state := CloseBoundary), i + 1)) &&
            (s.index == L - 2 && c == CR ==> o == Next(s.(index := L - 1), i + 1)) &&
            (s.index == L - 2 && c != HYPHEN && c != CR ==> o.Stop? && o.s.error == Some(ExpectedCR(c))) &&
            (s.index == L - 1 && c == LF ==> o.Next? && o.s.state == HeaderFieldStart && o.s.log == s.log + [PartBegin]) &&
            (s.index == L - 1 && c != LF ==> o.Stop? && o.s.error == Some(ExpectedLF(c)))
  {
  }

  /**
   * In the preamble a byte that does not continue `--token` drops the match;
   * the byte is then looked at again as the CR that must come first.
   */
  lemma PreambleResets(cfg: Config, s: FormState, buf: seq<byte>, i: nat, congested: bool)
    requires Scanning(cfg, s) && Ready(cfg, s, buf, i) && s.state == StartBoundary
    requires s.index < |cfg.boundary| - 2 && buf[i] != cfg.boundary[s.index + 2]
    ensures Step(cfg, s, buf, i, congested) == Next(s.(index := if buf[i] == CR then -1 else -2), i + 1)
  {
  }

  // ---------------------------------------------------------------------
  // Header lines
  // ---------------------------------------------------------------------

  /**
   * A header-name byte is taken exactly when it is an ASCII letter, a
   * hyphen, a colon or CR; a colon as the first byte is an empty header
   * name. Digits are refused.
   */
  lemma HeaderNameByte(cfg: Config, s: FormState, buf: seq<byte>, i: nat, congested: bool)
    requires Scanning(cfg, s) && Ready(cfg, s, buf, i) && s.state == HeaderField
    ensures var o := Step(cfg, s, buf, i, congested);
            var c := buf[i];
            (o.Stop? <==> !(IsAsciiLetter(c) || c == HYPHEN || c == COLON || c == CR) || (c == COLON && s.index == 0)) &&
            (o.Stop? ==> o.s.error == Some(if c == COLON then EmptyHeaderField else ExpectedAlphabetic(c)))
  {
    LowerRangeIsLetter(buf[i]);
  }

  /** A header line that starts with a colon has an empty name. */
  lemma EmptyHeaderName(cfg: Config, s: FormState, buf: seq<byte>, i: nat, congested: bool)
    requires Scanning(cfg, s) && Ready(cfg, s, buf, i) && s.state == HeaderFieldStart && buf[i] == COLON
    ensures var o := Step(cfg, s, buf, i, congested);
            o.Stop? && o.s.error == Some(EmptyHeaderField) && o.s.log[|o.s.log| - 1] == Error(EmptyHeaderField)
  {
  }

  /** The CR that ends a header line, or the header block, must be followed by LF. */
  lemma LineEndNeedsLF(cfg: Config, s: FormState, buf: seq<byte>, i: nat, congested: bool)
    requires Scanning(cfg, s) && Ready(cfg, s, buf, i)
    requires s.state == HeaderValueAlmostDone || s.state == HeadersAlmostDone
    ensures var o := Step(cfg, s, buf, i, congested);
            (buf[i] != LF ==> o.Stop? && o.s.error == Some(ExpectedLF(buf[i])) &&
                              o.s.log[|o.s.log| - 1] == Error(ExpectedLF(buf[i]))) &&
            (buf[i] == LF && s.state == HeaderValueAlmostDone ==> o == Next(s.(state := HeaderFieldStart), i + 1))
  {
  }

  /** A colon ends the name: the bytes since the start of the name extend it. */
  lemma HeaderNameRead(cfg: Config, s: FormState, buf: seq<byte>, i: nat, congested: bool)
    requires Scanning(cfg, s) && Ready(cfg, s, buf, i) && s.state == HeaderField
    requires buf[i] == COLON && s.index > 0
    ensures var o := Step(cfg, s, buf, i, congested);
            o.Next? && o.s.state == HeaderValueStart && o.s.headerFieldMark.None? &&
            o.s.headerField == s.headerField + buf[s.headerFieldMark.value..i]
  {
  }

  /**
   * CR ends the value: the header is recorded under its lower-cased name
   * with the value read, and name and value start over.
   */
  lemma HeaderValueRead(cfg: Config, s: FormState, buf: seq<byte>, i: nat, congested: bool)
    requires Scanning(cfg, s) && Ready(cfg, s, buf, i) && s.state == HeaderValue && buf[i] == CR
    ensures var o := Step(cfg, s, buf, i, congested);
            o.Next? && o.s.state == HeaderValueAlmostDone && o.s.headerValueMark.None? &&
            o.s.partHeaders == s.partHeaders[ToLowerBytes(s.headerField) := s.headerValue + buf[s.headerValueMark.value..i]] &&
            o.s.headerField == [] && o.s.headerValue == []
  {
  }

  // ---------------------------------------------------------------------
  // The end of the header block
  // ---------------------------------------------------------------------

  /** A header block accepted by `onParseHeadersEnd` starts the part's data with nothing held. */
  lemma HeadersEndStartsData(cfg: Config, s: FormState, buf: seq<byte>, i: nat, congested: bool)
    requires Scanning(cfg, s) && Ready(cfg, s, buf, i) && s.state == HeadersAlmostDone
    ensures var o := Step(cfg, s, buf, i, congested);
            o.Next? ==> o.s.state == PartDataStart && o.s.index == 0 && Scanning(cfg, o.s) &&
                        Held(o.s, buf, o.at) == []
  {
    StepKeepsScanning(cfg, s, buf, i, congested);
  }

  // ---------------------------------------------------------------------
  // A header line without a colon (index.js:282-286, 336-342)
  // ---------------------------------------------------------------------

  lemma {:induction false} HeaderLettersCounted(cfg: Config, s: FormState, buf: seq<byte>, i: nat, congested: bool)
    requires Scanning(cfg, s) && s.state == HeaderField && i < |buf| && MarksWithin(s, i)
    requires buf[|buf| - 1] == CR && forall j | i <= j < |buf| - 1 :: IsAsciiLetter(buf[j])
    ensures var o := Run(cfg, s, buf, i, congested);
            o.Next? && o.s.state == HeadersAlmostDone && o.s.index == s.index + (|buf| - 1 - i)
    decreases |buf| - i
  {
    if i == |buf| - 1 {
      var r := s.(headerFieldMark := None, state := HeadersAlmostDone);
      assert Step(cfg, s, buf, i, congested) == Next(r, i + 1);
      assert Run(cfg, r, buf, i + 1, congested) == Next(r, |buf|);
    } else {
      LowerRangeIsLetter(buf[i]);
      assert Step(cfg, s, buf, i, congested) == Next(s.(index := s.index + 1), i + 1);
      HeaderLettersCounted(cfg, s.(index := s.index + 1), buf, i + 1, congested);
    }
  }

  /**
   * A header line of letters ended by CR, with no colon, ends the header
   * block (the scanner takes the CR as the blank line) with `index` left at
   * the number of letters.
   */
  lemma ColonlessLineKeepsIndex(cfg: Config, s: FormState, w: seq<byte>, congested: bool)
    requires Scanning(cfg, s) && s.state == HeaderFieldStart
    requires |w| > 0 && forall j | 0 <= j < |w| :: IsAsciiLetter(w[j])
    ensures var o := Run(cfg, s, w + [CR], 0, congested);
            o.Next? && o.s.state == HeadersAlmostDone && o.s.index == |w|
  {
    var buf := w + [CR];
    var s1 := s.(state := HeaderField, headerFieldMark := Some(0), index := 1);
    LowerRangeIsLetter(buf[0]);
    assert Step(cfg, s, buf, 0, congested) == Next(s1, 1);
    HeaderLettersCounted(cfg, s1, buf, 1, congested);
  }

  /**
   * As written, the step after the header block keeps that `index`; the
   * first body byte that does not continue a delimiter then reports
   * `index` bytes of `lookbehind` as part data, bytes this part never read.
   */
  lemma AsWrittenReportsStaleBytes(cfg: Config, s: FormState, buf: seq<byte>, j: nat, congested: bool)
    requires Scanning(cfg, s) && Ready(cfg, s, buf, j) && s.state == HeadersAlmostDone
    requires 0 < s.index < |cfg.boundary| && buf[j] == LF
    requires j + 1 < |buf| && buf[j + 1] != cfg.boundary[s.index]
    requires OnHeadersEnd(cfg, s, j + 1).1.None?
    ensures var o := HeadersAlmostDoneAsWritten(cfg, s, buf, j);
            o.Next? && o.at == j + 1 && o.s.state == PartDataStart && o.s.index == s.index &&
            var o2 := Step(cfg, o.s, buf, j + 1, congested);
            o2.Next? && o2.at == j + 1 && o2.s.log == o.s.log + [Data(s.lookbehind[..s.index])]
  {
    var r := OnHeadersEnd(cfg, s, j + 1).0;
    var o := HeadersAlmostDoneAsWritten(cfg, s, buf, j);
    assert o == Next(r.(state := PartDataStart), j + 1);
    StaleReplay(cfg, o.s, buf, j + 1, congested);
  }

  /**
   * In PART_DATA_START with `index` bytes taken as matched, a byte that does
   * not continue the delimiter sends the first `index` bytes of `lookbehind`
   * on as part data and is scanned again.
   */
  lemma StaleReplay(cfg: Config, u: FormState, buf: seq<byte>, k: nat, congested: bool)
    requires Ready(cfg, u, buf, k) && u.state == PartDataStart
    requires 0 < u.index < |cfg.boundary| && buf[k] != cfg.boundary[u.index]
    ensures var o := Step(cfg, u, buf, k, congested);
            o.Next? && o.at == k && o.s.log == u.log + [Data(u.lookbehind[..u.index])]
  {
    var t := u.(state := PartData, partDataMark := Some(k));
    assert Step(cfg, u, buf, k, congested) == PartDataStep(cfg, t, buf, k, congested);
    assert PartDataByte(cfg, t, buf, k, congested) == Replay(t, u.index, k, congested);
  }

  /**
   * The smallest case, on the first part of a body whose token is "X":
   * after "abc" CR LF the byte "h" is reported as three zero bytes of data,
   * the initial contents of `lookbehind`.
   */
  lemma StaleZerosExample()
    ensures var cfg := Configure(Options(false, false, 0, 0, 0), [0x58]);
            var s := Initial(cfg, Nothing).(state := HeadersAlmostDone, index := 3);
            var buf := [LF, 0x68];
            var o := HeadersAlmostDoneAsWritten(cfg, s, buf, 0);
            o.Next? && Step(cfg, o.s, buf, 1, false).s.log == o.s.log + [Data([0, 0, 0])]
  {
    var cfg := Configure(Options(false, false, 0, 0, 0), [0x58]);
    var s := Initial(cfg, Nothing).(state := HeadersAlmostDone, index := 3);
    var buf: seq<byte> := [LF, 0x68];
    assert cfg.boundary == [CR, LF, HYPHEN, HYPHEN, 0x58];
    assert s.lookbehind[..3] == [0, 0, 0];
    AsWrittenReportsStaleBytes(cfg, s, buf, 0, false);
  }

  /**
   * As written, a colonless last header line of exactly L + 1 bytes leaves
   * `index` at L + 1 with no CR seen: whatever byte follows the header
   * block, the last test on `index` (index.js:394-404) clears it and all
   * L + 1 bytes of `lookbehind` are reported as part data.
   */
  lemma AsWrittenReplaysWholeLookbehind(cfg: Config, s: FormState, buf: seq<byte>, j: nat, congested: bool)
    requires Scanning(cfg, s) && Ready(cfg, s, buf, j) && s.state == HeadersAlmostDone
    requires s.index == |cfg.boundary| + 1 && !s.partBoundaryFlag && buf[j] == LF && j + 1 < |buf|
    requires OnHeadersEnd(cfg, s, j + 1).1.None?
    ensures var o := HeadersAlmostDoneAsWritten(cfg, s, buf, j);
            o.Next? && o.s.state == PartDataStart && o.s.index == s.index &&
            var o2 := Step(cfg, o.s, buf, j + 1, congested);
            o2.Next? && o2.at == j + 1 && o2.s.log == o.s.log + [Data(s.lookbehind[..|cfg.boundary| + 1])]
  {
    var o := HeadersAlmostDoneAsWritten(cfg, s, buf, j);
    assert o == Next(OnHeadersEnd(cfg, s, j + 1).0.(state := PartDataStart), j + 1);
    assert o.s.index == s.index && !o.s.partBoundaryFlag && o.s.lookbehind == s.lookbehind;
    StaleFullReplay(cfg, o.s, buf, j + 1, congested);
  }

  /** PART_DATA_START with `index` at L + 1 and no CR seen sends the first L + 1 held bytes on. */
  lemma StaleFullReplay(cfg: Config, u: FormState, buf: seq<byte>, k: nat, congested: bool)
    requires Ready(cfg, u, buf, k) && u.state == PartDataStart
    requires u.index == |cfg.boundary| + 1 && !u.partBoundaryFlag
    ensures var o := Step(cfg, u, buf, k, congested);
            o.Next? && o.at == k && o.s.log == u.log + [Data(u.lookbehind[..|cfg.boundary| + 1])]
  {
    var t := u.(state := PartData, partDataMark := Some(k));
    assert Step(cfg, u, buf, k, congested) == PartDataStep(cfg, t, buf, k, congested);
    assert PartDataStep(cfg, t, buf, k, congested) == PartDataByte(cfg, t, buf, k, congested);
    assert PartDataByte(cfg, t, buf, k, congested) == Replay(t, u.index, k, congested);
  }

  /**
   * As written, a colonless last header line of exactly L bytes leaves
   * `index` at L, so a part whose data begins with two hyphens is taken for
   * the close delimiter (index.js:385-388, 424-430): the part ends and the
   * scanner reaches END. The part-data mark set at index.js:346 is still
   * open while the part's stream is gone, so the chunk-end flush
   * (index.js:450-451) hands data to no stream, which throws in `_write`.
   */
  lemma AsWrittenClosesEarly(cfg: Config, s: FormState, rest: seq<byte>, congested: bool)
    requires Scanning(cfg, s) && s.state == HeadersAlmostDone && s.index == |cfg.boundary|
    requires OnHeadersEnd(cfg, s, 1).1.None?
    ensures var buf := [LF, HYPHEN, HYPHEN] + rest;
            var o := HeadersAlmostDoneAsWritten(cfg, s, buf, 0);
            o.Next? && o.s.state == PartDataStart &&
            var o2 := Step(cfg, o.s, buf, 1, congested);
            o2.Next? && o2.at == 2 && o2.s.state == CloseBoundary &&
            var o3 := Step(cfg, o2.s, buf, 2, congested);
            o3.Next? && o3.at == 3 && o3.s.state == End && o.s.log + [PartEnd] <= o3.s.log &&
            Run(cfg, o3.s, buf, 3, congested) == Next(o3.s, |buf|) &&
            o3.s.partDataMark == Some(1) && o3.s.destStream.None?
  {
    var buf := [LF, HYPHEN, HYPHEN] + rest;
    var o := HeadersAlmostDoneAsWritten(cfg, s, buf, 0);
    assert o == Next(OnHeadersEnd(cfg, s, 1).0.(state := PartDataStart), 1);
    assert buf[1] == HYPHEN && buf[2] == HYPHEN;
    var u := o.s.(state := CloseBoundary, partDataMark := Some(1), index := 1);
    HyphenAfterStaleDelimiter(cfg, o.s, buf, 1, congested);
    var e := OnPartEnd(u).(state := End, index := 2);
    SecondHyphenEnds(cfg, u, buf, 2, congested);
    EndIgnoresRest(cfg, e, buf, 3, congested);
  }

  lemma HyphenAfterStaleDelimiter(cfg: Config, v: FormState, buf: seq<byte>, j: nat, congested: bool)
    requires Ready(cfg, v, buf, j) && v.state == PartDataStart && v.index == |cfg.boundary| && buf[j] == HYPHEN
    ensures Step(cfg, v, buf, j, congested) == Next(v.(state := CloseBoundary, partDataMark := Some(j), index := 1), j + 1)
  {
    var t := v.(state := PartData, partDataMark := Some(j));
    assert PartDataByte(cfg, t, buf, j, congested) == Next(t.(index := 1, state := CloseBoundary), j + 1);
  }

  lemma SecondHyphenEnds(cfg: Config, u: FormState, buf: seq<byte>, j: nat, congested: bool)
    requires Ready(cfg, u, buf, j) && u.state == CloseBoundary && u.index == 1 && buf[j] == HYPHEN
    ensures Step(cfg, u, buf, j, congested) == Next(OnPartEnd(u).(state := End, index := 2), j + 1)
  {
  }

  /**
   * As written, a colonless last header line longer than L + 1 bytes wedges
   * the scanner: `index` never changes again, so no delimiter is recognised
   * and nothing but the chunk-end flush (index.js:450-453) reports data,
   * which is the whole rest of the chunk, close delimiter or not. The
   * `finish` handler then finds the scanner short of END.
   */
  lemma AsWrittenWedges(cfg: Config, s: FormState, rest: seq<byte>, congested: bool)
    requires Scanning(cfg, s) && s.state == HeadersAlmostDone && s.index > |cfg.boundary| + 1
    requires OnHeadersEnd(cfg, s, 1).1.None?
    ensures var buf := [LF] + rest;
            var o := HeadersAlmostDoneAsWritten(cfg, s, buf, 0);
            o.Next? && o.at == 1 && o.s.state == PartDataStart && o.s.index == s.index &&
            var t := StaleRun(cfg, o.s.(state := PartData, partDataMark := Some(1)), buf, 1);
            t.state == PartData && t.index == s.index && t.log == o.s.log &&
            var f := FlushDataSpan(t, buf, congested);
            f.log == o.s.log + [Data(rest)] &&
            Finish(f).error == Some(StreamEndedUnexpectedly)
  {
    var buf := [LF] + rest;
    var o := HeadersAlmostDoneAsWritten(cfg, s, buf, 0);
    var t := StaleRun(cfg, o.s.(state := PartData, partDataMark := Some(1)), buf, 1);
    assert buf[1..] == rest;
  }
}
