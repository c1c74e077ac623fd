/**
 * The ordering coordinator of a `Form`: the emit queue that keeps `part`,
 * `field`, `file` and `close` emissions in the order their parts were seen
 * (`holdEmitQueue`, `flushEmitQueue`, `errorEventQueue`, index.js:627-663),
 * the `flushing` counter that decides when `close` may be emitted
 * (`beginFlush`, `endFlush`, `maybeClose`, index.js:580-612), the
 * first-error-wins rule of `handleError` (index.js:197-213), the queue of
 * postponed write callbacks (`flushWriteCbs`, index.js:561-567) and the size
 * counters of `handleField` and `handleFile`.
 *
 * A queue item is a value identified by `id`; the closure `holdEmitQueue`
 * returns is `Release` applied to that id.
 */
module Queue {
  import opened Common
  import opened State

  // ---------------------------------------------------------------------
  // The emit queue
  // ---------------------------------------------------------------------

  /** `holdEmitQueue(self, ee)`: append an unreleased item; its id is the old `nextItem`. */
  function Hold(s: FormState, ee: Option<nat>): (r: FormState)
    ensures r.emitQueue == s.emitQueue + [Item(s.nextItem, ee, None, None)]
    ensures r.nextItem == s.nextItem + 1
    ensures r == s.(emitQueue := r.emitQueue, nextItem := r.nextItem)
  {
    s.(emitQueue := s.emitQueue + [Item(s.nextItem, ee, None, None)], nextItem := s.nextItem + 1)
  }

  /** What invoking a released item logs: its callback, then the error it was tagged with, if any. */
  function Invocation(it: Item): (r: seq<Event>)
    requires it.cb.Some?
    ensures |r| >= 1 && r[0] == Invoked(it.id, it.cb.value)
    ensures it.err.Some? && it.ee.Some? ==> r == [Invoked(it.id, it.cb.value), StreamError(it.ee.value, it.err.value)]
    ensures forall k | 1 <= k < |r| :: !r[k].Invoked?
  {
    [Invoked(it.id, it.cb.value)] +
    (if it.err.Some? && it.ee.Some? then [StreamError(it.ee.value, it.err.value)] else [])
  }

  predicate Released(items: seq<Item>)
  {
    forall k | 0 <= k < |items| :: items[k].cb.Some?
  }

  /** The log entries of invoking a run of released items in order. */
  function Invocations(items: seq<Item>): seq<Event>
    requires Released(items)
  {
    if |items| == 0 then [] else Invocation(items[0]) + Invocations(items[1..])
  }

  /** The number of released items at the head of the queue. */
  function ReleasedPrefix(q: seq<Item>): (k: nat)
    ensures k <= |q| && Released(q[..k])
    ensures k == |q| || q[k].cb.None?
    decreases |q|
  {
    if |q| > 0 && q[0].cb.Some? then
      var k := 1 + ReleasedPrefix(q[1..]);
      assert forall j | 1 <= j < k :: q[..k][j] == q[1..][..k - 1][j - 1];
      k
    else 0
  }

  /**
   * `flushEmitQueue`: pop and invoke items from the head for as long as the
   * head has been released. The released prefix is invoked in queue order,
   * the flush stops at the first unreleased item, and nothing but the queue
   * and the log changes.
   */
  function Flush(s: FormState): (r: FormState)
    ensures |r.emitQueue| <= |s.emitQueue|
    ensures r.emitQueue == s.emitQueue[|s.emitQueue| - |r.emitQueue|..]
    ensures Released(s.emitQueue[..|s.emitQueue| - |r.emitQueue|])
    ensures |r.emitQueue| == 0 || r.emitQueue[0].cb.None?
    ensures r.log == s.log + Invocations(s.emitQueue[..|s.emitQueue| - |r.emitQueue|])
    ensures r == s.(emitQueue := r.emitQueue, log := r.log)
  {
    var k := ReleasedPrefix(s.emitQueue);
    s.(emitQueue := s.emitQueue[k..], log := s.log + Invocations(s.emitQueue[..k]))
  }

  /** Flushing a queue with a released head is invoking the head, then flushing the rest. */
  lemma FlushUnfold(s: FormState)
    requires |s.emitQueue| > 0 && s.emitQueue[0].cb.Some?
    ensures Flush(s) == Flush(s.(emitQueue := s.emitQueue[1..], log := s.log + Invocation(s.emitQueue[0])))
  {
    var q := s.emitQueue;
    var k := ReleasedPrefix(q);
    assert q[..k] == [q[0]] + q[1..][..k - 1];
    assert q[1..][k - 1..] == q[k..];
  }

  /** Invoking one more released item appends its log entries. */
  lemma {:induction false} InvocationsSnoc(items: seq<Item>, it: Item)
    requires Released(items) && it.cb.Some?
    ensures Released(items + [it])
    ensures Invocations(items + [it]) == Invocations(items) + Invocation(it)
    decreases |items|
  {
    if |items| > 0 {
      assert (items + [it])[1..] == items[1..] + [it];
      InvocationsSnoc(items[1..], it);
    }
  }

  /** Flushing a queue whose head is unreleased, or an empty one, changes nothing. */
  lemma FlushIdle(s: FormState)
    requires |s.emitQueue| == 0 || s.emitQueue[0].cb.None?
    ensures Flush(s) == s
  {
    assert s.emitQueue[0..] == s.emitQueue;
  }

  /** The queue with the callback of item `id` set. */
  function SetCallback(q: seq<Item>, id: nat, cb: Callback): (r: seq<Item>)
    ensures |r| == |q|
    ensures forall k | 0 <= k < |q| :: r[k].id == q[k].id && r[k].ee == q[k].ee && r[k].err == q[k].err
    ensures forall k | 0 <= k < |q| :: r[k].cb == if q[k].id == id then Some(cb) else q[k].cb
  {
    seq(|q|, k requires 0 <= k < |q| => if q[k].id == id then q[k].(cb := Some(cb)) else q[k])
  }

  /** Calling the closure `holdEmitQueue` returned for item `id`: set its callback, then flush. */
  function Release(s: FormState, id: nat, cb: Callback): (r: FormState)
    ensures |r.emitQueue| <= |s.emitQueue|
    ensures SameScan(r, s) && r.error == s.error && r.flushing == s.flushing && s.log <= r.log
  {
    Flush(s.(emitQueue := SetCallback(s.emitQueue, id, cb)))
  }

  /** Some queued item belongs to emitter `ee`. */
  predicate Holds(q: seq<Item>, ee: nat)
  {
    exists k | 0 <= k < |q| :: q[k].ee == Some(ee)
  }

  /** The queue with every item of emitter `ee` tagged with `err`. */
  function Tag(q: seq<Item>, ee: nat, err: Failure): (r: seq<Item>)
    ensures |r| == |q|
    ensures forall k | 0 <= k < |q| ::
              r[k] == if q[k].ee == Some(ee) then q[k].(err := Some(err)) else q[k]
  {
    seq(|q|, k requires 0 <= k < |q| => if q[k].ee == Some(ee) then q[k].(err := Some(err)) else q[k])
  }

  /**
   * `errorEventQueue`: with no queued item for the emitter the error is
   * emitted on it at once; otherwise every item of that emitter is tagged
   * and the error waits for the item's callback.
   */
  function ErrorEventQueue(s: FormState, ee: nat, err: Failure): (r: FormState)
    ensures !Holds(s.emitQueue, ee) ==> r == s.(log := s.log + [StreamError(ee, err)])
    ensures Holds(s.emitQueue, ee) ==> r == s.(emitQueue := Tag(s.emitQueue, ee, err))
  {
    if !Holds(s.emitQueue, ee) then s.(log := s.log + [StreamError(ee, err)])
    else s.(emitQueue := Tag(s.emitQueue, ee, err))
  }

  // ---------------------------------------------------------------------
  // Errors and the flush counter
  // ---------------------------------------------------------------------

  /**
   * `handleError`: only the first error is recorded, routed to the current
   * part stream through the emit queue, and emitted on the form; a later
   * error changes nothing this model keeps.
   */
  function HandleError(s: FormState, e: Failure): (r: FormState)
    ensures s.error.Some? ==> r == s
    ensures s.error.None? ==> r.error == Some(e) && |r.log| > 0 && r.log[|r.log| - 1] == Error(e)
    ensures r.error.Some? && SameScan(r, s) && s.log <= r.log
  {
    if s.error.Some? then s
    else
      var s1 := s.(error := Some(e));
      var s2 := if s.destStream.Some? then ErrorEventQueue(s1, s.destStream.value.id, e) else s1;
      s2.(log := s2.log + [Error(e)])
  }

  /** `beginFlush`. */
  function BeginFlush(s: FormState): (r: FormState)
    ensures r.flushing == s.flushing + 1
    ensures r == s.(flushing := r.flushing)
  {
    s.(flushing := s.flushing + 1)
  }

  /**
   * `maybeClose`: while something is still flushing, or after an error,
   * nothing happens; otherwise a `close` emission joins the emit queue behind
   * every part, field and file still held.
   */
  function MaybeClose(s: FormState): (r: FormState)
    ensures s.flushing > 0 || s.error.Some? ==> r == s
    ensures SameScan(r, s) && r.error == s.error && r.flushing == s.flushing && s.log <= r.log
  {
    if s.flushing > 0 || s.error.Some? then s
    else Release(Hold(s, None), s.nextItem, EmitClose)
  }

  /** `endFlush`: one flush finished; going below zero is an error, reaching zero may close. */
  function EndFlush(s: FormState): (r: FormState)
    ensures r.flushing == s.flushing - 1
    ensures s.flushing <= 0 ==> r == HandleError(s.(flushing := s.flushing - 1), UnexpectedEndFlush)
    ensures s.flushing > 0 ==> r == MaybeClose(s.(flushing := s.flushing - 1))
  {
    var s1 := s.(flushing := s.flushing - 1);
    if s1.flushing < 0 then HandleError(s1, UnexpectedEndFlush) else MaybeClose(s1)
  }

  // ---------------------------------------------------------------------
  // Postponed write callbacks and size counters
  // ---------------------------------------------------------------------

  function Acks(cbs: seq<nat>): (r: seq<Event>)
    ensures |r| == |cbs| && forall k | 0 <= k < |cbs| :: r[k] == WriteAck(cbs[k])
  {
    seq(|cbs|, k requires 0 <= k < |cbs| => WriteAck(cbs[k]))
  }

  /** `flushWriteCbs`: every postponed write callback is scheduled, in order; backpressure is off. */
  function FlushWriteCbs(s: FormState): (r: FormState)
    ensures r.log == s.log + Acks(s.writeCbs) && |r.log| == |s.log| + |s.writeCbs|
    ensures r.writeCbs == [] && !r.backpressure
    ensures r == s.(log := r.log, writeCbs := [], backpressure := false)
  {
    s.(log := s.log + Acks(s.writeCbs), writeCbs := [], backpressure := false)
  }

  /**
   * A chunk of `n` bytes read from a field stream (index.js:743-748): the
   * field size total grows by `n`, and passing `maxFieldsSize` is a 413
   * error.
   */
  function FieldChunk(cfg: Config, s: FormState, n: nat): (r: FormState)
    ensures r.totalFieldSize == s.totalFieldSize + n
    ensures r.error.Some? <==> s.error.Some? || s.totalFieldSize + n > cfg.maxFieldsSize
  {
    var s1 := s.(totalFieldSize := s.totalFieldSize + n);
    if s1.totalFieldSize > cfg.maxFieldsSize then HandleError(s1, MaxFieldsSizeExceeded(cfg.maxFieldsSize))
    else s1
  }

  /**
   * A `progress` event of a file's write stream (index.js:713-718): the
   * file's size becomes `size` and the total grows by the difference to the
   * size last seen; the new size is the next `prevByteCount`.
   */
  function FileProgress(s: FormState, prevByteCount: int, size: int): (r: (FormState, int))
    ensures r.1 == size
    ensures r.0.totalFileSize - size == s.totalFileSize - prevByteCount
    ensures r.0 == s.(totalFileSize := r.0.totalFileSize)
  {
    (s.(totalFileSize := s.totalFileSize + (size - prevByteCount)), size)
  }

  /** A run of progress events, each reporting the size written so far. */
  function FileProgressAll(s: FormState, prevByteCount: int, sizes: seq<int>): (r: (FormState, int))
    decreases |sizes|
  {
    if |sizes| == 0 then (s, prevByteCount)
    else var (s1, p1) := FileProgress(s, prevByteCount, sizes[0]); FileProgressAll(s1, p1, sizes[1..])
  }

  /** However many progress events there were, the total grows by the file's final size. */
  lemma {:induction false} FileProgressTelescopes(s: FormState, sizes: seq<int>)
    requires |sizes| > 0
    ensures FileProgressAll(s, 0, sizes).0.totalFileSize == s.totalFileSize + sizes[|sizes| - 1]
  {
    FileProgressFrom(s, 0, sizes);
  }

  lemma {:induction false} FileProgressFrom(s: FormState, prev: int, sizes: seq<int>)
    requires |sizes| > 0
    ensures FileProgressAll(s, prev, sizes).0.totalFileSize == s.totalFileSize - prev + sizes[|sizes| - 1]
    ensures FileProgressAll(s, prev, sizes).1 == sizes[|sizes| - 1]
    decreases |sizes|
  {
    var (s1, p1) := FileProgress(s, prev, sizes[0]);
    if |sizes| > 1 {
      FileProgressFrom(s1, p1, sizes[1..]);
    }
  }

  /** Below the limit the field total stays within it; the first chunk past it records the error. */
  lemma FieldLimit(cfg: Config, s: FormState, n: nat)
    requires s.error.None? && s.totalFieldSize + n > cfg.maxFieldsSize
    ensures FieldChunk(cfg, s, n).error == Some(MaxFieldsSizeExceeded(cfg.maxFieldsSize))
  {
  }

  // ---------------------------------------------------------------------
  // Ordering
  // ---------------------------------------------------------------------

  /**
   * The ordering invariant of the emit queue: item ids increase along the
   * queue and stay below `nextItem`; every invoked item precedes every item
   * still queued; and callbacks were invoked in increasing id order, which
   * is the order their items were held in.
   */
  predicate Ordered(s: FormState)
  {
    var q := s.emitQueue;
    var log := s.log;
    (forall j, k | 0 <= j < k < |q| :: q[j].id < q[k].id) &&
    (forall k | 0 <= k < |q| :: q[k].id < s.nextItem) &&
    (forall j | 0 <= j < |log| && log[j].Invoked? :: log[j].item < s.nextItem) &&
    (forall j, k | 0 <= j < |log| && log[j].Invoked? && 0 <= k < |q| :: log[j].item < q[k].id) &&
    (forall i, j | 0 <= i < j < |log| && log[i].Invoked? && log[j].Invoked? :: log[i].item < log[j].item)
  }

  /** Appending events that invoke nothing keeps the order. */
  lemma OrderedAppend(s: FormState, evs: seq<Event>)
    requires Ordered(s)
    requires forall k | 0 <= k < |evs| :: !evs[k].Invoked?
    ensures Ordered(s.(log := s.log + evs))
  {
    var log := s.log + evs;
    assert forall j | |s.log| <= j < |log| :: !log[j].Invoked? by {
      forall j | |s.log| <= j < |log| ensures !log[j].Invoked? {
        assert log[j] == evs[j - |s.log|];
      }
    }
  }

  /** Invoking the head of the queue keeps the order: its id is above every invoked id and below every queued one. */
  lemma OrderedPop(s: FormState)
    requires Ordered(s) && |s.emitQueue| > 0 && s.emitQueue[0].cb.Some?
    ensures Ordered(s.(emitQueue := s.emitQueue[1..], log := s.log + Invocation(s.emitQueue[0])))
  {
    var q := s.emitQueue;
    var h := q[0];
    var log := s.log + Invocation(h);
    var n := |s.log|;
    assert log[n] == Invoked(h.id, h.cb.value);
    assert forall j | n < j < |log| :: !log[j].Invoked? by {
      forall j | n < j < |log| ensures !log[j].Invoked? {
        assert log[j] == Invocation(h)[j - n];
      }
    }
    forall i, j | 0 <= i < j < |log| && log[i].Invoked? && log[j].Invoked?
      ensures log[i].item < log[j].item
    {
      if j == n {
        assert log[i] == s.log[i];
      }
    }
    forall j, k | 0 <= j < |log| && log[j].Invoked? && 0 <= k < |q| - 1
      ensures log[j].item < q[1..][k].id
    {
      assert q[1..][k] == q[k + 1];
      if j < n {
        assert log[j] == s.log[j];
      }
    }
    forall j | 0 <= j < |log| && log[j].Invoked?
      ensures log[j].item < s.nextItem
    {
      if j < n {
        assert log[j] == s.log[j];
      }
    }
  }

  lemma {:induction false} OrderedFlush(s: FormState)
    requires Ordered(s)
    ensures Ordered(Flush(s))
    decreases |s.emitQueue|
  {
    if |s.emitQueue| > 0 && s.emitQueue[0].cb.Some? {
      FlushUnfold(s);
      OrderedPop(s);
      OrderedFlush(s.(emitQueue := s.emitQueue[1..], log := s.log + Invocation(s.emitQueue[0])));
    }
  }

  lemma OrderedHold(s: FormState, ee: Option<nat>)
    requires Ordered(s)
    ensures Ordered(Hold(s, ee))
  {
  }

  /** Releasing an item keeps the order, and so a flush invokes held items strictly in hold order. */
  lemma OrderedRelease(s: FormState, id: nat, cb: Callback)
    requires Ordered(s)
    ensures Ordered(Release(s, id, cb))
  {
    var s1 := s.(emitQueue := SetCallback(s.emitQueue, id, cb));
    assert Ordered(s1);
    OrderedFlush(s1);
  }

  lemma OrderedErrorEventQueue(s: FormState, ee: nat, err: Failure)
    requires Ordered(s)
    ensures Ordered(ErrorEventQueue(s, ee, err))
  {
    if !Holds(s.emitQueue, ee) {
      OrderedAppend(s, [StreamError(ee, err)]);
    }
  }

  lemma OrderedHandleError(s: FormState, e: Failure)
    requires Ordered(s)
    ensures Ordered(HandleError(s, e))
  {
    if s.error.None? {
      var s1 := s.(error := Some(e));
      var s2 := if s.destStream.Some? then ErrorEventQueue(s1, s.destStream.value.id, e) else s1;
      if s.destStream.Some? {
        OrderedErrorEventQueue(s1, s.destStream.value.id, e);
      }
      OrderedAppend(s2, [Error(e)]);
    }
  }

  lemma OrderedEndFlush(s: FormState)
    requires Ordered(s)
    ensures Ordered(EndFlush(s))
  {
    var s1 := s.(flushing := s.flushing - 1);
    if s1.flushing < 0 {
      OrderedHandleError(s1, UnexpectedEndFlush);
    } else if s1.flushing == 0 && s1.error.None? {
      OrderedRelease(Hold(s1, None), s1.nextItem, EmitClose);
    }
  }

  // ---------------------------------------------------------------------
  // Properties of single operations
  // ---------------------------------------------------------------------

  /** Releasing an item behind an unreleased head invokes nothing. */
  lemma ReleaseBehindHeadWaits(s: FormState, id: nat, cb: Callback)
    requires |s.emitQueue| > 0 && s.emitQueue[0].cb.None? && s.emitQueue[0].id != id
    ensures Release(s, id, cb).log == s.log
    ensures Release(s, id, cb).emitQueue == SetCallback(s.emitQueue, id, cb)
  {
  }

  /**
   * Releasing the head invokes it first; when it was tagged with an error,
   * that error is emitted right after its callback and before anything else.
   */
  lemma ReleaseHeadRuns(s: FormState, cb: Callback)
    requires |s.emitQueue| > 0
    ensures var h := s.emitQueue[0];
            var r := Release(s, h.id, cb);
            |r.log| > |s.log| && r.log[|s.log|] == Invoked(h.id, cb) &&
            (h.err.Some? && h.ee.Some? ==> r.log[|s.log| + 1] == StreamError(h.ee.value, h.err.value))
  {
    var h := s.emitQueue[0];
    var s1 := s.(emitQueue := SetCallback(s.emitQueue, h.id, cb));
    var h1 := s1.emitQueue[0];
    assert h1 == h.(cb := Some(cb));
    var r := Flush(s1);
    var k := |s1.emitQueue| - |r.emitQueue|;
    assert k > 0;
    var popped := s1.emitQueue[..k];
    assert popped[0] == h1;
    assert Invocations(popped) == Invocation(h1) + Invocations(popped[1..]);
    assert r.log == s.log + Invocation(h1) + Invocations(popped[1..]);
  }

  /**
   * After `maybeClose` with nothing flushing and no error, `close` is queued
   * behind every held item, and is emitted at once exactly when nothing was held.
   */
  lemma CloseWaitsForHeldItems(s: FormState)
    requires Ordered(s) && s.flushing == 0 && s.error.None?
    ensures |s.emitQueue| == 0 ==>
              MaybeClose(s).log == s.log + [Invoked(s.nextItem, EmitClose)] &&
              MaybeClose(s).emitQueue == []
    ensures |s.emitQueue| > 0 && s.emitQueue[0].cb.None? ==>
              MaybeClose(s).log == s.log &&
              MaybeClose(s).emitQueue[|s.emitQueue|] == Item(s.nextItem, None, Some(EmitClose), None)
  {
    var s1 := Hold(s, None);
    var s2 := s1.(emitQueue := SetCallback(s1.emitQueue, s.nextItem, EmitClose));
    if |s.emitQueue| == 0 {
      var r := Flush(s2);
      assert s2.emitQueue == [Item(s.nextItem, None, Some(EmitClose), None)];
      var k := |s2.emitQueue| - |r.emitQueue|;
      assert k == 1;
      assert s2.emitQueue[..1] == s2.emitQueue;
      assert Invocations(s2.emitQueue) == Invocation(s2.emitQueue[0]);
    }
  }

  /** `maybeClose` does nothing while a flush is outstanding or an error is recorded. */
  lemma CloseNeedsQuiet(s: FormState)
    requires s.flushing > 0 || s.error.Some?
    ensures MaybeClose(s) == s
  {
  }

  /** `endFlush` on a zero count records the "unexpected endFlush" error when it is the first. */
  lemma EndFlushBelowZero(s: FormState)
    requires s.flushing == 0 && s.error.None?
    ensures EndFlush(s).error == Some(UnexpectedEndFlush)
    ensures EndFlush(s).flushing == -1
  {
  }

  /** The first error wins: a second one leaves the state as it was. */
  lemma FirstErrorWins(s: FormState, e1: Failure, e2: Failure)
    ensures HandleError(HandleError(s, e1), e2) == HandleError(s, e1)
    ensures HandleError(HandleError(s, e1), e2).error == if s.error.Some? then s.error else Some(e1)
  {
  }
}
