/**
 * The extension clean-up of `uploadPath` (index.js:797-801): the extension
 * returned by `path.extname` is rewritten with
 * `replace(FILE_EXT_RE, '$1')`, where FILE_EXT_RE (index.js:45) is
 * `(\.[_\-a-zA-Z0-9]{0,16})[\S\s]*`. The pattern has no `g` flag, so only the
 * leftmost match is replaced: everything from the first dot on is cut down
 * to the dot and at most sixteen following name characters.
 */
module Upload {
  import opened Common

  const MAX_EXT_CHARS: nat := 16

  /** The character class `[_\-a-zA-Z0-9]`. */
  predicate IsExtChar(c: byte)
  {
    c == UNDERSCORE || c == HYPHEN || IsAsciiLetter(c) || IsDigit(c)
  }

  /** Position of the first dot, if any. */
  function FirstDot(e: seq<byte>): (r: Option<nat>)
    ensures r.Some? ==> r.value < |e| && e[r.value] == DOT && DOT !in e[..r.value]
    ensures r.None? ==> DOT !in e
  {
    if |e| == 0 then None
    else if e[0] == DOT then Some(0)
    else match FirstDot(e[1..])
      case None => None
      case Some(p) =>
        assert e[..p + 1] == [e[0]] + e[1..][..p];
        Some(p + 1)
  }

  /** The greedy `[_\-a-zA-Z0-9]{0,16}` run starting at `q`. */
  function ExtRun(e: seq<byte>, q: nat, budget: nat): (k: nat)
    requires q <= |e|
    ensures k <= budget && q + k <= |e|
    ensures forall j | q <= j < q + k :: IsExtChar(e[j])
    ensures k < budget ==> q + k == |e| || !IsExtChar(e[q + k])
    decreases budget
  {
    if budget == 0 || q == |e| || !IsExtChar(e[q]) then 0 else 1 + ExtRun(e, q + 1, budget - 1)
  }

  /**
   * `ext.replace(FILE_EXT_RE, '$1')`: no dot leaves the text unchanged;
   * otherwise the text up to the first dot is kept, followed by the dot and
   * the captured name characters.
   */
  function TrimExtension(e: seq<byte>): (r: seq<byte>)
    ensures r <= e
    ensures DOT !in e ==> r == e
    ensures DOT in e ==> var p := FirstDot(e).value;
                         p < |r| <= p + 1 + MAX_EXT_CHARS &&
                         forall j | p < j < |r| :: IsExtChar(r[j])
    // the run is the longest one the pattern allows: it stops at the cap, at
    // the end of the text, or at the first byte outside the class
    ensures DOT in e ==> var p := FirstDot(e).value;
                         |r| == p + 1 + MAX_EXT_CHARS || |r| == |e| || !IsExtChar(e[|r|])
  {
    match FirstDot(e)
    case None => e
    case Some(p) => e[..p + 1 + ExtRun(e, p + 1, MAX_EXT_CHARS)]
  }

  /** Trimming twice is trimming once. */
  lemma TrimExtensionIdempotent(e: seq<byte>)
    ensures TrimExtension(TrimExtension(e)) == TrimExtension(e)
  {
    match FirstDot(e)
    case None =>
    case Some(p) =>
      var k := ExtRun(e, p + 1, MAX_EXT_CHARS);
      var r := e[..p + 1 + k];
      assert TrimExtension(e) == r;
      FirstDotOfPrefix(e, r, p);
      ExtRunAgain(e, r, p + 1, MAX_EXT_CHARS);
      assert r[..p + 1 + k] == r;
  }

  /** A dot followed by at most sixteen name characters is kept as it is. */
  lemma CleanExtensionKept(w: seq<byte>)
    requires |w| <= MAX_EXT_CHARS
    requires forall j | 0 <= j < |w| :: IsExtChar(w[j])
    ensures TrimExtension([DOT] + w) == [DOT] + w
  {
    var e := [DOT] + w;
    assert FirstDot(e) == Some(0);
    ExtRunAll(e, 1, MAX_EXT_CHARS);
  }

  /** A long extension keeps its first sixteen characters. */
  lemma LongExtensionCut(w: seq<byte>)
    requires |w| > MAX_EXT_CHARS
    requires forall j | 0 <= j < |w| :: IsExtChar(w[j])
    ensures TrimExtension([DOT] + w) == [DOT] + w[..MAX_EXT_CHARS]
  {
    var e := [DOT] + w;
    assert FirstDot(e) == Some(0);
    ExtRunAll(e, 1, MAX_EXT_CHARS);
    assert e[..1 + MAX_EXT_CHARS] == [DOT] + w[..MAX_EXT_CHARS];
  }

  lemma {:induction false} FirstDotOfPrefix(e: seq<byte>, r: seq<byte>, p: nat)
    requires FirstDot(e) == Some(p) && r <= e && p < |r|
    ensures FirstDot(r) == Some(p)
    decreases p
  {
    if p > 0 {
      assert e[0] != DOT by { assert e[0] == e[..p][0]; }
      assert FirstDot(e[1..]) == Some(p - 1);
      FirstDotOfPrefix(e[1..], r[1..], p - 1);
    }
  }

  lemma {:induction false} ExtRunAll(e: seq<byte>, q: nat, budget: nat)
    requires q <= |e|
    requires forall j | q <= j < |e| :: IsExtChar(e[j])
    ensures ExtRun(e, q, budget) == Min(budget, |e| - q)
    decreases budget
  {
    if budget > 0 && q < |e| {
      ExtRunAll(e, q + 1, budget - 1);
    }
  }

  /** The run found in a prefix that ends right after the run is the same run. */
  lemma {:induction false} ExtRunAgain(e: seq<byte>, r: seq<byte>, q: nat, budget: nat)
    requires q <= |e| && r == e[..q + ExtRun(e, q, budget)]
    ensures ExtRun(r, q, budget) == ExtRun(e, q, budget)
    decreases budget
  {
    var k := ExtRun(e, q, budget);
    if k > 0 {
      assert r == e[..q + 1 + ExtRun(e, q + 1, budget - 1)];
      ExtRunAgain(e, r, q + 1, budget - 1);
    }
  }
}
