/**
 * The `content-disposition` parameters a part header carries: the `name`
 * regular expression of `onParseHeaderEnd` (index.js:486) and `parseFilename`
 * (index.js:803-821), as searches over the header value's bytes.
 *
 * Regular-expression semantics modelled: a search tries every start position
 * from the left and returns the first match; `/i` folds ASCII letters only;
 * `\b` before a word character holds at the start or after a non-word byte;
 * `.` is any byte but LF and CR; the lazy `(.*?)` takes the shortest capture
 * after which the rest of the pattern matches.
 */
module Disposition {
  import opened Common

  /** `name="` */
  const NAME_PREFIX: seq<byte> := Ascii("name=\"")
  /** `filename="` */
  const FILENAME_PREFIX: seq<byte> := Ascii("filename=\"")
  /** `filename*=utf-8''`, the ext-value form of section 3.2 of RFC 8187 */
  const EXT_PREFIX: seq<byte> := Ascii("filename*=utf-8''")

  /** `pat` occurs at `p` in `v`, ASCII letters compared without case. */
  predicate CiPrefixAt(v: seq<byte>, p: nat, pat: seq<byte>)
  {
    p + |pat| <= |v| && forall k | 0 <= k < |pat| :: ToLowerAscii(v[p + k]) == ToLowerAscii(pat[k])
  }

  /** `\b` in front of a word character at `p`. */
  predicate BoundaryBefore(v: seq<byte>, p: nat)
  {
    p == 0 || (p <= |v| && !IsWordByte(v[p - 1]))
  }

  predicate IsLineTerminator(c: byte)
  {
    c == LF || c == CR
  }

  // ---------------------------------------------------------------------
  // name="..."  (/\bname="([^"]+)"/i)
  // ---------------------------------------------------------------------

  /** Length of the longest run of non-quote bytes starting at `q`. */
  function QuoteFreeRun(v: seq<byte>, q: nat): (k: nat)
    requires q <= |v|
    ensures q + k <= |v|
    ensures forall j | q <= j < q + k :: v[j] != QUOTE
    ensures q + k == |v| || v[q + k] == QUOTE
    decreases |v| - q
  {
    if q == |v| || v[q] == QUOTE then 0 else 1 + QuoteFreeRun(v, q + 1)
  }

  /** The `name` pattern tried at position `p`. */
  function NameAt(v: seq<byte>, p: nat): Option<seq<byte>>
    requires p <= |v|
  {
    if BoundaryBefore(v, p) && CiPrefixAt(v, p, NAME_PREFIX) then
      var q := p + |NAME_PREFIX|;
      var k := QuoteFreeRun(v, q);
      if k > 0 && q + k < |v| then Some(v[q..q + k]) else None
    else
      None
  }

  function FindNameFrom(v: seq<byte>, p: nat): Option<seq<byte>>
    requires p <= |v|
    decreases |v| - p
  {
    match NameAt(v, p)
    case Some(n) => Some(n)
    case None => if p == |v| then None else FindNameFrom(v, p + 1)
  }

  /**
   * The `name` parameter of a content-disposition value: the first
   * `name="..."` not preceded by a word character, with a non-empty quoted
   * value; the result is what the capture group holds.
   */
  function FindName(v: seq<byte>): (r: Option<seq<byte>>)
    ensures r.Some? ==> |r.value| > 0 && QUOTE !in r.value
  {
    FindNameAnswers(v, 0);
    FindNameFrom(v, 0)
  }

  lemma {:induction false} FindNameAnswers(v: seq<byte>, p: nat)
    requires p <= |v|
    ensures var r := FindNameFrom(v, p); r.Some? ==> |r.value| > 0 && QUOTE !in r.value
    decreases |v| - p
  {
    if NameAt(v, p).None? && p < |v| {
      FindNameAnswers(v, p + 1);
    }
  }

  /** `name="n"` gives back `n` for every non-empty quote-free `n`. */
  lemma NameRoundTrip(n: seq<byte>)
    requires |n| > 0 && QUOTE !in n
    ensures FindName(NAME_PREFIX + n + [QUOTE]) == Some(n)
  {
    var v := NAME_PREFIX + n + [QUOTE];
    assert CiPrefixAt(v, 0, NAME_PREFIX);
    QuoteFreeRunOver(v, |NAME_PREFIX|, |n|);
    assert v[|NAME_PREFIX|..|NAME_PREFIX| + |n|] == n;
  }

  /** The run of non-quote bytes stops exactly at the first quote. */
  lemma {:induction false} QuoteFreeRunOver(v: seq<byte>, q: nat, k: nat)
    requires q + k < |v| && v[q + k] == QUOTE
    requires forall j | q <= j < q + k :: v[j] != QUOTE
    ensures QuoteFreeRun(v, q) == k
    decreases k
  {
    if k > 0 {
      QuoteFreeRunOver(v, q + 1, k - 1);
    }
  }

  // ---------------------------------------------------------------------
  // filename="..."  and  filename*=utf-8''...
  // ---------------------------------------------------------------------

  datatype FilenameForm = Quoted | Extended

  function FormPrefix(f: FilenameForm): seq<byte>
  {
    if f == Quoted then FILENAME_PREFIX else EXT_PREFIX
  }

  /** What must follow the lazy capture before `($|; )`. */
  function FormCloser(f: FilenameForm): seq<byte>
  {
    if f == Quoted then [QUOTE] else []
  }

  /** `($|; )` at position `e`. */
  predicate ParamEndAt(v: seq<byte>, e: nat)
  {
    e == |v| || (e + 2 <= |v| && v[e] == SEMICOLON && v[e + 1] == SPACE)
  }

  predicate CloserAt(v: seq<byte>, e: nat, closer: seq<byte>)
  {
    e + |closer| <= |v| && v[e..e + |closer|] == closer && ParamEndAt(v, e + |closer|)
  }

  /**
   * The lazy `(.*?)` started at `q`, currently trying to end the capture at
   * `e`; every byte already stepped over matched `.`.
   */
  function LazyCapture(v: seq<byte>, q: nat, e: nat, closer: seq<byte>): (r: Option<seq<byte>>)
    requires q <= e <= |v|
    requires forall j | q <= j < e :: !IsLineTerminator(v[j])
    ensures r.Some? ==> forall j | 0 <= j < |r.value| :: !IsLineTerminator(r.value[j])
    decreases |v| - e
  {
    if CloserAt(v, e, closer) then Some(v[q..e])
    else if e == |v| || IsLineTerminator(v[e]) then None
    else LazyCapture(v, q, e + 1, closer)
  }

  function FilenameAt(v: seq<byte>, p: nat, f: FilenameForm): Option<seq<byte>>
    requires p <= |v|
  {
    var pre := FormPrefix(f);
    if BoundaryBefore(v, p) && CiPrefixAt(v, p, pre) then
      LazyCapture(v, p + |pre|, p + |pre|, FormCloser(f))
    else
      None
  }

  function FindFilenameFrom(v: seq<byte>, p: nat, f: FilenameForm): Option<seq<byte>>
    requires p <= |v|
    decreases |v| - p
  {
    match FilenameAt(v, p, f)
    case Some(m) => Some(m)
    case None => if p == |v| then None else FindFilenameFrom(v, p + 1, f)
  }

  // ---------------------------------------------------------------------
  // clean-up of the captured filename
  // ---------------------------------------------------------------------

  /** `replace(/%22|\\"/g, '"')` */
  function UnescapeQuotes(m: seq<byte>): (r: seq<byte>)
    // nothing is added: every byte out is a quote or a byte of the input
    ensures |r| <= |m|
    ensures forall k | 0 <= k < |r| :: r[k] == QUOTE || r[k] in m
    decreases |m|
  {
    if |m| >= 3 && m[0] == PERCENT && m[1] == 50 && m[2] == 50 then [QUOTE] + UnescapeQuotes(m[3..])
    else if |m| >= 2 && m[0] == BACKSLASH && m[1] == QUOTE then [QUOTE] + UnescapeQuotes(m[2..])
    else if |m| == 0 then []
    else [m[0]] + UnescapeQuotes(m[1..])
  }

  /** The UTF-8 bytes of a character code below 0x10000 that is not a surrogate. */
  function Utf8(cp: nat): (r: seq<byte>)
    requires cp < 0xD800
    ensures 1 <= |r| <= 3
    ensures cp < 0x80 <==> |r| == 1
  {
    if cp < 0x80 then [cp as bv8]
    else if cp < 0x800 then [(0xC0 + cp / 64) as bv8, (0x80 + cp % 64) as bv8]
    else [(0xE0 + cp / 4096) as bv8, (0x80 + (cp / 64) % 64) as bv8, (0x80 + cp % 64) as bv8]
  }

  predicate IsCharRefAt(m: seq<byte>)
  {
    |m| >= 7 && m[0] == AMPERSAND && m[1] == HASH
    && IsDigit(m[2]) && IsDigit(m[3]) && IsDigit(m[4]) && IsDigit(m[5]) && m[6] == SEMICOLON
  }

  /** `replace(/&#([\d]{4});/g, ...)`: each `&#dddd;` becomes the character with code dddd. */
  function ReplaceCharRefs(m: seq<byte>): (r: seq<byte>)
    // a seven-byte reference becomes at most three bytes
    ensures |r| <= |m|
    ensures |m| > 0 && !IsCharRefAt(m) ==> |r| > 0 && r[0] == m[0]
    decreases |m|
  {
    if IsCharRefAt(m) then
      var code := DigitsValue(m[2..6]);
      DigitsValueBelow(m[2..6]);
      Utf8(code) + ReplaceCharRefs(m[7..])
    else if |m| == 0 then []
    else [m[0]] + ReplaceCharRefs(m[1..])
  }

  /** `lastIndexOf(b)`: -1 when `b` does not occur. */
  function LastIndexOf(m: seq<byte>, b: byte): (r: int)
    ensures -1 <= r < |m|
    ensures r >= 0 ==> m[r] == b
    ensures forall k | r < k < |m| :: m[k] != b
    decreases |m|
  {
    if |m| == 0 then -1
    else if m[|m| - 1] == b then |m| - 1
    else LastIndexOf(m[..|m| - 1], b)
  }

  /** `substr(lastIndexOf('\\') + 1)`: drops a Windows-style directory prefix. */
  function AfterLastBackslash(m: seq<byte>): (r: seq<byte>)
    ensures BACKSLASH !in r
    ensures BACKSLASH !in m ==> r == m
    ensures |r| <= |m| && r == m[|m| - |r|..]
  {
    var k := LastIndexOf(m, BACKSLASH);
    assert BACKSLASH !in m ==> k == -1;
    m[k + 1..]
  }

  function CleanFilename(m: seq<byte>): seq<byte>
  {
    AfterLastBackslash(ReplaceCharRefs(UnescapeQuotes(m)))
  }

  /**
   * `parseFilename`: the quoted `filename="..."` form first, the ext-value
   * `filename*=utf-8''...` form otherwise; None where the JavaScript returns
   * undefined. The result never holds a backslash.
   */
  function ParseFilename(v: seq<byte>): (r: Option<seq<byte>>)
    ensures r.Some? ==> BACKSLASH !in r.value
  {
    match FindFilenameFrom(v, 0, Quoted)
    case Some(m) => Some(CleanFilename(m))
    case None =>
      match FindFilenameFrom(v, 0, Extended)
      case Some(m) => Some(CleanFilename(m))
      case None => None
  }

  /** A filename with none of the bytes the clean-up rewrites. */
  predicate PlainFilename(n: seq<byte>)
  {
    QUOTE !in n && BACKSLASH !in n && PERCENT !in n && AMPERSAND !in n && LF !in n && CR !in n
  }

  lemma {:induction false} UnescapeQuotesPlain(m: seq<byte>)
    requires PERCENT !in m && BACKSLASH !in m
    ensures UnescapeQuotes(m) == m
    decreases |m|
  {
    if |m| > 0 {
      assert m == [m[0]] + m[1..];
      UnescapeQuotesPlain(m[1..]);
    }
  }

  lemma {:induction false} ReplaceCharRefsPlain(m: seq<byte>)
    requires AMPERSAND !in m
    ensures ReplaceCharRefs(m) == m
    decreases |m|
  {
    if |m| > 0 {
      assert m == [m[0]] + m[1..];
      ReplaceCharRefsPlain(m[1..]);
    }
  }

  /** The lazy capture runs over quote-free bytes up to the closing quote. */
  lemma {:induction false} LazyCaptureToQuote(v: seq<byte>, q: nat, e: nat, k: nat)
    requires q <= e <= k && k + 1 == |v| && v[k] == QUOTE
    requires forall j | q <= j < k :: v[j] != QUOTE && !IsLineTerminator(v[j])
    ensures LazyCapture(v, q, e, [QUOTE]) == Some(v[q..k])
    decreases k - e
  {
    if e < k {
      assert !CloserAt(v, e, [QUOTE]) by {
        if e + 1 <= |v| { assert v[e..e + 1] == [v[e]]; }
      }
      LazyCaptureToQuote(v, q, e + 1, k);
    } else {
      assert v[e..e + 1] == [QUOTE];
    }
  }

  /** The quoted form captures the whole of a quote-free, single-line value. */
  lemma QuotedCapture(path: seq<byte>)
    requires QUOTE !in path && LF !in path && CR !in path
    ensures FindFilenameFrom(FILENAME_PREFIX + path + [QUOTE], 0, Quoted) == Some(path)
  {
    var v := FILENAME_PREFIX + path + [QUOTE];
    var q := |FILENAME_PREFIX|;
    assert CiPrefixAt(v, 0, FILENAME_PREFIX) by {
      assert v[..q] == FILENAME_PREFIX;
    }
    assert forall j | q <= j < q + |path| :: v[j] == path[j - q];
    LazyCaptureToQuote(v, q, q, q + |path|);
    assert v[q..q + |path|] == path;
  }

  /** `filename="n"` gives back `n` for every plain `n`. */
  lemma FilenameRoundTrip(n: seq<byte>)
    requires PlainFilename(n)
    ensures ParseFilename(FILENAME_PREFIX + n + [QUOTE]) == Some(n)
  {
    QuotedCapture(n);
    UnescapeQuotesPlain(n);
    ReplaceCharRefsPlain(n);
  }

  /** A Windows path in the quoted form keeps only its last component. */
  lemma FilenameDropsDirectory(dir: seq<byte>, n: seq<byte>)
    requires PlainFilename(n)
    requires QUOTE !in dir && PERCENT !in dir && AMPERSAND !in dir && LF !in dir && CR !in dir
    ensures ParseFilename(FILENAME_PREFIX + (dir + [BACKSLASH] + n) + [QUOTE]) == Some(n)
  {
    var path := dir + [BACKSLASH] + n;
    QuotedCapture(path);
    UnescapeNoQuoteNoPercent(path);
    ReplaceCharRefsPlain(path);
    var k := LastIndexOf(path, BACKSLASH);
    assert path[|dir|] == BACKSLASH;
    assert k == |dir|;
    assert path[k + 1..] == n;
  }

  lemma {:induction false} UnescapeNoQuoteNoPercent(m: seq<byte>)
    requires PERCENT !in m && QUOTE !in m
    ensures UnescapeQuotes(m) == m
    decreases |m|
  {
    if |m| > 0 {
      assert m == [m[0]] + m[1..];
      UnescapeNoQuoteNoPercent(m[1..]);
    }
  }

  /** No `; ` pair: nothing inside `n` can end the ext-value capture early. */
  predicate NoParamEnd(n: seq<byte>)
  {
    forall j | 0 <= j < |n| - 1 :: !(n[j] == SEMICOLON && n[j + 1] == SPACE)
  }

  /** With nothing left that could close it, the lazy capture of the ext form runs to the end. */
  lemma {:induction false} LazyCaptureToEnd(v: seq<byte>, q: nat, e: nat)
    requires q <= e <= |v|
    requires forall j | q <= j < |v| :: !IsLineTerminator(v[j])
    requires forall j | e <= j < |v| - 1 :: !(v[j] == SEMICOLON && v[j + 1] == SPACE)
    ensures LazyCapture(v, q, e, []) == Some(v[q..])
    decreases |v| - e
  {
    if e < |v| {
      assert !ParamEndAt(v, e);
      LazyCaptureToEnd(v, q, e + 1);
    } else {
      var none: seq<byte> := [];
      assert CloserAt(v, e, none) by {
        assert v[e..e + |none|] == none;
      }
      assert v[q..e] == v[q..];
    }
  }

  /** Where no position from `p` up to `s` is followed by a quote nine bytes on, the quoted form cannot start there. */
  lemma {:induction false} QuotedSearchSkips(v: seq<byte>, p: nat, s: nat)
    requires p <= s <= |v|
    requires forall j | p + 9 <= j < s + 9 && j < |v| :: v[j] != QUOTE
    ensures FindFilenameFrom(v, p, Quoted) == FindFilenameFrom(v, s, Quoted)
    decreases s - p
  {
    if p < s {
      assert FILENAME_PREFIX[9] == QUOTE;
      assert !CiPrefixAt(v, p, FILENAME_PREFIX) by {
        if p + 10 <= |v| {
          assert ToLowerAscii(v[p + 9]) != ToLowerAscii(FILENAME_PREFIX[9]);
        }
      }
      QuotedSearchSkips(v, p + 1, s);
    }
  }

  /**
   * `filename*=utf-8''n` gives back `n` for every plain `n` that holds no
   * `; `: without a quoted form the ext-value form is used, and its capture
   * runs to the end of the value.
   */
  lemma ExtFilenameRoundTrip(n: seq<byte>)
    requires PlainFilename(n) && NoParamEnd(n)
    ensures ParseFilename(EXT_PREFIX + n) == Some(n)
  {
    var v := EXT_PREFIX + n;
    assert QUOTE !in v by {
      assert forall j | 0 <= j < |EXT_PREFIX| :: v[j] != QUOTE;
      assert forall j | |EXT_PREFIX| <= j < |v| :: v[j] == n[j - |EXT_PREFIX|];
    }
    NoQuotedForm(v);
    ExtCaptureAtStart(n);
    UnescapeQuotesPlain(n);
    ReplaceCharRefsPlain(n);
  }

  /** Without a quote there is no quoted form. */
  lemma NoQuotedForm(v: seq<byte>)
    requires QUOTE !in v
    ensures FindFilenameFrom(v, 0, Quoted) == None
  {
    QuotedSearchSkips(v, 0, |v|);
    assert !CiPrefixAt(v, |v|, FILENAME_PREFIX);
  }

  /** The ext-value form at the start captures the rest of the value. */
  lemma ExtCaptureAtStart(n: seq<byte>)
    requires PlainFilename(n) && NoParamEnd(n)
    ensures FindFilenameFrom(EXT_PREFIX + n, 0, Extended) == Some(n)
  {
    var v := EXT_PREFIX + n;
    var q := |EXT_PREFIX|;
    assert CiPrefixAt(v, 0, EXT_PREFIX) by {
      assert v[..q] == EXT_PREFIX;
    }
    assert forall j | q <= j < |v| :: v[j] == n[j - q];
    LazyCaptureToEnd(v, q, q);
    assert v[q..] == n;
  }

  /** A quoted form after a quote-free, space-ended prefix is found, and captures `n`. */
  lemma QuotedFoundAfter(head: seq<byte>, n: seq<byte>)
    requires QUOTE !in head && |head| > 0 && head[|head| - 1] == SPACE
    requires QUOTE !in n && LF !in n && CR !in n
    ensures FindFilenameFrom(head + FILENAME_PREFIX + n + [QUOTE], 0, Quoted) == Some(n)
  {
    var v := head + FILENAME_PREFIX + n + [QUOTE];
    var s := |head|;
    NoQuoteBeforePrefix(head, FILENAME_PREFIX + n + [QUOTE]);
    assert v == head + (FILENAME_PREFIX + n + [QUOTE]);
    QuotedSearchSkips(v, 0, s);
    QuotedAt(head, n);
  }

  /** Nine bytes past any position of `head`, there is no quote yet. */
  lemma NoQuoteBeforePrefix(head: seq<byte>, tail: seq<byte>)
    requires QUOTE !in head && |tail| >= 9
    requires forall j | 0 <= j < 9 :: tail[j] == FILENAME_PREFIX[j]
    ensures forall j | 9 <= j < |head| + 9 :: (head + tail)[j] != QUOTE
  {
    forall j | 9 <= j < |head| + 9
      ensures (head + tail)[j] != QUOTE
    {
      if j < |head| {
        assert (head + tail)[j] == head[j];
      } else {
        assert (head + tail)[j] == FILENAME_PREFIX[j - |head|];
      }
    }
  }

  /** The quoted form right after `head` is matched there and captures `n`. */
  lemma QuotedAt(head: seq<byte>, n: seq<byte>)
    requires |head| > 0 && head[|head| - 1] == SPACE
    requires QUOTE !in n && LF !in n && CR !in n
    ensures var v := head + FILENAME_PREFIX + n + [QUOTE];
            FindFilenameFrom(v, |head|, Quoted) == Some(n)
  {
    var v := head + FILENAME_PREFIX + n + [QUOTE];
    var s := |head|;
    var q := s + |FILENAME_PREFIX|;
    assert BoundaryBefore(v, s) by {
      assert v[s - 1] == SPACE;
    }
    assert CiPrefixAt(v, s, FILENAME_PREFIX) by {
      assert forall k | 0 <= k < |FILENAME_PREFIX| :: v[s + k] == FILENAME_PREFIX[k];
    }
    assert v[q..] == n + [QUOTE];
    QuoteEndedCapture(v, q, n);
  }

  /** The lazy capture of a tail that is `n` and a closing quote is `n`. */
  lemma QuoteEndedCapture(v: seq<byte>, q: nat, n: seq<byte>)
    requires q <= |v| && v[q..] == n + [QUOTE]
    requires QUOTE !in n && LF !in n && CR !in n
    ensures LazyCapture(v, q, q, [QUOTE]) == Some(n)
  {
    assert forall j | q <= j < q + |n| :: v[j] == v[q..][j - q] == n[j - q];
    assert v[q + |n|] == v[q..][|n|];
    LazyCaptureToQuote(v, q, q, q + |n|);
    assert v[q..q + |n|] == n;
  }

  /**
   * The quoted form takes precedence: a value whose ext-value parameter comes
   * first still yields the quoted filename.
   */
  lemma QuotedFormWins(x: seq<byte>, n: seq<byte>)
    requires QUOTE !in x && PlainFilename(n)
    ensures ParseFilename(EXT_PREFIX + x + [SEMICOLON, SPACE] + FILENAME_PREFIX + n + [QUOTE]) == Some(n)
  {
    var head := EXT_PREFIX + x + [SEMICOLON, SPACE];
    assert QUOTE !in head by {
      assert forall j | 0 <= j < |EXT_PREFIX| :: head[j] == EXT_PREFIX[j];
      assert forall j | |EXT_PREFIX| <= j < |EXT_PREFIX| + |x| :: head[j] == x[j - |EXT_PREFIX|];
    }
    QuotedFoundAfter(head, n);
    UnescapeQuotesPlain(n);
    ReplaceCharRefsPlain(n);
  }

  /** `%22` after text with nothing to rewrite becomes a quote, and the rest is rewritten in turn. */
  lemma {:induction false} UnescapePercentQuote(a: seq<byte>, b: seq<byte>)
    requires PERCENT !in a && BACKSLASH !in a
    ensures UnescapeQuotes(a + [PERCENT, 50, 50] + b) == a + [QUOTE] + UnescapeQuotes(b)
    decreases |a|
  {
    var m := a + [PERCENT, 50, 50] + b;
    if |a| == 0 {
      assert m == [PERCENT, 50, 50] + b;
      assert m[3..] == b;
    } else {
      var m' := a[1..] + [PERCENT, 50, 50] + b;
      assert m == [a[0]] + m';
      assert m[1..] == m';
      UnescapePercentQuote(a[1..], b);
      assert a == [a[0]] + a[1..];
    }
  }

  /** `\"` after text with nothing to rewrite becomes a quote, and the rest is rewritten in turn. */
  lemma {:induction false} UnescapeBackslashQuote(a: seq<byte>, b: seq<byte>)
    requires PERCENT !in a && BACKSLASH !in a
    ensures UnescapeQuotes(a + [BACKSLASH, QUOTE] + b) == a + [QUOTE] + UnescapeQuotes(b)
    decreases |a|
  {
    var m := a + [BACKSLASH, QUOTE] + b;
    if |a| == 0 {
      assert m == [BACKSLASH, QUOTE] + b;
      assert m[2..] == b;
    } else {
      var m' := a[1..] + [BACKSLASH, QUOTE] + b;
      assert m == [a[0]] + m';
      assert m[1..] == m';
      UnescapeBackslashQuote(a[1..], b);
      assert a == [a[0]] + a[1..];
    }
  }

  /** Four decimal digits name a code below the surrogates. */
  lemma FourDigitCode(d: seq<byte>)
    requires |d| == 4 && forall k | 0 <= k < 4 :: IsDigit(d[k])
    ensures DigitsValue(d) < 0xD800
  {
    DigitsValueBelow(d);
    assert Pow10(4) == 10000;
  }

  /** `&#dddd;` at the very start is replaced. */
  lemma CharRefAtStart(d: seq<byte>, b: seq<byte>)
    requires |d| == 4 && forall k | 0 <= k < 4 :: IsDigit(d[k])
    ensures DigitsValue(d) < 0xD800
    ensures ReplaceCharRefs([AMPERSAND, HASH] + d + [SEMICOLON] + b) == Utf8(DigitsValue(d)) + ReplaceCharRefs(b)
  {
    FourDigitCode(d);
    var m := [AMPERSAND, HASH] + d + [SEMICOLON] + b;
    assert IsCharRefAt(m);
    assert m[2..6] == d;
    assert m[7..] == b;
  }

  /** `&#dddd;` after text without `&` becomes the UTF-8 bytes of code dddd, and the rest is rewritten in turn. */
  lemma {:induction false} CharRefDecoded(a: seq<byte>, d: seq<byte>, b: seq<byte>)
    requires AMPERSAND !in a
    requires |d| == 4 && forall k | 0 <= k < 4 :: IsDigit(d[k])
    ensures DigitsValue(d) < 0xD800
    ensures ReplaceCharRefs(a + [AMPERSAND, HASH] + d + [SEMICOLON] + b)
            == a + Utf8(DigitsValue(d)) + ReplaceCharRefs(b)
    decreases |a|
  {
    FourDigitCode(d);
    var m := a + [AMPERSAND, HASH] + d + [SEMICOLON] + b;
    if |a| == 0 {
      assert m == [AMPERSAND, HASH] + d + [SEMICOLON] + b;
      CharRefAtStart(d, b);
    } else {
      var m' := a[1..] + [AMPERSAND, HASH] + d + [SEMICOLON] + b;
      assert m == [a[0]] + m';
      assert !IsCharRefAt(m);
      assert m[1..] == m';
      CharRefDecoded(a[1..], d, b);
      assert a == [a[0]] + a[1..];
    }
  }
}
