/**
 * JavaScript's `parseInt(s, 10)` on header text and `getBytesExpected`
 * (index.js:569-578). A number that JavaScript keeps as a double, or as NaN,
 * null or undefined, is a `Measure`.
 */
module Numbers {
  import opened Common

  const PLUS: byte := 43

  /** A numeric JavaScript value as the parser uses it: a count, NaN, or null/undefined. */
  datatype Measure = Count(n: int) | NotANumber | Nothing
  {
    /** JavaScript truthiness: 0, NaN, null and undefined are false. */
    predicate Truthy()
    {
      Count? && n != 0
    }
  }

  /** The ASCII characters of StrWhiteSpaceChar: TAB, LF, VT, FF, CR and SPACE. */
  predicate IsStrWhiteSpace(c: byte)
  {
    9 <= c <= 13 || c == SPACE
  }

  function SkipWhiteSpace(s: seq<byte>): (r: seq<byte>)
    ensures |r| <= |s| && r == s[|s| - |r|..]
    ensures |r| > 0 ==> !IsStrWhiteSpace(r[0])
    ensures forall k | 0 <= k < |s| - |r| :: IsStrWhiteSpace(s[k])
    decreases |s|
  {
    if |s| > 0 && IsStrWhiteSpace(s[0]) then SkipWhiteSpace(s[1..]) else s
  }

  /** Number of leading decimal digits. */
  function DigitRun(s: seq<byte>): (k: nat)
    ensures k <= |s|
    ensures forall j | 0 <= j < k :: IsDigit(s[j])
    ensures k == |s| || !IsDigit(s[k])
    decreases |s|
  {
    if |s| > 0 && IsDigit(s[0]) then 1 + DigitRun(s[1..]) else 0
  }

  /**
   * `parseInt(s, 10)`: leading white space, an optional sign, then the
   * longest run of digits; None (NaN) when there is no digit.
   */
  function ParseInt(s: seq<byte>): (r: Option<int>)
    ensures |s| > 0 && IsDigit(s[0]) ==> r.Some? && r.value >= 0
    ensures |s| == 0 ==> r.None?
  {
    var t := SkipWhiteSpace(s);
    var negative := |t| > 0 && t[0] == HYPHEN;
    var u := if |t| > 0 && (t[0] == HYPHEN || t[0] == PLUS) then t[1..] else t;
    var k := DigitRun(u);
    if k == 0 then None
    else if negative then Some(-(DigitsValue(u[..k]) as int))
    else Some(DigitsValue(u[..k]))
  }

  function DigitByte(d: nat): (b: byte)
    requires d < 10
    ensures IsDigit(b) && (b - 48) as int == d
  {
    (d as bv8) + 48
  }

  /** The decimal rendering of a natural number, without leading zeros. */
  function Decimal(n: nat): (r: seq<byte>)
    ensures |r| > 0 && forall k | 0 <= k < |r| :: IsDigit(r[k])
    decreases n
  {
    if n < 10 then [DigitByte(n)] else Decimal(n / 10) + [DigitByte(n % 10)]
  }

  lemma {:induction false} DecimalValue(n: nat)
    ensures DigitsValue(Decimal(n)) == n
    decreases n
  {
    if n >= 10 {
      DecimalValue(n / 10);
      var d := Decimal(n);
      assert d[..|d| - 1] == Decimal(n / 10);
    }
  }

  /** A decimal number followed by anything that is not a digit parses back to itself. */
  lemma ParseIntDecimal(n: nat, rest: seq<byte>)
    requires |rest| == 0 || !IsDigit(rest[0])
    ensures ParseInt(Decimal(n) + rest) == Some(n)
  {
    var s := Decimal(n) + rest;
    var d := Decimal(n);
    assert s[0] == d[0];
    ParseIntLeadingDigit(s);
    DigitRunOver(d, rest);
    assert s[..|d|] == d;
    DecimalValue(n);
  }

  /** Text that starts with a digit is read from its first byte, with no sign. */
  lemma ParseIntLeadingDigit(s: seq<byte>)
    requires |s| > 0 && IsDigit(s[0])
    ensures ParseInt(s) == Some(DigitsValue(s[..DigitRun(s)]))
  {
    assert SkipWhiteSpace(s) == s;
    assert s[0] != HYPHEN && s[0] != PLUS;
  }

  /** A minus sign negates. */
  lemma ParseIntNegative(n: nat)
    ensures ParseInt([HYPHEN] + Decimal(n)) == Some(-(n as int))
  {
    var s := [HYPHEN] + Decimal(n);
    assert s[0] == HYPHEN && !IsStrWhiteSpace(s[0]);
    assert SkipWhiteSpace(s) == s;
    assert s[1..] == Decimal(n) + [];
    DigitRunOver(Decimal(n), []);
    assert s[1..][..|Decimal(n)|] == Decimal(n);
    DecimalValue(n);
  }

  /** Text without a digit is NaN. */
  lemma ParseIntNoDigit(s: seq<byte>)
    requires forall k | 0 <= k < |s| :: !IsDigit(s[k])
    ensures ParseInt(s) == None
  {
    var t := SkipWhiteSpace(s);
    var u := if |t| > 0 && (t[0] == HYPHEN || t[0] == PLUS) then t[1..] else t;
    assert |u| > 0 ==> u[0] == s[|s| - |u|];
    assert DigitRun(u) == 0;
  }

  lemma {:induction false} DigitRunOver(d: seq<byte>, rest: seq<byte>)
    requires forall k | 0 <= k < |d| :: IsDigit(d[k])
    requires |rest| == 0 || !IsDigit(rest[0])
    ensures DigitRun(d + rest) == |d|
    decreases |d|
  {
    if |d| > 0 {
      assert (d + rest)[1..] == d[1..] + rest;
      DigitRunOver(d[1..], rest);
    } else {
      assert d + rest == rest;
    }
  }

  const CONTENT_LENGTH: seq<byte> := Ascii("content-length")
  const TRANSFER_ENCODING: seq<byte> := Ascii("transfer-encoding")

  /** A non-empty content-length header, which JavaScript finds truthy. */
  predicate HasLength(headers: map<seq<byte>, seq<byte>>)
  {
    CONTENT_LENGTH in headers && |headers[CONTENT_LENGTH]| > 0
  }

  /**
   * `getBytesExpected`: the parsed content-length when that header is
   * non-empty, 0 when neither it nor transfer-encoding is present, null
   * when only transfer-encoding is.
   */
  function GetBytesExpected(headers: map<seq<byte>, seq<byte>>): (r: Measure)
    ensures HasLength(headers) ==>
              r == (match ParseInt(headers[CONTENT_LENGTH]) case Some(n) => Count(n) case None => NotANumber)
    ensures !HasLength(headers) && TRANSFER_ENCODING !in headers ==> r == Count(0)
    ensures r.Nothing? <==> !HasLength(headers) && TRANSFER_ENCODING in headers
  {
    if HasLength(headers) then
      match ParseInt(headers[CONTENT_LENGTH])
      case Some(n) => Count(n)
      case None => NotANumber
    else if TRANSFER_ENCODING !in headers then Count(0)
    else Nothing
  }

  /** A request with `content-length: n` expects exactly n bytes. */
  lemma BytesExpectedFromLength(headers: map<seq<byte>, seq<byte>>, n: nat)
    requires CONTENT_LENGTH in headers && headers[CONTENT_LENGTH] == Decimal(n)
    ensures GetBytesExpected(headers) == Count(n)
  {
    ParseIntDecimal(n, []);
    assert Decimal(n) + [] == Decimal(n);
  }
}
