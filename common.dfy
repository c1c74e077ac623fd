/**
 * Bytes, the byte constants of the multipart scanner and the small character
 * helpers it uses (index.js lines 35-41 and `lower`, lines 823-825).
 */
module Common {

  datatype Option<+T> = None | Some(value: T)

  type byte = bv8

  const LF: byte := 10
  const CR: byte := 13
  const SPACE: byte := 32
  const HYPHEN: byte := 45
  const COLON: byte := 58
  /** lower-case 'a' and 'z', the bounds `lower` is compared against */
  const A: byte := 97
  const Z: byte := 122

  const QUOTE: byte := 34
  const HASH: byte := 35
  const PERCENT: byte := 37
  const AMPERSAND: byte := 38
  const DOT: byte := 46
  const SEMICOLON: byte := 59
  const BACKSLASH: byte := 92
  const UNDERSCORE: byte := 95

  /** The bytes of an ASCII string literal. */
  function Ascii(s: string): (r: seq<byte>)
    requires forall k | 0 <= k < |s| :: s[k] < 128 as char
    ensures |r| == |s|
    ensures forall k | 0 <= k < |s| :: r[k] as int == s[k] as int
  {
    seq(|s|, k requires 0 <= k < |s| => s[k] as bv8)
  }

  /** `lower(c)` is `c | 0x20`: it maps 'A'..'Z' onto 'a'..'z' and leaves 'a'..'z' alone. */
  function Lower(c: byte): (r: byte)
    ensures 65 <= c <= 90 ==> r == c + 32
    ensures 97 <= c <= 122 ==> r == c
    ensures 97 <= r <= 122 <==> IsAsciiLetter(c)
  {
    c | 0x20
  }

  predicate IsAsciiLetter(c: byte)
  {
    (65 <= c <= 90) || (97 <= c <= 122)
  }

  predicate IsDigit(c: byte)
  {
    48 <= c <= 57
  }

  /** Characters of the regular-expression class \w: [A-Za-z0-9_]. */
  predicate IsWordByte(c: byte)
  {
    IsAsciiLetter(c) || IsDigit(c) || c == UNDERSCORE
  }

  /** ASCII case folding: what `toLowerCase` does to an ASCII byte. */
  function ToLowerAscii(c: byte): (r: byte)
    ensures 65 <= c <= 90 ==> r as int == c as int + 32
    ensures !(65 <= c <= 90) ==> r == c
  {
    if 65 <= c <= 90 then c + 32 else c
  }

  function ToLowerBytes(s: seq<byte>): (r: seq<byte>)
    ensures |r| == |s|
    ensures forall k | 0 <= k < |s| :: r[k] == ToLowerAscii(s[k])
  {
    seq(|s|, k requires 0 <= k < |s| => ToLowerAscii(s[k]))
  }

  /**
   * The header-name test of the scanner, `lower(c) < A || lower(c) > Z`, rejects
   * exactly the bytes that are not ASCII letters, and on letters `lower` is
   * the ordinary ASCII lower-casing.
   */
  lemma LowerRangeIsLetter(c: byte)
    ensures A <= Lower(c) <= Z <==> IsAsciiLetter(c)
    ensures IsAsciiLetter(c) ==> Lower(c) == ToLowerAscii(c)
  {
  }

  /** Lower-casing is idempotent. */
  lemma ToLowerBytesIdempotent(s: seq<byte>)
    ensures ToLowerBytes(ToLowerBytes(s)) == ToLowerBytes(s)
  {
  }

  /** The value of a string of decimal digits, most significant first. */
  function DigitsValue(d: seq<byte>): nat
    requires forall k | 0 <= k < |d| :: IsDigit(d[k])
    decreases |d|
  {
    if |d| == 0 then 0 else DigitsValue(d[..|d| - 1]) * 10 + (d[|d| - 1] - 48) as int
  }

  function Pow10(n: nat): (r: nat)
    ensures r >= 1
  {
    if n == 0 then 1 else 10 * Pow10(n - 1)
  }

  /** `n` decimal digits denote a number below 10^n. */
  lemma {:induction false} DigitsValueBelow(d: seq<byte>)
    requires forall k | 0 <= k < |d| :: IsDigit(d[k])
    ensures DigitsValue(d) < Pow10(|d|)
    decreases |d|
  {
    if |d| > 0 {
      DigitsValueBelow(d[..|d| - 1]);
    }
  }

  function Min(a: int, b: int): int
  {
    if a <= b then a else b
  }
}
