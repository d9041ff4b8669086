/** Rendering of Python scalars to text, as f-strings and `repr` produce it,
    and the whitespace notions of `str.strip()` and the `\s` regex class. */
module PyText {

  type byte = x: int | 0 <= x < 256

  function Digit(d: int): char
    requires 0 <= d < 10
  {
    "0123456789"[d]
  }

  function HexDigit(d: int): char
    requires 0 <= d < 16
  {
    "0123456789abcdef"[d]
  }

  /** Decimal digits of a natural number, most significant first. */
  function NatText(n: nat): (r: string)
    ensures |r| >= 1
    decreases n
  {
    if n < 10 then [Digit(n)] else NatText(n / 10) + [Digit(n % 10)]
  }

  /** `str(i)` for a Python int. */
  function IntText(i: int): string {
    if i < 0 then "-" + NatText(-i) else NatText(i)
  }

  /** Up to `k` fractional digits of `f`, stopping early once the rest is zero. */
  function FracDigits(f: real, k: nat): (r: string)
    requires 0.0 <= f < 1.0
    decreases k
  {
    var d := (f * 10.0).Floor;
    var rest := f * 10.0 - d as real;
    if rest == 0.0 || k <= 1 then [Digit(d)] else [Digit(d)] + FracDigits(rest, k - 1)
  }

  /** Positional decimal text of a float: "100.0", "0.0001", "-2.5". */
  function FloatText(x: real): string {
    if x < 0.0 then "-" + UnsignedFloatText(-x) else UnsignedFloatText(x)
  }

  function UnsignedFloatText(x: real): string
    requires x >= 0.0
  {
    var ip := x.Floor;
    NatText(ip) + "." + FracDigits(x - ip as real, 17)
  }

  /** `str.isspace()` for one character. */
  predicate IsSpace(c: char) {
    var n := c as int;
    n == 32 || 9 <= n <= 13 || 28 <= n <= 31 || n == 0x85 || n == 0xa0 || n == 0x1680
    || 0x2000 <= n <= 0x200a || n == 0x2028 || n == 0x2029 || n == 0x202f
    || n == 0x205f || n == 0x3000
  }

  /** `not s.strip()`: the string is empty or all whitespace. */
  predicate IsBlank(s: string) {
    forall i :: 0 <= i < |s| ==> IsSpace(s[i])
  }

  /** The whitespace bytes that `bytes.strip()` removes. */
  predicate IsAsciiSpaceByte(b: byte) {
    b == 32 || 9 <= b <= 13
  }

  predicate IsBlankBytes(bs: seq<byte>) {
    forall i :: 0 <= i < |bs| ==> IsAsciiSpaceByte(bs[i])
  }

  /** `a` keeps some of the elements of `b`, in their order. */
  predicate IsSubsequence<T(==)>(a: seq<T>, b: seq<T>)
    decreases |b|
  {
    a == [] || (b != [] && (if a[0] == b[0] then IsSubsequence(a[1..], b[1..]) else IsSubsequence(a, b[1..])))
  }

  /** The number of whitespace characters in `s`. */
  function SpaceCount(s: string): nat {
    if s == [] then 0 else (if IsSpace(s[0]) then 1 else 0) + SpaceCount(s[1..])
  }

  /** `re.sub(r'\s+', '', s)`: the characters of `s` that are not
      whitespace, in order. The result keeps characters of `s` in order, has
      no whitespace, and is shorter by exactly the whitespace count, so it
      drops nothing else. */
  function RemoveWhitespace(s: string): (r: string)
    ensures forall i :: 0 <= i < |r| ==> !IsSpace(r[i])
    ensures IsSubsequence(r, s)
    ensures |r| == |s| - SpaceCount(s)
  {
    if s == [] then []
    else
      var rest := RemoveWhitespace(s[1..]);
      if IsSpace(s[0]) then
        assert rest != [] ==> rest[0] != s[0];
        rest
      else
        assert ([s[0]] + rest)[1..] == rest;
        [s[0]] + rest
  }

  /** A whitespace-free subsequence of `s` is never longer than the
      whitespace-free text of `s`, and one of that length is that text: the
      contract of `RemoveWhitespace` determines its result. */
  lemma {:induction false} RemoveWhitespaceIsUnique(t: string, s: string)
    requires forall i :: 0 <= i < |t| ==> !IsSpace(t[i])
    requires IsSubsequence(t, s)
    ensures |t| <= |s| - SpaceCount(s)
    ensures |t| == |s| - SpaceCount(s) ==> t == RemoveWhitespace(s)
    decreases |s|
  {
    var w := RemoveWhitespace(s);
    if s != [] && t != [] {
      assert SpaceCount(s) == (if IsSpace(s[0]) then 1 else 0) + SpaceCount(s[1..]);
      if t[0] == s[0] {
        RemoveWhitespaceIsUnique(t[1..], s[1..]);
        assert t == [s[0]] + t[1..];
      } else {
        RemoveWhitespaceIsUnique(t, s[1..]);
        if !IsSpace(s[0]) {
          assert |RemoveWhitespace(s[1..])| == |s| - 1 - SpaceCount(s[1..]);
        }
      }
    } else if s != [] {
      if !IsSpace(s[0]) {
        assert w[0] == s[0];
      }
    }
  }

  /** `sep.join(parts)`. */
  function Join(parts: seq<string>, sep: string): string {
    if parts == [] then ""
    else if |parts| == 1 then parts[0]
    else parts[0] + sep + Join(parts[1..], sep)
  }

  /** Joining one more part appends the separator and the part. */
  lemma {:induction false} JoinSnoc(parts: seq<string>, p: string, sep: string)
    requires parts != []
    ensures Join(parts + [p], sep) == Join(parts, sep) + sep + p
    decreases |parts|
  {
    if |parts| == 1 {
      assert parts + [p] == [parts[0], p];
    } else {
      assert (parts + [p])[1..] == parts[1..] + [p];
      JoinSnoc(parts[1..], p, sep);
    }
  }

  predicate IsPrefix(p: string, s: string) {
    |p| <= |s| && s[..|p|] == p
  }

  /** `k in s` for two Python strings. */
  predicate IsSubstring(k: string, s: string)
    decreases |s|
  {
    IsPrefix(k, s) || (s != [] && IsSubstring(k, s[1..]))
  }

  function EscapeChar(c: char, quote: char): string {
    if c == quote || c == '\\' then ['\\', c]
    else if c == '\t' then "\\t"
    else if c == '\n' then "\\n"
    else if c == '\r' then "\\r"
    else if c as int < 32 || c as int == 127 then
      "\\x" + [HexDigit(c as int / 16), HexDigit(c as int % 16)]
    else [c]
  }

  function EscapeChars(s: string, quote: char): string {
    if s == [] then "" else EscapeChar(s[0], quote) + EscapeChars(s[1..], quote)
  }

  /** `repr(s)` for a str: single quotes unless the text holds a single quote
      and no double quote. */
  function StrRepr(s: string): string {
    var q := if '\'' in s && '"' !in s then '"' else '\'';
    [q] + EscapeChars(s, q) + [q]
  }

  function EscapeByte(b: byte, quote: char): string {
    if b == quote as int || b == 92 then ['\\', b as char]
    else if b == 9 then "\\t"
    else if b == 10 then "\\n"
    else if b == 13 then "\\r"
    else if b < 32 || b >= 127 then "\\x" + [HexDigit(b / 16), HexDigit(b % 16)]
    else [b as char]
  }

  function EscapeBytes(bs: seq<byte>, quote: char): string {
    if bs == [] then "" else EscapeByte(bs[0], quote) + EscapeBytes(bs[1..], quote)
  }

  /** `repr(b)` (equally `str(b)`) for a bytes object: `b'...'`. */
  function BytesRepr(bs: seq<byte>): string {
    var q := if 39 in bs && 34 !in bs then '"' else '\'';
    "b" + [q] + EscapeBytes(bs, q) + [q]
  }

  /** `str(xs)` for a list of str: `['a', 'b']`. */
  function StrListRepr(xs: seq<string>): string {
    "[" + Join(StrReprs(xs), ", ") + "]"
  }

  function StrReprs(xs: seq<string>): (r: seq<string>)
    ensures |r| == |xs|
  {
    if xs == [] then [] else [StrRepr(xs[0])] + StrReprs(xs[1..])
  }
}
