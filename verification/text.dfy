/**
 * The small pieces of JavaScript string behaviour the order and catalog routes rely on:
 * `String.prototype.trim`, number-to-string interpolation (`${qty}`), `Array.prototype.join`
 * and the 35-character summary abbreviation of the order-creation route.
 */
module Text {

  /** The characters `trim` removes: ECMAScript WhiteSpace (including every Zs space
      separator) and LineTerminator. */
  predicate IsSpace(c: char) {
    || c == '\t' || c == '\n' || c == '\U{B}' || c == '\U{C}' || c == '\r'
    || c == ' ' || c == '\U{A0}' || c == '\U{1680}'
    || ('\U{2000}' <= c <= '\U{200A}')
    || c == '\U{2028}' || c == '\U{2029}' || c == '\U{202F}' || c == '\U{205F}'
    || c == '\U{3000}' || c == '\U{FEFF}'
  }

  /** Drops leading white space: the result is a suffix of `s`, everything dropped is
      white space, and the result does not itself start with white space. */
  function TrimStart(s: string): (r: string)
    ensures |r| <= |s| && r == s[|s| - |r|..]
    ensures forall i :: 0 <= i < |s| - |r| ==> IsSpace(s[i])
    ensures |r| > 0 ==> !IsSpace(r[0])
  {
    if |s| > 0 && IsSpace(s[0]) then TrimStart(s[1..]) else s
  }

  /** Drops trailing white space: the result is a prefix of `s`, everything dropped is
      white space, and the result does not itself end with white space. */
  function TrimEnd(s: string): (r: string)
    ensures |r| <= |s| && r == s[..|r|]
    ensures forall i :: |r| <= i < |s| ==> IsSpace(s[i])
    ensures |r| > 0 ==> !IsSpace(r[|r| - 1])
  {
    if |s| > 0 && IsSpace(s[|s| - 1]) then TrimEnd(s[..|s| - 1]) else s
  }

  /** `s.trim()`: a contiguous piece of `s` with white space on neither end, obtained by
      removing only white space. */
  function Trim(s: string): (r: string)
    ensures var a := |s| - |TrimStart(s)|;
              && a + |r| <= |s| && r == s[a..a + |r|]
              && (forall i :: 0 <= i < a ==> IsSpace(s[i]))
              && (forall i :: a + |r| <= i < |s| ==> IsSpace(s[i]))
    ensures |r| > 0 ==> !IsSpace(r[0]) && !IsSpace(r[|r| - 1])
  {
    var t := TrimStart(s);
    var r := TrimEnd(t);
    SuffixShift(s, t, |r|);
    assert |r| > 0 ==> r[0] == t[0];
    r
  }

  /** Positions in a suffix `t` of `s` are positions of `s` shifted by the dropped length. */
  lemma SuffixShift(s: string, t: string, n: nat)
    requires |t| <= |s| && t == s[|s| - |t|..] && n <= |t|
    ensures t[..n] == s[|s| - |t|..|s| - |t| + n]
    ensures forall i :: |s| - |t| + n <= i < |s| ==> s[i] == t[i - (|s| - |t|)]
  {
  }

  /** A string with white space on neither end is its own trim. */
  lemma {:induction false} TrimOfTrimmed(s: string)
    requires |s| > 0 ==> !IsSpace(s[0]) && !IsSpace(s[|s| - 1])
    ensures Trim(s) == s
  {
    assert TrimStart(s) == s;
    assert TrimEnd(s) == s;
  }

  /** Trimming twice is trimming once. */
  lemma TrimIdempotent(s: string)
    ensures Trim(Trim(s)) == Trim(s)
  {
    TrimOfTrimmed(Trim(s));
  }

  predicate IsDigit(c: char) {
    '0' <= c <= '9'
  }

  /** The decimal value of a string of digits (most significant first). */
  function DigitsValue(s: string): int
    requires forall i :: 0 <= i < |s| ==> IsDigit(s[i])
  {
    if |s| == 0 then 0
    else DigitsValue(s[..|s| - 1]) * 10 + (s[|s| - 1] as int - '0' as int)
  }

  /** The decimal digits of `n` as JavaScript prints a non-negative integer: no leading zero
      except for `n == 0` itself, and reading the digits back gives `n`. */
  function NatToString(n: nat): (r: string)
    ensures |r| > 0 && forall i :: 0 <= i < |r| ==> IsDigit(r[i])
    ensures r[0] == '0' ==> n == 0
    ensures DigitsValue(r) == n
  {
    var d := [(('0' as int) + n % 10) as char];
    if n < 10 then d
    else
      var prefix := NatToString(n / 10);
      var r := prefix + d;
      assert r[..|r| - 1] == prefix;
      r
  }

  /** `${i}` for an integer `i`: a minus sign before the digits of a negative value. */
  function IntToString(i: int): (r: string)
    ensures |r| > 0
    ensures i < 0 <==> r[0] == '-'
    ensures i >= 0 ==> (forall k :: 0 <= k < |r| ==> IsDigit(r[k])) && DigitsValue(r) == i
    ensures i < 0 ==> (forall k :: 1 <= k < |r| ==> IsDigit(r[k])) && DigitsValue(r[1..]) == -i
    ensures i >= 0 && r[0] == '0' ==> i == 0
    ensures i == 0 ==> r == "0"
    ensures r[0] == '0' ==> r == "0"
    ensures i < 0 ==> |r| > 1 && r[1] != '0'
  {
    if i < 0 then
      var digits := NatToString(-i);
      assert ("-" + digits)[1..] == digits;
      "-" + digits
    else NatToString(i)
  }

  /** `parts.join(sep)`. */
  function Join(parts: seq<string>, sep: string): string {
    if |parts| == 0 then ""
    else if |parts| == 1 then parts[0]
    else parts[0] + sep + Join(parts[1..], sep)
  }

  /** Length limit of an order's items summary, the characters kept when it is cut, and the
      marker appended after the cut. */
  const SummaryLimit: nat := 35
  const SummaryKept: nat := 32
  const Ellipsis: string := "..."

  /** The summary abbreviation: a string within the limit is kept as is; a longer one keeps
      its first 32 characters followed by "...", so the result never exceeds 35. */
  function Abbreviate(s: string): (r: string)
    ensures |r| <= SummaryLimit
    ensures |s| <= SummaryLimit ==> r == s
    ensures |s| > SummaryLimit ==> |r| == SummaryLimit && r[..SummaryKept] == s[..SummaryKept]
                                   && r[SummaryKept..] == Ellipsis
  {
    if |s| > SummaryLimit then s[..SummaryKept] + Ellipsis else s
  }
}
