/** String primitives of JavaScript that the provider relies on. */
module Text {

  /** `pat` occurs in `s` starting at position `i`. */
  predicate OccursAt(s: string, pat: string, i: nat) {
    i + |pat| <= |s| && s[i..i + |pat|] == pat
  }

  /** `String.prototype.indexOf` searching from position `k`: the first
      occurrence at or after `k`, or -1. */
  function IndexFrom(s: string, pat: string, k: nat): (r: int)
    requires k <= |s|
    decreases |s| - k
    ensures r == -1 || (k <= r <= |s| && OccursAt(s, pat, r))
    ensures r == -1 ==> forall i :: k <= i <= |s| ==> !OccursAt(s, pat, i)
    ensures r != -1 ==> forall i :: k <= i < r ==> !OccursAt(s, pat, i)
  {
    if OccursAt(s, pat, k) then k
    else if k == |s| then -1
    else IndexFrom(s, pat, k + 1)
  }

  /** `indexOf` from the start: the position of the first occurrence of
      `pat` in `s`, or -1 when there is none. */
  function IndexOf(s: string, pat: string): (r: int)
    ensures r == -1 <==> forall i :: 0 <= i <= |s| ==> !OccursAt(s, pat, i)
    ensures r != -1 ==> 0 <= r <= |s| && OccursAt(s, pat, r) && forall i :: 0 <= i < r ==> !OccursAt(s, pat, i)
  {
    IndexFrom(s, pat, 0)
  }

  /** `substring` with a single argument: the suffix of `s` from the start
      position, the start being clamped into `[0, |s|]`. */
  function SubstringFrom(s: string, start: int): (r: string)
    ensures |r| == |s| - (if start <= 0 then 0 else if start >= |s| then |s| else start)
    ensures r == s[|s| - |r|..]
  {
    if start <= 0 then s
    else if start >= |s| then ""
    else s[start..]
  }

  /** Decimal rendering of a natural number, as a template literal prints it. */
  function NatToString(n: nat): (r: string)
    ensures |r| >= 1
    decreases n
  {
    if n < 10 then [DigitChar(n)] else NatToString(n / 10) + [DigitChar(n % 10)]
  }

  /** The rendering holds digits only, with no leading zero. */
  lemma {:induction false} NatToStringDigits(n: nat)
    ensures var r := NatToString(n);
      (forall k :: 0 <= k < |r| ==> '0' <= r[k] <= '9') && (n != 0 <==> r[0] != '0')
    decreases n
  {
    if n >= 10 {
      NatToStringDigits(n / 10);
      var head := NatToString(n / 10);
      assert NatToString(n) == head + [DigitChar(n % 10)];
      assert NatToString(n)[0] == head[0];
    }
  }

  function DigitChar(d: nat): char
    requires d < 10
  {
    ['0', '1', '2', '3', '4', '5', '6', '7', '8', '9'][d]
  }

  predicate IsHexDigit(c: char) {
    '0' <= c <= '9' || 'a' <= c <= 'f' || 'A' <= c <= 'F'
  }

  /** The case-insensitive escape test of `normalizeEncoding`: somewhere a
      percent sign is followed by two hex digits. */
  predicate HasPercentEscape(s: string) {
    exists i :: 0 <= i < |s| - 2 && s[i] == '%' && IsHexDigit(s[i + 1]) && IsHexDigit(s[i + 2])
  }
}
