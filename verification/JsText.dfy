/** Character classes and string helpers shared by JavaScript's
    `String.prototype.trim`, `Number(string)` and the regular-expression
    classes `\s` and `\d`. Strings are sequences of Unicode scalar values. */
module JsText {

  /** WhiteSpace and LineTerminator of ECMAScript: exactly the characters
      `trim` strips and the class `\s` matches. */
  predicate IsSpace(c: char) {
    || c == '\t' || c == '\n' || c == '\U{000B}' || c == '\U{000C}' || c == '\r'
    || c == ' ' || c == '\U{00A0}' || c == '\U{1680}'
    || ('\U{2000}' <= c <= '\U{200A}')
    || c == '\U{2028}' || c == '\U{2029}' || c == '\U{202F}' || c == '\U{205F}'
    || c == '\U{3000}' || c == '\U{FEFF}'
  }

  /** The ASCII decimal digits: the class `\d`. */
  predicate IsDigit(c: char) {
    '0' <= c <= '9'
  }

  /** The value of `c` as a digit of base 2, 8, 10 or 16 (letters in either
      case), and 16 when `c` is no hexadecimal digit at all. */
  function DigitValue(c: char): (d: nat)
    ensures d <= 16
    ensures IsDigit(c) <==> d < 10
  {
    if '0' <= c <= '9' then (c as int) - ('0' as int)
    else if 'a' <= c <= 'f' then (c as int) - ('a' as int) + 10
    else if 'A' <= c <= 'F' then (c as int) - ('A' as int) + 10
    else 16
  }

  predicate AllSpace(s: string) {
    forall k :: 0 <= k < |s| ==> IsSpace(s[k])
  }

  predicate AllDigitsIn(s: string, base: nat) {
    forall k :: 0 <= k < |s| ==> DigitValue(s[k]) < base
  }

  /** The number a string of digits denotes in `base`, most significant first. */
  function DigitsValue(s: string, base: nat): nat
    requires AllDigitsIn(s, base)
    decreases |s|
  {
    if s == [] then 0 else DigitsValue(s[..|s| - 1], base) * base + DigitValue(s[|s| - 1])
  }

  /** Length of the longest run of spaces starting at `i`. */
  function SpaceRun(s: string, i: nat): (n: nat)
    requires i <= |s|
    ensures i + n <= |s|
    ensures forall k :: i <= k < i + n ==> IsSpace(s[k])
    ensures i + n == |s| || !IsSpace(s[i + n])
    decreases |s| - i
  {
    if i < |s| && IsSpace(s[i]) then 1 + SpaceRun(s, i + 1) else 0
  }

  /** Length of the longest run of decimal digits starting at `i`. */
  function DigitRun(s: string, i: nat): (n: nat)
    requires i <= |s|
    ensures i + n <= |s|
    ensures forall k :: i <= k < i + n ==> IsDigit(s[k])
    ensures i + n == |s| || !IsDigit(s[i + n])
    decreases |s| - i
  {
    if i < |s| && IsDigit(s[i]) then 1 + DigitRun(s, i + 1) else 0
  }

  /** A run of spaces from `i` is no longer than the longest one, and a
      non-space at `i + n` bounds the longest one by `n`. */
  lemma {:induction false} SpaceRunBounds(s: string, i: nat, n: nat)
    requires i + n <= |s|
    ensures (forall k :: i <= k < i + n ==> IsSpace(s[k])) ==> n <= SpaceRun(s, i)
    ensures i + n < |s| && !IsSpace(s[i + n]) ==> SpaceRun(s, i) <= n
    decreases n
  {
    if n > 0 && i < |s| && IsSpace(s[i]) {
      SpaceRunBounds(s, i + 1, n - 1);
    }
  }

  /** A run of digits from `i` is no longer than the longest one. */
  lemma {:induction false} DigitRunBound(s: string, i: nat, n: nat)
    requires i + n <= |s|
    requires forall k :: i <= k < i + n ==> IsDigit(s[k])
    ensures n <= DigitRun(s, i)
    decreases n
  {
    if n > 0 {
      DigitRunBound(s, i + 1, n - 1);
    }
  }

  /** Length of the longest run of spaces ending just before `j`. */
  function SpaceRunBefore(s: string, j: nat): (n: nat)
    requires j <= |s|
    ensures n <= j
    ensures forall k :: j - n <= k < j ==> IsSpace(s[k])
    ensures n == j || !IsSpace(s[j - n - 1])
  {
    if j > 0 && IsSpace(s[j - 1]) then 1 + SpaceRunBefore(s, j - 1) else 0
  }

  /** A run of spaces ending before `j` is no longer than the longest one,
      and a non-space just before the last `n` characters bounds the longest
      one by `n`. */
  lemma {:induction false} SpaceRunBeforeBounds(s: string, j: nat, n: nat)
    requires n <= j <= |s|
    ensures (forall k :: j - n <= k < j ==> IsSpace(s[k])) ==> n <= SpaceRunBefore(s, j)
    ensures n < j && !IsSpace(s[j - n - 1]) ==> SpaceRunBefore(s, j) <= n
    decreases n
  {
    if n > 0 && IsSpace(s[j - 1]) {
      SpaceRunBeforeBounds(s, j - 1, n - 1);
    }
  }

  /** `String.prototype.trim`: `s` without its leading and trailing spaces. */
  function Trim(s: string): (r: string)
    ensures |r| <= |s|
    ensures r == [] <==> AllSpace(s)
    ensures r == [] || (!IsSpace(r[0]) && !IsSpace(r[|r| - 1]))
  {
    var i := SpaceRun(s, 0);
    var j := |s| - SpaceRunBefore(s, |s|);
    if i < j then s[i..j] else []
  }

  /** Trimming undoes padding: whatever spaces surround a string that neither
      starts nor ends with a space, `Trim` recovers that string. */
  lemma TrimPadded(lead: string, t: string, trail: string)
    requires AllSpace(lead) && AllSpace(trail)
    requires t == [] || (!IsSpace(t[0]) && !IsSpace(t[|t| - 1]))
    ensures Trim(lead + t + trail) == t
  {
    var s := lead + t + trail;
    if t != [] {
      SpaceRunBounds(s, 0, |lead|);
      SpaceRunBeforeBounds(s, |s|, |trail|);
      assert s[|lead|..|lead| + |t|] == t;
    } else {
      assert AllSpace(s);
    }
  }
}
