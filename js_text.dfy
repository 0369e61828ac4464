/**
 * The JavaScript string primitives the task board relies on: the regular
 * expression classes `\s` and `\w`, `toLowerCase`, `trim`, the two regular
 * expression replacements both column-id functions share, and `String(n)` for
 * integers. Characters are Unicode scalar values; every string function here
 * works character by character, as the JavaScript ones do for the characters
 * the board uses.
 */
module JsText {

  /** A character of the class `\s`: WhiteSpace and LineTerminator, which is also
      exactly the set `String.prototype.trim` removes. */
  predicate IsJsSpace(c: char) {
    var n := c as int;
    (0x09 <= n <= 0x0D) || n == 0x20 || n == 0xA0 || n == 0x1680
    || (0x2000 <= n <= 0x200A) || n == 0x2028 || n == 0x2029
    || n == 0x202F || n == 0x205F || n == 0x3000 || n == 0xFEFF
  }

  predicate IsAsciiUpper(c: char) { 'A' <= c <= 'Z' }

  predicate IsAsciiLower(c: char) { 'a' <= c <= 'z' }

  predicate IsDigit(c: char) { '0' <= c <= '9' }

  /** A character of the class `\w`, which is ASCII-only in JavaScript. */
  predicate IsWordChar(c: char) {
    IsAsciiUpper(c) || IsAsciiLower(c) || IsDigit(c) || c == '_'
  }

  /** The upper-case letters whose lower-case form the model knows: Basic Latin,
      Latin-1 and the Cyrillic block U+0400..U+042F. */
  predicate IsCasedUpper(c: char) {
    var n := c as int;
    IsAsciiUpper(c) || (0xC0 <= n <= 0xDE && n != 0xD7) || (0x400 <= n <= 0x42F)
  }

  predicate NoAsciiUpper(s: string) {
    forall i :: 0 <= i < |s| ==> !IsAsciiUpper(s[i])
  }

  predicate IsBlank(s: string) {
    forall i :: 0 <= i < |s| ==> IsJsSpace(s[i])
  }

  predicate NoJsSpace(s: string) {
    forall i :: 0 <= i < |s| ==> !IsJsSpace(s[i])
  }

  /** Every character is in `[A-Za-z0-9_-]`. */
  predicate AllWordOrDash(s: string) {
    forall i :: 0 <= i < |s| ==> IsWordChar(s[i]) || s[i] == '-'
  }

  /** `toLowerCase` of one character. */
  function LowerChar(c: char): (l: char)
    ensures !IsCasedUpper(c) ==> l == c
    ensures IsCasedUpper(c) ==> !IsCasedUpper(l) && l as int > c as int
    ensures !IsAsciiUpper(l)
  {
    var n := c as int;
    if IsAsciiUpper(c) || (0xC0 <= n <= 0xDE && n != 0xD7) || (0x410 <= n <= 0x42F) then
      (n + 0x20) as char
    else if 0x400 <= n <= 0x40F then
      (n + 0x50) as char
    else
      c
  }

  /** `s.toLowerCase()`: no upper-case ASCII letter survives, and a string with no
      upper-case letter is returned unchanged. */
  function LowerCase(s: string): (r: string)
    ensures |r| == |s|
    ensures NoAsciiUpper(r)
    ensures (forall i :: 0 <= i < |s| ==> !IsCasedUpper(s[i])) ==> r == s
  {
    seq(|s|, i requires 0 <= i < |s| => LowerChar(s[i]))
  }

  /** The leading-whitespace half of `trim`: the first index at or after `i` that
      is not whitespace. */
  function TrimStartIndex(s: string, i: nat): (lo: nat)
    requires i <= |s|
    ensures i <= lo <= |s|
    ensures forall k :: i <= k < lo ==> IsJsSpace(s[k])
    ensures lo < |s| ==> !IsJsSpace(s[lo])
    decreases |s| - i
  {
    if i < |s| && IsJsSpace(s[i]) then TrimStartIndex(s, i + 1) else i
  }

  /** The trailing-whitespace half of `trim`: the end of `s[lo..j]` once its
      trailing whitespace is cut off. */
  function TrimEndIndex(s: string, lo: nat, j: nat): (hi: nat)
    requires lo <= j <= |s|
    ensures lo <= hi <= j
    ensures forall k :: hi <= k < j ==> IsJsSpace(s[k])
    ensures hi > lo ==> !IsJsSpace(s[hi - 1])
  {
    if j > lo && IsJsSpace(s[j - 1]) then TrimEndIndex(s, lo, j - 1) else j
  }

  /** `s.trim()`: the result is the run of `s` between its leading and trailing
      whitespace, so it is empty exactly when `s` is blank. */
  function Trim(s: string): (r: string)
    ensures r == [] <==> IsBlank(s)
    ensures r != [] ==> !IsJsSpace(r[0]) && !IsJsSpace(r[|r| - 1])
    ensures var i := TrimStartIndex(s, 0);
            && i + |r| <= |s| && r == s[i..i + |r|]
            && (forall k :: 0 <= k < i ==> IsJsSpace(s[k]))
            && (forall k :: i + |r| <= k < |s| ==> IsJsSpace(s[k]))
  {
    var lo := TrimStartIndex(s, 0);
    var hi := TrimEndIndex(s, lo, |s|);
    var r := s[lo..hi];
    assert hi == lo ==> IsBlank(s);
    assert |r| == hi - lo && r == s[lo..lo + |r|];
    assert r != [] ==> r[0] == s[lo] && r[|r| - 1] == s[hi - 1];
    r
  }

  /** `s.replace(/\s+/g, "-")`: a whitespace character followed by another is
      dropped and the last of a run becomes a dash, so every maximal run of
      whitespace becomes one dash. */
  function DashSpaces(s: string): string {
    if s == [] then []
    else if IsJsSpace(s[0]) then
      if |s| > 1 && IsJsSpace(s[1]) then DashSpaces(s[1..]) else "-" + DashSpaces(s[1..])
    else [s[0]] + DashSpaces(s[1..])
  }

  /** No whitespace survives `DashSpaces`, and it introduces no upper-case letter. */
  lemma {:induction false} DashSpacesFacts(s: string)
    ensures NoJsSpace(DashSpaces(s))
    ensures NoAsciiUpper(s) ==> NoAsciiUpper(DashSpaces(s))
  {
    if s != [] {
      DashSpacesFacts(s[1..]);
      assert NoAsciiUpper(s) ==> NoAsciiUpper(s[1..]);
    }
  }

  /** A string without whitespace is left unchanged. */
  lemma {:induction false} DashSpacesUnchanged(s: string)
    requires NoJsSpace(s)
    ensures DashSpaces(s) == s
  {
    if s != [] {
      DashSpacesUnchanged(s[1..]);
    }
  }

  /** A whole run of whitespace, of any length, becomes one dash. */
  lemma {:induction false} DashSpacesRun(s: string)
    requires s != [] && IsBlank(s)
    ensures DashSpaces(s) == "-"
  {
    if |s| > 1 {
      DashSpacesRun(s[1..]);
    }
  }

  /** Runs of whitespace never span the seam, so the two halves are dashed apart. */
  lemma {:induction false} DashSpacesAppend(a: string, b: string)
    requires a == [] || b == [] || !IsJsSpace(a[|a| - 1]) || !IsJsSpace(b[0])
    ensures DashSpaces(a + b) == DashSpaces(a) + DashSpaces(b)
  {
    if a == [] {
      assert a + b == b;
    } else {
      assert (a + b)[1..] == a[1..] + b;
      DashSpacesAppend(a[1..], b);
    }
  }

  /** `s.replace(/[^\w\-]/g, "")`: every character outside `[A-Za-z0-9_-]` is
      removed and the others are kept in order. */
  function StripNonWord(s: string): string {
    if s == [] then []
    else (if IsWordChar(s[0]) || s[0] == '-' then [s[0]] else []) + StripNonWord(s[1..])
  }

  /** Only word characters and dashes survive `StripNonWord`, and it introduces no
      upper-case letter. */
  lemma {:induction false} StripNonWordFacts(s: string)
    ensures AllWordOrDash(StripNonWord(s))
    ensures NoAsciiUpper(s) ==> NoAsciiUpper(StripNonWord(s))
  {
    if s != [] {
      StripNonWordFacts(s[1..]);
      assert NoAsciiUpper(s) ==> NoAsciiUpper(s[1..]);
    }
  }

  /** A string made of word characters and dashes only is left unchanged. */
  lemma {:induction false} StripNonWordUnchanged(s: string)
    requires AllWordOrDash(s)
    ensures StripNonWord(s) == s
  {
    if s != [] {
      StripNonWordUnchanged(s[1..]);
    }
  }

  /** A string with no character in `[A-Za-z0-9_-]` is removed entirely. */
  lemma {:induction false} StripNonWordDropsAll(s: string)
    requires forall i :: 0 <= i < |s| ==> !IsWordChar(s[i]) && s[i] != '-'
    ensures StripNonWord(s) == []
  {
    if s != [] {
      StripNonWordDropsAll(s[1..]);
    }
  }

  /** The removal works character by character. */
  lemma {:induction false} StripNonWordAppend(a: string, b: string)
    ensures StripNonWord(a + b) == StripNonWord(a) + StripNonWord(b)
  {
    if a == [] {
      assert a + b == b;
    } else {
      var head := if IsWordChar(a[0]) || a[0] == '-' then [a[0]] else [];
      calc {
        StripNonWord(a + b);
        { assert (a + b)[0] == a[0]; assert (a + b)[1..] == a[1..] + b; }
        head + StripNonWord(a[1..] + b);
        { StripNonWordAppend(a[1..], b); }
        head + (StripNonWord(a[1..]) + StripNonWord(b));
        head + StripNonWord(a[1..]) + StripNonWord(b);
      }
    }
  }

  function DigitChar(d: nat): (c: char)
    requires d < 10
    ensures IsDigit(c)
  {
    ('0' as int + d) as char
  }

  /** The decimal numeral JavaScript prints for a non-negative integer: digits
      only, and no leading zero. */
  function NatToDecimal(n: nat): (s: string)
    ensures |s| >= 1
    ensures forall i :: 0 <= i < |s| ==> IsDigit(s[i])
    ensures s[0] == '0' ==> n == 0
  {
    if n < 10 then [DigitChar(n)] else NatToDecimal(n / 10) + [DigitChar(n % 10)]
  }

  /** The value of a string of decimal digits, read most significant first. */
  function DecimalValue(s: string): nat
    requires forall i :: 0 <= i < |s| ==> IsDigit(s[i])
  {
    if s == [] then 0
    else
      assert IsDigit(s[|s| - 1]);
      DecimalValue(s[..|s| - 1]) * 10 + (s[|s| - 1] as int - '0' as int)
  }

  lemma {:induction false} DecimalRoundTrip(n: nat)
    ensures DecimalValue(NatToDecimal(n)) == n
  {
    if n >= 10 {
      var s := NatToDecimal(n);
      assert s[..|s| - 1] == NatToDecimal(n / 10);
      DecimalRoundTrip(n / 10);
    }
  }

  /** Distinct numbers print as distinct numerals. */
  lemma DecimalInjective(a: nat, b: nat)
    requires NatToDecimal(a) == NatToDecimal(b)
    ensures a == b
  {
    DecimalRoundTrip(a);
    DecimalRoundTrip(b);
  }

  /** `String(n)` for an integer `n`. */
  function IntToString(n: int): string {
    if n < 0 then "-" + NatToDecimal(-n) else NatToDecimal(n)
  }

  /** Distinct integers print as distinct strings, so stringified ids keep identity. */
  lemma IntToStringInjective(a: int, b: int)
    requires IntToString(a) == IntToString(b)
    ensures a == b
  {
    var s := IntToString(a);
    if a < 0 && b < 0 {
      assert NatToDecimal(-a) == s[1..] == NatToDecimal(-b);
      DecimalInjective(-a, -b);
    } else if a >= 0 && b >= 0 {
      DecimalInjective(a, b);
    }
  }
}
