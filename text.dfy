/** Character classes and numerals as the source's regular expressions and JavaScript's
    `parseInt` see them: `\d` is `[0-9]`, `\w` is `[A-Za-z0-9_]` (no `u` flag), and
    `parseInt(s)` with no radix reads an optional sign and the longest prefix of digits. */
module Text {
  import opened Wrappers

  predicate IsDigit(c: char) {
    '0' <= c <= '9'
  }

  predicate IsWordChar(c: char) {
    'a' <= c <= 'z' || 'A' <= c <= 'Z' || IsDigit(c) || c == '_'
  }

  predicate IsHexDigit(c: char) {
    IsDigit(c) || 'a' <= c <= 'f' || 'A' <= c <= 'F'
  }

  /** ECMAScript's StrWhiteSpaceChar: WhiteSpace (including every Unicode `Zs` space)
      and LineTerminator; `parseInt` skips these before the number. */
  predicate IsJsWhitespace(c: char) {
    c == '\t' || c == '\n' || c == '\U{B}' || c == '\U{C}' || c == '\r' || c == ' '
    || c == '\U{A0}' || c == '\U{1680}' || '\U{2000}' <= c <= '\U{200A}'
    || c == '\U{2028}' || c == '\U{2029}' || c == '\U{202F}' || c == '\U{205F}'
    || c == '\U{3000}' || c == '\U{FEFF}'
  }

  /** Every character of `s` satisfies `p`. */
  predicate All(s: string, p: char -> bool) {
    forall k :: 0 <= k < |s| ==> p(s[k])
  }

  /** What `\d+` can match: a non-empty run of decimal digits. */
  predicate IsDigits(s: string) {
    |s| > 0 && All(s, IsDigit)
  }

  /** What `\w+` can match: a non-empty run of word characters. */
  predicate IsWord(s: string) {
    |s| > 0 && All(s, IsWordChar)
  }

  /** Length of the longest run of `p`-characters starting at index `i`: what a greedy
      `[p]*` consumes there. */
  function Span(s: string, i: nat, p: char -> bool): (n: nat)
    requires i <= |s|
    ensures i + n <= |s|
    ensures forall k :: i <= k < i + n ==> p(s[k])
    ensures i + n == |s| || !p(s[i + n])
    decreases |s| - i
  {
    if i == |s| || !p(s[i]) then 0 else 1 + Span(s, i + 1, p)
  }

  /** The run of `p`-characters starting at `i` is exactly `n` long whenever it is
      followed by the end of `s` or by a character outside `p`. */
  lemma SpanExact(s: string, i: nat, n: nat, p: char -> bool)
    requires i + n <= |s|
    requires forall k :: i <= k < i + n ==> p(s[k])
    requires i + n == |s| || !p(s[i + n])
    ensures Span(s, i, p) == n
  {
  }

  /** Length of the longest run of `p`-characters ending just before index `j`: what a
      greedy `[p]+$` can match at the end of `s[..j]`. */
  function SpanBack(s: string, j: nat, p: char -> bool): (n: nat)
    requires j <= |s|
    ensures n <= j
    ensures forall k :: j - n <= k < j ==> p(s[k])
    ensures n == j || !p(s[j - n - 1])
  {
    if j == 0 || !p(s[j - 1]) then 0 else 1 + SpanBack(s, j - 1, p)
  }

  /** The run of `p`-characters ending before `j` is exactly `n` long whenever it is
      preceded by the start of `s` or by a character outside `p`. */
  lemma SpanBackExact(s: string, j: nat, n: nat, p: char -> bool)
    requires n <= j <= |s|
    requires forall k :: j - n <= k < j ==> p(s[k])
    requires n == j || !p(s[j - n - 1])
    ensures SpanBack(s, j, p) == n
  {
  }

  /** Value of one digit character in base 16 (and so in base 10 for `0`-`9`). */
  function DigitValue(c: char): (v: nat)
    requires IsHexDigit(c)
    ensures v < 16
    ensures IsDigit(c) <==> v < 10
  {
    if IsDigit(c) then c as int - '0' as int
    else if 'a' <= c <= 'f' then c as int - 'a' as int + 10
    else c as int - 'A' as int + 10
  }

  /** The number a string of digits denotes in `base`, most significant digit first. */
  function NumeralValue(ds: string, base: nat): nat
    requires All(ds, IsHexDigit)
  {
    if ds == [] then 0
    else NumeralValue(ds[..|ds| - 1], base) * base + DigitValue(ds[|ds| - 1])
  }

  /** The number a string of decimal digits denotes (leading zeros allowed). */
  function DecimalValue(ds: string): nat
    requires All(ds, IsDigit)
  {
    NumeralValue(ds, 10)
  }

  /** JavaScript's `parseInt(s)` with no radix, `NaN` being `None`: skip leading white
      space, read an optional `+`/`-`, switch to base 16 after a `0x`/`0X` prefix, and
      convert the longest prefix of digits that follows; no digit at all gives `NaN`. */
  function ParseInt(s: string): Option<int>
  {
    var i := Span(s, 0, IsJsWhitespace);
    var signed := i < |s| && (s[i] == '-' || s[i] == '+');
    var negative := signed && s[i] == '-';
    var j := if signed then i + 1 else i;
    var hex := j + 1 < |s| && s[j] == '0' && (s[j + 1] == 'x' || s[j + 1] == 'X');
    var k := if hex then j + 2 else j;
    var n := Span(s, k, if hex then IsHexDigit else IsDigit);
    if n == 0 then None
    else
      var v: int := NumeralValue(s[k..k + n], if hex then 16 else 10);
      Some(if negative then -v else v)
  }

  /** `parseInt` of a decimal numeral followed by anything that is neither a digit nor
      the `x` of a hexadecimal prefix yields the numeral's value. */
  lemma ParseIntDecimal(ds: string, tail: string)
    requires IsDigits(ds)
    requires tail == [] || (!IsDigit(tail[0]) && tail[0] != 'x' && tail[0] != 'X')
    ensures ParseInt(ds + tail) == Some(DecimalValue(ds))
  {
    var s := ds + tail;
    assert !IsJsWhitespace(s[0]);
    SpanExact(s, 0, 0, IsJsWhitespace);
    assert !(s[0] == '-' || s[0] == '+');
    assert !(1 < |s| && s[0] == '0' && (s[1] == 'x' || s[1] == 'X')) by {
      if |ds| > 1 { assert IsDigit(s[1]); } else if tail != [] { assert s[1] == tail[0]; }
    }
    forall k | 0 <= k < |ds| ensures IsDigit(s[k]) {
      assert s[k] == ds[k];
    }
    if tail != [] {
      assert s[|ds|] == tail[0];
    }
    SpanExact(s, 0, |ds|, IsDigit);
    assert s[0..|ds|] == ds;
  }

  /** Where `parseInt` expects the first digit: after the leading white space and an
      optional sign. */
  function DigitsStart(s: string): (j: nat)
    ensures j <= |s|
  {
    var i := Span(s, 0, IsJsWhitespace);
    if i < |s| && (s[i] == '-' || s[i] == '+') then i + 1 else i
  }

  /** `parseInt` is `NaN` when no digit follows the white space and sign: the empty
      string, plain text, a lone sign. */
  lemma ParseIntNoDigit(s: string)
    requires DigitsStart(s) == |s| || !IsDigit(s[DigitsStart(s)])
    ensures ParseInt(s) == None
  {
  }

  /** A `0x` prefix not followed by a hexadecimal digit is `NaN` as well. */
  lemma ParseIntBareHexPrefix(s: string)
    requires DigitsStart(s) + 2 <= |s|
    requires s[DigitsStart(s)] == '0' && (s[DigitsStart(s) + 1] == 'x' || s[DigitsStart(s) + 1] == 'X')
    requires DigitsStart(s) + 2 == |s| || !IsHexDigit(s[DigitsStart(s) + 2])
    ensures ParseInt(s) == None
  {
  }

  /** The decimal numeral of `n`, as a JavaScript template literal renders an integer. */
  function NatToString(n: nat): (s: string)
    ensures IsDigits(s)
    ensures DecimalValue(s) == n
    ensures s[0] == '0' ==> s == "0"
  {
    var digit := ('0' as int + n % 10) as char;
    var last := [digit];
    assert IsDigit(digit) && DigitValue(digit) == n % 10;
    assert last[..0] == [];
    assert NumeralValue(last, 10) == NumeralValue([], 10) * 10 + DigitValue(digit);
    if n < 10 then last
    else
      var prefix := NatToString(n / 10);
      var s := prefix + last;
      assert s[..|s| - 1] == prefix;
      s
  }

  /** Decimal rendering of an integer, with a leading `-` when negative. */
  function IntToString(i: int): string
  {
    if i < 0 then "-" + NatToString(-i) else NatToString(i)
  }
}
