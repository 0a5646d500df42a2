/** The parts of Python 2's built-in behaviour that the modelled code relies on:
    `str.strip` and `unicode.strip`, `int(str)`, `int(float)`, `str.replace` for one character,
    `":" in s`, tuple unpacking of `s.split(":")`, and the arithmetic mean.
    Exceptions that the modelled code can raise are values of `PyError`. */
module Builtins {

  datatype Option<T> = None | Some(value: T)

  /** The Python exceptions the modelled code can raise. */
  datatype PyError = ValueError | ZeroDivisionError | AttributeError | FileNotFoundError

  /** Either the call returned normally or it raised. */
  datatype Outcome = Completed | Raised(error: PyError)

  datatype Result<T> = Ok(value: T) | Err(error: PyError)

  // ---------------------------------------------------------------------------
  // Whitespace, str.strip() and unicode.strip()

  /** The characters Python 2's `str.strip()` and `int()` treat as whitespace. */
  predicate IsSpace(c: char) {
    c == ' ' || c == '\t' || c == '\n' || c == '\r' || c == '\U{0B}' || c == '\U{0C}'
  }

  predicate AllSpaces(s: string) {
    forall i :: 0 <= i < |s| ==> IsSpace(s[i])
  }

  /** Number of whitespace characters at the front of `s`. */
  function LeadingSpaces(s: string): (n: nat)
    ensures n <= |s|
    ensures forall i :: 0 <= i < n ==> IsSpace(s[i])
    ensures n < |s| ==> !IsSpace(s[n])
  {
    if s == [] || !IsSpace(s[0]) then 0 else 1 + LeadingSpaces(s[1..])
  }

  /** Number of whitespace characters at the end of `s`. */
  function TrailingSpaces(s: string): (n: nat)
    ensures n <= |s|
    ensures forall i :: |s| - n <= i < |s| ==> IsSpace(s[i])
    ensures n < |s| ==> !IsSpace(s[|s| - 1 - n])
  {
    if s == [] || !IsSpace(s[|s| - 1]) then 0 else 1 + TrailingSpaces(s[..|s| - 1])
  }

  /** `s.strip()`: the longest infix of `s` that neither starts nor ends with
      whitespace, obtained by removing whitespace from both ends only. */
  function Strip(s: string): (r: string)
    ensures LeadingSpaces(s) + |r| <= |s|
    ensures r == s[LeadingSpaces(s)..LeadingSpaces(s) + |r|]
    ensures AllSpaces(s[..LeadingSpaces(s)]) && AllSpaces(s[LeadingSpaces(s) + |r|..])
    ensures r != [] ==> !IsSpace(r[0]) && !IsSpace(r[|r| - 1])
    ensures r == [] <==> AllSpaces(s)
  {
    var t := s[LeadingSpaces(s)..];
    t[..|t| - TrailingSpaces(t)]
  }

  /** The characters Python 2's `unicode.strip()` removes: the ASCII
      whitespace above, the separators U+001C..U+001F, and the Unicode
      spaces and line and paragraph separators of its character database. */
  predicate IsUnicodeSpace(c: char) {
    IsSpace(c) || '\U{1C}' <= c <= '\U{1F}' || c == '\U{85}' || c == '\U{A0}' || c == '\U{1680}' ||
    c == '\U{180E}' || '\U{2000}' <= c <= '\U{200A}' || c == '\U{2028}' || c == '\U{2029}' ||
    c == '\U{202F}' || c == '\U{205F}' || c == '\U{3000}'
  }

  predicate AllUnicodeSpaces(s: string) {
    forall i :: 0 <= i < |s| ==> IsUnicodeSpace(s[i])
  }

  /** `s.strip()` on a `unicode` text: whitespace in the sense of
      `IsUnicodeSpace` is removed from both ends only. */
  function UnicodeStrip(s: string): (r: string)
    ensures |r| <= |s|
    ensures r == [] <==> AllUnicodeSpaces(s)
    ensures r != [] ==> !IsUnicodeSpace(r[0]) && !IsUnicodeSpace(r[|r| - 1])
    ensures s != [] && !IsUnicodeSpace(s[0]) && !IsUnicodeSpace(s[|s| - 1]) ==> r == s
    decreases |s|
  {
    if s != [] && IsUnicodeSpace(s[0]) then
      assert s == [s[0]] + s[1..];
      UnicodeStrip(s[1..])
    else if s != [] && IsUnicodeSpace(s[|s| - 1]) then
      assert s == s[..|s| - 1] + [s[|s| - 1]];
      UnicodeStrip(s[..|s| - 1])
    else s
  }

  /** Stripping a string that has no whitespace at either end changes nothing. */
  lemma StripNoEdgeSpaces(s: string)
    requires s != [] ==> !IsSpace(s[0]) && !IsSpace(s[|s| - 1])
    ensures Strip(s) == s
  {
  }

  // ---------------------------------------------------------------------------
  // Decimal digits, int(str) and its inverse str(n)

  predicate IsDigit(c: char) { '0' <= c <= '9' }

  /** Every character is an ASCII digit (true of the empty string). */
  predicate AllDigits(s: string) {
    forall i :: 0 <= i < |s| ==> IsDigit(s[i])
  }

  function DigitValue(c: char): (d: nat)
    requires IsDigit(c)
    ensures d < 10
  {
    (c as int - '0' as int) as nat
  }

  function DigitChar(d: nat): (c: char)
    requires d < 10
    ensures IsDigit(c) && DigitValue(c) == d
  {
    (d + '0' as int) as char
  }

  /** The number a string of decimal digits denotes (0 for the empty string). */
  function DigitsValue(s: string): nat
    requires AllDigits(s)
  {
    if s == [] then 0 else 10 * DigitsValue(s[..|s| - 1]) + DigitValue(s[|s| - 1])
  }

  /** `str(n)` for a natural number: its decimal digits, without leading zeros. */
  function Decimal(n: nat): (s: string)
    ensures s != [] && AllDigits(s)
    ensures |s| > 1 ==> s[0] != '0'
  {
    if n < 10 then [DigitChar(n)] else Decimal(n / 10) + [DigitChar(n % 10)]
  }

  /** Reading back what `Decimal` writes gives the number again. */
  lemma {:induction false} DecimalRoundTrip(n: nat)
    ensures DigitsValue(Decimal(n)) == n
  {
    if n >= 10 {
      DecimalRoundTrip(n / 10);
      var s := Decimal(n);
      assert s[..|s| - 1] == Decimal(n / 10);
    }
  }

  function Pow10(w: nat): (p: nat)
    ensures p >= 1
  {
    if w == 0 then 1 else 10 * Pow10(w - 1)
  }

  /** A number below 10^w has at most w decimal digits. */
  lemma {:induction false} DecimalLength(n: nat, w: nat)
    requires n < Pow10(w)
    ensures |Decimal(n)| <= if w == 0 then 1 else w
  {
    if n >= 10 {
      assert w >= 2;
      DecimalLength(n / 10, w - 1);
    }
  }

  /** Leading zeros do not change the value of a digit string. */
  lemma {:induction false} LeadingZerosValue(z: nat, s: string)
    requires AllDigits(s)
    ensures AllDigits(seq(z, _ => '0') + s)
    ensures DigitsValue(seq(z, _ => '0') + s) == DigitsValue(s)
    decreases |s|
  {
    var zs: string := seq(z, _ => '0');
    if s == [] {
      assert zs + s == zs;
      ZerosValue(z);
    } else {
      var t := zs + s;
      assert t[..|t| - 1] == zs + s[..|s| - 1];
      LeadingZerosValue(z, s[..|s| - 1]);
    }
  }

  lemma {:induction false} ZerosValue(z: nat)
    ensures AllDigits(seq(z, _ => '0'))
    ensures DigitsValue(seq(z, _ => '0')) == 0
  {
    if z > 0 {
      var zs: string := seq(z, _ => '0');
      assert zs[..z - 1] == seq(z - 1, _ => '0');
      ZerosValue(z - 1);
    }
  }

  /** `int(s)` on a Python 2 `str`: surrounding whitespace is ignored, then
      one optional sign, whitespace again after a sign (`PyOS_strtol` takes
      the sign and `PyOS_strtoul` skips blanks once more), then one or more
      decimal digits; anything else raises `ValueError` (modelled as `None`). */
  function PyInt(s: string): (r: Option<int>)
    ensures r.Some? ==> Strip(s) != [] && IsDigit(Strip(s)[|Strip(s)| - 1])
    ensures r.Some? && r.value < 0 ==> Strip(s)[0] == '-'
  {
    SignedNumeral(Strip(s))
  }

  /** The number a stripped text denotes for `int()`: an optional sign,
      blanks after a sign, then decimal digits. */
  function SignedNumeral(t: string): (r: Option<int>)
    ensures r.Some? ==> t != [] && IsDigit(t[|t| - 1])
    ensures r.Some? && r.value < 0 ==> t[0] == '-'
  {
    if t != [] && (t[0] == '+' || t[0] == '-') then
      var rest := t[1..];
      var body := rest[LeadingSpaces(rest)..];
      if body != [] && AllDigits(body) then
        Some(if t[0] == '-' then -(DigitsValue(body) as int) else DigitsValue(body))
      else None
    else if t != [] && AllDigits(t) then Some(DigitsValue(t))
    else None
  }

  /** The stripped texts `int()` accepts, stated without `LeadingSpaces`:
      one or more digits, or a sign, then blanks, then one or more digits. */
  predicate IsNumeral(t: string) {
    (t != [] && AllDigits(t)) ||
    (t != [] && (t[0] == '+' || t[0] == '-') &&
     exists k :: 1 <= k < |t| && AllSpaces(t[1..k]) && AllDigits(t[k..]))
  }

  /** `SignedNumeral` succeeds on exactly the numerals: "1 2", "1a1", "+",
      "" and "+ " are rejected, "007" and "- 5" accepted. */
  lemma NumeralGrammar(t: string)
    ensures SignedNumeral(t).Some? <==> IsNumeral(t)
  {
    if t != [] && (t[0] == '+' || t[0] == '-') {
      var rest := t[1..];
      var m := LeadingSpaces(rest);
      var body := rest[m..];
      assert !AllDigits(t) by { assert !IsDigit(t[0]); }
      if body != [] && AllDigits(body) {
        var k := 1 + m;
        assert t[1..k] == rest[..m];
        assert t[k..] == body;
        assert AllSpaces(t[1..k]);
      }
      if IsNumeral(t) {
        var k :| 1 <= k < |t| && AllSpaces(t[1..k]) && AllDigits(t[k..]);
        assert !IsSpace(t[k..][0]);
        assert rest == t[1..k] + t[k..];
        LeadingSpacesOf(t[1..k], t[k..]);
        assert body == t[k..];
      }
    }
  }

  /** `int(s)` succeeds exactly when the stripped text is a numeral. */
  lemma PyIntGrammar(s: string)
    ensures PyInt(s).Some? <==> IsNumeral(Strip(s))
  {
    NumeralGrammar(Strip(s));
  }

  /** `int(s)` of a non-empty string of digits, as the forms' number fields
      hold it: it never raises and reads the digits in base 10. */
  function IntOf(s: string): (n: int)
    requires s != [] && AllDigits(s)
    ensures n >= 0
  {
    DigitsValue(s)
  }

  /** `IntOf` is what `int()` reads: the digits in base 10, never raising. */
  lemma IntOfAgrees(s: string)
    requires s != [] && AllDigits(s)
    ensures PyInt(s) == Some(IntOf(s))
  {
    assert !IsSpace(s[0]) && !IsSpace(s[|s| - 1]);
    StripNoEdgeSpaces(s);
  }

  /** `int(str(n)) == n`, and surrounding whitespace does not matter. */
  lemma PyIntDecimal(n: nat, pre: string, post: string)
    requires AllSpaces(pre) && AllSpaces(post)
    ensures PyInt(pre + Decimal(n) + post) == Some(n)
  {
    var d := Decimal(n);
    assert IsDigit(d[0]) && IsDigit(d[|d| - 1]);
    StripAround(pre, d, post);
    DecimalRoundTrip(n);
    assert d[0] != '+' && d[0] != '-';
  }

  /** `int(str(n)) == n` with no padding. */
  lemma PyIntOfDecimal(n: nat)
    ensures PyInt(Decimal(n)) == Some(n)
  {
    PyIntDecimal(n, [], []);
    assert [] + Decimal(n) + [] == Decimal(n);
  }

  /** `int()` of a signed decimal: whitespace may surround the text and
      separate the sign from the digits. */
  lemma PyIntSignedDecimal(n: nat, pre: string, sign: char, gap: string, post: string)
    requires sign == '+' || sign == '-'
    requires AllSpaces(pre) && AllSpaces(gap) && AllSpaces(post)
    ensures PyInt(pre + ([sign] + gap + Decimal(n)) + post) == Some(if sign == '-' then -(n as int) else n)
  {
    SignedEdges(sign, gap, n);
    StripAround(pre, [sign] + gap + Decimal(n), post);
    SignedNumeralOf(sign, gap, n);
  }

  lemma SignedEdges(sign: char, gap: string, n: nat)
    requires sign == '+' || sign == '-'
    ensures var t := [sign] + gap + Decimal(n);
      t != [] && !IsSpace(t[0]) && !IsSpace(t[|t| - 1])
  {
    var d := Decimal(n);
    assert IsDigit(d[|d| - 1]);
    assert ([sign] + gap + d)[|[sign] + gap + d| - 1] == d[|d| - 1];
  }

  /** A sign, blanks and a decimal denote the signed number. */
  lemma SignedNumeralOf(sign: char, gap: string, n: nat)
    requires sign == '+' || sign == '-'
    requires AllSpaces(gap)
    ensures SignedNumeral([sign] + gap + Decimal(n)) == Some(if sign == '-' then -(n as int) else n)
  {
    var d := Decimal(n);
    var t := [sign] + gap + d;
    assert IsDigit(d[0]);
    assert t[1..] == gap + d;
    LeadingSpacesOf(gap, d);
    assert (gap + d)[|gap|..] == d;
    DecimalRoundTrip(n);
  }

  /** Stripping whitespace around a body that neither starts nor ends with
      whitespace gives the body. */
  lemma StripAround(pre: string, body: string, post: string)
    requires AllSpaces(pre) && AllSpaces(post)
    requires body != [] && !IsSpace(body[0]) && !IsSpace(body[|body| - 1])
    ensures Strip(pre + body + post) == body
  {
    var s := pre + body + post;
    assert LeadingSpaces(s) == |pre| by {
      LeadingSpacesOf(pre, body + post);
      assert s == pre + (body + post);
    }
    assert s[|pre|..] == body + post;
    TrailingSpacesOf(body, post);
  }

  lemma {:induction false} LeadingSpacesOf(pre: string, rest: string)
    requires AllSpaces(pre) && rest != [] && !IsSpace(rest[0])
    ensures LeadingSpaces(pre + rest) == |pre|
    decreases |pre|
  {
    if pre != [] {
      assert (pre + rest)[1..] == pre[1..] + rest;
      LeadingSpacesOf(pre[1..], rest);
    }
  }

  lemma {:induction false} TrailingSpacesOf(body: string, post: string)
    requires AllSpaces(post) && body != [] && !IsSpace(body[|body| - 1])
    ensures TrailingSpaces(body + post) == |post|
    decreases |post|
  {
    if post != [] {
      var s := body + post;
      assert s[..|s| - 1] == body + post[..|post| - 1];
      TrailingSpacesOf(body, post[..|post| - 1]);
    }
  }

  // ---------------------------------------------------------------------------
  // Characters in strings

  function CountChar(s: string, c: char): (n: nat)
    ensures n <= |s|
    ensures n == 0 <==> c !in s
  {
    if s == [] then 0 else (if s[0] == c then 1 else 0) + CountChar(s[1..], c)
  }

  /** Position of the first occurrence of `c` in `s`. */
  function IndexOf(s: string, c: char): (i: nat)
    requires c in s
    ensures i < |s| && s[i] == c && c !in s[..i]
  {
    if s[0] == c then 0 else 1 + IndexOf(s[1..], c)
  }

  /** The first `c` of `a + [c] + b` is the one after `a` when `a` has none. */
  lemma {:induction false} IndexOfAfter(a: string, c: char, b: string)
    requires c !in a
    ensures c in a + [c] + b && IndexOf(a + [c] + b, c) == |a|
    decreases |a|
  {
    var s := a + [c] + b;
    assert s[|a|] == c;
    if a != [] {
      assert s[1..] == a[1..] + [c] + b;
      IndexOfAfter(a[1..], c, b);
    }
  }

  /** A string with exactly one `c` is what comes before it, `c`, and what
      comes after it, neither part containing `c`. */
  lemma {:induction false} SingleOccurrence(s: string, c: char)
    requires CountChar(s, c) == 1
    ensures s == s[..IndexOf(s, c)] + [c] + s[IndexOf(s, c) + 1..]
    ensures c !in s[IndexOf(s, c) + 1..]
  {
    var i := IndexOf(s, c);
    if s[0] != c {
      SingleOccurrence(s[1..], c);
      var j := IndexOf(s[1..], c);
      assert i == j + 1;
      assert s[..i] == [s[0]] + s[1..][..j];
      assert s[i + 1..] == s[1..][j + 1..];
    } else {
      assert CountChar(s[1..], c) == 0;
      assert s[..i] == [];
    }
  }

  /** `s.replace(a, b)` for single characters: every `a` becomes `b`. */
  function ReplaceChar(s: string, a: char, b: char): (r: string)
    ensures |r| == |s|
    ensures forall i :: 0 <= i < |s| ==> r[i] == if s[i] == a then b else s[i]
    ensures a != b ==> a !in r
  {
    if s == [] then [] else [if s[0] == a then b else s[0]] + ReplaceChar(s[1..], a, b)
  }

  // ---------------------------------------------------------------------------
  // Numbers

  /** `int(x)` for a float: truncation toward zero. */
  function Trunc(x: real): (n: int)
    ensures x >= 0.0 ==> n >= 0 && n as real <= x < n as real + 1.0
    ensures x < 0.0 ==> n <= 0 && n as real - 1.0 < x <= n as real
  {
    if x >= 0.0 then x.Floor else -((-x).Floor)
  }

  function Sum(s: seq<real>): real {
    if s == [] then 0.0 else Sum(s[..|s| - 1]) + s[|s| - 1]
  }

  /** `np.average(s)` of a non-empty list. */
  function Mean(s: seq<real>): (m: real)
    requires s != []
  {
    Sum(s) / |s| as real
  }

  /** The mean of a list whose elements all lie strictly between `lo` and
      `hi` lies strictly between them too. */
  lemma MeanBounds(s: seq<real>, lo: real, hi: real)
    requires s != []
    requires forall i :: 0 <= i < |s| ==> lo < s[i] < hi
    ensures lo < Mean(s) < hi
  {
    SumBounds(s, lo, hi);
  }

  lemma {:induction false} SumBounds(s: seq<real>, lo: real, hi: real)
    requires s != []
    requires forall i :: 0 <= i < |s| ==> lo < s[i] < hi
    ensures |s| as real * lo < Sum(s) < |s| as real * hi
    decreases |s|
  {
    var n := |s| as real;
    var p := s[..|s| - 1];
    assert Sum(s) == Sum(p) + s[|s| - 1];
    if |s| > 1 {
      SumBounds(p, lo, hi);
      assert (n - 1.0) * lo + lo == n * lo;
      assert (n - 1.0) * hi + hi == n * hi;
    } else {
      assert Sum(p) == 0.0;
    }
  }
}
