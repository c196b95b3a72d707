/** The handful of Python `str` operations the decision core relies on:
    `strip()`, `lower()`, `upper()`, the substring test `sub in s`, and the
    fixed-point formatting `format(x, ".Nf")` used inside messages and reasons. */
module Strings {

  /** Python's `str.isspace()` for a single character: the characters that
      `str.strip()` with no argument removes. */
  predicate IsSpace(c: char)
  {
    c in Whitespace || ('\U{2000}' <= c <= '\U{200A}')
  }

  const Whitespace: set<char> :=
    {' ', '\t', '\n', '\r', '\U{0B}', '\U{0C}', '\U{1C}', '\U{1D}', '\U{1E}', '\U{1F}',
     '\U{85}', '\U{A0}', '\U{1680}', '\U{2028}', '\U{2029}', '\U{202F}', '\U{205F}', '\U{3000}'}

  ghost predicate AllSpace(s: string)
  {
    forall k :: 0 <= k < |s| ==> IsSpace(s[k])
  }

  /** The first index at or after `i` that is not whitespace (or `|s|`). */
  function SkipSpaces(s: string, i: nat): (n: nat)
    requires i <= |s|
    ensures i <= n <= |s|
    ensures forall k :: i <= k < n ==> IsSpace(s[k])
    ensures n < |s| ==> !IsSpace(s[n])
    decreases |s| - i
  {
    if i < |s| && IsSpace(s[i]) then SkipSpaces(s, i + 1) else i
  }

  /** The end of `s[lo..hi]` once trailing whitespace is dropped. */
  function SkipSpacesBack(s: string, lo: nat, hi: nat): (m: nat)
    requires lo <= hi <= |s|
    ensures lo <= m <= hi
    ensures forall k :: m <= k < hi ==> IsSpace(s[k])
    ensures lo < m ==> !IsSpace(s[m - 1])
    decreases hi
  {
    if lo < hi && IsSpace(s[hi - 1]) then SkipSpacesBack(s, lo, hi - 1) else hi
  }

  /** `s[i..j]` is what is left of `s` once the whitespace at both ends is
      removed: everything before `i` and from `j` on is whitespace, and
      `s[i..j]`, when not empty, starts and ends with a non-whitespace character. */
  ghost predicate StrippedAt(s: string, i: int, j: int)
  {
    0 <= i <= j <= |s|
    && (forall k :: 0 <= k < i ==> IsSpace(s[k]))
    && (forall k :: j <= k < |s| ==> IsSpace(s[k]))
    && (i < j ==> !IsSpace(s[i]) && !IsSpace(s[j - 1]))
  }

  /** Where the stripped part of `s` starts. */
  function StripStart(s: string): nat
    ensures StripStart(s) <= |s|
  {
    SkipSpaces(s, 0)
  }

  /** Where the stripped part of `s` ends. */
  function StripEnd(s: string): nat
    ensures StripStart(s) <= StripEnd(s) <= |s|
  {
    SkipSpacesBack(s, StripStart(s), |s|)
  }

  /** `s.strip()`: `s` with the whitespace removed at both ends. */
  function Strip(s: string): (r: string)
    ensures StrippedAt(s, StripStart(s), StripEnd(s))
    ensures r == s[StripStart(s)..StripEnd(s)]
  {
    s[StripStart(s)..StripEnd(s)]
  }

  /** A string with no whitespace at either end is its own strip. */
  lemma StripUnchanged(s: string)
    requires s == [] || (!IsSpace(s[0]) && !IsSpace(s[|s| - 1]))
    ensures Strip(s) == s
  {
    assert SkipSpaces(s, 0) == 0;
    assert SkipSpacesBack(s, 0, |s|) == |s|;
  }

  /** A response strips to the empty string exactly when it is all whitespace. */
  lemma StripEmptyIff(s: string)
    ensures Strip(s) == [] <==> AllSpace(s)
  {
    if Strip(s) == [] {
      assert StripStart(s) == StripEnd(s);
    }
  }

  /** Python's `str.lower()` on one character. ASCII capitals map to their
      small letters; the Kelvin sign is the one non-ASCII character whose
      lower case is an ASCII letter (`k`). */
  function LowerChar(c: char): char
  {
    if 'A' <= c <= 'Z' then (c as int + 32) as char
    else if c == '\U{212A}' then 'k'
    else c
  }

  /** Python's `str.upper()` on one character. ASCII small letters map to
      capitals; dotless i and long s are the non-ASCII characters whose upper
      case is a single ASCII letter (`I` and `S`). */
  function UpperChar(c: char): char
  {
    if 'a' <= c <= 'z' then (c as int - 32) as char
    else if c == '\U{131}' then 'I'
    else if c == '\U{17F}' then 'S'
    else c
  }

  /** `s.lower()`: ASCII capitals become their small letters, the Kelvin
      sign becomes `k`, and every other character is kept. */
  function Lower(s: string): (r: string)
    ensures |r| == |s|
  {
    seq(|s|, i requires 0 <= i < |s| => LowerChar(s[i]))
  }

  /** What `Lower` does to each character. */
  lemma LowerMapsCapitals(s: string)
    ensures forall k :: 0 <= k < |s| && 'A' <= s[k] <= 'Z' ==> Lower(s)[k] as int == s[k] as int + 32
    ensures forall k :: 0 <= k < |s| && s[k] == '\U{212A}' ==> Lower(s)[k] == 'k'
    ensures forall k :: 0 <= k < |s| && !('A' <= s[k] <= 'Z') && s[k] != '\U{212A}' ==> Lower(s)[k] == s[k]
  {
  }

  /** A string without capitals is its own lower case. */
  lemma LowerUnchanged(s: string)
    requires forall k :: 0 <= k < |s| ==> !('A' <= s[k] <= 'Z') && s[k] != '\U{212A}'
    ensures Lower(s) == s
  {
  }

  /** `s.upper()`: ASCII small letters become capitals, dotless i becomes
      `I`, long s becomes `S`, and every other character is kept. */
  function Upper(s: string): (r: string)
    ensures |r| == |s|
  {
    seq(|s|, i requires 0 <= i < |s| => UpperChar(s[i]))
  }

  /** What `Upper` does to each character. */
  lemma UpperMapsSmallLetters(s: string)
    ensures forall k :: 0 <= k < |s| && 'a' <= s[k] <= 'z' ==> Upper(s)[k] as int == s[k] as int - 32
    ensures forall k :: 0 <= k < |s| && s[k] == '\U{131}' ==> Upper(s)[k] == 'I'
    ensures forall k :: 0 <= k < |s| && s[k] == '\U{17F}' ==> Upper(s)[k] == 'S'
    ensures forall k :: 0 <= k < |s| && !('a' <= s[k] <= 'z') && s[k] != '\U{131}' && s[k] != '\U{17F}' ==> Upper(s)[k] == s[k]
  {
  }

  /** `sub` occurs in `s` starting at index `i`. */
  ghost predicate OccursAt(s: string, sub: string, i: int)
  {
    0 <= i <= |s| - |sub| && s[i..i + |sub|] == sub
  }

  /** Python's `sub in s`: `sub` occurs in `s` as a contiguous block
      (the empty string occurs in every string). */
  function Contains(s: string, sub: string): (b: bool)
    ensures b <==> exists i :: OccursAt(s, sub, i)
    decreases |s|
  {
    if |sub| > |s| then false
    else if s[..|sub|] == sub then assert OccursAt(s, sub, 0); true
    else
      var b := Contains(s[1..], sub);
      assert b ==> exists i :: OccursAt(s, sub, i) by {
        if b {
          var j :| OccursAt(s[1..], sub, j);
          assert s[j + 1..j + 1 + |sub|] == s[1..][j..j + |sub|];
          assert OccursAt(s, sub, j + 1);
        }
      }
      assert (exists i :: OccursAt(s, sub, i)) ==> b by {
        if i :| OccursAt(s, sub, i) {
          assert i != 0;
          assert s[1..][i - 1..i - 1 + |sub|] == s[i..i + |sub|];
          assert OccursAt(s[1..], sub, i - 1);
        }
      }
      b
  }

  /** An occurrence of a string brings along an occurrence of each of its prefixes. */
  lemma {:induction false} ContainsPrefix(s: string, sub: string, n: nat)
    requires n <= |sub| && Contains(s, sub)
    ensures Contains(s, sub[..n])
  {
    var i :| OccursAt(s, sub, i);
    assert s[i..i + n] == sub[..n];
    assert OccursAt(s, sub[..n], i);
  }

  ghost predicate AllDigits(s: string)
  {
    forall k :: 0 <= k < |s| ==> '0' <= s[k] <= '9'
  }

  function DigitChar(d: nat): (c: char)
    requires d < 10
    ensures '0' <= c <= '9'
  {
    "0123456789"[d]
  }

  /** The decimal numeral of `n`, as `str(n)` writes it. */
  function NatToString(n: nat): (r: string)
    ensures |r| >= 1 && AllDigits(r)
    decreases n
  {
    if n < 10 then [DigitChar(n)] else NatToString(n / 10) + [DigitChar(n % 10)]
  }

  function Pow10(k: nat): (p: nat)
    ensures p >= 1
  {
    if k == 0 then 1 else 10 * Pow10(k - 1)
  }

  /** A number below `10^k` has at most `k` digits. */
  lemma {:induction false} NumeralLength(n: nat, k: nat)
    requires k >= 1 && n < Pow10(k)
    ensures |NatToString(n)| <= k
  {
    if n >= 10 {
      assert Pow10(k) == 10 * Pow10(k - 1);
      assert n / 10 < Pow10(k - 1);
      NumeralLength(n / 10, k - 1);
    }
  }

  /** `s` padded on the left with `0` to at least `width` characters. */
  function PadZeros(s: string, width: nat): (r: string)
    ensures |r| == if |s| >= width then |s| else width
    ensures AllDigits(s) ==> AllDigits(r)
    decreases width - |s|
  {
    if |s| >= width then s else PadZeros(['0'] + s, width)
  }

  /** A magnitude counted in units of `10^-places`, rounded to the nearest
      unit with ties to the even unit, as Python's `format` rounds. */
  function RoundedUnits(magnitude: real, places: nat): nat
    requires magnitude >= 0.0
  {
    var scaled := magnitude * Pow10(places) as real;
    var whole := scaled.Floor;
    assert whole >= 0;
    var rest := scaled - whole as real;
    if rest > 0.5 || (rest == 0.5 && whole % 2 == 1) then whole + 1 else whole
  }

  /** The rounded count is a nearest unit, and on a tie the even one. */
  lemma RoundedUnitsNearest(magnitude: real, places: nat)
    requires magnitude >= 0.0
    ensures var scaled := magnitude * Pow10(places) as real;
            var units := RoundedUnits(magnitude, places) as real;
            scaled - 0.5 <= units <= scaled + 0.5
            && (units == scaled - 0.5 || units == scaled + 0.5 ==> RoundedUnits(magnitude, places) % 2 == 0)
  {
    var scaled := magnitude * Pow10(places) as real;
    var whole := scaled.Floor;
    assert whole as real <= scaled < whole as real + 1.0;
  }

  /** Exact ties go to the even neighbour: 12.5 is written "12" and 0.625 with
      two decimals "0.62". */
  lemma TiesToEven()
    ensures FormatFixed(12.5, 0) == "12"
    ensures FormatFixed(0.625, 2) == "0.62"
  {
    assert Pow10(0) == 1 && Pow10(2) == 100;
    assert RoundedUnits(12.5, 0) == 12;
    assert RoundedUnits(0.625, 2) == 62;
    assert NatToString(12) == "12";
    assert NatToString(62) == "62";
  }

  /** Euclidean division of a natural number by a positive one. */
  lemma DivModNatural(units: nat, scale: nat)
    requires scale >= 1
    ensures units / scale >= 0 && 0 <= units % scale < scale
  {
  }

  /** `units` units of `10^-places` written out: the whole part, then, when
      `places` is positive, a point and the fraction padded to `places` digits. */
  function FixedDigits(units: nat, places: nat): string
  {
    var scale := Pow10(places);
    DivModNatural(units, scale);
    NatToString(units / scale) + (if places == 0 then "" else "." + PadZeros(NatToString(units % scale), places))
  }

  /** `format(x, f".{places}f")`: `x` rounded to `places` decimals. */
  function FormatFixed(x: real, places: nat): string
  {
    if x < 0.0 then "-" + FixedDigits(RoundedUnits(-x, places), places)
    else FixedDigits(RoundedUnits(x, places), places)
  }

  /** The shape of written-out units: digits and, when `places` is
      positive, a point followed by exactly `places` digits. */
  lemma FixedDigitsShape(units: nat, places: nat)
    ensures var r := FixedDigits(units, places);
            r != [] && '0' <= r[0] <= '9'
            && (places == 0 ==> AllDigits(r))
            && (places > 0 ==> |r| >= places + 2 && r[|r| - places - 1] == '.' && AllDigits(r[|r| - places..]))
  {
    var scale := Pow10(places);
    DivModNatural(units, scale);
    var whole := NatToString(units / scale);
    if places > 0 {
      NumeralLength(units % scale, places);
      var fraction := PadZeros(NatToString(units % scale), places);
      var r := whole + ("." + fraction);
      assert FixedDigits(units, places) == r;
      assert r[|r| - places..] == fraction;
    }
  }

  /** The shape of a formatted number: a leading `-` exactly when `x` is
      negative, then digits and, when `places` is positive, a point followed
      by exactly `places` digits. */
  lemma FormatFixedShape(x: real, places: nat)
    ensures var r := FormatFixed(x, places);
            r != [] && (r[0] == '-' <==> x < 0.0)
            && (places == 0 ==> AllDigits(r[if x < 0.0 then 1 else 0..]))
            && (places > 0 ==> |r| >= places + 2 && r[|r| - places - 1] == '.' && AllDigits(r[|r| - places..]))
  {
    var units := RoundedUnits(if x < 0.0 then -x else x, places);
    var digits := FixedDigits(units, places);
    FixedDigitsShape(units, places);
    if x < 0.0 {
      assert FormatFixed(x, places) == "-" + digits;
      assert ("-" + digits)[1..] == digits;
      if places > 0 {
        assert ("-" + digits)[|"-" + digits| - places..] == digits[|digits| - places..];
      }
    }
  }
}
