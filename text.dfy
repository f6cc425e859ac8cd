/**
 * Character-level helpers: whitespace as Python's str.isspace sees it,
 * case-insensitive containment, and fixed-width decimal digits.
 */
module Text {

  /** Inclusive code-point ranges of the characters Python's str.isspace accepts. */
  const SpaceRanges: seq<(int, int)> :=
    [(9, 13), (28, 32), (0x85, 0x85), (0xA0, 0xA0), (0x1680, 0x1680), (0x2000, 0x200A),
     (0x2028, 0x2029), (0x202F, 0x202F), (0x205F, 0x205F), (0x3000, 0x3000)]

  predicate InRanges(n: int, ranges: seq<(int, int)>)
  {
    ranges != [] && ((ranges[0].0 <= n <= ranges[0].1) || InRanges(n, ranges[1..]))
  }

  /** A code point outside every range is not in any of them. */
  lemma {:induction false} OutsideRanges(n: int, ranges: seq<(int, int)>)
    requires forall k :: 0 <= k < |ranges| ==> n < ranges[k].0 || ranges[k].1 < n
    ensures !InRanges(n, ranges)
  {
    if ranges != [] {
      OutsideRanges(n, ranges[1..]);
    }
  }

  /** Whitespace as str.isspace (and so str.strip) sees it. */
  predicate IsSpace(c: char)
  {
    InRanges(c as int, SpaceRanges)
  }

  /** Printable ASCII other than the space itself is not whitespace. */
  lemma NotSpaceAbove32(c: char)
    requires 32 < c as int < 0x85
    ensures !IsSpace(c)
  {
    OutsideRanges(c as int, SpaceRanges);
  }

  predicate AllSpace(s: string)
  {
    forall k :: 0 <= k < |s| ==> IsSpace(s[k])
  }

  /** Drops leading whitespace; the result is a suffix of `s`. */
  function TrimLeft(s: string): (r: string)
    ensures |r| <= |s| && r == s[|s| - |r|..]
    ensures r != [] ==> !IsSpace(r[0])
  {
    if s != [] && IsSpace(s[0]) then
      var t := s[1..];
      var r := TrimLeft(t);
      assert s[|s| - |r|..] == t[|t| - |r|..];
      r
    else s
  }

  /** What TrimLeft cuts off is all whitespace. */
  lemma {:induction false} TrimLeftDropsSpace(s: string)
    ensures AllSpace(s[..|s| - |TrimLeft(s)|])
  {
    if s != [] && IsSpace(s[0]) {
      var t := s[1..];
      var n := |TrimLeft(t)|;
      TrimLeftDropsSpace(t);
      assert s[..|s| - n] == [s[0]] + t[..|t| - n];
    }
  }

  /** Drops trailing whitespace; the result is a prefix of `s`. */
  function TrimRight(s: string): (r: string)
    ensures |r| <= |s| && r == s[..|r|]
    ensures r != [] ==> !IsSpace(r[|r| - 1])
  {
    if s != [] && IsSpace(s[|s| - 1]) then
      var t := s[..|s| - 1];
      var r := TrimRight(t);
      assert s[..|r|] == t[..|r|];
      r
    else s
  }

  /** What TrimRight cuts off is all whitespace. */
  lemma {:induction false} TrimRightDropsSpace(s: string)
    ensures AllSpace(s[|TrimRight(s)|..])
  {
    if s != [] && IsSpace(s[|s| - 1]) {
      var t := s[..|s| - 1];
      var n := |TrimRight(t)|;
      TrimRightDropsSpace(t);
      assert s[n..] == t[n..] + [s[|s| - 1]];
    }
  }

  /**
   * Python's str.strip() without arguments: the longest slice of `s` that
   * neither starts nor ends with whitespace, cut out with only whitespace on
   * either side of it.
   */
  function Strip(s: string): (r: string)
    ensures |r| <= |s|
    ensures r == [] <==> AllSpace(s)
    ensures r != [] ==> !IsSpace(r[0]) && !IsSpace(r[|r| - 1])
  {
    var left := TrimLeft(s);
    EmptyTrimMeansAllSpace(s, left);
    TrimRight(left)
  }

  /** `r` is `s[a..b]`, and what lies outside that slice is all whitespace. */
  predicate CutFrom(s: string, r: string, a: int, b: int)
  {
    0 <= a <= b <= |s| && r == s[a..b] && AllSpace(s[..a]) && AllSpace(s[b..])
  }

  /** Stripping cuts a slice out of the text with only whitespace on either side of it. */
  lemma StripCutsSpace(s: string)
    ensures exists a, b :: CutFrom(s, Strip(s), a, b)
  {
    var left := TrimLeft(s);
    var r := TrimRight(left);
    var a := |s| - |left|;
    var b := a + |r|;
    TrimLeftDropsSpace(s);
    TrimRightDropsSpace(left);
    assert s[a..b] == r by {
      assert left == s[a..];
    }
    assert s[b..] == left[|r|..];
    assert Strip(s) == r;
    assert CutFrom(s, Strip(s), a, b);
  }

  /**
   * When nothing is left after trimming both ends, the text was all
   * whitespace: TrimRight empties only an all-whitespace text, and TrimLeft
   * leaves none at the front, so TrimLeft already emptied it.
   */
  lemma EmptyTrimMeansAllSpace(s: string, left: string)
    requires left == TrimLeft(s)
    ensures TrimRight(left) == [] ==> AllSpace(s)
  {
    if TrimRight(left) == [] {
      TrimRightDropsSpace(left);
      assert left[0..] == left;
      assert left == [];
      TrimLeftDropsSpace(s);
      assert s[..|s|] == s;
    }
  }

  /** Stripping leaves text without surrounding whitespace unchanged. */
  lemma StripKeepsTrimmed(s: string)
    requires s != [] && !IsSpace(s[0]) && !IsSpace(s[|s| - 1])
    ensures Strip(s) == s
  {
  }

  /** ASCII upper-case letters folded to lower case; all else unchanged. */
  function LowerChar(c: char): char
  {
    if 'A' <= c <= 'Z' then (c as int + 32) as char else c
  }

  function Lower(s: string): (r: string)
    ensures |r| == |s|
    ensures forall k :: 0 <= k < |s| ==> r[k] == LowerChar(s[k])
  {
    seq(|s|, k requires 0 <= k < |s| => LowerChar(s[k]))
  }

  /** `needle` occurs in `hay` as a contiguous run starting at `at`. */
  predicate OccursAt(needle: string, hay: string, at: int)
  {
    0 <= at && at + |needle| <= |hay| && hay[at..at + |needle|] == needle
  }

  predicate Contains(hay: string, needle: string)
  {
    exists at | 0 <= at <= |hay| :: OccursAt(needle, hay, at)
  }

  /** Substring test with letter case ignored on both sides. */
  predicate ContainsIgnoringCase(hay: string, needle: string)
  {
    Contains(Lower(hay), Lower(needle))
  }

  /** `needle` equals the run of `hay` starting at `at`, letter case ignored. */
  predicate MatchesIgnoringCaseAt(hay: string, needle: string, at: int)
  {
    0 <= at && at + |needle| <= |hay| && Lower(hay[at..at + |needle|]) == Lower(needle)
  }

  /** Folding case commutes with taking a slice. */
  lemma LowerSlice(s: string, i: int, j: int)
    requires 0 <= i <= j <= |s|
    ensures Lower(s)[i..j] == Lower(s[i..j])
  {
  }

  /**
   * The case-insensitive test holds exactly when some run of the text
   * equals the needle up to letter case.
   */
  lemma ContainsIgnoringCaseIffRun(hay: string, needle: string)
    ensures ContainsIgnoringCase(hay, needle) <==> exists at :: MatchesIgnoringCaseAt(hay, needle, at)
  {
    if ContainsIgnoringCase(hay, needle) {
      var at :| 0 <= at <= |Lower(hay)| && OccursAt(Lower(needle), Lower(hay), at);
      LowerSlice(hay, at, at + |needle|);
      assert MatchesIgnoringCaseAt(hay, needle, at);
    }
    if exists at :: MatchesIgnoringCaseAt(hay, needle, at) {
      var at :| MatchesIgnoringCaseAt(hay, needle, at);
      LowerSlice(hay, at, at + |needle|);
      assert OccursAt(Lower(needle), Lower(hay), at);
    }
  }

  function DigitChar(d: int): (c: char)
    requires 0 <= d < 10
    ensures '0' <= c <= '9'
  {
    ('0' as int + d) as char
  }

  function DigitValue(c: char): int
  {
    c as int - '0' as int
  }

  /** The decimal value of a string of digits, most significant first. */
  function DecimalValue(s: string): int
  {
    if s == [] then 0 else 10 * DecimalValue(s[..|s| - 1]) + DigitValue(s[|s| - 1])
  }

  predicate AllDigits(s: string)
  {
    forall k :: 0 <= k < |s| ==> '0' <= s[k] <= '9'
  }

  /** `n` written with exactly `width` digits, zero-padded on the left. */
  function PadDigits(n: int, width: nat): (r: string)
    requires 0 <= n
    ensures |r| == width && AllDigits(r)
  {
    if width == 0 then [] else PadDigits(n / 10, width - 1) + [DigitChar(n % 10)]
  }

  function Pow10(k: nat): (p: int)
    ensures p >= 1
  {
    if k == 0 then 1 else 10 * Pow10(k - 1)
  }

  /** Reading the padded digits back gives the number when it fits in the width. */
  lemma {:induction false} PadDigitsRoundTrip(n: int, width: nat)
    requires 0 <= n < Pow10(width)
    ensures DecimalValue(PadDigits(n, width)) == n
  {
    if width > 0 {
      var r := PadDigits(n, width);
      assert r[..|r| - 1] == PadDigits(n / 10, width - 1);
      PadDigitsRoundTrip(n / 10, width - 1);
    }
  }
}
