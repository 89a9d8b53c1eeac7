/** Text formatting the layout code relies on: Python's `'%d'` and `'%0.2X'`
    conversions of non-negative integers, and the substring test `pat in s`. */
module Text {

  datatype Option<T> = None | Some(value: T)

  // ---------------------------------------------------------------------------
  // Decimal digits ('%d' of a non-negative integer)
  // ---------------------------------------------------------------------------

  predicate IsDigit(c: char) { '0' <= c <= '9' }

  function DigitChar(d: nat): (c: char)
    requires d < 10
    ensures IsDigit(c) && (c as int) - ('0' as int) == d
  {
    (('0' as int) + d) as char
  }

  function DigitValue(c: char): (d: nat)
    requires IsDigit(c)
    ensures d < 10 && DigitChar(d) == c
  {
    (c as int) - ('0' as int)
  }

  predicate AllDigits(s: string) { forall i :: 0 <= i < |s| ==> IsDigit(s[i]) }

  /** `'%d' % n` for n >= 0: the shortest decimal numeral, "0" for zero. */
  function Decimal(n: nat): (s: string)
    ensures |s| >= 1 && AllDigits(s)
    ensures |s| > 1 ==> s[0] != '0'
    decreases n
  {
    if n < 10 then [DigitChar(n)] else Decimal(n / 10) + [DigitChar(n % 10)]
  }

  /** Reads a string of decimal digits back as a number. */
  function ParseDecimal(s: string): nat
    requires AllDigits(s)
  {
    if |s| == 0 then 0 else 10 * ParseDecimal(s[..|s| - 1]) + DigitValue(s[|s| - 1])
  }

  lemma {:induction false} DecimalRoundTrip(n: nat)
    ensures ParseDecimal(Decimal(n)) == n
    decreases n
  {
    var s := Decimal(n);
    if n >= 10 {
      DecimalRoundTrip(n / 10);
      assert s[..|s| - 1] == Decimal(n / 10);
    }
  }

  /** Distinct numbers print differently. */
  lemma DecimalInjective(a: nat, b: nat)
    ensures Decimal(a) == Decimal(b) ==> a == b
  {
    DecimalRoundTrip(a);
    DecimalRoundTrip(b);
  }

  // ---------------------------------------------------------------------------
  // Upper-case hexadecimal, at least two digits ('%0.2X' of a non-negative integer)
  // ---------------------------------------------------------------------------

  predicate IsHexDigit(c: char) { '0' <= c <= '9' || 'A' <= c <= 'F' }

  predicate AllHexDigits(s: string) { forall i :: 0 <= i < |s| ==> IsHexDigit(s[i]) }

  function HexDigitChar(d: nat): (c: char)
    requires d < 16
    ensures IsHexDigit(c)
  {
    if d < 10 then (('0' as int) + d) as char else (('A' as int) + d - 10) as char
  }

  function HexDigitValue(c: char): (d: nat)
    requires IsHexDigit(c)
    ensures d < 16 && HexDigitChar(d) == c
  {
    if c <= '9' then (c as int) - ('0' as int) else (c as int) - ('A' as int) + 10
  }

  /** The shortest upper-case hexadecimal numeral of n, "0" for zero. */
  function Hex(n: nat): (s: string)
    ensures |s| >= 1 && AllHexDigits(s)
    ensures n < 16 <==> |s| == 1
    ensures 16 <= n < 256 ==> |s| == 2
    decreases n
  {
    if n < 16 then [HexDigitChar(n)] else Hex(n / 16) + [HexDigitChar(n % 16)]
  }

  /** `'%0.2X' % n` for n >= 0: upper-case hexadecimal, zero-padded to two digits. */
  function Hex2(n: nat): (s: string)
    ensures AllHexDigits(s) && |s| >= 2
    ensures n < 256 ==> |s| == 2
  {
    var h := Hex(n);
    if |h| < 2 then "0" + h else h
  }

  function ParseHex(s: string): nat
    requires AllHexDigits(s)
  {
    if |s| == 0 then 0 else 16 * ParseHex(s[..|s| - 1]) + HexDigitValue(s[|s| - 1])
  }

  lemma {:induction false} HexRoundTrip(n: nat)
    ensures ParseHex(Hex(n)) == n
    decreases n
  {
    var s := Hex(n);
    if n >= 16 {
      HexRoundTrip(n / 16);
      assert s[..|s| - 1] == Hex(n / 16);
    }
  }

  /** A leading zero does not change the value read back. */
  lemma {:induction false} ParseHexLeadingZero(s: string)
    requires AllHexDigits(s)
    ensures AllHexDigits("0" + s) && ParseHex("0" + s) == ParseHex(s)
    decreases |s|
  {
    if |s| > 0 {
      ParseHexLeadingZero(s[..|s| - 1]);
      assert ("0" + s)[..|s|] == "0" + s[..|s| - 1];
    }
  }

  lemma Hex2RoundTrip(n: nat)
    ensures AllHexDigits(Hex2(n)) && ParseHex(Hex2(n)) == n
  {
    HexRoundTrip(n);
    var h := Hex(n);
    if |h| < 2 {
      ParseHexLeadingZero(h);
    }
  }

  /** Concatenation is associative; stated once so that long texts need not be
      compared character by character. */
  lemma AppendAssoc(a: string, b: string, c: string)
    ensures a + (b + c) == a + b + c
  {
  }

  // ---------------------------------------------------------------------------
  // Substrings (Python's `pat in s` on strings)
  // ---------------------------------------------------------------------------

  /** pat occurs in s starting at position i. */
  predicate OccursAt(pat: string, s: string, i: int)
  {
    0 <= i && i + |pat| <= |s| && s[i..i + |pat|] == pat
  }

  /** The declarative meaning of `pat in s`. */
  ghost predicate Contains(s: string, pat: string)
  {
    exists i :: OccursAt(pat, s, i)
  }

  /** `pat in s`, computed by scanning s from the left. */
  function IsInfix(pat: string, s: string): bool
    decreases |s|
  {
    if |s| < |pat| then false
    else s[..|pat|] == pat || IsInfix(pat, s[1..])
  }

  lemma {:induction false} IsInfixMeansContains(pat: string, s: string)
    ensures IsInfix(pat, s) <==> Contains(s, pat)
    decreases |s|
  {
    if |s| < |pat| {
      assert forall i :: !OccursAt(pat, s, i);
    } else if s[..|pat|] == pat {
      assert OccursAt(pat, s, 0);
    } else {
      IsInfixMeansContains(pat, s[1..]);
      if IsInfix(pat, s[1..]) {
        var i :| OccursAt(pat, s[1..], i);
        assert s[i + 1..i + 1 + |pat|] == s[1..][i..i + |pat|];
        assert OccursAt(pat, s, i + 1);
      }
      if Contains(s, pat) {
        var i :| OccursAt(pat, s, i);
        assert i != 0;
        assert s[1..][i - 1..i - 1 + |pat|] == s[i..i + |pat|];
        assert OccursAt(pat, s[1..], i - 1);
      }
    }
  }

  /** A string surrounded by other text still occurs in the whole. */
  lemma ContainsSelf(s: string)
    ensures Contains(s, s)
  {
    assert OccursAt(s, s, 0);
  }

  lemma ContainsMiddle(a: string, pat: string, b: string)
    ensures Contains(a + pat + b, pat)
  {
    assert (a + pat + b)[|a|..|a| + |pat|] == pat;
    assert OccursAt(pat, a + pat + b, |a|);
  }

  /** An occurrence inside a part is an occurrence inside the whole. */
  lemma ContainsWithin(a: string, mid: string, b: string, pat: string)
    requires Contains(mid, pat)
    ensures Contains(a + mid + b, pat)
  {
    var i :| OccursAt(pat, mid, i);
    var s := a + mid + b;
    assert s[|a| + i..|a| + i + |pat|] == mid[i..i + |pat|];
    assert OccursAt(pat, s, |a| + i);
  }

  /** Appending text keeps an occurrence. */
  lemma ContainsExtended(s: string, tail: string, pat: string)
    requires Contains(s, pat)
    ensures Contains(s + tail, pat)
  {
    var i :| OccursAt(pat, s, i);
    assert (s + tail)[i..i + |pat|] == s[i..i + |pat|];
    assert OccursAt(pat, s + tail, i);
  }

  /** Occurrence is transitive: a part of a part is a part of the whole. */
  lemma ContainsTransitive(s: string, mid: string, pat: string)
    requires Contains(s, mid) && Contains(mid, pat)
    ensures Contains(s, pat)
  {
    var i :| OccursAt(mid, s, i);
    var j :| OccursAt(pat, mid, j);
    assert mid == s[i..i + |mid|];
    var window := s[i + j..i + j + |pat|];
    assert forall t :: 0 <= t < |pat| ==> window[t] == mid[j + t];
    assert OccursAt(pat, s, i + j);
  }
}
