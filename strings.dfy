/** The pieces of Go's `strings` and `strconv` behaviour the core relies on:
    splitting a topic on a one-character separator and writing decimal
    numbers. */
module Strings {

  /** Position of the first `c` in `s`, or |s| when `s` holds none
      (strings.Index, with "not found" reported as |s|). */
  function IndexOf(s: string, c: char): (i: nat)
    ensures i <= |s|
    ensures i < |s| ==> s[i] == c
    ensures c !in s[..i]
  {
    if s == [] then 0
    else if s[0] == c then 0
    else
      var j := IndexOf(s[1..], c);
      assert s[..1 + j] == [s[0]] + s[1..][..j];
      1 + j
  }

  /** Inverse of Split: the parts with one separator between neighbours
      (strings.Join). */
  function Join(parts: seq<string>, sep: char): (joined: string)
  {
    if parts == [] then ""
    else if |parts| == 1 then parts[0]
    else parts[0] + [sep] + Join(parts[1..], sep)
  }

  /** strings.Split(s, string(sep)): the maximal separator-free pieces of `s`,
      one more than the number of separators, so "" gives [""]. */
  function Split(s: string, sep: char): (parts: seq<string>)
    ensures |parts| == 1 + |s| - |SeparatorFree(s, sep)|
    ensures forall k :: 0 <= k < |parts| ==> sep !in parts[k]
    ensures Join(parts, sep) == s
    decreases |s|
  {
    var i := IndexOf(s, sep);
    if i == |s| then
      assert s[..i] == s;
      SeparatorFreeOfClean(s, sep);
      [s]
    else
      var rest := Split(s[i + 1..], sep);
      assert s == s[..i] + [sep] + s[i + 1..];
      SeparatorFreeSplit(s[..i], s[i + 1..], sep);
      [s[..i]] + rest
  }

  /** The characters of `s` other than `sep`; its length counts them. */
  function SeparatorFree(s: string, sep: char): string
  {
    if s == [] then []
    else (if s[0] == sep then [] else [s[0]]) + SeparatorFree(s[1..], sep)
  }

  lemma {:induction false} SeparatorFreeOfClean(s: string, sep: char)
    requires sep !in s
    ensures SeparatorFree(s, sep) == s
  {
    if s != [] {
      SeparatorFreeOfClean(s[1..], sep);
    }
  }

  lemma {:induction false} SeparatorFreeSplit(a: string, b: string, sep: char)
    requires sep !in a
    ensures |SeparatorFree(a + [sep] + b, sep)| == |a| + |SeparatorFree(b, sep)|
  {
    if a == [] {
      assert a + [sep] + b == [sep] + b;
      assert ([sep] + b)[1..] == b;
    } else {
      assert (a + [sep] + b)[1..] == a[1..] + [sep] + b;
      SeparatorFreeSplit(a[1..], b, sep);
    }
  }

  /** A string without the separator is a single piece. */
  lemma SplitClean(s: string, sep: char)
    requires sep !in s
    ensures Split(s, sep) == [s]
  {
    assert IndexOf(s, sep) == |s|;
  }

  /** Splitting `a` + separator + `b`, where `a` has no separator, yields
      `a` followed by the pieces of `b`. */
  lemma SplitPrefix(a: string, b: string, sep: char)
    requires sep !in a
    ensures Split(a + [sep] + b, sep) == [a] + Split(b, sep)
  {
    var s := a + [sep] + b;
    var i := IndexOf(s, sep);
    assert s[..|a|] == a;
    assert s[|a|] == sep;
    assert s[i + 1..] == b;
  }

  /** Splitting around one more separator concatenates the pieces of both
      sides. */
  lemma {:induction false} SplitAppend(a: string, b: string, sep: char)
    ensures Split(a + [sep] + b, sep) == Split(a, sep) + Split(b, sep)
    decreases |a|
  {
    var i := IndexOf(a, sep);
    if i == |a| {
      assert a[..i] == a;
      SplitClean(a, sep);
      SplitPrefix(a, b, sep);
    } else {
      var a1, a2 := a[..i], a[i + 1..];
      Regroup(a, b, i, sep);
      SplitAppend(a2, b, sep);
      SplitStep(a1, a2, b, sep);
    }
  }

  lemma SplitStep(a1: string, a2: string, b: string, sep: char)
    requires sep !in a1
    requires Split(a2 + [sep] + b, sep) == Split(a2, sep) + Split(b, sep)
    ensures Split(a1 + [sep] + (a2 + [sep] + b), sep) == Split(a1 + [sep] + a2, sep) + Split(b, sep)
  {
    var t := a2 + [sep] + b;
    var p, q := Split(a2, sep), Split(b, sep);
    calc {
      Split(a1 + [sep] + t, sep);
    ==  { SplitPrefix(a1, t, sep); }
      [a1] + Split(t, sep);
    ==
      [a1] + (p + q);
    ==  { assert [a1] + (p + q) == ([a1] + p) + q; }
      ([a1] + p) + q;
    ==  { SplitPrefix(a1, a2, sep); }
      Split(a1 + [sep] + a2, sep) + q;
    }
  }

  lemma Regroup(a: string, b: string, i: nat, sep: char)
    requires i < |a| && a[i] == sep
    ensures a == a[..i] + [sep] + a[i + 1..]
    ensures a + [sep] + b == a[..i] + [sep] + (a[i + 1..] + [sep] + b)
  {
    assert a == a[..i] + [sep] + a[i + 1..];
  }

  /** Two separator-free pieces around one separator. */
  lemma SplitTwo(a: string, b: string, sep: char)
    requires sep !in a && sep !in b
    ensures Split(a + [sep] + b, sep) == [a, b]
  {
    SplitPrefix(a, b, sep);
    SplitClean(b, sep);
  }

  /** Four separator-free pieces joined by the separator split back into
      those pieces. */
  lemma SplitFour(a: string, b: string, c: string, d: string, sep: char)
    requires sep !in a && sep !in b && sep !in c && sep !in d
    ensures Split(a + [sep] + b + [sep] + c + [sep] + d, sep) == [a, b, c, d]
  {
    var cd := c + [sep] + d;
    var bcd := b + [sep] + cd;
    Regroup4(a, b, c, d, sep);
    calc {
      Split(a + [sep] + bcd, sep);
    ==  { SplitPrefix(a, bcd, sep); }
      [a] + Split(bcd, sep);
    ==  { SplitPrefix(b, cd, sep); }
      [a] + ([b] + Split(cd, sep));
    ==  { SplitTwo(c, d, sep); }
      [a] + ([b] + [c, d]);
    }
  }

  lemma Regroup4(a: string, b: string, c: string, d: string, sep: char)
    ensures a + [sep] + b + [sep] + c + [sep] + d == a + [sep] + (b + [sep] + (c + [sep] + d))
  {
  }

  /** Split undoes Join whenever no part holds the separator. */
  lemma {:induction false} SplitJoin(parts: seq<string>, sep: char)
    requires |parts| >= 1
    requires forall k :: 0 <= k < |parts| ==> sep !in parts[k]
    ensures Split(Join(parts, sep), sep) == parts
    decreases |parts|
  {
    if |parts| == 1 {
      SplitClean(parts[0], sep);
    } else {
      SplitJoin(parts[1..], sep);
      SplitPrefix(parts[0], Join(parts[1..], sep), sep);
    }
  }

  predicate IsDigit(c: char) { '0' <= c <= '9' }

  predicate AllDigits(s: string) { forall k :: 0 <= k < |s| ==> IsDigit(s[k]) }

  function DigitChar(d: nat): (c: char)
    requires d < 10
    ensures IsDigit(c)
  {
    ('0' as int + d) as char
  }

  function DigitValue(c: char): (d: nat)
    requires IsDigit(c)
    ensures d < 10 && DigitChar(d) == c
  {
    c as int - '0' as int
  }

  /** The value of a run of decimal digits; the empty run is 0. */
  function DigitsValue(s: string): (v: nat)
    requires AllDigits(s)
  {
    if s == [] then 0
    else 10 * DigitsValue(s[..|s| - 1]) + DigitValue(s[|s| - 1])
  }

  function Pow10(n: nat): (p: nat)
    ensures p >= 1
  {
    if n == 0 then 1 else 10 * Pow10(n - 1)
  }

  /** The shortest decimal spelling of `n` (strconv.Itoa for n >= 0). */
  function Decimal(n: nat): (s: string)
    ensures |s| >= 1 && AllDigits(s)
    ensures DigitsValue(s) == n
    ensures n < Pow10(|s|) && (|s| > 1 ==> Pow10(|s| - 1) <= n)
    decreases n
  {
    if n < 10 then [DigitChar(n)]
    else
      var s := Decimal(n / 10) + [DigitChar(n % 10)];
      assert s[..|s| - 1] == Decimal(n / 10);
      s
  }

  /** A decimal spelling fits in `width` characters exactly when the value
      is below 10^width. */
  lemma {:induction false} DecimalFits(n: nat, width: nat)
    requires width >= 1 && n < Pow10(width)
    ensures |Decimal(n)| <= width
  {
    var len := |Decimal(n)|;
    if len > width {
      PowMonotone(width, len - 1);
      assert false;
    }
  }

  lemma {:induction false} PowMonotone(a: nat, b: nat)
    requires a <= b
    ensures Pow10(a) <= Pow10(b)
    decreases b - a
  {
    if a < b {
      PowMonotone(a, b - 1);
    }
  }

  /** Left-pad `s` with '0' up to `width` characters. */
  function ZeroPad(s: string, width: nat): (r: string)
    ensures |r| == if |s| >= width then |s| else width
    ensures r[|r| - |s|..] == s
    ensures forall k :: 0 <= k < |r| - |s| ==> r[k] == '0'
  {
    if |s| >= width then s else seq(width - |s|, _ => '0') + s
  }

  /** Go's appendInt(b, x, width) from package time: a '-' for negative
      values, then the decimal digits left-padded with zeros to `width`. */
  function PadInt(x: int, width: nat): (padded: string)
  {
    (if x < 0 then "-" else "") + ZeroPad(Decimal(if x < 0 then -x else x), width)
  }

  /** In range, the padded form is exactly `width` digits and reads back as
      the value. */
  lemma PadIntExact(x: nat, width: nat)
    requires width >= 1 && x < Pow10(width)
    ensures |PadInt(x, width)| == width
    ensures AllDigits(PadInt(x, width))
    ensures DigitsValue(PadInt(x, width)) == x
  {
    DecimalFits(x, width);
    assert PadInt(x, width) == ZeroPad(Decimal(x), width);
    ZeroPadValue(Decimal(x), width);
  }

  lemma ZeroPadValue(d: string, width: nat)
    requires AllDigits(d)
    ensures AllDigits(ZeroPad(d, width)) && DigitsValue(ZeroPad(d, width)) == DigitsValue(d)
  {
    var r := ZeroPad(d, width);
    var k := |r| - |d|;
    assert r == r[..k] + r[k..];
    LeadingZeros(r[..k], d);
  }

  /** Leading zeros do not change the value of a digit run. */
  lemma {:induction false} LeadingZeros(z: string, t: string)
    requires forall k :: 0 <= k < |z| ==> z[k] == '0'
    requires AllDigits(t)
    ensures AllDigits(z + t) && DigitsValue(z + t) == DigitsValue(t)
    decreases |t|
  {
    if t == [] {
      assert z + t == z;
      AllZeros(z);
    } else {
      var s := z + t;
      assert s[..|s| - 1] == z + t[..|t| - 1];
      LeadingZeros(z, t[..|t| - 1]);
    }
  }

  lemma {:induction false} AllZeros(z: string)
    requires forall k :: 0 <= k < |z| ==> z[k] == '0'
    ensures AllDigits(z) && DigitsValue(z) == 0
  {
    if z != [] {
      AllZeros(z[..|z| - 1]);
    }
  }
}
