/** UUIDs as sixteen octets, with the canonical text form
    xxxxxxxx-xxxx-xxxx-xxxx-xxxxxxxxxxxx used for MQTT topics, InfluxDB tags
    and token claims (github.com/google/uuid's Parse and String). */
module Uuids {
  import opened Common

  type Uuid = b: seq<Byte> | |b| == 16 witness [0, 0, 0, 0, 0, 0, 0, 0, 0, 0, 0, 0, 0, 0, 0, 0]

  /** uuid.Nil, the all-zero UUID. */
  const Nil: Uuid := [0, 0, 0, 0, 0, 0, 0, 0, 0, 0, 0, 0, 0, 0, 0, 0]

  /** The four positions of '-' in the 36-character form. */
  predicate IsDashPos(k: int) { k == 8 || k == 13 || k == 18 || k == 23 }

  /** Position in the text of hex digit `j` (0..31): `j` plus the dashes
      that precede it. */
  function DigitPos(j: nat): (k: nat)
    requires j < 32
    ensures k < 36 && !IsDashPos(k)
  {
    j + (if j >= 8 then 1 else 0) + (if j >= 12 then 1 else 0)
      + (if j >= 16 then 1 else 0) + (if j >= 20 then 1 else 0)
  }

  /** Index of the hex digit at text position `k`, the inverse of DigitPos. */
  function DigitIndex(k: nat): (j: nat)
    requires k < 36 && !IsDashPos(k)
    ensures j < 32 && DigitPos(j) == k
  {
    k - (if k > 8 then 1 else 0) - (if k > 13 then 1 else 0)
      - (if k > 18 then 1 else 0) - (if k > 23 then 1 else 0)
  }

  predicate IsHex(c: char) { '0' <= c <= '9' || 'a' <= c <= 'f' || 'A' <= c <= 'F' }

  /** Value of a hex digit; both letter cases are accepted. */
  function HexValue(c: char): (v: nat)
    requires IsHex(c)
    ensures v < 16
  {
    if '0' <= c <= '9' then c as int - '0' as int
    else if 'a' <= c <= 'f' then c as int - 'a' as int + 10
    else c as int - 'A' as int + 10
  }

  /** Lower-case hex digit of `v`. */
  function HexDigit(v: nat): (c: char)
    requires v < 16
    ensures IsHex(c) && HexValue(c) == v
  {
    if v < 10 then ('0' as int + v) as char else ('a' as int + v - 10) as char
  }

  function ToLowerHex(c: char): char
    requires IsHex(c)
  {
    if 'A' <= c <= 'F' then (c as int - 'A' as int + 'a' as int) as char else c
  }

  /** Hex digit `j` of `u`: the high nibble of byte j/2 when j is even. */
  function Nibble(u: Uuid, j: nat): (v: nat)
    requires j < 32
    ensures v < 16
  {
    var b := u[j / 2] as int;
    if j % 2 == 0 then b / 16 else b % 16
  }

  /** uuid.UUID.String: lower-case hex with dashes at 8, 13, 18 and 23. */
  function ToString(u: Uuid): (s: string)
    ensures |s| == 36
    ensures forall k :: 0 <= k < 36 ==> if IsDashPos(k) then s[k] == '-' else IsHex(s[k])
  {
    seq(36, k requires 0 <= k < 36 =>
      if IsDashPos(k) then '-' else HexDigit(Nibble(u, DigitIndex(k))))
  }

  predicate WellFormed(s: string)
  {
    |s| == 36 && forall k :: 0 <= k < 36 ==> if IsDashPos(k) then s[k] == '-' else IsHex(s[k])
  }

  /** uuid.Parse for the canonical 36-character spelling: dashes where
      expected, a hex digit (either case) everywhere else; byte i is read
      from digits 2i and 2i+1. */
  function Parse(s: string): (r: Option<Uuid>)
    ensures r.Some? ==> |s| == 36 && '/' !in s
  {
    if WellFormed(s) then
      assert forall k :: 0 <= k < |s| ==> s[k] != '/';
      var bytes: Uuid := seq(16, i requires 0 <= i < 16 =>
        (16 * HexValue(s[DigitPos(2 * i)]) + HexValue(s[DigitPos(2 * i + 1)])) as Byte);
      Some(bytes)
    else None
  }

  /** Formatting then parsing gives the UUID back. */
  lemma ParseToString(u: Uuid)
    ensures Parse(ToString(u)) == Some(u)
  {
    var s := ToString(u);
    assert WellFormed(s);
    var v := Parse(s).value;
    forall i | 0 <= i < 16 ensures v[i] == u[i] {
      assert DigitIndex(DigitPos(2 * i)) == 2 * i;
      assert DigitIndex(DigitPos(2 * i + 1)) == 2 * i + 1;
      var b := u[i] as int;
      assert HexValue(s[DigitPos(2 * i)]) == b / 16;
      assert HexValue(s[DigitPos(2 * i + 1)]) == b % 16;
    }
    assert v == u;
  }

  /** Digit `j` of a parsed UUID is the value of the digit at its position
      in the parsed text. */
  lemma ParsedNibble(s: string, u: Uuid, j: nat)
    requires j < 32 && Parse(s) == Some(u)
    ensures IsHex(s[DigitPos(j)]) && Nibble(u, j) == HexValue(s[DigitPos(j)])
  {
    var i := j / 2;
    var hi := HexValue(s[DigitPos(2 * i)]);
    var lo := HexValue(s[DigitPos(2 * i + 1)]);
    assert u[i] as int == 16 * hi + lo;
    assert (16 * hi + lo) / 16 == hi && (16 * hi + lo) % 16 == lo;
  }

  lemma HexDigitOfValue(c: char)
    requires IsHex(c)
    ensures HexDigit(HexValue(c)) == ToLowerHex(c)
  {
  }

  /** Parsing then formatting gives the input back with its letters in
      lower case: the two spellings agree up to case. */
  lemma ToStringParse(s: string, u: Uuid)
    requires Parse(s) == Some(u)
    ensures |ToString(u)| == |s|
    ensures forall k :: 0 <= k < |s| ==>
      if IsDashPos(k) then ToString(u)[k] == s[k] else IsHex(s[k]) && ToString(u)[k] == ToLowerHex(s[k])
  {
    var t := ToString(u);
    forall k | 0 <= k < 36 && !IsDashPos(k)
      ensures IsHex(s[k]) && t[k] == ToLowerHex(s[k])
    {
      var j := DigitIndex(k);
      ParsedNibble(s, u, j);
      HexDigitOfValue(s[k]);
    }
  }

  /** Two UUIDs with the same text are the same UUID. */
  lemma ToStringInjective(u: Uuid, w: Uuid)
    requires ToString(u) == ToString(w)
    ensures u == w
  {
    ParseToString(u);
    ParseToString(w);
  }
}
