/**
 * System.Guid as the serializer uses it: Guid.Parse on the way in and
 * ToString("B").ToUpperInvariant() on the way out. A GUID is its 32
 * hexadecimal digits, most significant first, as they appear in text.
 */
module Guids {
  import opened Wrappers
  import opened Text

  type HexDigit = d: nat | d < 16

  type Guid = s: seq<HexDigit> | |s| == 32 witness seq(32, (_: int) => 0 as HexDigit)

  function UpperHexChar(d: HexDigit): char {
    if d < 10 then ('0' as int + d) as char else ('A' as int + d - 10) as char
  }

  predicate IsUpperHexChar(c: char) {
    '0' <= c <= '9' || 'A' <= c <= 'F'
  }

  predicate IsHexChar(c: char) {
    '0' <= c <= '9' || 'a' <= c <= 'f' || 'A' <= c <= 'F'
  }

  function HexValue(c: char): (d: HexDigit)
    requires IsHexChar(c)
  {
    if c <= '9' then c as int - '0' as int
    else if c <= 'F' then c as int - 'A' as int + 10
    else c as int - 'a' as int + 10
  }

  function Hex(ds: seq<HexDigit>): string {
    seq(|ds|, i requires 0 <= i < |ds| => UpperHexChar(ds[i]))
  }

  /** Position in the "B" text of the k-th hexadecimal digit. */
  function DigitPosition(k: nat): nat
    requires k < 32
  {
    1 + k + (if k >= 8 then 1 else 0) + (if k >= 12 then 1 else 0)
      + (if k >= 16 then 1 else 0) + (if k >= 20 then 1 else 0)
  }

  /** Where the "B" text has its hyphens: 8-4-4-4-12 digits between braces. */
  predicate IsHyphenPosition(i: int) {
    i == 9 || i == 14 || i == 19 || i == 24
  }

  /** Which digit stands at a position of the "B" text that holds one. */
  function DigitIndex(i: nat): (k: nat)
    requires 1 <= i <= 36 && !IsHyphenPosition(i)
    ensures k < 32 && DigitPosition(k) == i
  {
    i - 1 - (if i > 9 then 1 else 0) - (if i > 14 then 1 else 0)
      - (if i > 19 then 1 else 0) - (if i > 24 then 1 else 0)
  }

  lemma DigitPositionInside(k: nat)
    requires k < 32
    ensures 1 <= DigitPosition(k) <= 36 && !IsHyphenPosition(DigitPosition(k))
    ensures DigitIndex(DigitPosition(k)) == k
  {
  }

  /**
   * g.ToString("B").ToUpperInvariant(): 38 characters, braces at both ends,
   * hyphens at four fixed places, every digit of g in upper case at its place,
   * so no quote, space, '=' or white space anywhere.
   */
  function ToStringB(g: Guid): (s: string)
    ensures |s| == 38
  {
    seq(38, i requires 0 <= i < 38 =>
      if i == 0 then '{'
      else if i == 37 then '}'
      else if IsHyphenPosition(i) then '-'
      else UpperHexChar(g[DigitIndex(i)]))
  }

  /** The shape of the "B" text: braces, hyphens, digits, and no separator characters. */
  lemma ToStringBShape(g: Guid)
    ensures var s := ToStringB(g);
      && s[0] == '{' && s[37] == '}'
      && (forall i :: 0 <= i < 38 && IsHyphenPosition(i) ==> s[i] == '-')
      && (forall k :: 0 <= k < 32 ==> s[DigitPosition(k)] == UpperHexChar(g[k]))
      && (forall i :: 0 <= i < 38 ==> s[i] != '"' && s[i] != ' ' && s[i] != '=' && !IsWhiteSpace(s[i]))
  {
    var s := ToStringB(g);
    forall k | 0 <= k < 32 ensures s[DigitPosition(k)] == UpperHexChar(g[k]) {
      DigitPositionInside(k);
    }
  }

  /** Hyphenated digits (the "D" form, 36 characters) with either letter case. */
  function ParseHyphenated(t: string): (r: Option<Guid>)
    requires |t| == 36
  {
    if forall i :: 0 <= i < 36 ==>
         (IsHyphenPosition(i + 1) ==> t[i] == '-') && (!IsHyphenPosition(i + 1) ==> IsHexChar(t[i]))
    then
      Some(seq(32, k requires 0 <= k < 32 =>
        DigitPositionInside(k);
        HexValue(t[DigitPosition(k) - 1])))
    else None
  }

  /** The "N" form: 32 digits without separators, either letter case. */
  function ParseDigits(t: string): (r: Option<Guid>)
    requires |t| == 32
  {
    if forall i :: 0 <= i < 32 ==> IsHexChar(t[i]) then Some(seq(32, k requires 0 <= k < 32 => HexValue(t[k])))
    else None
  }

  /**
   * Guid.Parse: white space around the text is ignored, then the first
   * character and the presence of a hyphen choose the form: "(" the "P" form
   * and "{" the "B" form (hyphenated digits between parentheses or braces),
   * otherwise the "D" form with hyphens and the "N" form without. A "{"
   * without any hyphen is the "X" form, which this model refuses.
   */
  function ParseGuid(s: string): (r: Option<Guid>)
    ensures r.Some? ==> |Trim(s)| == 32 || |Trim(s)| == 36 || |Trim(s)| == 38
  {
    var t := Trim(s);
    if t == [] then None
    else if t[0] == '(' then
      if |t| == 38 && t[37] == ')' then ParseHyphenated(t[1..37]) else None
    else if t[0] == '{' then
      if '-' in t && |t| == 38 && t[37] == '}' then ParseHyphenated(t[1..37]) else None
    else if '-' in t then
      if |t| == 36 then ParseHyphenated(t) else None
    else if |t| == 32 then ParseDigits(t)
    else None
  }

  /** White space around a GUID text changes nothing. */
  lemma ParseGuidPadded(a: string, t: string, b: string)
    requires forall i :: 0 <= i < |a| ==> IsWhiteSpace(a[i])
    requires forall i :: 0 <= i < |b| ==> IsWhiteSpace(b[i])
    requires IsTrimmed(t)
    ensures ParseGuid(a + t + b) == ParseGuid(t)
  {
    TrimPadded(a, t, b);
    TrimPadded([], t, []);
    assert [] + t + [] == t;
  }

  /** Guid.Parse trims its argument, so trimming it first changes nothing. */
  lemma ParseGuidTrimmed(s: string)
    ensures ParseGuid(Trim(s)) == ParseGuid(s)
  {
    TrimIsTrimmed(s);
  }

  /** The "N" text of a GUID, its 32 digits in upper case, parses back to it. */
  lemma ParseHex(g: Guid)
    ensures ParseGuid(Hex(g)) == Some(g)
  {
    var t := Hex(g);
    assert forall i :: 0 <= i < 32 ==> IsHexChar(t[i]) && !IsWhiteSpace(t[i]) && t[i] != '-';
    TrimPadded([], t, []);
    assert [] + t + [] == t;
    assert seq(32, k requires 0 <= k < 32 => HexValue(t[k])) == g;
  }

  /** Parsing the written form of a GUID gives that GUID back. */
  lemma ParseToStringB(g: Guid)
    ensures ParseGuid(ToStringB(g)) == Some(g)
  {
    var s := ToStringB(g);
    ToStringBShape(g);
    var t := s[1..37];
    forall i | 0 <= i < 36
      ensures (IsHyphenPosition(i + 1) ==> t[i] == '-') && (!IsHyphenPosition(i + 1) ==> IsHexChar(t[i]))
    {
      if !IsHyphenPosition(i + 1) {
        var k := DigitIndex(i + 1);
        assert t[i] == s[DigitPosition(k)];
      }
    }
    forall k | 0 <= k < 32
      ensures HexValue(t[DigitPosition(k) - 1]) == g[k]
    {
      DigitPositionInside(k);
    }
    var parsed := seq(32, k requires 0 <= k < 32 =>
      DigitPositionInside(k);
      HexValue(t[DigitPosition(k) - 1]));
    assert parsed == g;
    assert ParseHyphenated(t) == Some(parsed);
    TrimPadded([], s, []);
    assert [] + s + [] == s;
    assert s[9] == '-';
  }
}
