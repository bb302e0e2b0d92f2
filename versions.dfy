/**
 * System.Version as the serializer uses it: Version.Parse on a header token,
 * Version.ToString() for the two "= version" lines, and Major/Minor for the
 * format-version line. A version is its list of components: major, minor and
 * the optional build and revision.
 */
module Versions {
  import opened Wrappers
  import opened Text

  /** Major and minor are always present; build and revision are optional, in that order. */
  datatype Version = Version(major: nat, minor: nat, buildAndRevision: seq<nat>) {
    function Components(): seq<nat> {
      [major, minor] + buildAndRevision
    }

    /** What Version.Parse can produce: at most four components, each an Int32. */
    predicate Valid() {
      |buildAndRevision| <= 2 && forall i :: 0 <= i < |Components()| ==> Components()[i] <= Int32Max
    }
  }

  /** The white space Int32.Parse skips around a number: tab, line feed, vertical tab, form feed, carriage return, space. */
  predicate IsNumberWhiteSpace(c: char) {
    '\t' <= c <= '\r' || c == ' '
  }

  /** The text Int32.Parse reads the number from: white space trimmed at both ends. */
  function NumberText(p: string): string {
    TrimEndWhere(TrimStartWhere(p, IsNumberWhiteSpace), IsNumberWhiteSpace)
  }

  /**
   * Int32.Parse with NumberStyles.Integer of a trimmed text: an optional
   * '+' or '-' before the digits, at most Int32.MaxValue in size; Version
   * then refuses a negative value, so "-0" is the only text with '-' kept.
   */
  function SignedValue(t: string): (r: Option<nat>)
    ensures r.Some? ==> r.value <= Int32Max
  {
    var signed := t != [] && (t[0] == '+' || t[0] == '-');
    var digits := if signed then t[1..] else t;
    if |digits| >= 1 && AllDigits(digits) && DecimalValue(digits) <= Int32Max
      && (t[0] == '-' ==> DecimalValue(digits) == 0)
    then Some(DecimalValue(digits))
    else None
  }

  /** One component of a version, read as Version.Parse reads it. */
  function ParseComponent(p: string): (r: Option<nat>)
    ensures r.Some? ==> r.value <= Int32Max
  {
    SignedValue(NumberText(p))
  }

  /** The value of every component, when each one reads. */
  function ComponentValues(parts: seq<string>): (values: seq<nat>)
    requires forall i :: 0 <= i < |parts| ==> ParseComponent(parts[i]).Some?
    ensures |values| == |parts|
    ensures forall i :: 0 <= i < |parts| ==> values[i] == ParseComponent(parts[i]).value && values[i] <= Int32Max
  {
    seq(|parts|, i requires 0 <= i < |parts| => ParseComponent(parts[i]).value)
  }

  /** Version.Parse: two to four '.'-separated components. */
  function ParseVersion(s: string): (r: Option<Version>)
    ensures r.Some? ==> r.value.Valid()
  {
    var parts := Split(s, '.');
    if 2 <= |parts| <= 4 && forall i :: 0 <= i < |parts| ==> ParseComponent(parts[i]).Some? then
      var values := ComponentValues(parts);
      var v := Version(values[0], values[1], values[2..]);
      assert v.Components() == values;
      Some(v)
    else None
  }

  /** Plain digits within the Int32 range read as their value. */
  lemma ParseComponentDigits(p: string)
    requires |p| >= 1 && AllDigits(p) && DecimalValue(p) <= Int32Max
    ensures ParseComponent(p) == Some(DecimalValue(p))
  {
    TrimStartKeeps(p, IsNumberWhiteSpace);
    TrimEndKeeps(p, IsNumberWhiteSpace);
  }

  /** Number white space around a text that starts and ends with none is exactly what NumberText removes. */
  lemma NumberTextPadded(a: string, t: string, b: string)
    requires forall i :: 0 <= i < |a| ==> IsNumberWhiteSpace(a[i])
    requires forall i :: 0 <= i < |b| ==> IsNumberWhiteSpace(b[i])
    requires |t| >= 1 && !IsNumberWhiteSpace(t[0]) && !IsNumberWhiteSpace(t[|t| - 1])
    ensures NumberText(a + t + b) == t
  {
    TrimPaddedWhere(a, t, b, IsNumberWhiteSpace);
  }

  /** White space and a '+' around a component are read as Int32.Parse reads them. */
  lemma ParseComponentPlus(a: string, p: string, b: string)
    requires forall i :: 0 <= i < |a| ==> IsNumberWhiteSpace(a[i])
    requires forall i :: 0 <= i < |b| ==> IsNumberWhiteSpace(b[i])
    requires |p| >= 1 && AllDigits(p) && DecimalValue(p) <= Int32Max
    ensures ParseComponent(a + "+" + p + b) == Some(DecimalValue(p))
  {
    var t := "+" + p;
    assert t[|t| - 1] == p[|p| - 1];
    assert a + "+" + p + b == a + t + b;
    NumberTextPadded(a, t, b);
    assert t[1..] == p;
  }

  /** A '-' is kept only before a zero value, because Version refuses negative components. */
  lemma ParseComponentMinus(a: string, p: string, b: string)
    requires forall i :: 0 <= i < |a| ==> IsNumberWhiteSpace(a[i])
    requires forall i :: 0 <= i < |b| ==> IsNumberWhiteSpace(b[i])
    requires |p| >= 1 && AllDigits(p) && DecimalValue(p) <= Int32Max
    ensures ParseComponent(a + "-" + p + b) == if DecimalValue(p) == 0 then Some(0) else None
  {
    var t := "-" + p;
    assert t[|t| - 1] == p[|p| - 1];
    assert a + "-" + p + b == a + t + b;
    NumberTextPadded(a, t, b);
    assert t[1..] == p;
  }

  /** Version.ToString(): the components in decimal, joined by '.'. */
  function VersionToString(v: Version): (s: string) {
    Join(ComponentTexts(v), '.')
  }

  function ComponentTexts(v: Version): (texts: seq<string>)
    ensures |texts| == |v.Components()| >= 2
    ensures forall i :: 0 <= i < |texts| ==> AllDigits(texts[i]) && DecimalValue(texts[i]) == v.Components()[i]
  {
    var cs := v.Components();
    seq(|cs|, i requires 0 <= i < |cs| => DecimalString(cs[i]))
  }

  /** "{Major}.{Minor:00}": major in decimal, minor with at least two digits. */
  function MajorMinorText(v: Version): string {
    DecimalString(v.major) + "." + PadLeftZeros(DecimalString(v.minor), 2)
  }

  /** The text of a version holds digits and dots only. */
  lemma VersionTextHasNoSpace(v: Version)
    ensures ' ' !in VersionToString(v) && ' ' !in MajorMinorText(v)
  {
    JoinOfDigits(ComponentTexts(v));
    assert AllDigits(DecimalString(v.major));
  }

  lemma {:induction false} JoinOfDigits(parts: seq<string>)
    requires |parts| >= 1 && forall i :: 0 <= i < |parts| ==> AllDigits(parts[i])
    ensures ' ' !in Join(parts, '.')
    decreases |parts|
  {
    if |parts| > 1 {
      JoinOfDigits(parts[1..]);
    }
  }

  /** Version.Parse reads back what Version.ToString wrote. */
  lemma ParseVersionToString(v: Version)
    requires v.Valid()
    ensures ParseVersion(VersionToString(v)) == Some(v)
  {
    var parts := ComponentTexts(v);
    forall i | 0 <= i < |parts| ensures '.' !in parts[i] && ParseComponent(parts[i]) == Some(v.Components()[i]) {
      assert AllDigits(parts[i]);
      ParseComponentDigits(parts[i]);
    }
    SplitJoin(parts, '.');
    var values := ComponentValues(parts);
    assert values == v.Components();
    assert Version(values[0], values[1], values[2..]) == v;
  }

  /**
   * The format-version text parses to the major and minor components alone:
   * build and revision are not written, and the padding zero is read back as
   * the same minor number.
   */
  lemma ParseMajorMinorText(v: Version)
    requires v.Valid()
    ensures ParseVersion(MajorMinorText(v)) == Some(Version(v.major, v.minor, []))
  {
    hide ParseComponent;
    var major := DecimalString(v.major);
    var minor := PadLeftZeros(DecimalString(v.minor), 2);
    SplitAtSeparator(major, minor, '.');
    assert '.' !in major by { assert AllDigits(major); }
    assert '.' !in minor by { assert AllDigits(minor); }
    SplitNoSeparator(major, '.');
    SplitNoSeparator(minor, '.');
    var parts := [major, minor];
    assert Split(MajorMinorText(v), '.') == parts;
    assert v.Components()[0] == v.major && v.Components()[1] == v.minor;
    ParseComponentDigits(major);
    ParseComponentDigits(minor);
    var values := ComponentValues(parts);
    assert values == [v.major, v.minor];
  }
}
