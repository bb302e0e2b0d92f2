/**
 * The .NET string operations the serializer relies on, written out:
 * Char.IsWhiteSpace, String.Trim / TrimStart / TrimEnd, String.Split on one
 * character, Enumerable.Last, StartsWith, IndexOf, LastIndexOf, and decimal
 * text of integers (Int32.ToString, Int32.Parse on plain digits).
 */
module Text {
  import opened Wrappers

  /** Char.IsWhiteSpace, which is also the class the regex escape \s matches. */
  predicate IsWhiteSpace(c: char) {
    || c == ' ' || c == '\t' || c == '\n' || c == '\U{B}' || c == '\U{C}' || c == '\r'
    || c == '\U{85}' || c == '\U{A0}' || c == '\U{1680}' || ('\U{2000}' <= c <= '\U{200A}')
    || c == '\U{2028}' || c == '\U{2029}' || c == '\U{202F}' || c == '\U{205F}' || c == '\U{3000}'
  }

  /** Drops the longest prefix whose characters all satisfy strip (String.TrimStart). */
  function TrimStartWhere(s: string, strip: char -> bool): string
    decreases |s|
  {
    if s != [] && strip(s[0]) then TrimStartWhere(s[1..], strip) else s
  }

  /** TrimStart removes a prefix of stripped characters and stops at one that is not. */
  lemma {:induction false} TrimStartWhereShape(s: string, strip: char -> bool)
    ensures var r := TrimStartWhere(s, strip);
      && |r| <= |s| && r == s[|s| - |r|..]
      && (forall i :: 0 <= i < |s| - |r| ==> strip(s[i]))
      && (r != [] ==> !strip(r[0]))
    decreases |s|
  {
    if s != [] && strip(s[0]) {
      TrimStartWhereShape(s[1..], strip);
    }
  }

  /** Drops the longest suffix whose characters all satisfy strip (String.TrimEnd). */
  function TrimEndWhere(s: string, strip: char -> bool): string
    decreases |s|
  {
    if s != [] && strip(s[|s| - 1]) then TrimEndWhere(s[..|s| - 1], strip) else s
  }

  /** TrimEnd removes a suffix of stripped characters and stops at one that is not. */
  lemma {:induction false} TrimEndWhereShape(s: string, strip: char -> bool)
    ensures var r := TrimEndWhere(s, strip);
      && |r| <= |s| && r == s[..|r|]
      && (forall i :: |r| <= i < |s| ==> strip(s[i]))
      && (r != [] ==> !strip(r[|r| - 1]))
    decreases |s|
  {
    if s != [] && strip(s[|s| - 1]) {
      TrimEndWhereShape(s[..|s| - 1], strip);
    }
  }

  /** String.Trim(): white space removed at both ends. */
  function Trim(s: string): string {
    TrimEndWhere(TrimStartWhere(s, IsWhiteSpace), IsWhiteSpace)
  }

  /** Text that TextReader.ReadLine returns whole: no carriage return and no line feed. */
  predicate IsSingleLine(s: string) {
    '\r' !in s && '\n' !in s
  }

  /** A piece of a single line is a single line. */
  lemma SingleLineSlice(s: string, a: nat, b: nat)
    requires IsSingleLine(s) && a <= b <= |s|
    ensures IsSingleLine(s[a..b])
  {
    assert forall k :: 0 <= k < b - a ==> s[a..b][k] == s[a + k];
  }

  /** TrimStart and TrimEnd keep a single line single, whatever they strip. */
  lemma TrimWhereSingleLine(s: string, strip: char -> bool)
    requires IsSingleLine(s)
    ensures IsSingleLine(TrimStartWhere(s, strip)) && IsSingleLine(TrimEndWhere(s, strip))
  {
    TrimStartWhereShape(s, strip);
    TrimEndWhereShape(s, strip);
    SingleLineSlice(s, |s| - |TrimStartWhere(s, strip)|, |s|);
    SingleLineSlice(s, 0, |TrimEndWhere(s, strip)|);
  }

  /** A string that Trim leaves alone. */
  predicate IsTrimmed(s: string) {
    s == [] || (!IsWhiteSpace(s[0]) && !IsWhiteSpace(s[|s| - 1]))
  }

  lemma {:induction false} TrimStartSkips(a: string, t: string, strip: char -> bool)
    requires forall i :: 0 <= i < |a| ==> strip(a[i])
    ensures TrimStartWhere(a + t, strip) == TrimStartWhere(t, strip)
    decreases |a|
  {
    if a != [] {
      assert (a + t)[1..] == a[1..] + t;
      TrimStartSkips(a[1..], t, strip);
    } else {
      assert a + t == t;
    }
  }

  lemma {:induction false} TrimEndSkips(t: string, a: string, strip: char -> bool)
    requires forall i :: 0 <= i < |a| ==> strip(a[i])
    ensures TrimEndWhere(t + a, strip) == TrimEndWhere(t, strip)
    decreases |a|
  {
    if a != [] {
      assert (t + a)[..|t + a| - 1] == t + a[..|a| - 1];
      TrimEndSkips(t, a[..|a| - 1], strip);
    } else {
      assert t + a == t;
    }
  }

  /** TrimStart leaves a text alone whose first character is not stripped. */
  lemma TrimStartKeeps(t: string, strip: char -> bool)
    requires t == [] || !strip(t[0])
    ensures TrimStartWhere(t, strip) == t
  {
  }

  /** TrimEnd leaves a text alone whose last character is not stripped. */
  lemma TrimEndKeeps(t: string, strip: char -> bool)
    requires t == [] || !strip(t[|t| - 1])
    ensures TrimEndWhere(t, strip) == t
  {
  }

  /** Stripped characters around a string that has none at its ends are exactly what is removed. */
  lemma TrimPaddedWhere(a: string, t: string, b: string, strip: char -> bool)
    requires forall i :: 0 <= i < |a| ==> strip(a[i])
    requires forall i :: 0 <= i < |b| ==> strip(b[i])
    requires t == [] || (!strip(t[0]) && !strip(t[|t| - 1]))
    ensures TrimEndWhere(TrimStartWhere(a + t + b, strip), strip) == t
  {
    hide TrimStartWhere, TrimEndWhere;
    assert a + t + b == a + (t + b);
    TrimStartSkips(a, t + b, strip);
    if t == [] {
      assert t + b == b + [];
      TrimStartSkips(b, [], strip);
      TrimStartKeeps([], strip);
      TrimEndKeeps([], strip);
    } else {
      assert (t + b)[0] == t[0];
      TrimStartKeeps(t + b, strip);
      TrimEndSkips(t, b, strip);
      TrimEndKeeps(t, strip);
    }
  }

  /** White space around a trimmed string is exactly what Trim removes. */
  lemma TrimPadded(a: string, t: string, b: string)
    requires forall i :: 0 <= i < |a| ==> IsWhiteSpace(a[i])
    requires forall i :: 0 <= i < |b| ==> IsWhiteSpace(b[i])
    requires IsTrimmed(t)
    ensures Trim(a + t + b) == t
  {
    TrimPaddedWhere(a, t, b, IsWhiteSpace);
  }

  /** Trim always yields a trimmed string, so trimming twice changes nothing. */
  lemma TrimIsTrimmed(s: string)
    ensures IsTrimmed(Trim(s))
    ensures Trim(Trim(s)) == Trim(s)
  {
    var u := TrimStartWhere(s, IsWhiteSpace);
    var t := TrimEndWhere(u, IsWhiteSpace);
    TrimStartWhereShape(s, IsWhiteSpace);
    TrimEndWhereShape(u, IsWhiteSpace);
    assert t == Trim(s);
    if t != [] {
      assert t == u[..|t|];
      assert t[0] == u[0];
      assert !IsWhiteSpace(t[0]);
      assert !IsWhiteSpace(t[|t| - 1]);
    }
    assert IsTrimmed(t);
    TrimPadded([], t, []);
    assert [] + t + [] == t;
  }

  function Tabs(n: nat): (r: string)
    ensures |r| == n && forall i :: 0 <= i < n ==> r[i] == '\t'
  {
    seq(n, _ => '\t')
  }

  predicate StartsWith(s: string, prefix: string) {
    |prefix| <= |s| && s[..|prefix|] == prefix
  }

  /** String.IndexOf(char): the first position holding c. */
  function IndexOfChar(s: string, c: char): (r: Option<nat>)
    ensures r.Some? ==> r.value < |s| && s[r.value] == c && c !in s[..r.value]
    ensures r.None? ==> c !in s
    decreases |s|
  {
    if s == [] then None
    else if s[0] == c then Some(0)
    else
      match IndexOfChar(s[1..], c)
      case None => None
      case Some(k) => Some(k + 1)
  }

  lemma {:induction false} IndexOfCharAfter(a: string, c: char, b: string)
    requires c !in a
    ensures IndexOfChar(a + [c] + b, c) == Some(|a|)
    decreases |a|
  {
    if a != [] {
      assert (a + [c] + b)[1..] == a[1..] + [c] + b;
      IndexOfCharAfter(a[1..], c, b);
    }
  }

  /** String.LastIndexOf(char): the last position holding c. */
  function LastIndexOfChar(s: string, c: char): (r: Option<nat>)
    ensures r.Some? ==> r.value < |s| && s[r.value] == c
    decreases |s|
  {
    if s == [] then None
    else if s[|s| - 1] == c then Some(|s| - 1)
    else LastIndexOfChar(s[..|s| - 1], c)
  }

  /** No c follows the position LastIndexOf finds, and it finds none only when s holds no c. */
  lemma {:induction false} LastIndexOfCharIsLast(s: string, c: char)
    ensures LastIndexOfChar(s, c).Some? ==> c !in s[LastIndexOfChar(s, c).value + 1..]
    ensures LastIndexOfChar(s, c).None? ==> c !in s
    decreases |s|
  {
    if s != [] && s[|s| - 1] != c {
      LastIndexOfCharIsLast(s[..|s| - 1], c);
      assert s == s[..|s| - 1] + [s[|s| - 1]];
      match LastIndexOfChar(s, c)
      case Some(k) =>
        assert s[k + 1..] == s[..|s| - 1][k + 1..] + [s[|s| - 1]];
      case None =>
    }
  }

  lemma {:induction false} LastIndexOfCharBefore(a: string, c: char, b: string)
    requires c !in b
    ensures LastIndexOfChar(a + [c] + b, c) == Some(|a|)
    decreases |b|
  {
    if b != [] {
      assert b[|b| - 1] in b;
      assert (a + [c] + b)[..|a + [c] + b| - 1] == a + [c] + b[..|b| - 1];
      LastIndexOfCharBefore(a, c, b[..|b| - 1]);
    }
  }

  /** String.Split(sep): the pieces between separators, empty pieces kept. */
  function Split(s: string, sep: char): (parts: seq<string>)
    ensures |parts| >= 1
    ensures forall i :: 0 <= i < |parts| ==> sep !in parts[i]
    decreases |s|
  {
    if s == [] then [""]
    else
      var rest := Split(s[1..], sep);
      if s[0] == sep then [""] + rest else [[s[0]] + rest[0]] + rest[1..]
  }

  /** String.Join(sep, parts). */
  function Join(parts: seq<string>, sep: char): string
    requires |parts| >= 1
    decreases |parts|
  {
    if |parts| == 1 then parts[0] else parts[0] + [sep] + Join(parts[1..], sep)
  }

  lemma {:induction false} SplitNoSeparator(s: string, sep: char)
    requires sep !in s
    ensures Split(s, sep) == [s]
    decreases |s|
  {
    if s != [] {
      SplitNoSeparator(s[1..], sep);
      assert [s[0]] + s[1..] == s;
    }
  }

  /** A separator cuts the text into the pieces of each side. */
  lemma {:induction false} SplitAtSeparator(a: string, b: string, sep: char)
    ensures Split(a + [sep] + b, sep) == Split(a, sep) + Split(b, sep)
    decreases |a|
  {
    var s := a + [sep] + b;
    if a == [] {
      assert s[1..] == b;
    } else {
      assert s[1..] == a[1..] + [sep] + b;
      SplitAtSeparator(a[1..], b, sep);
    }
  }

  lemma {:induction false} SplitJoin(parts: seq<string>, sep: char)
    requires |parts| >= 1
    requires forall i :: 0 <= i < |parts| ==> sep !in parts[i]
    ensures Split(Join(parts, sep), sep) == parts
    decreases |parts|
  {
    SplitNoSeparator(parts[0], sep);
    if |parts| > 1 {
      SplitJoin(parts[1..], sep);
      SplitAtSeparator(parts[0], Join(parts[1..], sep), sep);
      assert [parts[0]] + parts[1..] == parts;
    }
  }

  /** line.Split(' ').Last(): the text after the last space. */
  function LastToken(line: string): string {
    var parts := Split(line, ' ');
    parts[|parts| - 1]
  }

  lemma LastTokenAfterSpace(prefix: string, token: string)
    requires ' ' !in token
    ensures LastToken(prefix + " " + token) == token
  {
    SplitAtSeparator(prefix, token, ' ');
    SplitNoSeparator(token, ' ');
  }

  predicate IsDigit(c: char) {
    '0' <= c <= '9'
  }

  predicate AllDigits(s: string) {
    forall i :: 0 <= i < |s| ==> IsDigit(s[i])
  }

  function DigitChar(d: nat): (c: char)
    requires d < 10
    ensures IsDigit(c)
  {
    ('0' as int + d) as char
  }

  /** The value of a run of decimal digits, most significant first. */
  function DecimalValue(s: string): nat
    requires AllDigits(s)
    decreases |s|
  {
    if s == [] then 0 else DecimalValue(s[..|s| - 1]) * 10 + (s[|s| - 1] as int - '0' as int)
  }

  /** Int32.ToString() of a non-negative value: digits without leading zeros. */
  function DecimalString(n: nat): (s: string)
    ensures |s| >= 1 && AllDigits(s)
    ensures DecimalValue(s) == n
    decreases n
  {
    if n < 10 then [DigitChar(n)]
    else
      var s := DecimalString(n / 10) + [DigitChar(n % 10)];
      assert s[..|s| - 1] == DecimalString(n / 10);
      s
  }

  /** Custom numeric format "00...": at least width digits, zeros in front. */
  function PadLeftZeros(s: string, width: nat): (r: string)
    requires AllDigits(s)
    ensures AllDigits(r) && |r| == if |s| < width then width else |s|
    ensures DecimalValue(r) == DecimalValue(s)
    decreases width - |s|
  {
    if |s| >= width then s
    else
      LeadingZero(s);
      PadLeftZeros("0" + s, width)
  }

  lemma {:induction false} LeadingZero(s: string)
    requires AllDigits(s)
    ensures AllDigits("0" + s) && DecimalValue("0" + s) == DecimalValue(s)
    decreases |s|
  {
    if s != [] {
      assert ("0" + s)[..|s|] == "0" + s[..|s| - 1];
      LeadingZero(s[..|s| - 1]);
    }
  }

  /** The largest Int32, the bound Int32.Parse enforces. */
  const Int32Max: nat := 0x7FFF_FFFF
}
