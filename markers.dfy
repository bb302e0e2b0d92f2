/**
 * The line classifier: the six anchored marker patterns and the two value
 * extraction patterns of the text serializer, as explicit tests and scans.
 *   ^Project  ^EndProject  ^Global  ^EndGlobal($|\s)  ^GlobalSection  ^EndGlobalSection
 *   "([^"]*)"           the quoted values of a Project line
 *   \(.*\)|(?<== ).*    the parenthesised name and the scope of a GlobalSection line
 */
module Markers {
  import opened Wrappers
  import opened Text

  predicate IsProjectLine(line: string) { StartsWith(line, "Project") }

  predicate IsEndProjectLine(line: string) { StartsWith(line, "EndProject") }

  predicate IsGlobalLine(line: string) { StartsWith(line, "Global") }

  /** "EndGlobal" followed by the end of the line or a white-space character. */
  predicate IsEndGlobalLine(line: string) {
    StartsWith(line, "EndGlobal") && (|line| == 9 || IsWhiteSpace(line[9]))
  }

  predicate IsGlobalSectionLine(line: string) { StartsWith(line, "GlobalSection") }

  predicate IsEndGlobalSectionLine(line: string) { StartsWith(line, "EndGlobalSection") }

  predicate IsQuote(c: char) { c == '"' }

  predicate IsOpenParen(c: char) { c == '(' }

  predicate IsCloseParen(c: char) { c == ')' }

  /** A match of "([^"]*)": a quote, quote-free text, a quote. */
  predicate IsQuotedMatch(m: string) {
    |m| >= 2 && m[0] == '"' && m[|m| - 1] == '"' && '"' !in m[1..|m| - 1]
  }

  /** Regex.Matches with "([^"]*)": the quoted runs, left to right, quotes included. */
  function QuotedMatches(s: string): (ms: seq<string>)
    ensures forall i :: 0 <= i < |ms| ==> IsQuotedMatch(ms[i])
    decreases |s|
  {
    if s == [] then []
    else if s[0] == '"' then
      match IndexOfChar(s[1..], '"')
      case Some(k) =>
        assert s[1..k + 1] == s[1..][..k];
        [s[..k + 2]] + QuotedMatches(s[k + 2..])
      case None => QuotedMatches(s[1..])
    else QuotedMatches(s[1..])
  }

  /** match.Value.Trim('"') for every quoted match: the text between the quotes. */
  function ProjectLineValues(line: string): (values: seq<string>)
    ensures |values| == |QuotedMatches(line)|
    ensures forall i :: 0 <= i < |values| ==>
      values[i] == QuotedMatches(line)[i][1..|QuotedMatches(line)[i]| - 1] && '"' !in values[i]
  {
    var ms := QuotedMatches(line);
    seq(|ms|, i requires 0 <= i < |ms| => TrimQuotes(ms[i]))
  }

  /** Trim('"') of a quoted match. */
  function TrimQuotes(m: string): (value: string)
    requires IsQuotedMatch(m)
    ensures value == m[1..|m| - 1]
  {
    QuotedValue(m);
    TrimEndWhere(TrimStartWhere(m, IsQuote), IsQuote)
  }

  /** Trimming the quotes off a quoted match leaves exactly the text inside. */
  lemma QuotedValue(m: string)
    requires IsQuotedMatch(m)
    ensures TrimEndWhere(TrimStartWhere(m, IsQuote), IsQuote) == m[1..|m| - 1]
  {
    var t := m[1..|m| - 1];
    assert m == [m[0]] + t + [m[|m| - 1]];
    if t != [] {
      assert t[0] in t && t[|t| - 1] in t;
    }
    TrimPaddedWhere([m[0]], t, [m[|m| - 1]], IsQuote);
  }

  /**
   * The next match of \(.*\)|(?<== ).* that starts at or after p, as its
   * start and end. At each position the first alternative is tried first:
   * '(' up to close, the LAST ')' of the line. The second takes the rest of
   * the line after "= ".
   */
  function NextSectionValue(s: string, p: nat, close: Option<nat>): (r: Option<(nat, nat)>)
    requires close.Some? ==> close.value < |s|
    ensures r.Some? ==> p <= r.value.0 <= r.value.1 <= |s|
    decreases |s| + 1 - p
  {
    if p > |s| then None
    else if p < |s| && s[p] == '(' && close.Some? && p < close.value then Some((p, close.value + 1))
    else if p >= 2 && s[p - 2] == '=' && s[p - 1] == ' ' then Some((p, |s|))
    else NextSectionValue(s, p + 1, close)
  }

  /**
   * Regex.Matches(line, ...)[0] and [1]: the first two matches, or None when
   * the line has fewer. The match collection is lazy, so only these two are
   * ever looked for. After an empty match (only possible at the end of the
   * line) the search moves one position on.
   */
  function SectionValues(s: string): Option<(string, string)> {
    var close := LastIndexOfChar(s, ')');
    match NextSectionValue(s, 0, close)
    case None => None
    case Some(first) =>
      var from := if first.0 == first.1 then first.1 + 1 else first.1;
      match NextSectionValue(s, from, close)
      case None => None
      case Some(second) => Some((s[first.0..first.1], s[second.0..second.1]))
  }

  /** matches[0].Value.TrimStart('(').TrimEnd(')'). */
  function SectionName(m: string): (name: string)
    ensures name == [] || (name[0] != '(' && name[|name| - 1] != ')')
  {
    var inner := TrimStartWhere(m, IsOpenParen);
    var name := TrimEndWhere(inner, IsCloseParen);
    TrimStartWhereShape(m, IsOpenParen);
    TrimEndWhereShape(inner, IsCloseParen);
    assert name != [] ==> name[0] == inner[0];
    name
  }
}
