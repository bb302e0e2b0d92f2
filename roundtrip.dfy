/**
 * Reading back what the writer wrote. The main result, WriteThenParse, says
 * that Parse(Render(Write(d))) gives d back for every well-formed document d,
 * except that the format version is cut to its major and minor parts, which
 * is all the writer puts on the format-version line.
 */
module RoundTrip {
  import opened Wrappers
  import opened Text
  import opened Guids
  import opened Versions
  import opened Nestings
  import opened Utilities
  import opened Sections
  import opened Model
  import opened Markers
  import opened Grammar

  // ------------------------------------------------------------ project lines

  /** Text without quotes produces no match of "([^"]*)". */
  lemma {:induction false} QuotedMatchesSkip(a: string, s: string)
    requires '"' !in a
    ensures QuotedMatches(a + s) == QuotedMatches(s)
    decreases |a|
  {
    if a == [] {
      assert a + s == s;
    } else {
      assert a[0] in a;
      assert (a + s)[0] == a[0];
      assert (a + s)[1..] == a[1..] + s;
      QuotedMatchesSkip(a[1..], s);
    }
  }

  /** A quoted value is the next match. */
  lemma QuotedMatchesQuoted(x: string, s: string)
    requires '"' !in x
    ensures QuotedMatches(Quoted(x) + s) == [Quoted(x)] + QuotedMatches(s)
  {
    var t := Quoted(x) + s;
    assert t[1..] == x + ['"'] + s;
    IndexOfCharAfter(x, '"', s);
    assert t[..|x| + 2] == Quoted(x);
    assert t[|x| + 2..] == s;
  }

  lemma QuotedValueOf(x: string)
    requires '"' !in x
    ensures TrimEndWhere(TrimStartWhere(Quoted(x), IsQuote), IsQuote) == x
  {
    assert Quoted(x)[1..|Quoted(x)| - 1] == x;
    QuotedValue(Quoted(x));
  }

  /** GUID text in "B" form holds no quote. */
  lemma GuidTextHasNoQuote(g: Guid)
    ensures '"' !in ToStringB(g)
  {
    var t := ToStringB(g);
    ToStringBShape(g);
    assert forall i :: 0 <= i < |t| ==> t[i] != '"';
  }

  /** A quoted value followed by quote-free text is the next match. */
  lemma QuotedThenSkip(x: string, sep: string, rest: string)
    requires '"' !in x && '"' !in sep
    ensures QuotedMatches(Quoted(x) + (sep + rest)) == [Quoted(x)] + QuotedMatches(rest)
  {
    QuotedMatchesQuoted(x, sep + rest);
    QuotedMatchesSkip(sep, rest);
  }

  /** The matches of "([^"]*)" in a written Project line are its four quoted fields. */
  lemma ProjectLineMatches(t: string, n: string, f: string, g: string)
    requires '"' !in t && '"' !in n && '"' !in f && '"' !in g
    ensures QuotedMatches("Project(" + (Quoted(t) + (") = " + (Quoted(n) + (", " + (Quoted(f) + (", " + Quoted(g))))))))
      == [Quoted(t), Quoted(n), Quoted(f), Quoted(g)]
  {
    var x2 := Quoted(f) + (", " + Quoted(g));
    var x1 := Quoted(n) + (", " + x2);
    var x0 := Quoted(t) + (") = " + x1);
    assert QuotedMatches("Project(" + x0) == QuotedMatches(x0) by {
      QuotedMatchesSkip("Project(", x0);
    }
    assert QuotedMatches(x0) == [Quoted(t)] + QuotedMatches(x1) by {
      QuotedThenSkip(t, ") = ", x1);
    }
    assert QuotedMatches(x1) == [Quoted(n)] + QuotedMatches(x2) by {
      QuotedThenSkip(n, ", ", x2);
    }
    assert QuotedMatches(x2) == [Quoted(f)] + QuotedMatches(Quoted(g)) by {
      QuotedThenSkip(f, ", ", Quoted(g));
    }
    assert QuotedMatches(Quoted(g)) == [Quoted(g)] by {
      QuotedMatchesQuoted(g, []);
      assert Quoted(g) + [] == Quoted(g);
    }
  }

  /** The four quoted values of a written Project line are its four fields. */
  lemma ProjectLineValuesOf(p: ProjectReference)
    requires '"' !in p.projectName && '"' !in p.projectFileRelativePathValue
    ensures ProjectLineValues(ProjectLineText(p))
      == [ToStringB(p.projectTypeGuid), p.projectName, p.projectFileRelativePathValue, ToStringB(p.projectGuid)]
  {
    var t, n, f, g := ToStringB(p.projectTypeGuid), p.projectName, p.projectFileRelativePathValue, ToStringB(p.projectGuid);
    GuidTextHasNoQuote(p.projectTypeGuid);
    GuidTextHasNoQuote(p.projectGuid);
    ProjectLineMatches(t, n, f, g);
    var ms := QuotedMatches(ProjectLineText(p));
    assert ms == [Quoted(t), Quoted(n), Quoted(f), Quoted(g)];
    var vs := ProjectLineValues(ProjectLineText(p));
    QuotedValueOf(t);
    assert vs[0] == t;
    QuotedValueOf(n);
    assert vs[1] == n;
    QuotedValueOf(f);
    assert vs[2] == f;
    QuotedValueOf(g);
    assert vs[3] == g;
    assert |vs| == 4;
    assert vs == [t, n, f, g];
  }

  // ---------------------------------------------------------- section headers

  /** Neither alternative of \(.*\)|(?<== ).* can start at position r. */
  predicate NoMatchAt(s: string, r: nat)
    requires r < |s|
  {
    s[r] != '(' && !(r >= 2 && s[r - 2] == '=' && s[r - 1] == ' ')
  }

  /** Positions where no alternative can start are passed over. */
  lemma {:induction false} NextSectionValueSkip(s: string, p: nat, q: nat, close: Option<nat>)
    requires p <= q <= |s| && (close.Some? ==> close.value < |s|)
    requires forall r :: p <= r < q ==> NoMatchAt(s, r)
    ensures NextSectionValue(s, p, close) == NextSectionValue(s, q, close)
    decreases q - p
  {
    if p < q {
      assert NoMatchAt(s, p);
      NextSectionValueSkip(s, p + 1, q, close);
    }
  }

  /** The written header text: "GlobalSection(" + name + ") = " + scope. */
  function HeaderText(name: string, scope: string): string {
    "GlobalSection(" + name + ") = " + scope
  }

  /** Where the written header text has its '(', its ')' and its scope. */
  lemma HeaderTextShape(name: string, scope: string)
    requires ')' !in scope
    ensures var h, m := HeaderText(name, scope), |name|;
      && |h| == 18 + m + |scope|
      && '(' !in h[..13] && '=' !in h[..13]
      && h[13] == '(' && h[13..15 + m] == "(" + name + ")"
      && h[14 + m] == ')' && ')' !in h[15 + m..]
      && h[15 + m] == ' ' && h[16 + m] == '=' && h[17 + m] == ' '
      && h[18 + m..] == scope
  {
    var h, m := HeaderText(name, scope), |name|;
    assert h[..13] == "GlobalSection";
    assert h[14 + m..18 + m] == ") = ";
    assert h[15 + m..] == " = " + scope;
  }

  /** The first match of a header line is the parenthesised name, up to the last ')'. */
  lemma HeaderFirstValue(name: string, scope: string)
    requires ')' !in scope
    ensures var h := HeaderText(name, scope);
      && LastIndexOfChar(h, ')') == Some(14 + |name|)
      && NextSectionValue(h, 0, Some(14 + |name|)) == Some((13, 15 + |name|))
  {
    var h, m := HeaderText(name, scope), |name|;
    HeaderTextShape(name, scope);
    assert h == h[..14 + m] + [')'] + h[15 + m..];
    LastIndexOfCharBefore(h[..14 + m], ')', h[15 + m..]);
    forall r | 0 <= r < 13 ensures NoMatchAt(h, r) {
      assert h[r] in h[..13];
      assert r >= 2 ==> h[r - 2] in h[..13];
    }
    NextSectionValueSkip(h, 0, 13, Some(14 + m));
  }

  /** The second match of a header line is the scope after "= ". */
  lemma HeaderSecondValue(name: string, scope: string)
    requires ')' !in scope && scope != [] && scope[0] != '('
    ensures var h := HeaderText(name, scope);
      NextSectionValue(h, 15 + |name|, Some(14 + |name|)) == Some((18 + |name|, |h|))
  {
    var h, m := HeaderText(name, scope), |name|;
    HeaderTextShape(name, scope);
    assert h[18 + m] == scope[0];
    assert NoMatchAt(h, 15 + m) && NoMatchAt(h, 16 + m) && NoMatchAt(h, 17 + m);
    NextSectionValueSkip(h, 15 + m, 18 + m, Some(14 + m));
  }

  /** The two values of a header line: the parenthesised name, then the scope. */
  lemma HeaderValues(name: string, scope: string)
    requires ')' !in scope && scope != [] && scope[0] != '('
    ensures SectionValues(HeaderText(name, scope)) == Some(("(" + name + ")", scope))
  {
    var h, m := HeaderText(name, scope), |name|;
    HeaderTextShape(name, scope);
    HeaderFirstValue(name, scope);
    HeaderSecondValue(name, scope);
    var close := LastIndexOfChar(h, ')');
    assert close == Some(14 + m);
    var first := NextSectionValue(h, 0, close);
    assert first == Some((13, 15 + m));
    var second := NextSectionValue(h, 15 + m, close);
    assert second == Some((18 + m, |h|));
    assert h[13..15 + m] == "(" + name + ")";
    assert h[18 + m..|h|] == scope;
  }

  /** The values of a written section header: the parenthesised name, then the scope. */
  lemma SectionHeaderValues(section: GlobalSection)
    ensures SectionValues(SectionHeaderText(section))
      == Some(("(" + section.name + ")", ToStringStandard(section.preOrPostSolution)))
  {
    var scope := ToStringStandard(section.preOrPostSolution);
    assert SectionHeaderText(section) == HeaderText(section.name, scope);
    ToStringStandardCases(section.preOrPostSolution);
    assert ')' !in scope && scope[0] != '(';
    HeaderValues(section.name, scope);
  }

  /** TrimStart('(').TrimEnd(')') recovers a name that does not itself start with '(' or end with ')'. */
  lemma SectionNameOf(name: string)
    requires name == [] || (name[0] != '(' && name[|name| - 1] != ')')
    ensures SectionName("(" + name + ")") == name
  {
    assert TrimStartWhere("(" + name + ")", IsOpenParen) == name + ")" by {
      assert "(" + name + ")" == "(" + (name + ")");
      TrimStartSkips("(", name + ")", IsOpenParen);
      TrimStartKeeps(name + ")", IsOpenParen);
    }
    assert TrimEndWhere(name + ")", IsCloseParen) == name by {
      TrimEndSkips(name, ")", IsCloseParen);
      TrimEndKeeps(name, IsCloseParen);
    }
  }

  // ------------------------------------------------------------- well-formed

  /** A reference the reader can take back: the two quoted text fields are single lines without a quote. */
  predicate WellFormedReference(p: ProjectReference) {
    && '"' !in p.projectName && '"' !in p.projectFileRelativePathValue
    && IsSingleLine(p.projectName) && IsSingleLine(p.projectFileRelativePathValue)
  }

  /**
   * A section the reader can take back: its name is a single line that
   * survives TrimStart('(') and TrimEnd(')'), its kind is the one its name
   * selects, and its general content lines are single lines that survive
   * Trim and do not close the section early.
   */
  predicate WellFormedSection(s: GlobalSection) {
    && IsSingleLine(s.name)
    && (s.name == [] || (s.name[0] != '(' && s.name[|s.name| - 1] != ')'))
    && (s.content.NestedProjects? <==> s.name == NestedProjectsGlobalSectionName)
    && (s.content.General? ==> ReadableContent(s.content.lines))
  }

  /**
   * A document the writer writes and the reader reads back: all header
   * fields set, the moniker a single line, all entries well formed.
   */
  predicate WellFormed(d: Document) {
    && d.formatVersion.Some? && d.formatVersion.value.Valid()
    && d.visualStudioMoniker.Some? && IsSingleLine(d.visualStudioMoniker.value)
    && d.visualStudioVersion.Some? && d.visualStudioVersion.value.Valid()
    && d.minimumVisualStudioVersion.Some? && d.minimumVisualStudioVersion.value.Valid()
    && WellFormedReferences(d.projectReferences)
    && WellFormedSections(d.globalSections)
  }

  predicate WellFormedReferences(references: seq<ProjectReference>)
    decreases |references|
  {
    references != [] ==> WellFormedReference(references[0]) && WellFormedReferences(references[1..])
  }

  predicate WellFormedSections(sections: seq<GlobalSection>)
    decreases |sections|
  {
    sections != [] ==> WellFormedSection(sections[0]) && WellFormedSections(sections[1..])
  }

  // ----------------------------------------------------------- rendered lines

  /** The lines from k on are the rendering of block, one line per output line. */
  predicate RenderedAt(lines: seq<string>, k: nat, block: seq<OutputLine>)
    decreases |block|
  {
    && k + |block| <= |lines|
    && (block != [] ==>
          lines[k] == Tabs(block[0].depth) + block[0].text && RenderedAt(lines, k + 1, block[1..]))
  }

  lemma {:induction false} RenderedAtSplit(lines: seq<string>, k: nat, a: seq<OutputLine>, b: seq<OutputLine>)
    requires RenderedAt(lines, k, a + b)
    ensures RenderedAt(lines, k, a) && RenderedAt(lines, k + |a|, b)
    decreases |a|
  {
    if a == [] {
      assert a + b == b;
    } else {
      assert (a + b)[0] == a[0] && (a + b)[1..] == a[1..] + b;
      RenderedAtSplit(lines, k + 1, a[1..], b);
    }
  }

  /** Render lays its output lines out from index 0 on. */
  lemma {:induction false} RenderedFrom(out: seq<OutputLine>, k: nat)
    requires k <= |out|
    ensures RenderedAt(Render(out), k, out[k..])
    decreases |out| - k
  {
    if k < |out| {
      RenderedFrom(out, k + 1);
      assert out[k..][1..] == out[k + 1..];
    }
  }

  /** Trim takes off the indentation of a line whose text is trimmed. */
  lemma TrimIndented(depth: nat, t: string)
    requires IsTrimmed(t)
    ensures Trim(Tabs(depth) + t) == t
  {
    TrimPadded(Tabs(depth), t, []);
    assert Tabs(depth) + t + [] == Tabs(depth) + t;
  }

  // ------------------------------------------------------------ trimmed lines

  /** The texts of written lines, without their indentation. */
  function Texts(out: seq<OutputLine>): (texts: seq<string>)
    ensures |texts| == |out|
  {
    seq(|out|, j requires 0 <= j < |out| => out[j].text)
  }

  lemma TextsAt(out: seq<OutputLine>, j: nat)
    requires j < |out|
    ensures Texts(out)[j] == out[j].text
  {
  }

  lemma TextsAppend(a: seq<OutputLine>, b: seq<OutputLine>)
    ensures Texts(a + b) == Texts(a) + Texts(b)
  {
    assert forall j :: 0 <= j < |a + b| ==> Texts(a + b)[j] == (Texts(a) + Texts(b))[j];
  }

  /** Texts that Trim leaves alone. */
  predicate AllTrimmed(texts: seq<string>) {
    forall j :: 0 <= j < |texts| ==> IsTrimmed(texts[j])
  }

  /** The trimmed lines from k on are texts. */
  predicate LinesAt(lines: seq<string>, k: nat, texts: seq<string>)
    decreases |texts|
  {
    && k + |texts| <= |lines|
    && (texts != [] ==> lines[k] == texts[0] && LinesAt(lines, k + 1, texts[1..]))
  }

  lemma {:induction false} LinesAtSplit(lines: seq<string>, k: nat, a: seq<string>, b: seq<string>)
    requires LinesAt(lines, k, a + b)
    ensures LinesAt(lines, k, a) && LinesAt(lines, k + |a|, b)
    decreases |a|
  {
    if a == [] {
      assert a + b == b;
    } else {
      assert (a + b)[0] == a[0] && (a + b)[1..] == a[1..] + b;
      LinesAtSplit(lines, k + 1, a[1..], b);
    }
  }

  /** Trimming rendered lines whose texts Trim leaves alone gives the texts back. */
  lemma {:induction false} TrimmedRendered(lines: seq<string>, k: nat, out: seq<OutputLine>)
    requires RenderedAt(lines, k, out) && AllTrimmed(Texts(out))
    ensures LinesAt(TrimmedLines(lines), k, Texts(out))
    decreases |out|
  {
    if out != [] {
      TextsAt(out, 0);
      TrimIndented(out[0].depth, out[0].text);
      assert Texts(out)[1..] == Texts(out[1..]) by {
        assert forall j :: 0 <= j < |out| - 1 ==> Texts(out)[1..][j] == Texts(out[1..])[j];
      }
      TrimmedRendered(lines, k + 1, out[1..]);
    }
  }

  // ------------------------------------------------------------ section loops

  /** General content lines that Trim leaves alone and that do not close their section. */
  predicate ReadableContent(content: seq<string>)
    decreases |content|
  {
    content != [] ==>
      && IsTrimmed(content[0]) && IsSingleLine(content[0]) && !IsEndGlobalSectionLine(content[0])
      && ReadableContent(content[1..])
  }

  lemma {:induction false} ReadableContentTrimmed(content: seq<string>)
    requires ReadableContent(content)
    ensures AllTrimmed(content)
    decreases |content|
  {
    if content != [] {
      ReadableContentTrimmed(content[1..]);
      assert forall j :: 1 <= j < |content| ==> content[j] == content[1..][j - 1];
    }
  }

  /**
   * Appending a nonempty sequence one element at a time. Kept as a lemma of
   * its own: proved inline in the loop round trips below, the sequence
   * axioms meet those lemmas' whole context and cost several times as much.
   */
  lemma AppendFirstRest<T>(a: seq<T>, c: seq<T>)
    requires c != []
    ensures a + [c[0]] + c[1..] == a + c
  {
  }

  /** The general-section loop reads back content lines up to EndGlobalSection at index end. */
  lemma {:induction false} GeneralLinesRoundTrip(lines: seq<string>, k: nat, section: GlobalSection,
                                                content: seq<string>, end: nat)
    requires section.content.General?
    requires LinesAt(lines, k, content) && ReadableContent(content)
    requires end == k + |content| && end < |lines| && IsEndGlobalSectionLine(lines[end])
    ensures GeneralLinesLoop(lines, k, section)
      == Success((section.(content := General(section.content.lines + content)), end))
    decreases |content|
  {
    if content == [] {
      assert section.(content := General(section.content.lines + content)) == section;
    } else {
      GeneralLinesRoundTrip(lines, k + 1, AddLine(section, content[0]), content[1..], end);
      AppendFirstRest(section.content.lines, content);
    }
  }

  /** A written nesting line is trimmed and is no EndGlobalSection line. */
  lemma NestingLineShape(n: ProjectNesting)
    ensures IsTrimmed(SerializeNesting(n)) && !IsEndGlobalSectionLine(SerializeNesting(n))
  {
    var line := SerializeNesting(n);
    SerializeNestingShape(n);
    assert line[0] == '{' && line[|line| - 1] == '}';
    assert line[..16][0] == '{';
  }

  /** Texts as the nesting loop sees them: none closes the section and each deserializes to its nesting. */
  predicate NestingTextsRead(texts: seq<string>, nestings: seq<ProjectNesting>)
    decreases |nestings|
  {
    && |texts| == |nestings|
    && (nestings != [] ==>
          && !IsEndGlobalSectionLine(texts[0])
          && DeserializeNesting(texts[0]) == Some(nestings[0])
          && NestingTextsRead(texts[1..], nestings[1..]))
  }

  /** A written nesting line does not close the section and reads back as its nesting. */
  lemma NestingLineRead(line: string, n: ProjectNesting)
    requires line == SerializeNesting(n)
    ensures !IsEndGlobalSectionLine(line) && DeserializeNesting(line) == Some(n)
  {
    NestingLineShape(n);
    DeserializeSerializeNesting(n);
  }

  lemma SerializeNestingsFirstRest(nestings: seq<ProjectNesting>)
    requires nestings != []
    ensures SerializeNestings(nestings)[0] == SerializeNesting(nestings[0])
    ensures SerializeNestings(nestings)[1..] == SerializeNestings(nestings[1..])
  {
  }

  /** The written nesting lines read back as the nestings they were written from. */
  lemma {:induction false} NestingTextsOf(nestings: seq<ProjectNesting>)
    ensures NestingTextsRead(SerializeNestings(nestings), nestings)
    decreases |nestings|
  {
    if nestings != [] {
      SerializeNestingsFirstRest(nestings);
      NestingLineRead(SerializeNestings(nestings)[0], nestings[0]);
      NestingTextsOf(nestings[1..]);
    }
  }

  /** The written nesting lines are trimmed. */
  lemma NestingTextsTrimmed(nestings: seq<ProjectNesting>)
    ensures AllTrimmed(SerializeNestings(nestings))
  {
    SerializeNestingsAt(nestings);
    forall j | 0 <= j < |nestings| ensures IsTrimmed(SerializeNestings(nestings)[j]) {
      NestingLineShape(nestings[j]);
    }
  }

  /** The nesting-section loop reads back nesting lines up to EndGlobalSection at index end. */
  lemma {:induction false} NestingsRoundTrip(lines: seq<string>, k: nat, section: GlobalSection,
                                            texts: seq<string>, nestings: seq<ProjectNesting>, end: nat)
    requires section.content.NestedProjects?
    requires LinesAt(lines, k, texts) && NestingTextsRead(texts, nestings)
    requires end == k + |nestings| && end < |lines| && IsEndGlobalSectionLine(lines[end])
    ensures NestingsLoop(lines, k, section)
      == Success((section.(content := NestedProjects(section.content.projectNestings + nestings)), end))
    decreases |nestings|
  {
    if nestings == [] {
      assert section.(content := NestedProjects(section.content.projectNestings + nestings)) == section;
    } else {
      NestingsRoundTrip(lines, k + 1, AddProjectNesting(section, nestings[0]), texts[1..], nestings[1..], end);
      AppendFirstRest(section.content.projectNestings, nestings);
    }
  }

  // ---------------------------------------------------------------- sections

  /** A header line as DeserializeGlobal sees it: it gives the section's name and scope. */
  predicate HeaderReads(line: string, section: GlobalSection) {
    && IsGlobalSectionLine(line)
    && SectionValues(line).Some?
    && SectionName(SectionValues(line).value.0) == section.name
    && ToPreOrPostSolution(SectionValues(line).value.1) == Some(section.preOrPostSolution)
  }

  /** A written section header is trimmed, is a GlobalSection line, and gives back the name and scope. */
  lemma SectionHeaderRead(section: GlobalSection)
    requires section.name == [] || (section.name[0] != '(' && section.name[|section.name| - 1] != ')')
    ensures IsTrimmed(SectionHeaderText(section)) && HeaderReads(SectionHeaderText(section), section)
  {
    var scope := ToStringStandard(section.preOrPostSolution);
    assert SectionHeaderText(section) == HeaderText(section.name, scope);
    HeaderTextTrimmed(section.name, scope);
    SectionHeaderValues(section);
    SectionNameOf(section.name);
    ScopeRoundTrip(section.preOrPostSolution);
  }

  /** A header text starts with "GlobalSection" and, when its scope ends in no white space, is trimmed. */
  lemma HeaderTextTrimmed(name: string, scope: string)
    requires scope != [] && !IsWhiteSpace(scope[|scope| - 1])
    ensures IsTrimmed(HeaderText(name, scope)) && IsGlobalSectionLine(HeaderText(name, scope))
  {
    var h := HeaderText(name, scope);
    assert h == "GlobalSection(" + name + ") = " + scope;
    assert h[..13] == "GlobalSection";
    assert h[|h| - 1] == scope[|scope| - 1];
  }

  /** A section's written lines without their indentation: header, content, EndGlobalSection. */
  function SectionTexts(section: GlobalSection): (texts: seq<string>)
    ensures |texts| == |ContentLines(section)| + 2
  {
    [SectionHeaderText(section)] + ContentLines(section) + ["EndGlobalSection"]
  }

  /** The three parts of a section's texts standing at i: header, content, EndGlobalSection. */
  lemma SectionTextsParts(lines: seq<string>, i: nat, section: GlobalSection)
    requires LinesAt(lines, i, SectionTexts(section))
    ensures i + |ContentLines(section)| + 1 < |lines|
    ensures lines[i] == SectionHeaderText(section)
    ensures LinesAt(lines, i + 1, ContentLines(section))
    ensures lines[i + 1 + |ContentLines(section)|] == "EndGlobalSection"
  {
    var head, body, tail := [SectionHeaderText(section)], ContentLines(section), ["EndGlobalSection"];
    assert SectionTexts(section) == (head + body) + tail;
    LinesAtSplit(lines, i, head + body, tail);
    LinesAtSplit(lines, i, head, body);
  }

  /**
   * A section as DeserializeGlobal meets it at trimmed line i: the header
   * gives its name and scope, and the loop for its kind reads its content up
   * to the EndGlobalSection line.
   */
  predicate SectionReadable(lines: seq<string>, i: nat, section: GlobalSection) {
    && i + |ContentLines(section)| + 1 < |lines|
    && HeaderReads(lines[i], section)
    && (section.content.General? ==>
          GeneralLinesLoop(lines, i + 1, NewGeneralSection(section.name, section.preOrPostSolution))
            == Success((section, i + |ContentLines(section)| + 1)))
    && (section.content.NestedProjects? ==>
          NestingsLoop(lines, i + 1, NewNestedProjectsSection(section.name, section.preOrPostSolution))
            == Success((section, i + |ContentLines(section)| + 1)))
  }

  /** DeserializeGlobal reads a readable section back, ending on its EndGlobalSection line. */
  lemma ReadSectionAt(lines: seq<string>, i: nat, section: GlobalSection)
    requires WellFormedSection(section) && SectionReadable(lines, i, section)
    ensures ReadSection(lines, i) == Success((section, i + |ContentLines(section)| + 1))
  {
  }

  lemma WrittenGeneralSection(lines: seq<string>, i: nat, section: GlobalSection)
    requires section.content.General? && WellFormedSection(section)
    requires LinesAt(lines, i, SectionTexts(section))
    ensures SectionReadable(lines, i, section)
  {
    hide HeaderReads, GeneralLinesLoop, SectionHeaderText, SectionTexts;
    var start := NewGeneralSection(section.name, section.preOrPostSolution);
    SectionTextsParts(lines, i, section);
    SectionHeaderRead(section);
    assert start.(content := General(start.content.lines + section.content.lines)) == section;
    GeneralLinesRoundTrip(lines, i + 1, start, section.content.lines, i + |section.content.lines| + 1);
  }

  lemma WrittenNestedSection(lines: seq<string>, i: nat, section: GlobalSection)
    requires section.content.NestedProjects? && WellFormedSection(section)
    requires LinesAt(lines, i, SectionTexts(section))
    ensures SectionReadable(lines, i, section)
  {
    hide HeaderReads, NestingsLoop, SectionHeaderText, SectionTexts, SerializeNestings, GeneralLinesLoop, LinesAt,
      NestingTextsRead;
    var start := NewNestedProjectsSection(section.name, section.preOrPostSolution);
    var nestings := section.content.projectNestings;
    SectionTextsParts(lines, i, section);
    SectionHeaderRead(section);
    NestingTextsOf(nestings);
    assert start.(content := NestedProjects(start.content.projectNestings + nestings)) == section;
    NestingsRoundTrip(lines, i + 1, start, SerializeNestings(nestings), nestings, i + |nestings| + 1);
  }

  /** The written texts of a well-formed section are what DeserializeGlobal expects. */
  lemma WrittenSectionReadable(lines: seq<string>, i: nat, section: GlobalSection)
    requires WellFormedSection(section) && LinesAt(lines, i, SectionTexts(section))
    ensures SectionReadable(lines, i, section) && !IsEndGlobalLine(lines[i])
  {
    hide SectionReadable;
    if section.content.NestedProjects? {
      WrittenNestedSection(lines, i, section);
    } else {
      WrittenGeneralSection(lines, i, section);
    }
    SectionTextsParts(lines, i, section);
    SectionHeaderRead(section);
    GlobalSectionIsNotEndGlobal(lines[i]);
  }

  // ------------------------------------------------------------ Global block

  /** The texts of the written sections, one section after the other. */
  function SectionsTexts(sections: seq<GlobalSection>): seq<string>
    decreases |sections|
  {
    if sections == [] then [] else SectionTexts(sections[0]) + SectionsTexts(sections[1..])
  }

  /** The number of lines the sections take, each with its header and EndGlobalSection. */
  function SectionsSpan(sections: seq<GlobalSection>): nat
    decreases |sections|
  {
    if sections == [] then 0 else |ContentLines(sections[0])| + 2 + SectionsSpan(sections[1..])
  }

  lemma {:induction false} SectionsTextsLength(sections: seq<GlobalSection>)
    ensures |SectionsTexts(sections)| == SectionsSpan(sections)
    decreases |sections|
  {
    if sections != [] {
      SectionsTextsLength(sections[1..]);
    }
  }

  /** The written section header is no EndGlobal line. */
  lemma GlobalSectionIsNotEndGlobal(line: string)
    requires IsGlobalSectionLine(line)
    ensures !IsEndGlobalLine(line)
  {
    assert line[..13][0] == 'G';
  }

  /**
   * The sections as the section loop sees them from trimmed line i:
   * DeserializeGlobal reads each in turn, none starts on an EndGlobal line,
   * and EndGlobal follows the last.
   */
  predicate SectionsReadAt(lines: seq<string>, i: nat, sections: seq<GlobalSection>)
    decreases |sections|
  {
    && i < |lines|
    && (sections == [] ==> IsEndGlobalLine(lines[i]))
    && (sections != [] ==>
          && !IsEndGlobalLine(lines[i])
          && WellFormedSection(sections[0]) && SectionReadable(lines, i, sections[0])
          && SectionsReadAt(lines, i + |ContentLines(sections[0])| + 1 + 1, sections[1..]))
  }

  /** The section loop reads the sections back and stops on the EndGlobal line after them. */
  lemma {:induction false} SectionsRoundTrip(lines: seq<string>, i: nat, acc: seq<GlobalSection>,
                                            sections: seq<GlobalSection>)
    requires SectionsReadAt(lines, i, sections)
    ensures SectionsLoop(lines, i, acc) == Success((acc + sections, i + SectionsSpan(sections)))
    decreases |sections|
  {
    hide ReadSection, SectionReadable;
    if sections == [] {
      assert acc + sections == acc;
    } else {
      var end := i + |ContentLines(sections[0])| + 1;
      ReadSectionAt(lines, i, sections[0]);
      SectionsRoundTrip(lines, end + 1, acc + [sections[0]], sections[1..]);
      AppendFirstRest(acc, sections);
    }
  }

  /** The written sections, followed by EndGlobal, are what the section loop expects. */
  lemma {:induction false} WrittenSections(lines: seq<string>, i: nat, sections: seq<GlobalSection>)
    requires WellFormedSections(sections)
    requires LinesAt(lines, i, SectionsTexts(sections) + ["EndGlobal"])
    ensures SectionsReadAt(lines, i, sections)
    decreases |sections|
  {
    hide SectionReadable, SectionTexts;
    if sections == [] {
      assert SectionsTexts(sections) + ["EndGlobal"] == ["EndGlobal"];
    } else {
      var first := SectionTexts(sections[0]);
      var rest := SectionsTexts(sections[1..]) + ["EndGlobal"];
      assert SectionsTexts(sections) + ["EndGlobal"] == first + rest;
      LinesAtSplit(lines, i, first, rest);
      WrittenSectionReadable(lines, i, sections[0]);
      WrittenSections(lines, i + |first|, sections[1..]);
    }
  }

  /** The texts of the written Global block. */
  lemma TextsIndented(texts: seq<string>, depth: nat)
    ensures Texts(Indented(texts, depth)) == texts
  {
  }

  lemma TextsSectionLines(section: GlobalSection, depth: nat)
    ensures Texts(SectionLines(section, depth)) == SectionTexts(section)
  {
    var head, body, tail := [OutputLine(depth, SectionHeaderText(section))],
      Indented(ContentLines(section), depth + 1), [OutputLine(depth, "EndGlobalSection")];
    TextsAppend(head + body, tail);
    TextsAppend(head, body);
    TextsIndented(ContentLines(section), depth + 1);
  }

  lemma {:induction false} TextsSectionsLines(sections: seq<GlobalSection>, depth: nat)
    ensures Texts(SectionsLines(sections, depth)) == SectionsTexts(sections)
    decreases |sections|
  {
    if sections != [] {
      TextsAppend(SectionLines(sections[0], depth), SectionsLines(sections[1..], depth));
      TextsSectionLines(sections[0], depth);
      TextsSectionsLines(sections[1..], depth);
    }
  }

  /** The Global line comes first; stated apart because GlobalsTrimmed hides the writer's functions. */
  lemma GlobalsLinesFirst(sections: seq<GlobalSection>)
    ensures GlobalsLines(sections)[0] == OutputLine(0, "Global")
  {
  }

  lemma TextsGlobalsLines(sections: seq<GlobalSection>)
    ensures Texts(GlobalsLines(sections)) == ["Global"] + SectionsTexts(sections) + ["EndGlobal"]
  {
    hide SectionsLines, SectionsTexts;
    var body := SectionsLines(sections, 1);
    TextsAppend([OutputLine(0, "Global")] + body, [OutputLine(0, "EndGlobal")]);
    TextsAppend([OutputLine(0, "Global")], body);
    TextsSectionsLines(sections, 1);
    assert Texts([OutputLine(0, "Global")]) == ["Global"];
    assert Texts([OutputLine(0, "EndGlobal")]) == ["EndGlobal"];
  }

  lemma AllTrimmedAppend(a: seq<string>, b: seq<string>)
    requires AllTrimmed(a) && AllTrimmed(b)
    ensures AllTrimmed(a + b)
  {
    assert forall j :: |a| <= j < |a + b| ==> (a + b)[j] == b[j - |a|];
  }

  /** Every written line of a well-formed section is a text Trim leaves alone. */
  lemma SectionTextsTrimmed(section: GlobalSection)
    requires WellFormedSection(section)
    ensures AllTrimmed(SectionTexts(section))
  {
    SectionHeaderRead(section);
    if section.content.NestedProjects? {
      NestingTextsTrimmed(section.content.projectNestings);
    } else {
      ReadableContentTrimmed(section.content.lines);
    }
    AllTrimmedAppend([SectionHeaderText(section)], ContentLines(section));
    AllTrimmedAppend([SectionHeaderText(section)] + ContentLines(section), ["EndGlobalSection"]);
  }

  lemma {:induction false} SectionsTextsTrimmed(sections: seq<GlobalSection>)
    requires WellFormedSections(sections)
    ensures AllTrimmed(SectionsTexts(sections))
    decreases |sections|
  {
    if sections != [] {
      SectionTextsTrimmed(sections[0]);
      SectionsTextsTrimmed(sections[1..]);
      AllTrimmedAppend(SectionTexts(sections[0]), SectionsTexts(sections[1..]));
    }
  }

  /** The written Global block, trimmed as the reader reads it: Global, the section texts, EndGlobal. */
  lemma GlobalsTrimmed(lines: seq<string>, g: nat, sections: seq<GlobalSection>)
    requires WellFormedSections(sections) && RenderedAt(lines, g, GlobalsLines(sections))
    ensures lines[g] == "Global"
    ensures LinesAt(TrimmedLines(lines), g + 1, SectionsTexts(sections) + ["EndGlobal"])
    ensures |GlobalsLines(sections)| == SectionsSpan(sections) + 2
  {
    hide SectionsTexts, GlobalsLines;
    var inner := SectionsTexts(sections) + ["EndGlobal"];
    TextsGlobalsLines(sections);
    SectionsTextsTrimmed(sections);
    AllTrimmedAppend(["Global"], SectionsTexts(sections));
    AllTrimmedAppend(["Global"] + SectionsTexts(sections), ["EndGlobal"]);
    TrimmedRendered(lines, g, GlobalsLines(sections));
    assert ["Global"] + SectionsTexts(sections) + ["EndGlobal"] == ["Global"] + inner;
    LinesAtSplit(TrimmedLines(lines), g, ["Global"], inner);
    GlobalsLinesFirst(sections);
    assert lines[g] == Tabs(0) + "Global";
    assert Tabs(0) + "Global" == "Global";
    SectionsTextsLength(sections);
  }

  /** DeserializeGlobals reads back the written Global block and stops on its EndGlobal line. */
  lemma GlobalsRoundTrip(lines: seq<string>, g: nat, sections: seq<GlobalSection>)
    requires WellFormedSections(sections) && RenderedAt(lines, g, GlobalsLines(sections))
    ensures ReadGlobals(lines, g, []) == Success((sections, g + |GlobalsLines(sections)| - 1))
  {
    hide SectionsLoop, SectionsTexts, GlobalsLines, RenderedAt, TrimmedLines, SectionsReadAt;
    GlobalsTrimmed(lines, g, sections);
    WrittenSections(TrimmedLines(lines), g + 1, sections);
    SectionsRoundTrip(TrimmedLines(lines), g + 1, [], sections);
    assert [] + sections == sections;
  }

  // ---------------------------------------------------------------- projects

  /** A written Project line and its EndProject line read back as the reference. */
  lemma ProjectRead(lines: seq<string>, i: nat, p: ProjectReference)
    requires WellFormedReference(p) && i + 1 < |lines|
    requires lines[i] == ProjectLineText(p) && lines[i + 1] == "EndProject"
    ensures IsProjectLine(lines[i]) && !IsGlobalLine(lines[i])
    ensures ReadProject(lines, i) == Success(p)
  {
    var line := lines[i];
    ProjectLineValuesOf(p);
    ParseToStringB(p.projectTypeGuid);
    ParseToStringB(p.projectGuid);
    assert line[..7] == "Project";
    assert line[..6][0] == 'P';
    assert lines[i + 1][..10] == "EndProject";
  }

  /** The written project lines from i on: a Project line and an EndProject line per reference. */
  predicate ProjectsAt(lines: seq<string>, i: nat, references: seq<ProjectReference>) {
    && i + 2 * |references| <= |lines|
    && forall j :: 0 <= j < |references| ==>
         lines[i + 2 * j] == ProjectLineText(references[j]) && lines[i + 2 * j + 1] == "EndProject"
  }

  /**
   * The references as the project loop sees them from line i: each is read
   * by DeserializeProject, none starts on a Global line, and a Global line
   * follows the last.
   */
  predicate ProjectsReadAt(lines: seq<string>, i: nat, references: seq<ProjectReference>)
    decreases |references|
  {
    && i < |lines|
    && (references == [] ==> IsGlobalLine(lines[i]))
    && (references != [] ==>
          && !IsGlobalLine(lines[i])
          && ReadProject(lines, i) == Success(references[0])
          && ProjectsReadAt(lines, i + 2, references[1..]))
  }

  /** The project loop reads the references back and stops on the Global line after them. */
  lemma {:induction false} ProjectsRoundTrip(lines: seq<string>, i: nat, acc: seq<ProjectReference>,
                                            references: seq<ProjectReference>)
    requires ProjectsReadAt(lines, i, references)
    ensures ProjectsLoop(lines, i, acc) == Success((acc + references, i + 2 * |references|))
    decreases |references|
  {
    hide ReadProject, ProjectLineValues, ParseGuid, IsProjectLine, IsEndProjectLine;
    if references == [] {
      assert acc + references == acc;
    } else {
      ProjectsRoundTrip(lines, i + 2, acc + [references[0]], references[1..]);
      AppendFirstRest(acc, references);
    }
  }

  /** Written well-formed references followed by a Global line are what the project loop expects. */
  lemma {:induction false} WrittenProjects(lines: seq<string>, i: nat, references: seq<ProjectReference>)
    requires WellFormedReferences(references) && ProjectsAt(lines, i, references)
    requires i + 2 * |references| < |lines| && IsGlobalLine(lines[i + 2 * |references|])
    ensures ProjectsReadAt(lines, i, references)
    ensures references != [] ==> IsProjectLine(lines[i])
    decreases |references|
  {
    hide ReadProject, ProjectLineText;
    if references != [] {
      ProjectRead(lines, i, references[0]);
      assert ProjectsAt(lines, i + 2, references[1..]) by {
        forall j | 0 <= j < |references| - 1
          ensures lines[i + 2 + 2 * j] == ProjectLineText(references[1..][j])
          ensures lines[i + 2 + 2 * j + 1] == "EndProject"
        {
          assert i + 2 + 2 * j == i + 2 * (j + 1);
        }
      }
      WrittenProjects(lines, i + 2, references[1..]);
    }
  }

  // ---------------------------------------------------------------- document

  /** The header lines of a written document: format version, moniker and the two Visual Studio versions. */
  predicate HeaderAt(lines: seq<string>, d: Document, v: Version) {
    && 5 <= |lines|
    && lines[1] == FormatVersionPrefix + MajorMinorText(v)
    && lines[2] == TextOrEmpty(d.visualStudioMoniker)
    && lines[3] == "VisualStudioVersion = " + VersionTextOrEmpty(d.visualStudioVersion)
    && lines[4] == "MinimumVisualStudioVersion = " + VersionTextOrEmpty(d.minimumVisualStudioVersion)
  }

  /** The header lines of a well-formed document read back as its moniker and versions. */
  lemma HeaderRead(lines: seq<string>, d: Document)
    requires WellFormed(d) && HeaderAt(lines, d, d.formatVersion.value)
    ensures var v := d.formatVersion.value;
      VersionOf(lines[1]) == Success(Version(v.major, v.minor, []))
    ensures lines[2] == d.visualStudioMoniker.value
    ensures VersionOf(lines[3]) == Success(d.visualStudioVersion.value)
    ensures VersionOf(lines[4]) == Success(d.minimumVisualStudioVersion.value)
  {
    var v, version, minimum := d.formatVersion.value, d.visualStudioVersion.value, d.minimumVisualStudioVersion.value;
    VersionTextHasNoSpace(v);
    VersionTextHasNoSpace(version);
    VersionTextHasNoSpace(minimum);
    assert lines[1] == "Microsoft Visual Studio Solution File, Format Version" + " " + MajorMinorText(v);
    assert lines[3] == "VisualStudioVersion =" + " " + VersionToString(version);
    assert lines[4] == "MinimumVisualStudioVersion =" + " " + VersionToString(minimum);
    LastTokenAfterSpace("Microsoft Visual Studio Solution File, Format Version", MajorMinorText(v));
    LastTokenAfterSpace("VisualStudioVersion =", VersionToString(version));
    LastTokenAfterSpace("MinimumVisualStudioVersion =", VersionToString(minimum));
    ParseMajorMinorText(v);
    ParseVersionToString(version);
    ParseVersionToString(minimum);
  }

  /** Where the text of a written document has its header, project and Global lines. */
  predicate LaidOut(lines: seq<string>, d: Document, v: Version) {
    var g := 5 + 2 * |d.projectReferences|;
    && |lines| == g + |GlobalsLines(d.globalSections)|
    && HeaderAt(lines, d, v)
    && ProjectsAt(lines, 5, d.projectReferences)
    && RenderedAt(lines, g, GlobalsLines(d.globalSections))
  }

  lemma RenderedHeader(d: Document, v: Version, rest: seq<OutputLine>)
    ensures HeaderAt(Render(HeaderLines(d, v) + rest), d, v)
  {
    var out := HeaderLines(d, v) + rest;
    assert Tabs(0) == "";
    assert out[1].depth == 0 && out[2].depth == 0 && out[3].depth == 0 && out[4].depth == 0;
  }

  lemma RenderedProjects(header: seq<OutputLine>, references: seq<ProjectReference>, rest: seq<OutputLine>)
    requires |header| == 5
    ensures ProjectsAt(Render(header + ProjectsLines(references) + rest), 5, references)
  {
    hide ProjectLineText, ProjectsLines, Render;
    var projects := ProjectsLines(references);
    var out := header + projects + rest;
    var lines := Render(out);
    assert Tabs(0) == "";
    forall j | 0 <= j < |references|
      ensures lines[5 + 2 * j] == ProjectLineText(references[j])
      ensures lines[5 + 2 * j + 1] == "EndProject"
    {
      assert out[5 + 2 * j] == projects[2 * j];
      assert out[5 + 2 * j + 1] == projects[2 * j + 1];
    }
  }

  lemma RenderedTail(front: seq<OutputLine>, back: seq<OutputLine>)
    ensures RenderedAt(Render(front + back), |front|, back)
  {
    RenderedFrom(front + back, |front|);
    assert (front + back)[|front|..] == back;
  }

  /** The rendered text of a written document is laid out as LaidOut says. */
  lemma WrittenLayout(d: Document)
    requires d.formatVersion.Some?
    ensures Write(d).Success? && LaidOut(Render(Write(d).value), d, d.formatVersion.value)
  {
    hide HeaderLines, ProjectsLines, GlobalsLines, Write, HeaderAt, ProjectsAt, RenderedAt;
    var v := d.formatVersion.value;
    var header, projects, globals := HeaderLines(d, v), ProjectsLines(d.projectReferences), GlobalsLines(d.globalSections);
    WriteParts(d);
    assert header + (projects + globals) == header + projects + globals;
    RenderedHeader(d, v, projects + globals);
    RenderedProjects(header, d.projectReferences, globals);
    RenderedTail(header + projects, globals);
  }

  lemma WriteParts(d: Document)
    requires d.formatVersion.Some?
    ensures Write(d).Success?
    ensures Write(d).value == HeaderLines(d, d.formatVersion.value) + ProjectsLines(d.projectReferences)
      + GlobalsLines(d.globalSections)
    ensures |HeaderLines(d, d.formatVersion.value)| == 5
  {
    hide ProjectsLines, GlobalsLines;
  }

  /** A Global line is not a Project line: the two differ in their first character. */
  lemma GlobalIsNotProject(line: string)
    requires IsGlobalLine(line)
    ensures !IsProjectLine(line)
  {
    assert line[0] == line[..6][0] == 'G';
  }

  /** The project lines read back as the references, whether there are any or not. */
  lemma ProjectsPartRead(lines: seq<string>, references: seq<ProjectReference>)
    requires WellFormedReferences(references) && ProjectsAt(lines, 5, references)
    requires 5 + 2 * |references| < |lines| && IsGlobalLine(lines[5 + 2 * |references|])
    ensures (if IsProjectLine(lines[5]) then ReadProjects(lines, 5, []) else Success(([], 5)))
      == Success((references, 5 + 2 * |references|))
  {
    hide ProjectsLoop, ReadProject, ProjectsAt, ProjectsReadAt, IsProjectLine, IsGlobalLine, WellFormedReferences;
    WrittenProjects(lines, 5, references);
    if references == [] {
      GlobalIsNotProject(lines[5]);
    } else {
      ProjectsRoundTrip(lines, 5, [], references);
      assert [] + references == references;
    }
  }

  /** The written Global block starts with a Global line and reads back as the sections. */
  lemma GlobalPartRead(lines: seq<string>, g: nat, sections: seq<GlobalSection>)
    requires WellFormedSections(sections) && RenderedAt(lines, g, GlobalsLines(sections))
    ensures g < |lines| && IsGlobalLine(lines[g])
    ensures ReadGlobals(lines, g, []) == Success((sections, g + |GlobalsLines(sections)| - 1))
  {
    hide ReadGlobals, RenderedAt, GlobalsLines, LinesAt, TrimmedLines;
    GlobalsTrimmed(lines, g, sections);
    GlobalsRoundTrip(lines, g, sections);
    assert lines[g][..6] == "Global";
  }

  /** ReadDocument put together from what its steps read. */
  lemma ReadDocumentOf(lines: seq<string>, formatVersion: Version, version: Version, minimum: Version,
                       references: seq<ProjectReference>, g: nat, sections: seq<GlobalSection>, end: nat)
    requires 5 <= g < |lines|
    requires VersionOf(lines[1]) == Success(formatVersion)
    requires VersionOf(lines[3]) == Success(version) && VersionOf(lines[4]) == Success(minimum)
    requires (if IsProjectLine(lines[5]) then ReadProjects(lines, 5, []) else Success(([], 5))) == Success((references, g))
    requires IsGlobalLine(lines[g]) && ReadGlobals(lines, g, []) == Success((sections, end))
    ensures ReadDocument(lines)
      == Success((Document(Some(formatVersion), Some(lines[2]), Some(version), Some(minimum), references, sections), end))
  {
    hide VersionOf, IsProjectLine, ReadProjects, IsGlobalLine, ReadGlobals;
  }

  /** The pieces of a laid-out text, each as its reader step sees it. */
  lemma LaidOutParts(lines: seq<string>, d: Document)
    requires WellFormed(d) && LaidOut(lines, d, d.formatVersion.value)
    ensures var v, g := d.formatVersion.value, 5 + 2 * |d.projectReferences|;
      && g < |lines|
      && VersionOf(lines[1]) == Success(Version(v.major, v.minor, []))
      && lines[2] == d.visualStudioMoniker.value
      && VersionOf(lines[3]) == Success(d.visualStudioVersion.value)
      && VersionOf(lines[4]) == Success(d.minimumVisualStudioVersion.value)
      && (if IsProjectLine(lines[5]) then ReadProjects(lines, 5, []) else Success(([], 5)))
           == Success((d.projectReferences, g))
      && IsGlobalLine(lines[g])
      && ReadGlobals(lines, g, []) == Success((d.globalSections, |lines| - 1))
  {
    hide ReadProjects, ReadGlobals, VersionOf, HeaderAt, ProjectsAt, RenderedAt, GlobalsLines,
      IsProjectLine, IsGlobalLine, WellFormedReferences, WellFormedSections;
    HeaderRead(lines, d);
    GlobalPartRead(lines, 5 + 2 * |d.projectReferences|, d.globalSections);
    ProjectsPartRead(lines, d.projectReferences);
  }

  /** A text laid out from a well-formed document reads back as that document, up to EndGlobal on its last line. */
  lemma LaidOutRead(lines: seq<string>, d: Document)
    requires WellFormed(d) && LaidOut(lines, d, d.formatVersion.value)
    ensures var v := d.formatVersion.value;
      ReadDocument(lines) == Success((d.(formatVersion := Some(Version(v.major, v.minor, []))), |lines| - 1))
  {
    hide ReadDocument, ReadProjects, ReadGlobals, VersionOf, IsProjectLine, IsGlobalLine, LaidOut,
      WellFormedReferences, WellFormedSections;
    var v := d.formatVersion.value;
    LaidOutParts(lines, d);
    ReadDocumentOf(lines, Version(v.major, v.minor, []), d.visualStudioVersion.value, d.minimumVisualStudioVersion.value,
      d.projectReferences, 5 + 2 * |d.projectReferences|, d.globalSections, |lines| - 1);
  }

  /**
   * The round trip: a well-formed document written and rendered to text
   * parses back as itself, except that the format version keeps only
   * major.minor, which is all the writer puts on the line.
   */
  lemma WriteThenParse(d: Document)
    requires WellFormed(d)
    ensures Write(d).Success?
    ensures var v := d.formatVersion.value;
      Parse(Render(Write(d).value)) == Success(d.(formatVersion := Some(Version(v.major, v.minor, []))))
  {
    hide ReadDocument, LaidOut;
    WrittenLayout(d);
    LaidOutRead(Render(Write(d).value), d);
  }
}
