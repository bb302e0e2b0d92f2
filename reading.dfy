/**
 * What the reader promises of every text it is given, not only of texts the
 * writer wrote. An accepted text is laid out as the format demands: after the
 * five header lines come Project/EndProject pairs, then a Global line, then a
 * GlobalSection or EndGlobal line; a text that breaks this layout is refused.
 * And every document the reader returns is well formed, so the round trip of
 * RoundTrip.WriteThenParse applies to it: writing it and reading the text
 * back gives it again.
 */
module Reading {
  import opened Wrappers
  import opened Text
  import opened Guids
  import opened Versions
  import opened Utilities
  import opened Sections
  import opened Model
  import opened Markers
  import opened Grammar
  import opened RoundTrip

  // ------------------------------------------------------------------ layout

  /**
   * The project loop reads one reference per pair of lines, in order, and
   * stops on the Global line right after the last pair.
   */
  /** One turn of the project loop: a Global line ends it, anything else is read as a project. */
  lemma ProjectsLoopStep(lines: seq<string>, i: nat, acc: seq<ProjectReference>)
    requires i < |lines| && ProjectsLoop(lines, i, acc).Success?
    ensures IsGlobalLine(lines[i]) ==> ProjectsLoop(lines, i, acc) == Success((acc, i))
    ensures !IsGlobalLine(lines[i]) ==>
      && ReadProject(lines, i).Success? && i + 2 < |lines|
      && ProjectsLoop(lines, i, acc) == ProjectsLoop(lines, i + 2, acc + [ReadProject(lines, i).value])
  {
    hide ReadProject;
  }

  lemma {:induction false} ProjectsLoopLayout(lines: seq<string>, i: nat, acc: seq<ProjectReference>)
    requires i < |lines| && ProjectsLoop(lines, i, acc).Success?
    ensures var found := ProjectsLoop(lines, i, acc).value.0;
      && |acc| <= |found| && found[..|acc|] == acc
      && ProjectsLoop(lines, i, acc).value.1 == i + 2 * (|found| - |acc|)
      && forall j :: |acc| <= j < |found| ==> ReadProject(lines, i + 2 * (j - |acc|)) == Success(found[j])
    decreases |lines| - i
  {
    hide ReadProject, ProjectsLoop, ProjectLineValues, ParseGuid, IsProjectLine, IsEndProjectLine;
    ProjectsLoopStep(lines, i, acc);
    if !IsGlobalLine(lines[i]) {
      var reference := ReadProject(lines, i).value;
      var next := acc + [reference];
      ProjectsLoopLayout(lines, i + 2, next);
      var found := ProjectsLoop(lines, i, acc).value.0;
      assert found[|acc|] == reference by {
        assert found[..|next|] == next;
        assert found[|acc|] == found[..|next|][|acc|];
      }
      assert found[..|acc|] == acc by {
        assert found[..|acc|] == found[..|next|][..|acc|];
      }
      forall j | |acc| < j < |found|
        ensures ReadProject(lines, i + 2 * (j - |acc|)) == Success(found[j])
      {
        assert i + 2 * (j - |acc|) == (i + 2) + 2 * (j - |next|);
      }
    }
  }

  /**
   * The layout of every text the reader accepts: reference j was read from
   * the Project line 5 + 2j and the EndProject line after it, the next line
   * starts with "Global", the sections are what the section loop reads from
   * the trimmed lines after it, and the first of those lines is a
   * GlobalSection or EndGlobal line.
   */
  lemma ParsedLayout(lines: seq<string>, d: Document) returns (g: nat)
    requires Parse(lines) == Success(d)
    ensures g == 5 + 2 * |d.projectReferences| && g + 1 < |lines| && IsGlobalLine(lines[g])
    ensures forall j :: 0 <= j < |d.projectReferences| ==> ReadProject(lines, 5 + 2 * j) == Success(d.projectReferences[j])
    ensures SectionsLoop(TrimmedLines(lines), g + 1, []).Success?
    ensures SectionsLoop(TrimmedLines(lines), g + 1, []).value.0 == d.globalSections
    ensures IsEndGlobalLine(Trim(lines[g + 1])) || IsGlobalSectionLine(Trim(lines[g + 1]))
  {
    hide ReadProject, ProjectsLoop, ReadProjects, SectionsLoop, TrimmedLines, ReadDocument, Parse,
      ProjectLineValues, ParseGuid, IsProjectLine, IsEndProjectLine, IsGlobalLine;
    var projects;
    projects, g := DocumentParts(lines);
    if IsProjectLine(lines[5]) {
      ProjectsRead(lines, projects, g);
    }
    var trimmed := TrimmedLines(lines);
    assert trimmed[g + 1] == Trim(lines[g + 1]);
  }

  /** The projects read from the sixth line: reference j from line 5 + 2j, ending two lines per reference on. */
  lemma ProjectsRead(lines: seq<string>, projects: seq<ProjectReference>, g: nat)
    requires 6 <= |lines| && ReadProjects(lines, 5, []) == Success((projects, g))
    ensures g == 5 + 2 * |projects|
    ensures forall j :: 0 <= j < |projects| ==> ReadProject(lines, 5 + 2 * j) == Success(projects[j])
  {
    hide ReadProject, ProjectsLoop, ProjectLineValues, ParseGuid, IsEndProjectLine, IsGlobalLine;
    ProjectsLoopLayout(lines, 5, []);
    forall j | 0 <= j < |projects|
      ensures ReadProject(lines, 5 + 2 * j) == Success(projects[j])
    {
      assert 5 + 2 * j == 5 + 2 * (j - 0);
    }
  }

  /**
   * How Parse builds the document it returns: the projects, read from the
   * sixth line on when it is a Project line, end at a Global line, and the
   * sections are read from the trimmed lines after it.
   */
  lemma DocumentParts(lines: seq<string>) returns (projects: seq<ProjectReference>, g: nat)
    requires Parse(lines).Success?
    ensures 6 <= |lines| && g + 1 < |lines| && IsGlobalLine(lines[g])
    ensures IsProjectLine(lines[5]) ==> ReadProjects(lines, 5, []) == Success((projects, g))
    ensures !IsProjectLine(lines[5]) ==> projects == [] && g == 5
    ensures Parse(lines).value.projectReferences == projects
    ensures SectionsLoop(TrimmedLines(lines), g + 1, []).Success?
    ensures Parse(lines).value.globalSections == SectionsLoop(TrimmedLines(lines), g + 1, []).value.0
  {
    hide ReadProjects, SectionsLoop, TrimmedLines, VersionOf, IsProjectLine, IsGlobalLine;
    var read := if IsProjectLine(lines[5]) then ReadProjects(lines, 5, []) else Success(([], 5));
    projects, g := read.value.0, read.value.1;
  }

  // ------------------------------------------------------------------ errors

  /** Project lines at every second line from i up to, not including, k. */
  predicate ProjectRun(lines: seq<string>, i: nat, k: nat)
    requires k <= |lines|
  {
    forall j :: i <= j < k && (j - i) % 2 == 0 ==> IsProjectLine(lines[j])
  }

  lemma ProjectIsNotGlobal(line: string)
    requires IsProjectLine(line)
    ensures !IsGlobalLine(line)
  {
    assert line[0] == line[..7][0] == 'P';
  }

  /**
   * A run of Project lines from i to k, where line k is no Global line and
   * is either no Project line or one without an EndProject line after it:
   * the project loop started at i fails.
   */
  lemma {:induction false} ProjectsLoopStops(lines: seq<string>, i: nat, acc: seq<ProjectReference>, k: nat)
    requires i <= k < |lines| && (k - i) % 2 == 0 && ProjectRun(lines, i, k)
    requires !IsGlobalLine(lines[k])
    requires IsProjectLine(lines[k]) ==> k + 1 == |lines| || !IsEndProjectLine(lines[k + 1])
    ensures ProjectsLoop(lines, i, acc).Failure?
    decreases k - i
  {
    hide ReadProject, ProjectLineValues, ParseGuid, IsEndProjectLine;
    if i < k {
      ProjectIsNotGlobal(lines[i]);
      if ReadProject(lines, i).Success? && i + 2 < |lines| {
        ProjectsLoopStops(lines, i + 2, acc + [ReadProject(lines, i).value], k);
      }
    }
  }

  /**
   * A run of Project lines from i up to a Global line at g: if the project
   * loop started at i succeeds, it stops at g.
   */
  lemma {:induction false} ProjectsLoopReaches(lines: seq<string>, i: nat, acc: seq<ProjectReference>, g: nat)
    requires i <= g < |lines| && (g - i) % 2 == 0 && ProjectRun(lines, i, g)
    requires IsGlobalLine(lines[g])
    ensures ProjectsLoop(lines, i, acc).Success? ==> ProjectsLoop(lines, i, acc).value.1 == g
    decreases g - i
  {
    hide ReadProject, ProjectLineValues, ParseGuid, IsEndProjectLine;
    if i < g {
      ProjectIsNotGlobal(lines[i]);
      if ReadProject(lines, i).Success? && i + 2 < |lines| {
        ProjectsLoopReaches(lines, i + 2, acc + [ReadProject(lines, i).value], g);
      }
    }
  }

  /** When the projects from the sixth line on cannot be read, neither can the text. */
  lemma ProjectsFailureIsFailure(lines: seq<string>)
    requires 6 <= |lines| && IsProjectLine(lines[5]) && ProjectsLoop(lines, 5, []).Failure?
    ensures Parse(lines).Failure?
  {
    hide ProjectsLoop, ReadGlobals, VersionOf, IsProjectLine, IsGlobalLine;
  }

  /**
   * A Project line (the sixth line, or one after Project/EndProject pairs)
   * without an EndProject line after it: the text is refused.
   */
  lemma MissingEndProject(lines: seq<string>, k: nat)
    requires 5 <= k < |lines| && (k - 5) % 2 == 0 && ProjectRun(lines, 5, k + 1)
    requires k + 1 == |lines| || !IsEndProjectLine(lines[k + 1])
    ensures Parse(lines).Failure?
  {
    ProjectIsNotGlobal(lines[k]);
    ProjectsLoopStops(lines, 5, [], k);
    ProjectsFailureIsFailure(lines);
  }

  /**
   * Where a Project or Global line is due (the sixth line, or the line after
   * Project/EndProject pairs), a line that starts with neither: the text is
   * refused.
   */
  lemma StrayLineAmongProjects(lines: seq<string>, k: nat)
    requires 5 <= k < |lines| && (k - 5) % 2 == 0 && ProjectRun(lines, 5, k)
    requires !IsProjectLine(lines[k]) && !IsGlobalLine(lines[k])
    ensures Parse(lines).Failure?
  {
    hide ProjectsLoop, ReadGlobals, VersionOf;
    if 5 < k {
      ProjectsLoopStops(lines, 5, [], k);
      ProjectsFailureIsFailure(lines);
    }
  }

  /**
   * Inside Global, a first line that, trimmed, is neither a GlobalSection
   * nor an EndGlobal line: the text is refused. The section loop refuses
   * the same after every section (Grammar.SectionsLoop).
   */
  lemma StrayLineInGlobal(lines: seq<string>, g: nat)
    requires 5 <= g && g + 1 < |lines| && (g - 5) % 2 == 0 && ProjectRun(lines, 5, g)
    requires IsGlobalLine(lines[g])
    requires !IsEndGlobalLine(Trim(lines[g + 1])) && !IsGlobalSectionLine(Trim(lines[g + 1]))
    ensures Parse(lines).Failure?
  {
    hide ProjectsLoop, SectionsLoop, VersionOf, TrimmedLines;
    assert TrimmedLines(lines)[g + 1] == Trim(lines[g + 1]);
    assert SectionsLoop(TrimmedLines(lines), g + 1, []).Failure?;
    if 5 < g {
      ProjectsLoopReaches(lines, 5, [], g);
    } else {
      GlobalIsNotProject(lines[5]);
    }
  }

  // ------------------------------------------------------- parsed documents

  lemma {:induction false} WellFormedReferencesEach(references: seq<ProjectReference>)
    requires forall j :: 0 <= j < |references| ==> WellFormedReference(references[j])
    ensures WellFormedReferences(references)
    decreases |references|
  {
    if references != [] {
      assert forall j :: 0 <= j < |references| - 1 ==> references[1..][j] == references[j + 1];
      WellFormedReferencesEach(references[1..]);
    }
  }

  lemma {:induction false} WellFormedSectionsEach(sections: seq<GlobalSection>)
    requires forall j :: 0 <= j < |sections| ==> WellFormedSection(sections[j])
    ensures WellFormedSections(sections)
    decreases |sections|
  {
    if sections != [] {
      assert forall j :: 0 <= j < |sections| - 1 ==> sections[1..][j] == sections[j + 1];
      WellFormedSectionsEach(sections[1..]);
    }
  }

  /** A content line the general-section loop keeps and gives back. */
  predicate ReadableLine(line: string) {
    IsTrimmed(line) && IsSingleLine(line) && !IsEndGlobalSectionLine(line)
  }

  lemma {:induction false} ReadableContentEach(content: seq<string>)
    requires forall j :: 0 <= j < |content| ==> ReadableLine(content[j])
    ensures ReadableContent(content)
    decreases |content|
  {
    if content != [] {
      assert forall j :: 0 <= j < |content| - 1 ==> content[1..][j] == content[j + 1];
      ReadableContentEach(content[1..]);
    }
  }

  /** Every match of "([^"]*)" in a single line is a single line. */
  lemma {:induction false} QuotedMatchesSingleLine(s: string)
    requires IsSingleLine(s)
    ensures forall i :: 0 <= i < |QuotedMatches(s)| ==> IsSingleLine(QuotedMatches(s)[i])
    decreases |s|
  {
    if s != [] {
      assert IsSingleLine(s[1..]);
      if s[0] == '"' {
        match IndexOfChar(s[1..], '"')
        case Some(k) =>
          assert IsSingleLine(s[..k + 2]) && IsSingleLine(s[k + 2..]);
          QuotedMatchesSingleLine(s[k + 2..]);
        case None =>
          QuotedMatchesSingleLine(s[1..]);
      } else {
        QuotedMatchesSingleLine(s[1..]);
      }
    }
  }

  /** A reference read from a single line holds single-line, quote-free name and path. */
  lemma ReadProjectWellFormed(lines: seq<string>, i: nat)
    requires i < |lines| && IsSingleLine(lines[i]) && ReadProject(lines, i).Success?
    ensures WellFormedReference(ReadProject(lines, i).value)
  {
    var ms := QuotedMatches(lines[i]);
    QuotedMatchesSingleLine(lines[i]);
    SingleLineSlice(ms[1], 1, |ms[1]| - 1);
    SingleLineSlice(ms[2], 1, |ms[2]| - 1);
  }

  /** The parenthesised match of a single line is a single line. */
  lemma SectionValuesSingleLine(s: string)
    requires IsSingleLine(s) && SectionValues(s).Some?
    ensures IsSingleLine(SectionValues(s).value.0)
  {
    var close := LastIndexOfChar(s, ')');
    var first := NextSectionValue(s, 0, close).value;
    SingleLineSlice(s, first.0, first.1);
  }

  /** The general-section loop over trimmed single lines keeps only readable lines. */
  lemma {:induction false} GeneralLinesLoopReadable(lines: seq<string>, k: nat, section: GlobalSection)
    requires k <= |lines| && section.content.General?
    requires forall j :: k <= j < |lines| ==> IsTrimmed(lines[j]) && IsSingleLine(lines[j])
    requires forall j :: 0 <= j < |section.content.lines| ==> ReadableLine(section.content.lines[j])
    requires GeneralLinesLoop(lines, k, section).Success?
    ensures var content := GeneralLinesLoop(lines, k, section).value.0.content.lines;
      forall j :: 0 <= j < |content| ==> ReadableLine(content[j])
    decreases |lines| - k
  {
    if !IsEndGlobalSectionLine(lines[k]) {
      var next := AddLine(section, lines[k]);
      assert next.content.lines == section.content.lines + [lines[k]];
      GeneralLinesLoopReadable(lines, k + 1, next);
    }
  }

  /** A section read from trimmed single lines is well formed. */
  lemma ReadSectionWellFormed(lines: seq<string>, i: nat)
    requires i < |lines| && forall j :: i <= j < |lines| ==> IsTrimmed(lines[j]) && IsSingleLine(lines[j])
    requires ReadSection(lines, i).Success?
    ensures WellFormedSection(ReadSection(lines, i).value.0)
  {
    hide GeneralLinesLoop, NestingsLoop;
    var line := lines[i];
    var first := SectionValues(line).value.0;
    SectionValuesSingleLine(line);
    var name := SectionName(first);
    TrimWhereSingleLine(first, IsOpenParen);
    TrimWhereSingleLine(TrimStartWhere(first, IsOpenParen), IsCloseParen);
    assert IsSingleLine(name);
    var scope := ToPreOrPostSolution(SectionValues(line).value.1).value;
    if name != NestedProjectsGlobalSectionName {
      GeneralLinesLoopReadable(lines, i + 1, NewGeneralSection(name, scope));
      ReadableContentEach(ReadSection(lines, i).value.0.content.lines);
    }
  }

  /** The sections the section loop reads from trimmed single lines are well formed. */
  lemma {:induction false} SectionsLoopWellFormed(lines: seq<string>, i: nat, acc: seq<GlobalSection>)
    requires i < |lines| && forall j :: i <= j < |lines| ==> IsTrimmed(lines[j]) && IsSingleLine(lines[j])
    requires forall j :: 0 <= j < |acc| ==> WellFormedSection(acc[j])
    requires SectionsLoop(lines, i, acc).Success?
    ensures var sections := SectionsLoop(lines, i, acc).value.0;
      forall j :: 0 <= j < |sections| ==> WellFormedSection(sections[j])
    decreases |lines| - i
  {
    hide ReadSection;
    if !IsEndGlobalLine(lines[i]) {
      var read := ReadSection(lines, i).value;
      ReadSectionWellFormed(lines, i);
      SectionsLoopWellFormed(lines, read.1 + 1, acc + [read.0]);
    }
  }

  /**
   * Every document the reader returns from lines as ReadLine returns them
   * (no line break inside a line) is well formed, so it is written and read
   * back unchanged (RoundTrip.WriteThenParse).
   */
  lemma ParsedWellFormed(lines: seq<string>)
    requires forall k :: 0 <= k < |lines| ==> IsSingleLine(lines[k])
    requires Parse(lines).Success?
    ensures WellFormed(Parse(lines).value)
  {
    hide Parse, ReadProject, SectionsLoop, TrimmedLines, WellFormedReferences, WellFormedSections, VersionOf;
    var d := Parse(lines).value;
    var g := ParsedLayout(lines, d);
    ParsedReferencesWellFormed(lines, d);
    ParsedSectionsWellFormed(lines, d, g);
  }

  lemma ParsedReferencesWellFormed(lines: seq<string>, d: Document)
    requires forall k :: 0 <= k < |lines| ==> IsSingleLine(lines[k])
    requires 5 + 2 * |d.projectReferences| < |lines|
    requires forall j :: 0 <= j < |d.projectReferences| ==> ReadProject(lines, 5 + 2 * j) == Success(d.projectReferences[j])
    ensures WellFormedReferences(d.projectReferences)
  {
    hide ReadProject, WellFormedReference;
    forall j | 0 <= j < |d.projectReferences|
      ensures WellFormedReference(d.projectReferences[j])
    {
      assert ReadProject(lines, 5 + 2 * j) == Success(d.projectReferences[j]);
      ReadProjectWellFormed(lines, 5 + 2 * j);
    }
    WellFormedReferencesEach(d.projectReferences);
  }

  lemma ParsedSectionsWellFormed(lines: seq<string>, d: Document, g: nat)
    requires forall k :: 0 <= k < |lines| ==> IsSingleLine(lines[k])
    requires g + 1 < |lines|
    requires SectionsLoop(TrimmedLines(lines), g + 1, []).Success?
    requires SectionsLoop(TrimmedLines(lines), g + 1, []).value.0 == d.globalSections
    ensures WellFormedSections(d.globalSections)
  {
    hide SectionsLoop, WellFormedSection;
    var trimmed := TrimmedLines(lines);
    forall j | 0 <= j < |trimmed|
      ensures IsTrimmed(trimmed[j]) && IsSingleLine(trimmed[j])
    {
      TrimIsTrimmed(lines[j]);
      TrimWhereSingleLine(lines[j], IsWhiteSpace);
      TrimWhereSingleLine(TrimStartWhere(lines[j], IsWhiteSpace), IsWhiteSpace);
    }
    SectionsLoopWellFormed(trimmed, g + 1, []);
    WellFormedSectionsEach(d.globalSections);
  }

  /**
   * Read, write, read: a document read from single lines is written and
   * read back as itself, but for the format version, cut to major.minor.
   */
  lemma ParseWriteParse(lines: seq<string>)
    requires forall k :: 0 <= k < |lines| ==> IsSingleLine(lines[k])
    requires Parse(lines).Success?
    ensures var d := Parse(lines).value;
      && Write(d).Success?
      && Parse(Render(Write(d).value))
        == Success(d.(formatVersion := Some(Version(d.formatVersion.value.major, d.formatVersion.value.minor, []))))
  {
    hide Parse, Write, Render;
    ParsedWellFormed(lines);
    WriteThenParse(Parse(lines).value);
  }
}
