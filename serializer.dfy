/**
 * SolutionFileTextSerializer as the source writes it: Serialize appends
 * lines to a TextWriter and keeps the indentation depth in a
 * TabinatedWriter; Deserialize reads a TextReader line by line with one
 * line of lookahead (the source's `ref string currentLine`) and fills in a
 * new SolutionFile. Each method is proved to do what the matching function
 * of Grammar says, so the properties proved there hold of these methods.
 */
module Serializer {
  import opened Wrappers
  import opened Text
  import opened Versions
  import opened Nestings
  import opened Utilities
  import opened Sections
  import opened Model
  import opened Markers
  import opened Grammar
  import opened TextIO

  // ---------------------------------------------------------------- writer

  lemma ProjectsLinesAppend(references: seq<ProjectReference>, reference: ProjectReference)
    ensures ProjectsLines(references + [reference])
      == ProjectsLines(references) + [OutputLine(0, ProjectLineText(reference)), OutputLine(0, "EndProject")]
  {
    hide ProjectLineText, ProjectsLines;
    var longer, shorter := ProjectsLines(references + [reference]), ProjectsLines(references);
    var expected := shorter + [OutputLine(0, ProjectLineText(reference)), OutputLine(0, "EndProject")];
    forall k | 0 <= k < |longer|
      ensures longer[k] == expected[k]
    {
      if k < |shorter| {
        assert (references + [reference])[k / 2] == references[k / 2];
        if k % 2 == 0 {
          assert longer[2 * (k / 2)] == shorter[2 * (k / 2)];
        } else {
          assert longer[2 * (k / 2) + 1] == shorter[2 * (k / 2) + 1];
        }
      } else {
        assert (references + [reference])[|references|] == reference;
        assert k == 2 * |references| || k == 2 * |references| + 1;
      }
    }
  }

  lemma {:induction false} SectionsLinesAppend(sections: seq<GlobalSection>, section: GlobalSection, depth: nat)
    ensures SectionsLines(sections + [section], depth) == SectionsLines(sections, depth) + SectionLines(section, depth)
    decreases |sections|
  {
    if sections == [] {
      assert sections + [section] == [section];
      assert SectionsLines([section], depth) == SectionLines(section, depth) + SectionsLines([], depth);
    } else {
      assert (sections + [section])[1..] == sections[1..] + [section];
      SectionsLinesAppend(sections[1..], section, depth);
    }
  }

  /** SerializeProjectReferences: a Project line and an EndProject line per reference, in list order. */
  method SerializeProjectReferences(writer: Output, references: seq<ProjectReference>)
    modifies writer
    ensures writer.lines == old(writer.lines) + ProjectsLines(references)
  {
    hide ProjectsLines, ProjectLineText;
    for k := 0 to |references|
      invariant writer.lines == old(writer.lines) + ProjectsLines(references[..k])
    {
      writer.WriteLine(ProjectLineText(references[k]));
      writer.WriteLine("EndProject");
      ProjectsLinesAppend(references[..k], references[k]);
      assert references[..k + 1] == references[..k] + [references[k]];
    }
    assert references[..|references|] == references;
  }

  /**
   * SerializeGlobal: the header line at the writer's depth, the content one
   * level deeper, EndGlobalSection back at the writer's depth.
   */
  method SerializeGlobal(writer: TabinatedWriter, section: GlobalSection)
    modifies writer, writer.output
    ensures writer.tabination == old(writer.tabination)
    ensures writer.output.lines == old(writer.output.lines) + SectionLines(section, old(writer.tabination))
  {
    var depth := writer.tabination;
    writer.WriteLine(SectionHeaderText(section));
    writer.IncreaseTabination();
    var content := ContentLines(section);
    for k := 0 to |content|
      invariant writer.tabination == depth + 1
      invariant writer.output.lines
        == old(writer.output.lines) + [OutputLine(depth, SectionHeaderText(section))] + Indented(content[..k], depth + 1)
    {
      writer.WriteLine(content[k]);
      assert Indented(content[..k + 1], depth + 1) == Indented(content[..k], depth + 1) + [OutputLine(depth + 1, content[k])];
    }
    writer.DecreaseTabination();
    writer.WriteLine("EndGlobalSection");
    assert content[..|content|] == content;
  }

  /** SerializeGlobals: Global, every section one level deeper, EndGlobal. */
  method SerializeGlobals(writer: Output, sections: seq<GlobalSection>)
    modifies writer
    ensures writer.lines == old(writer.lines) + GlobalsLines(sections)
  {
    hide SectionLines;
    var tabinatedWriter := new TabinatedWriter(writer);
    tabinatedWriter.WriteLine("Global");
    tabinatedWriter.IncreaseTabination();
    for k := 0 to |sections|
      invariant tabinatedWriter.output == writer && tabinatedWriter.tabination == 1
      invariant writer.lines == old(writer.lines) + [OutputLine(0, "Global")] + SectionsLines(sections[..k], 1)
    {
      SerializeGlobal(tabinatedWriter, sections[k]);
      SectionsLinesAppend(sections[..k], sections[k], 1);
      assert sections[..k + 1] == sections[..k] + [sections[k]];
    }
    tabinatedWriter.DecreaseTabination();
    tabinatedWriter.WriteLine("EndGlobal");
    assert sections[..|sections|] == sections;
  }

  /**
   * Serialize: the five header lines, the projects, the Global block. With
   * no format version set, the blank first line is written and the next
   * statement fails (FormatVersion.Major on null).
   */
  method Serialize(writer: Output, solutionFile: SolutionFile) returns (r: Result<(), WriteError>)
    modifies writer
    ensures match Write(solutionFile.Value())
      case Success(out) => r.Success? && writer.lines == old(writer.lines) + out
      case Failure(e) => r == Failure(e) && writer.lines == old(writer.lines) + [OutputLine(0, "")]
  {
    hide ProjectsLines, GlobalsLines, MajorMinorText, VersionTextOrEmpty, TextOrEmpty;
    writer.WriteLine("");
    if solutionFile.formatVersion.None? {
      return Failure(FormatVersionNotSet);
    }
    var d := solutionFile.Value();
    writer.WriteLine(FormatVersionPrefix + MajorMinorText(solutionFile.formatVersion.value));
    writer.WriteLine(TextOrEmpty(solutionFile.visualStudioMoniker));
    writer.WriteLine("VisualStudioVersion = " + VersionTextOrEmpty(solutionFile.visualStudioVersion));
    writer.WriteLine("MinimumVisualStudioVersion = " + VersionTextOrEmpty(solutionFile.minimumVisualStudioVersion));
    assert writer.lines == old(writer.lines) + HeaderLines(d, d.formatVersion.value);
    SerializeProjectReferences(writer, solutionFile.projectReferences);
    SerializeGlobals(writer, solutionFile.globalSections);
    return Success(());
  }

  // ---------------------------------------------------------------- reader

  /** The reader has handed out the current line: it is the line just before its position. */
  predicate Current(reader: LineReader, lines: seq<string>, line: string)
    reads reader
  {
    reader.Valid() && |lines| == |reader.lines| && 0 < reader.position && line == lines[reader.position - 1]
  }

  /**
   * DeserializeProject: the current line must be a Project line; its four
   * quoted values give the reference, which is appended; the next line must
   * be an EndProject line and becomes the current line.
   */
  method DeserializeProject(reader: LineReader, currentLine: string, solutionFile: SolutionFile)
    returns (r: Result<string, ParseError>)
    requires Current(reader, reader.lines, currentLine)
    modifies reader, solutionFile
    ensures reader.Valid()
    ensures var i := old(reader.position) - 1;
      match ReadProject(reader.lines, i)
      case Failure(e) => r == Failure(e)
      case Success(reference) =>
        && r == Success(reader.lines[i + 1]) && reader.position == i + 2
        && solutionFile.Value() == old(solutionFile.Value()).(projectReferences := old(solutionFile.projectReferences) + [reference])
  {
    if !IsProjectLine(currentLine) {
      return Failure(UnexpectedLine(Project, currentLine));
    }
    var values := ProjectLineValues(currentLine);
    if |values| < 4 {
      return Failure(MissingValues(currentLine));
    }
    var projectTypeGuid :- GuidOf(values[0]);
    var projectGuid :- GuidOf(values[3]);
    solutionFile.AddProjectReference(ProjectReference(projectTypeGuid, values[1], values[2], projectGuid));
    var next := reader.ReadLine();
    if next.None? {
      return Failure(EndOfInput(EndProject));
    }
    if !IsEndProjectLine(next.value) {
      return Failure(UnexpectedLine(EndProject, next.value));
    }
    return Success(next.value);
  }

  /**
   * DeserializeProjects: the current line must be a Project line; projects
   * are read until a line starts with "Global", which is the current line
   * on success.
   */
  method DeserializeProjects(reader: LineReader, currentLine: string, solutionFile: SolutionFile)
    returns (r: Result<string, ParseError>)
    requires Current(reader, reader.lines, currentLine)
    modifies reader, solutionFile
    ensures reader.Valid()
    ensures var i := old(reader.position) - 1;
      match ReadProjects(reader.lines, i, old(solutionFile.projectReferences))
      case Failure(e) => r == Failure(e)
      case Success((references, g)) =>
        && r == Success(reader.lines[g]) && reader.position == g + 1
        && solutionFile.Value() == old(solutionFile.Value()).(projectReferences := references)
  {
    hide ReadProject;
    ghost var lines, i, before := reader.lines, reader.position - 1, solutionFile.Value();
    if !IsProjectLine(currentLine) {
      return Failure(UnexpectedLine(Project, currentLine));
    }
    var line := currentLine;
    while !IsGlobalLine(line)
      invariant Current(reader, lines, line) && reader.lines == lines
      invariant ProjectsLoop(lines, reader.position - 1, solutionFile.projectReferences)
        == ProjectsLoop(lines, i, before.projectReferences)
      invariant solutionFile.Value() == before.(projectReferences := solutionFile.projectReferences)
      decreases |lines| - reader.position
    {
      var read := DeserializeProject(reader, line, solutionFile);
      if read.Failure? {
        return Failure(read.error);
      }
      var next := reader.ReadLine();
      if next.None? {
        return Failure(EndOfInput(Global));
      }
      line := next.value;
    }
    return Success(line);
  }

  /** DeserializeGeneralGlobal: every trimmed line up to EndGlobalSection is kept, in order. */
  method DeserializeGeneralGlobal(reader: LineReader, sectionName: string, scope: PreOrPostSolution)
    returns (r: Result<(GlobalSection, string), ParseError>)
    requires reader.Valid() && 0 < reader.position
    modifies reader
    ensures reader.Valid()
    ensures var lines, i := TrimmedLines(reader.lines), old(reader.position) - 1;
      match GeneralLinesLoop(lines, i + 1, NewGeneralSection(sectionName, scope))
      case Failure(e) => r == Failure(e)
      case Success((section, k)) => r == Success((section, lines[k])) && reader.position == k + 1
  {
    hide NewGeneralSection, AddLine, Trim, IsEndGlobalSectionLine, ContentLines;
    ghost var lines, i := TrimmedLines(reader.lines), reader.position - 1;
    var section := NewGeneralSection(sectionName, scope);
    var next := reader.ReadLine();
    if next.None? {
      return Failure(EndOfInput(EndGlobalSection));
    }
    var line := Trim(next.value);
    while !IsEndGlobalSectionLine(line)
      invariant Current(reader, lines, line)
      invariant section.content.General?
      invariant GeneralLinesLoop(lines, reader.position - 1, section)
        == GeneralLinesLoop(lines, i + 1, NewGeneralSection(sectionName, scope))
      decreases |lines| - reader.position
    {
      section := AddLine(section, line);
      next := reader.ReadLine();
      if next.None? {
        return Failure(EndOfInput(EndGlobalSection));
      }
      line := Trim(next.value);
    }
    return Success((section, line));
  }

  /** DeserializeNestedProjectsGlobalSection: every trimmed line up to EndGlobalSection is a project nesting. */
  method DeserializeNestedProjectsGlobalSection(reader: LineReader, sectionName: string, scope: PreOrPostSolution)
    returns (r: Result<(GlobalSection, string), ParseError>)
    requires reader.Valid() && 0 < reader.position
    modifies reader
    ensures reader.Valid()
    ensures var lines, i := TrimmedLines(reader.lines), old(reader.position) - 1;
      match NestingsLoop(lines, i + 1, NewNestedProjectsSection(sectionName, scope))
      case Failure(e) => r == Failure(e)
      case Success((section, k)) => r == Success((section, lines[k])) && reader.position == k + 1
  {
    hide NewNestedProjectsSection, AddProjectNesting, Trim, IsEndGlobalSectionLine, ContentLines, DeserializeNesting;
    ghost var lines, i := TrimmedLines(reader.lines), reader.position - 1;
    var section := NewNestedProjectsSection(sectionName, scope);
    var next := reader.ReadLine();
    if next.None? {
      return Failure(EndOfInput(EndGlobalSection));
    }
    var line := Trim(next.value);
    while !IsEndGlobalSectionLine(line)
      invariant Current(reader, lines, line)
      invariant section.content.NestedProjects?
      invariant NestingsLoop(lines, reader.position - 1, section)
        == NestingsLoop(lines, i + 1, NewNestedProjectsSection(sectionName, scope))
      decreases |lines| - reader.position
    {
      var nesting := DeserializeNesting(line);
      if nesting.None? {
        return Failure(BadNesting(line));
      }
      section := AddProjectNesting(section, nesting.value);
      next := reader.ReadLine();
      if next.None? {
        return Failure(EndOfInput(EndGlobalSection));
      }
      line := Trim(next.value);
    }
    return Success((section, line));
  }

  /**
   * DeserializeGlobal: the current (trimmed) line must be a GlobalSection
   * header; its name selects the section kind; the section is appended and
   * its EndGlobalSection line becomes the current line.
   */
  method DeserializeGlobal(reader: LineReader, currentLine: string, solutionFile: SolutionFile)
    returns (r: Result<string, ParseError>)
    requires Current(reader, TrimmedLines(reader.lines), currentLine)
    modifies reader, solutionFile
    ensures reader.Valid()
    ensures var lines, i := TrimmedLines(reader.lines), old(reader.position) - 1;
      match ReadSection(lines, i)
      case Failure(e) => r == Failure(e)
      case Success((section, k)) =>
        && r == Success(lines[k]) && reader.position == k + 1
        && solutionFile.Value() == old(solutionFile.Value()).(globalSections := old(solutionFile.globalSections) + [section])
  {
    hide NestingsLoop, GeneralLinesLoop, SectionValues;
    if !IsGlobalSectionLine(currentLine) {
      return Failure(UnexpectedLine(Marker.GlobalSection, currentLine));
    }
    var values := SectionValues(currentLine);
    if values.None? {
      return Failure(MissingValues(currentLine));
    }
    var (first, second) := values.value;
    var sectionName := SectionName(first);
    var scope := ToPreOrPostSolution(second);
    if scope.None? {
      return Failure(BadScope(second));
    }
    var read;
    if sectionName == NestedProjectsGlobalSectionName {
      read := DeserializeNestedProjectsGlobalSection(reader, sectionName, scope.value);
    } else {
      read := DeserializeGeneralGlobal(reader, sectionName, scope.value);
    }
    if read.Failure? {
      return Failure(read.error);
    }
    solutionFile.AddGlobalSection(read.value.0);
    return Success(read.value.1);
  }

  /**
   * DeserializeGlobals: the current line must be a Global line; sections are
   * read until a trimmed line matches EndGlobal($|\s), which is the current
   * line on success.
   */
  method DeserializeGlobals(reader: LineReader, currentLine: string, solutionFile: SolutionFile)
    returns (r: Result<string, ParseError>)
    requires Current(reader, reader.lines, currentLine)
    modifies reader, solutionFile
    ensures reader.Valid()
    ensures var g := old(reader.position) - 1;
      match ReadGlobals(reader.lines, g, old(solutionFile.globalSections))
      case Failure(e) => r == Failure(e)
      case Success((sections, e)) =>
        && r == Success(Trim(reader.lines[e])) && reader.position == e + 1
        && solutionFile.Value() == old(solutionFile.Value()).(globalSections := sections)
  {
    hide ReadSection;
    ghost var lines, g, before := TrimmedLines(reader.lines), reader.position - 1, solutionFile.Value();
    if !IsGlobalLine(currentLine) {
      return Failure(UnexpectedLine(Global, currentLine));
    }
    var next := reader.ReadLine();
    if next.None? {
      return Failure(EndOfInput(EndGlobal));
    }
    var line := Trim(next.value);
    while !IsEndGlobalLine(line)
      invariant Current(reader, lines, line)
      invariant SectionsLoop(lines, reader.position - 1, solutionFile.globalSections)
        == SectionsLoop(lines, g + 1, before.globalSections)
      invariant solutionFile.Value() == before.(globalSections := solutionFile.globalSections)
      decreases |lines| - reader.position
    {
      var read := DeserializeGlobal(reader, line, solutionFile);
      if read.Failure? {
        return Failure(read.error);
      }
      next := reader.ReadLine();
      if next.None? {
        return Failure(EndOfInput(EndGlobal));
      }
      line := Trim(next.value);
    }
    return Success(line);
  }

  /**
   * The header as Parse reads it: the versions on the second, fourth and
   * fifth lines, or the first error, which includes a text that ends before
   * its sixth line.
   */
  function HeaderVersions(lines: seq<string>): (r: Result<(Version, Version, Version), ParseError>)
    ensures r.Success? ==>
      && 6 <= |lines| && VersionOf(lines[1]) == Success(r.value.0)
      && VersionOf(lines[3]) == Success(r.value.1) && VersionOf(lines[4]) == Success(r.value.2)
  {
    if |lines| < 2 then Failure(EndOfInput(HeaderLine))
    else
      var formatVersion :- VersionOf(lines[1]);
      if |lines| < 4 then Failure(EndOfInput(HeaderLine))
      else
        var version :- VersionOf(lines[3]);
        if |lines| < 5 then Failure(EndOfInput(HeaderLine))
        else
          var minimum :- VersionOf(lines[4]);
          if |lines| < 6 then Failure(EndOfInput(Global)) else Success((formatVersion, version, minimum))
  }

  /** A header Parse cannot read is the error Parse reports. */
  lemma HeaderFailure(lines: seq<string>)
    requires HeaderVersions(lines).Failure?
    ensures Parse(lines) == Failure(HeaderVersions(lines).error)
  {
    hide VersionOf, ReadProjects, ReadGlobals, IsProjectLine, IsGlobalLine;
  }

  /** After a readable header, projects that cannot be read are the error Parse reports. */
  lemma ProjectsFailure(lines: seq<string>)
    requires HeaderVersions(lines).Success? && IsProjectLine(lines[5]) && ReadProjects(lines, 5, []).Failure?
    ensures Parse(lines) == Failure(ReadProjects(lines, 5, []).error)
  {
    hide VersionOf, ReadProjects, ReadGlobals, IsProjectLine, IsGlobalLine;
  }

  /**
   * What Parse says once the header has been read and the projects (if the
   * sixth line is a Project line) end at line g: the Global block decides.
   */
  lemma AfterProjects(lines: seq<string>, formatVersion: Version, version: Version, minimum: Version,
                      references: seq<ProjectReference>, g: nat)
    requires 6 <= |lines| && VersionOf(lines[1]) == Success(formatVersion)
    requires VersionOf(lines[3]) == Success(version) && VersionOf(lines[4]) == Success(minimum)
    requires (if IsProjectLine(lines[5]) then ReadProjects(lines, 5, []) else Success(([], 5))) == Success((references, g))
    ensures g < |lines|
    ensures !IsGlobalLine(lines[g]) ==> Parse(lines) == Failure(UnexpectedLine(Global, lines[g]))
    ensures IsGlobalLine(lines[g]) && ReadGlobals(lines, g, []).Failure?
      ==> Parse(lines) == Failure(ReadGlobals(lines, g, []).error)
    ensures IsGlobalLine(lines[g]) && ReadGlobals(lines, g, []).Success?
      ==> var (sections, end) := ReadGlobals(lines, g, []).value;
        Parse(lines) == if |lines| > end + 2 then Failure(NotAtEnd)
          else Success(Document(Some(formatVersion), Some(lines[2]), Some(version), Some(minimum), references, sections))
  {
    hide VersionOf, ReadProjects, ReadGlobals, IsProjectLine, IsGlobalLine;
  }

  /**
   * The rest of Deserialize once the five header lines are read and the
   * sixth is the current line: the projects if it is a Project line, then
   * the Global block; after EndGlobal one more line is read unchecked and
   * nothing may follow it. The outcome is what Parse says of the whole text.
   */
  method DeserializeContent(reader: LineReader, currentLine: string, solutionFile: SolutionFile,
                            ghost formatVersion: Version, ghost version: Version, ghost minimum: Version)
    returns (r: Result<(), ParseError>)
    requires Current(reader, reader.lines, currentLine) && reader.position == 6
    requires VersionOf(reader.lines[1]) == Success(formatVersion)
    requires VersionOf(reader.lines[3]) == Success(version) && VersionOf(reader.lines[4]) == Success(minimum)
    requires solutionFile.Value()
      == Document(Some(formatVersion), Some(reader.lines[2]), Some(version), Some(minimum), [], [])
    modifies reader, solutionFile
    ensures r.Success? ==> Parse(reader.lines) == Success(solutionFile.Value())
    ensures r.Failure? ==> Parse(reader.lines) == Failure(r.error)
  {
    hide Parse, ReadDocument, ReadProjects, ReadGlobals, VersionOf, IsProjectLine, IsGlobalLine, ProjectsLoop,
      SectionsLoop, TrimmedLines, Trim, IsEndGlobalLine;
    ghost var lines := reader.lines;
    var line := currentLine;
    if IsProjectLine(line) {
      var read := DeserializeProjects(reader, line, solutionFile);
      if read.Failure? {
        ProjectsFailure(lines);
        return Failure(read.error);
      }
      line := read.value;
    }
    AfterProjects(lines, formatVersion, version, minimum, solutionFile.projectReferences, reader.position - 1);
    if !IsGlobalLine(line) {
      return Failure(UnexpectedLine(Global, line));
    }
    var globals := DeserializeGlobals(reader, line, solutionFile);
    if globals.Failure? {
      return Failure(globals.error);
    }
    var blankEndLine := reader.ReadLine();
    var rest := reader.ReadToEnd();
    if rest != [] {
      return Failure(NotAtEnd);
    }
    return Success(());
  }

  /**
   * Deserialize: the five header lines are read first (the first is never
   * looked at), then the rest as DeserializeContent reads it. The result is
   * exactly what Parse says: the same document, or the same error.
   */
  method Deserialize(reader: LineReader) returns (r: Result<SolutionFile, ParseError>)
    requires reader.Valid() && reader.position == 0
    modifies reader
    ensures r.Success? ==> fresh(r.value) && Parse(reader.lines) == Success(r.value.Value())
    ensures r.Failure? ==> Parse(reader.lines) == Failure(r.error)
  {
    hide Parse, ReadDocument, ReadProjects, ReadGlobals, VersionOf, IsProjectLine, IsGlobalLine, ProjectsLoop,
      SectionsLoop, TrimmedLines, Trim, IsEndGlobalLine;
    if HeaderVersions(reader.lines).Failure? {
      HeaderFailure(reader.lines);
    }
    var solutionFile := new SolutionFile();
    var blankBeginLine := reader.ReadLine();
    var formatVersionLine := reader.ReadLine();
    var monikerLine := reader.ReadLine();
    var vsVersionLine := reader.ReadLine();
    var vsMinimumVersionLine := reader.ReadLine();
    if formatVersionLine.None? {
      return Failure(EndOfInput(HeaderLine));
    }
    var formatVersion :- VersionOf(formatVersionLine.value);
    solutionFile.SetFormatVersion(Some(formatVersion));
    solutionFile.SetVisualStudioMoniker(monikerLine);
    if vsVersionLine.None? {
      return Failure(EndOfInput(HeaderLine));
    }
    var visualStudioVersion :- VersionOf(vsVersionLine.value);
    solutionFile.SetVisualStudioVersion(Some(visualStudioVersion));
    if vsMinimumVersionLine.None? {
      return Failure(EndOfInput(HeaderLine));
    }
    var minimumVisualStudioVersion :- VersionOf(vsMinimumVersionLine.value);
    solutionFile.SetMinimumVisualStudioVersion(Some(minimumVisualStudioVersion));
    var currentLine := reader.ReadLine();
    if currentLine.None? {
      return Failure(EndOfInput(Global));
    }
    var content := DeserializeContent(reader, currentLine.value, solutionFile,
      formatVersion, visualStudioVersion, minimumVisualStudioVersion);
    if content.Failure? {
      return Failure(content.error);
    }
    return Success(solutionFile);
  }
}
