/**
 * The solution-file grammar as two functions over lines: Parse, the reader
 * SolutionFileTextSerializer.Deserialize, and Write, the writer
 * SolutionFileTextSerializer.Serialize. Each reader function takes the lines
 * as TextReader.ReadLine returns them and the index of the current line; an
 * index past the end is ReadLine returning null, which every caller turns
 * into an exception (EndOfInput). Lines inside Global are trimmed as they
 * are read, so the functions for the Global block take the trimmed lines
 * (TrimmedLines); Project and EndProject lines are tested as read.
 */
module Grammar {
  import opened Wrappers
  import opened Text
  import opened Guids
  import opened Versions
  import opened Nestings
  import opened Utilities
  import opened Sections
  import opened Model
  import opened Markers

  /** The markers the reader looks for, named in its errors. */
  datatype Marker = HeaderLine | Project | EndProject | Global | EndGlobal | GlobalSection | EndGlobalSection

  datatype ParseError =
    | EndOfInput(expected: Marker)              // ReadLine returned null where a line was needed
    | UnexpectedLine(expected: Marker, found: string)
    | MissingValues(line: string)               // fewer regex matches than the line must yield
    | BadGuid(text: string)                     // Guid.Parse failed
    | BadVersion(text: string)                  // Version.Parse failed
    | BadScope(text: string)                    // neither "preSolution" nor "postSolution"
    | BadNesting(line: string)                  // ProjectNesting.Deserialize failed
    | NotAtEnd                                  // more than one line after EndGlobal

  function GuidOf(text: string): (r: Result<Guid, ParseError>) {
    match ParseGuid(text)
    case Some(g) => Success(g)
    case None => Failure(BadGuid(text))
  }

  /** Version.Parse of the last space-separated token of a header line. */
  function VersionOf(line: string): (r: Result<Version, ParseError>)
    ensures r.Success? ==> r.value.Valid()
  {
    var token := LastToken(line);
    match ParseVersion(token)
    case Some(v) => Success(v)
    case None => Failure(BadVersion(token))
  }

  // ---------------------------------------------------------------- reader

  /**
   * DeserializeProject: the Project line at i, then its EndProject line. It
   * succeeds exactly when the line starts with "Project", has four quoted
   * values whose first and fourth are GUIDs, and the next line starts with
   * "EndProject"; the reference then holds those four values, quotes removed.
   */
  function ReadProject(lines: seq<string>, i: nat): (r: Result<ProjectReference, ParseError>)
    requires i < |lines|
    ensures !IsProjectLine(lines[i]) ==> r == Failure(UnexpectedLine(Project, lines[i]))
    ensures r.Success? <==>
      && IsProjectLine(lines[i]) && |ProjectLineValues(lines[i])| >= 4
      && ParseGuid(ProjectLineValues(lines[i])[0]).Some? && ParseGuid(ProjectLineValues(lines[i])[3]).Some?
      && i + 1 < |lines| && IsEndProjectLine(lines[i + 1])
    ensures r.Success? ==>
      && ParseGuid(ProjectLineValues(lines[i])[0]) == Some(r.value.projectTypeGuid)
      && r.value.projectName == ProjectLineValues(lines[i])[1]
      && r.value.projectFileRelativePathValue == ProjectLineValues(lines[i])[2]
      && ParseGuid(ProjectLineValues(lines[i])[3]) == Some(r.value.projectGuid)
  {
    var line := lines[i];
    if !IsProjectLine(line) then Failure(UnexpectedLine(Project, line))
    else
      var values := ProjectLineValues(line);
      if |values| < 4 then Failure(MissingValues(line))
      else
        var projectTypeGuid :- GuidOf(values[0]);
        var projectGuid :- GuidOf(values[3]);
        if i + 1 >= |lines| then Failure(EndOfInput(EndProject))
        else if !IsEndProjectLine(lines[i + 1]) then Failure(UnexpectedLine(EndProject, lines[i + 1]))
        else Success(ProjectReference(projectTypeGuid, values[1], values[2], projectGuid))
  }

  /**
   * The loop of DeserializeProjects: until the current line starts with
   * "Global", read a project and move to the line after its EndProject.
   * Returns the references appended to acc and the index of the Global line.
   */
  function ProjectsLoop(lines: seq<string>, i: nat, acc: seq<ProjectReference>)
    : (r: Result<(seq<ProjectReference>, nat), ParseError>)
    requires i < |lines|
    ensures r.Success? ==> i <= r.value.1 < |lines| && IsGlobalLine(lines[r.value.1])
    ensures !IsGlobalLine(lines[i]) && !IsProjectLine(lines[i]) ==> r == Failure(UnexpectedLine(Project, lines[i]))
    decreases |lines| - i
  {
    if IsGlobalLine(lines[i]) then Success((acc, i))
    else
      var reference :- ReadProject(lines, i);
      if i + 2 >= |lines| then Failure(EndOfInput(Global))
      else ProjectsLoop(lines, i + 2, acc + [reference])
  }

  /** DeserializeProjects: the current line must be a Project line. */
  function ReadProjects(lines: seq<string>, i: nat, acc: seq<ProjectReference>)
    : (r: Result<(seq<ProjectReference>, nat), ParseError>)
    requires i < |lines|
    ensures r.Success? ==> i <= r.value.1 < |lines| && IsGlobalLine(lines[r.value.1])
  {
    if !IsProjectLine(lines[i]) then Failure(UnexpectedLine(Project, lines[i]))
    else ProjectsLoop(lines, i, acc)
  }

  /** DeserializeGeneralGlobal's loop: every trimmed line up to EndGlobalSection is kept. */
  function GeneralLinesLoop(lines: seq<string>, k: nat, section: GlobalSection)
    : (r: Result<(GlobalSection, nat), ParseError>)
    requires k <= |lines| && section.content.General?
    ensures r.Success? ==> k <= r.value.1 < |lines| && IsEndGlobalSectionLine(lines[r.value.1])
    ensures r.Success? ==> r.value.0.name == section.name && r.value.0.preOrPostSolution == section.preOrPostSolution
    ensures r.Success? ==> r.value.0.content.General?
    decreases |lines| - k
  {
    if k == |lines| then Failure(EndOfInput(EndGlobalSection))
    else
      var line := lines[k];
      if IsEndGlobalSectionLine(line) then Success((section, k))
      else GeneralLinesLoop(lines, k + 1, AddLine(section, line))
  }

  /** DeserializeNestedProjectsGlobalSection's loop: every trimmed line up to EndGlobalSection is a nesting. */
  function NestingsLoop(lines: seq<string>, k: nat, section: GlobalSection)
    : (r: Result<(GlobalSection, nat), ParseError>)
    requires k <= |lines| && section.content.NestedProjects?
    ensures r.Success? ==> k <= r.value.1 < |lines| && IsEndGlobalSectionLine(lines[r.value.1])
    ensures r.Success? ==> r.value.0.name == section.name && r.value.0.preOrPostSolution == section.preOrPostSolution
    ensures r.Success? ==> r.value.0.content.NestedProjects?
    decreases |lines| - k
  {
    if k == |lines| then Failure(EndOfInput(EndGlobalSection))
    else
      var line := lines[k];
      if IsEndGlobalSectionLine(line) then Success((section, k))
      else
        match DeserializeNesting(line)
        case None => Failure(BadNesting(line))
        case Some(nesting) => NestingsLoop(lines, k + 1, AddProjectNesting(section, nesting))
  }

  /**
   * DeserializeGlobal: a GlobalSection header at i, then its content up to
   * EndGlobalSection, whose index is returned with the section.
   */
  function ReadSection(lines: seq<string>, i: nat): (r: Result<(GlobalSection, nat), ParseError>)
    requires i < |lines|
    ensures r.Success? ==> IsGlobalSectionLine(lines[i])
    ensures r.Success? ==> i < r.value.1 < |lines| && IsEndGlobalSectionLine(lines[r.value.1])
  {
    var line := lines[i];
    if !IsGlobalSectionLine(line) then Failure(UnexpectedLine(Marker.GlobalSection, line))
    else
      match SectionValues(line)
      case None => Failure(MissingValues(line))
      case Some((first, second)) =>
        var name := SectionName(first);
        match ToPreOrPostSolution(second)
        case None => Failure(BadScope(second))
        case Some(scope) =>
          if name == NestedProjectsGlobalSectionName then
            NestingsLoop(lines, i + 1, NewNestedProjectsSection(name, scope))
          else
            GeneralLinesLoop(lines, i + 1, NewGeneralSection(name, scope))
  }

  /**
   * The loop of DeserializeGlobals: sections until a trimmed line matches
   * EndGlobal($|\s). Returns the sections appended to acc and the index of
   * the EndGlobal line.
   */
  function SectionsLoop(lines: seq<string>, i: nat, acc: seq<GlobalSection>)
    : (r: Result<(seq<GlobalSection>, nat), ParseError>)
    requires i < |lines|
    ensures r.Success? ==> i <= r.value.1 < |lines| && IsEndGlobalLine(lines[r.value.1])
    ensures !IsEndGlobalLine(lines[i]) && !IsGlobalSectionLine(lines[i]) ==>
      r == Failure(UnexpectedLine(Marker.GlobalSection, lines[i]))
    decreases |lines| - i
  {
    if IsEndGlobalLine(lines[i]) then Success((acc, i))
    else
      var read :- ReadSection(lines, i);
      if read.1 + 1 >= |lines| then Failure(EndOfInput(EndGlobal))
      else SectionsLoop(lines, read.1 + 1, acc + [read.0])
  }

  /** The lines as the reader inside Global reads them: every ReadLine there is followed by Trim. */
  function TrimmedLines(lines: seq<string>): (trimmed: seq<string>)
    ensures |trimmed| == |lines|
    ensures forall k :: 0 <= k < |lines| ==> trimmed[k] == Trim(lines[k])
  {
    seq(|lines|, k requires 0 <= k < |lines| => Trim(lines[k]))
  }

  /** DeserializeGlobals: the Global line at g, then the sections, read from the trimmed lines. */
  function ReadGlobals(lines: seq<string>, g: nat, acc: seq<GlobalSection>)
    : (r: Result<(seq<GlobalSection>, nat), ParseError>)
    requires g < |lines|
    ensures r.Success? ==> g < r.value.1 < |lines| && IsEndGlobalLine(Trim(lines[r.value.1]))
  {
    if !IsGlobalLine(lines[g]) then Failure(UnexpectedLine(Global, lines[g]))
    else if g + 1 >= |lines| then Failure(EndOfInput(EndGlobal))
    else SectionsLoop(TrimmedLines(lines), g + 1, acc)
  }

  /**
   * Deserialize up to and including EndGlobal: the five positional header
   * lines (the first is never looked at), the projects if the sixth line is a
   * Project line, then the Global block. Returns the document and the index
   * of the EndGlobal line.
   */
  function ReadDocument(lines: seq<string>): (r: Result<(Document, nat), ParseError>)
    ensures r.Success? ==> 5 < r.value.1 < |lines| && IsEndGlobalLine(Trim(lines[r.value.1]))
    ensures r.Success? ==>
      && VersionOf(lines[1]).Success? && r.value.0.formatVersion == Some(VersionOf(lines[1]).value)
      && r.value.0.visualStudioMoniker == Some(lines[2])
      && VersionOf(lines[3]).Success? && r.value.0.visualStudioVersion == Some(VersionOf(lines[3]).value)
      && VersionOf(lines[4]).Success? && r.value.0.minimumVisualStudioVersion == Some(VersionOf(lines[4]).value)
  {
    if |lines| < 2 then Failure(EndOfInput(HeaderLine))
    else
      var formatVersion :- VersionOf(lines[1]);
      if |lines| < 4 then Failure(EndOfInput(HeaderLine))
      else
        var visualStudioVersion :- VersionOf(lines[3]);
        if |lines| < 5 then Failure(EndOfInput(HeaderLine))
        else
          var minimumVisualStudioVersion :- VersionOf(lines[4]);
          if |lines| < 6 then Failure(EndOfInput(Global))
          else
            var projects :- if IsProjectLine(lines[5]) then ReadProjects(lines, 5, []) else Success(([], 5));
            if !IsGlobalLine(lines[projects.1]) then Failure(UnexpectedLine(Global, lines[projects.1]))
            else
              var globals :- ReadGlobals(lines, projects.1, []);
              Success((Document(Some(formatVersion), Some(lines[2]), Some(visualStudioVersion),
                Some(minimumVisualStudioVersion), projects.0, globals.0), globals.1))
  }

  /**
   * Deserialize: the document, provided at most one line (never looked at)
   * follows EndGlobal; reader.ReadToEnd() must then be empty.
   */
  function Parse(lines: seq<string>): (r: Result<Document, ParseError>)
    ensures |lines| < 2 ==> r == Failure(EndOfInput(HeaderLine))
    ensures r.Success? ==>
      && 6 <= |lines|
      && VersionOf(lines[1]).Success? && r.value.formatVersion == Some(VersionOf(lines[1]).value)
      && r.value.visualStudioMoniker == Some(lines[2])
      && VersionOf(lines[3]).Success? && r.value.visualStudioVersion == Some(VersionOf(lines[3]).value)
      && VersionOf(lines[4]).Success? && r.value.minimumVisualStudioVersion == Some(VersionOf(lines[4]).value)
  {
    var read :- ReadDocument(lines);
    if |lines| > read.1 + 2 then Failure(NotAtEnd) else Success(read.0)
  }

  // ---------------------------------------------------------------- writer

  /** One written line: the TabinatedWriter depth it was written at, and its text. */
  datatype OutputLine = OutputLine(depth: nat, text: string)

  /** Serialize reads FormatVersion.Major, which throws when the property is null. */
  datatype WriteError = FormatVersionNotSet

  const FormatVersionPrefix: string := "Microsoft Visual Studio Solution File, Format Version "

  /** A null string interpolates, and is written, as the empty text. */
  function TextOrEmpty(s: Option<string>): string {
    match s
    case Some(t) => t
    case None => ""
  }

  function VersionTextOrEmpty(v: Option<Version>): string {
    match v
    case Some(version) => VersionToString(version)
    case None => ""
  }

  /** A value between double quotes. */
  function Quoted(value: string): string {
    "\"" + value + "\""
  }

  /**
   * Project("{TYPE}") = "name", "path", "{GUID}" with both GUIDs in upper-case
   * "B" form (grouped from the right, which is the same text).
   */
  function ProjectLineText(p: ProjectReference): string {
    "Project(" + (Quoted(ToStringB(p.projectTypeGuid)) + (") = " + (Quoted(p.projectName)
      + (", " + (Quoted(p.projectFileRelativePathValue) + (", " + Quoted(ToStringB(p.projectGuid))))))))
  }

  /** SerializeProjectReferences: two lines per reference, in list order. */
  function ProjectsLines(references: seq<ProjectReference>): (out: seq<OutputLine>)
    ensures |out| == 2 * |references|
    ensures forall k :: 0 <= k < |references| ==>
      out[2 * k] == OutputLine(0, ProjectLineText(references[k])) && out[2 * k + 1] == OutputLine(0, "EndProject")
  {
    seq(2 * |references|, i requires 0 <= i < 2 * |references| =>
      if i % 2 == 0 then OutputLine(0, ProjectLineText(references[i / 2])) else OutputLine(0, "EndProject"))
  }

  function SectionHeaderText(section: GlobalSection): string {
    "GlobalSection(" + section.name + ") = " + ToStringStandard(section.preOrPostSolution)
  }

  function Indented(texts: seq<string>, depth: nat): (out: seq<OutputLine>)
    ensures |out| == |texts| && forall i :: 0 <= i < |texts| ==> out[i] == OutputLine(depth, texts[i])
  {
    seq(|texts|, i requires 0 <= i < |texts| => OutputLine(depth, texts[i]))
  }

  /** SerializeGlobal at the given depth: header, content one level deeper, EndGlobalSection. */
  function SectionLines(section: GlobalSection, depth: nat): seq<OutputLine> {
    [OutputLine(depth, SectionHeaderText(section))]
      + Indented(ContentLines(section), depth + 1)
      + [OutputLine(depth, "EndGlobalSection")]
  }

  function SectionsLines(sections: seq<GlobalSection>, depth: nat): seq<OutputLine> {
    if sections == [] then [] else SectionLines(sections[0], depth) + SectionsLines(sections[1..], depth)
  }

  /** SerializeGlobals: Global, the sections one level deeper, EndGlobal. */
  function GlobalsLines(sections: seq<GlobalSection>): seq<OutputLine> {
    [OutputLine(0, "Global")] + SectionsLines(sections, 1) + [OutputLine(0, "EndGlobal")]
  }

  function HeaderLines(d: Document, formatVersion: Version): seq<OutputLine> {
    [ OutputLine(0, ""),
      OutputLine(0, FormatVersionPrefix + MajorMinorText(formatVersion)),
      OutputLine(0, TextOrEmpty(d.visualStudioMoniker)),
      OutputLine(0, "VisualStudioVersion = " + VersionTextOrEmpty(d.visualStudioVersion)),
      OutputLine(0, "MinimumVisualStudioVersion = " + VersionTextOrEmpty(d.minimumVisualStudioVersion)) ]
  }

  /** Serialize: header, projects, Global block; the last WriteLine ends the text. */
  function Write(d: Document): (r: Result<seq<OutputLine>, WriteError>)
    ensures r.Failure? <==> d.formatVersion.None?
  {
    match d.formatVersion
    case None => Failure(FormatVersionNotSet)
    case Some(v) => Success(HeaderLines(d, v) + ProjectsLines(d.projectReferences) + GlobalsLines(d.globalSections))
  }

  /** The text lines as a reader sees them: TabinatedWriter puts one tab per depth level before the text. */
  function Render(out: seq<OutputLine>): (lines: seq<string>)
    ensures |lines| == |out|
    ensures forall i :: 0 <= i < |out| ==> lines[i] == Tabs(out[i].depth) + out[i].text
  {
    seq(|out|, i requires 0 <= i < |out| => Tabs(out[i].depth) + out[i].text)
  }
}
