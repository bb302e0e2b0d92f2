/**
 * The solution document: its four header fields, its project references and
 * its global sections, both lists in file order. SolutionFile is the mutable
 * object the parser fills in and callers edit; Document is its value.
 */
module Model {
  import opened Wrappers
  import opened Guids
  import opened Versions
  import opened Sections

  /** One Project ... EndProject entry. */
  datatype ProjectReference = ProjectReference(
    projectTypeGuid: Guid,
    projectName: string,
    projectFileRelativePathValue: string,
    projectGuid: Guid)

  /** The value of a SolutionFile; None stands for a header property that was never set (null). */
  datatype Document = Document(
    formatVersion: Option<Version>,
    visualStudioMoniker: Option<string>,
    visualStudioVersion: Option<Version>,
    minimumVisualStudioVersion: Option<Version>,
    projectReferences: seq<ProjectReference>,
    globalSections: seq<GlobalSection>)

  class SolutionFile {
    var formatVersion: Option<Version>
    var visualStudioMoniker: Option<string>
    var visualStudioVersion: Option<Version>
    var minimumVisualStudioVersion: Option<Version>
    var projectReferences: seq<ProjectReference>
    var globalSections: seq<GlobalSection>

    function Value(): Document
      reads this
    {
      Document(formatVersion, visualStudioMoniker, visualStudioVersion, minimumVisualStudioVersion,
        projectReferences, globalSections)
    }

    /** A new document: header properties unset, both lists empty. */
    constructor ()
      ensures Value() == Document(None, None, None, None, [], [])
    {
      formatVersion, visualStudioMoniker := None, None;
      visualStudioVersion, minimumVisualStudioVersion := None, None;
      projectReferences, globalSections := [], [];
    }

    method SetFormatVersion(v: Option<Version>)
      modifies this
      ensures Value() == old(Value()).(formatVersion := v)
    {
      formatVersion := v;
    }

    method SetVisualStudioMoniker(m: Option<string>)
      modifies this
      ensures Value() == old(Value()).(visualStudioMoniker := m)
    {
      visualStudioMoniker := m;
    }

    method SetVisualStudioVersion(v: Option<Version>)
      modifies this
      ensures Value() == old(Value()).(visualStudioVersion := v)
    {
      visualStudioVersion := v;
    }

    method SetMinimumVisualStudioVersion(v: Option<Version>)
      modifies this
      ensures Value() == old(Value()).(minimumVisualStudioVersion := v)
    {
      minimumVisualStudioVersion := v;
    }

    /** SolutionFileProjectReferences.Add: appended at the end, nothing else changes. */
    method AddProjectReference(reference: ProjectReference)
      modifies this
      ensures Value() == old(Value()).(projectReferences := old(projectReferences) + [reference])
    {
      projectReferences := projectReferences + [reference];
    }

    /** GlobalSections.Add: appended at the end, nothing else changes. */
    method AddGlobalSection(section: GlobalSection)
      modifies this
      ensures Value() == old(Value()).(globalSections := old(globalSections) + [section])
    {
      globalSections := globalSections + [section];
    }
  }
}
