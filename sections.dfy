/**
 * The two kinds of global section. A NestedProjects section holds a list of
 * project nestings and shows each as one content line; any other section
 * holds its content lines as they are. ContentLines is computed from the
 * list each time it is asked for, so it always reflects the list's current
 * contents and asking changes nothing.
 */
module Sections {
  import opened Utilities
  import opened Nestings

  /** The reserved name that selects the nesting kind. */
  const NestedProjectsGlobalSectionName: string := "NestedProjects"

  datatype SectionContent =
    | General(lines: seq<string>)
    | NestedProjects(projectNestings: seq<ProjectNesting>)

  datatype GlobalSection = GlobalSection(name: string, preOrPostSolution: PreOrPostSolution, content: SectionContent)

  /** The yield loop of NestedProjectsSolutionFileGlobalSection.ContentLines: one line per nesting, in order. */
  function SerializeNestings(nestings: seq<ProjectNesting>): (lines: seq<string>)
    ensures |lines| == |nestings|
  {
    if nestings == [] then [] else [SerializeNesting(nestings[0])] + SerializeNestings(nestings[1..])
  }

  /** The i-th content line is the i-th nesting, serialized. */
  lemma {:induction false} SerializeNestingsAt(nestings: seq<ProjectNesting>)
    ensures forall i :: 0 <= i < |nestings| ==> SerializeNestings(nestings)[i] == SerializeNesting(nestings[i])
    decreases |nestings|
  {
    if nestings != [] {
      SerializeNestingsAt(nestings[1..]);
    }
  }

  /** Serializing one more nesting adds one line at the end. */
  lemma {:induction false} SerializeNestingsAppend(nestings: seq<ProjectNesting>, nesting: ProjectNesting)
    ensures SerializeNestings(nestings + [nesting]) == SerializeNestings(nestings) + [SerializeNesting(nesting)]
    decreases |nestings|
  {
    if nestings == [] {
      assert nestings + [nesting] == [nesting];
    } else {
      assert (nestings + [nesting])[1..] == nestings[1..] + [nesting];
      SerializeNestingsAppend(nestings[1..], nesting);
    }
  }

  /** The lines written between a section's header and its EndGlobalSection. */
  function ContentLines(section: GlobalSection): (lines: seq<string>)
    ensures section.content.General? ==> lines == section.content.lines
    ensures section.content.NestedProjects? ==> |lines| == |section.content.projectNestings|
  {
    match section.content
    case General(ls) => ls
    case NestedProjects(ns) => SerializeNestings(ns)
  }

  /** A new general section: no lines yet. */
  function NewGeneralSection(name: string, scope: PreOrPostSolution): (section: GlobalSection)
    ensures section.name == name && section.preOrPostSolution == scope
    ensures section.content.General? && ContentLines(section) == []
  {
    GlobalSection(name, scope, General([]))
  }

  /** A new nesting section: no nestings, so no content lines. */
  function NewNestedProjectsSection(name: string, scope: PreOrPostSolution): (section: GlobalSection)
    ensures section.name == name && section.preOrPostSolution == scope
    ensures section.content.NestedProjects? && ContentLines(section) == []
  {
    GlobalSection(name, scope, NestedProjects([]))
  }

  /** Lines.Add: the line becomes the last content line; earlier lines stay as they were. */
  function AddLine(section: GlobalSection, line: string): (r: GlobalSection)
    requires section.content.General?
    ensures r.name == section.name && r.preOrPostSolution == section.preOrPostSolution
    ensures r.content.General?
    ensures ContentLines(r) == ContentLines(section) + [line]
  {
    section.(content := General(section.content.lines + [line]))
  }

  /** ProjectNestings.Add: the nesting's line becomes the last content line. */
  function AddProjectNesting(section: GlobalSection, nesting: ProjectNesting): (r: GlobalSection)
    requires section.content.NestedProjects?
    ensures r.name == section.name && r.preOrPostSolution == section.preOrPostSolution
    ensures r.content.NestedProjects?
    ensures r.content.projectNestings == section.content.projectNestings + [nesting]
  {
    section.(content := NestedProjects(section.content.projectNestings + [nesting]))
  }

  /** Adding a nesting adds its line after the section's earlier content lines. */
  lemma AddProjectNestingLines(section: GlobalSection, nesting: ProjectNesting)
    requires section.content.NestedProjects?
    ensures ContentLines(AddProjectNesting(section, nesting)) == ContentLines(section) + [SerializeNesting(nesting)]
  {
    SerializeNestingsAppend(section.content.projectNestings, nesting);
  }
}
