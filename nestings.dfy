/**
 * ProjectNesting: a child project or solution folder placed under a parent
 * folder, written as one "{CHILD} = {PARENT}" line of the NestedProjects
 * section. The type's own code is not part of this model; its line format is
 * the one Visual Studio uses, and reading splits the line at its first '='
 * and parses each trimmed side as a GUID.
 */
module Nestings {
  import opened Wrappers
  import opened Text
  import opened Guids

  datatype ProjectNesting = ProjectNesting(childProjectGuid: Guid, parentProjectGuid: Guid)

  /** ProjectNesting.Serialize: "{CHILD} = {PARENT}" with both GUIDs in "B" form. */
  function SerializeNesting(n: ProjectNesting): (line: string)
    ensures |line| == 79
  {
    ToStringB(n.childProjectGuid) + " = " + ToStringB(n.parentProjectGuid)
  }

  /** A nesting line starts and ends with a brace. */
  lemma SerializeNestingShape(n: ProjectNesting)
    ensures SerializeNesting(n)[0] == '{' && SerializeNesting(n)[78] == '}'
  {
    ToStringBShape(n.childProjectGuid);
    ToStringBShape(n.parentProjectGuid);
    var line := SerializeNesting(n);
    assert line[0] == ToStringB(n.childProjectGuid)[0];
    assert line[78] == ToStringB(n.parentProjectGuid)[37];
  }

  /**
   * ProjectNesting.Deserialize: the child GUID is what Guid.Parse reads left
   * of the first '=', the parent what it reads right of it; absent when
   * there is no '=' or a side is no GUID.
   */
  function DeserializeNesting(line: string): (r: Option<ProjectNesting>)
    ensures IndexOfChar(line, '=').None? ==> r.None?
    ensures r.Some? <==>
      && IndexOfChar(line, '=').Some?
      && ParseGuid(line[..IndexOfChar(line, '=').value]).Some?
      && ParseGuid(line[IndexOfChar(line, '=').value + 1..]).Some?
    ensures r.Some? ==>
      && ParseGuid(line[..IndexOfChar(line, '=').value]) == Some(r.value.childProjectGuid)
      && ParseGuid(line[IndexOfChar(line, '=').value + 1..]) == Some(r.value.parentProjectGuid)
  {
    match IndexOfChar(line, '=')
    case None => None
    case Some(k) =>
      ParseGuidTrimmed(line[..k]);
      ParseGuidTrimmed(line[k + 1..]);
      match (ParseGuid(Trim(line[..k])), ParseGuid(Trim(line[k + 1..])))
      case (Some(child), Some(parent)) => Some(ProjectNesting(child, parent))
      case _ => None
  }

  /** Reading a written nesting line gives the same nesting back. */
  lemma DeserializeSerializeNesting(n: ProjectNesting)
    ensures DeserializeNesting(SerializeNesting(n)) == Some(n)
  {
    var child := ToStringB(n.childProjectGuid);
    var parent := ToStringB(n.parentProjectGuid);
    var line := SerializeNesting(n);
    ToStringBShape(n.childProjectGuid);
    ToStringBShape(n.parentProjectGuid);
    var left, right := child + " ", " " + parent;
    assert line == left + ['='] + right;
    assert '=' !in left by {
      assert forall i :: 0 <= i < |left| ==> left[i] != '=';
    }
    IndexOfCharAfter(left, '=', right);
    assert line[..39] == left && line[40..] == right;
    assert Trim(left) == child by {
      TrimPadded([], child, " ");
      assert [] + child + " " == left;
    }
    assert Trim(right) == parent by {
      TrimPadded(" ", parent, []);
      assert " " + parent + [] == right;
    }
    ParseToStringB(n.childProjectGuid);
    ParseToStringB(n.parentProjectGuid);
  }
}
