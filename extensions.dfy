/**
 * SolutionFileExtensions: the conventional "Dependencies" solution folder,
 * looked up by name among a SolutionFile's project references and appended
 * to them. The lookups only read the reference list, so they are functions
 * of it; AddDependenciesSolutionFolder changes the SolutionFile in place.
 *
 * As written, HasDependenciesSolutionFolder compares the lookup's result
 * with null and so answers true exactly when there is NO such folder, and
 * GetDependenciesSolutionFolder fails exactly when there is one. Both are
 * modelled as written; the Corrected functions give the evident intent.
 */
module Extensions {
  import opened Wrappers
  import opened Guids
  import opened Model

  /** Constants.DependenciesSolutionFolderName, the conventional folder name. */
  const DependenciesSolutionFolderName: string := "Dependencies"

  /** Constants.SolutionFolderProjectTypeGUID, {2150E333-8FDC-42A3-9474-1A3956D46DE8}. */
  const SolutionFolderProjectTypeGuid: Guid :=
    [2, 1, 5, 0, 14, 3, 3, 3, 8, 15, 13, 12, 4, 2, 10, 3, 9, 4, 7, 4, 1, 10, 3, 9, 5, 6, 13, 4, 6, 13, 14, 8]

  /** The InvalidOperationExceptions: SingleOrDefault on two or more matches, and Get without a folder. */
  datatype LookupError = MoreThanOneMatch | NoDependenciesSolutionFolder

  /** The reference AddDependenciesSolutionFolder creates, given the GUID Guid.NewGuid() returned. */
  function DependenciesSolutionFolder(projectGuid: Guid): ProjectReference {
    ProjectReference(SolutionFolderProjectTypeGuid, DependenciesSolutionFolderName, DependenciesSolutionFolderName,
      projectGuid)
  }

  /** Where(x => x.ProjectName == name): the references with that name, in list order. */
  function Named(references: seq<ProjectReference>, name: string): (r: seq<ProjectReference>)
    ensures |r| <= |references|
    ensures forall x :: x in r <==> x in references && x.projectName == name
  {
    if |references| == 0 then []
    else
      var last := references[|references| - 1];
      Named(references[..|references| - 1], name) + (if last.projectName == name then [last] else [])
  }

  /** SingleOrDefault: the only element, null (None) when there is none, an error when there are more. */
  function SingleOrDefault(matches: seq<ProjectReference>): (r: Result<Option<ProjectReference>, LookupError>)
    ensures r.Failure? <==> |matches| > 1
    ensures r == Success(None) <==> matches == []
    ensures r.Success? && r.value.Some? ==> matches == [r.value.value]
  {
    if |matches| == 0 then Success(None)
    else if |matches| == 1 then Success(Some(matches[0]))
    else Failure(MoreThanOneMatch)
  }

  /** Two entries with the name, at different places in the list. */
  predicate NamedTwice(references: seq<ProjectReference>, name: string) {
    exists i, j :: 0 <= i < j < |references| && references[i].projectName == name && references[j].projectName == name
  }

  /** Where(...) yields more than one reference exactly when two places in the list hold the name. */
  lemma NamedMoreThanOne(references: seq<ProjectReference>, name: string)
    ensures |Named(references, name)| > 1 <==> NamedTwice(references, name)
  {
    if NamedTwice(references, name) {
      TwiceNamedMatches(references, name);
    }
    if |Named(references, name)| > 1 {
      MatchesNamedTwice(references, name);
    }
  }

  lemma {:induction false} TwiceNamedMatches(references: seq<ProjectReference>, name: string)
    requires NamedTwice(references, name)
    ensures |Named(references, name)| > 1
  {
    hide Named;
    var prefix, last := references[..|references| - 1], references[|references| - 1];
    assert references == prefix + [last];
    NamedAppend(prefix, last, name);
    var i, j :| 0 <= i < j < |references| && references[i].projectName == name && references[j].projectName == name;
    assert prefix[i] == references[i];
    if j < |references| - 1 {
      assert prefix[j] == references[j];
      TwiceNamedMatches(prefix, name);
    } else {
      assert prefix[i] in prefix;
      assert prefix[i] in Named(prefix, name);
    }
  }

  lemma {:induction false} MatchesNamedTwice(references: seq<ProjectReference>, name: string)
    requires |Named(references, name)| > 1
    ensures NamedTwice(references, name)
  {
    hide Named;
    var prefix, last := references[..|references| - 1], references[|references| - 1];
    assert references == prefix + [last];
    NamedAppend(prefix, last, name);
    if last.projectName == name {
      var x := Named(prefix, name)[0];
      assert x in Named(prefix, name);
      var i :| 0 <= i < |prefix| && prefix[i] == x;
      assert references[i] == x;
    } else {
      MatchesNamedTwice(prefix, name);
      var i, j :| 0 <= i < j < |prefix| && prefix[i].projectName == name && prefix[j].projectName == name;
      assert references[i] == prefix[i] && references[j] == prefix[j];
    }
  }

  /** The lookup both overloads make: the one reference named Dependencies, if any. */
  function DependenciesSolutionFolderOf(references: seq<ProjectReference>): (r: Result<Option<ProjectReference>, LookupError>)
    ensures r.Failure? <==> |Named(references, DependenciesSolutionFolderName)| > 1
    ensures r.Failure? <==> NamedTwice(references, DependenciesSolutionFolderName)
    ensures r == Success(None) <==> forall x :: x in references ==> x.projectName != DependenciesSolutionFolderName
    ensures r.Success? && r.value.Some? ==>
      && r.value.value in references && r.value.value.projectName == DependenciesSolutionFolderName
  {
    var matches := Named(references, DependenciesSolutionFolderName);
    assert matches != [] ==> matches[0] in matches;
    NamedMoreThanOne(references, DependenciesSolutionFolderName);
    SingleOrDefault(matches)
  }

  /**
   * HasDependenciesSolutionFolder(out folder), as written: the folder found
   * (or null), and whether it is null, which is true exactly when no
   * reference is named Dependencies.
   */
  function HasDependenciesSolutionFolderWithFolder(references: seq<ProjectReference>)
    : (r: Result<(bool, Option<ProjectReference>), LookupError>)
    ensures r.Failure? <==> |Named(references, DependenciesSolutionFolderName)| > 1
    ensures r.Success? ==>
      && (r.value.0 <==> forall x :: x in references ==> x.projectName != DependenciesSolutionFolderName)
      && (r.value.0 <==> r.value.1 == None)
  {
    var folder :- DependenciesSolutionFolderOf(references);
    Success((folder == None, folder))
  }

  /** The parameterless overload: the same answer, the folder dropped. */
  function HasDependenciesSolutionFolder(references: seq<ProjectReference>): (r: Result<bool, LookupError>)
    ensures HasDependenciesSolutionFolderWithFolder(references).Failure? ==> r.Failure?
    ensures HasDependenciesSolutionFolderWithFolder(references).Success? ==>
      r == Success(HasDependenciesSolutionFolderWithFolder(references).value.0)
  {
    var (has, _) :- HasDependenciesSolutionFolderWithFolder(references);
    Success(has)
  }

  /**
   * GetDependenciesSolutionFolder, as written: an error when the check says
   * false, which is when a folder exists, and otherwise the out value, null.
   */
  function GetDependenciesSolutionFolder(references: seq<ProjectReference>): (r: Result<Option<ProjectReference>, LookupError>)
    ensures r.Success? <==> forall x :: x in references ==> x.projectName != DependenciesSolutionFolderName
    ensures r.Success? ==> r.value == None
  {
    var (has, folder) :- HasDependenciesSolutionFolderWithFolder(references);
    if !has then Failure(NoDependenciesSolutionFolder) else Success(folder)
  }

  /**
   * AddDependenciesSolutionFolder: one new solution folder named Dependencies,
   * with the GUID Guid.NewGuid() returned, appended at the end whether or not
   * one exists already; it is also returned.
   */
  method AddDependenciesSolutionFolder(solutionFile: SolutionFile, projectGuid: Guid) returns (folder: ProjectReference)
    modifies solutionFile
    ensures folder == DependenciesSolutionFolder(projectGuid)
    ensures solutionFile.Value()
      == old(solutionFile.Value()).(projectReferences := old(solutionFile.projectReferences) + [folder])
  {
    folder := ProjectReference(SolutionFolderProjectTypeGuid, DependenciesSolutionFolderName,
      DependenciesSolutionFolderName, projectGuid);
    solutionFile.AddProjectReference(folder);
  }

  /** An appended reference joins the matches at the end exactly when it has the name. */
  lemma NamedAppend(references: seq<ProjectReference>, reference: ProjectReference, name: string)
    ensures Named(references + [reference], name)
      == Named(references, name) + (if reference.projectName == name then [reference] else [])
  {
    assert (references + [reference])[..|references|] == references;
  }

  /** No reference with the name, no match. */
  lemma {:induction false} NamedNone(references: seq<ProjectReference>, name: string)
    requires forall x :: x in references ==> x.projectName != name
    ensures Named(references, name) == []
  {
    if |references| > 0 {
      NamedNone(references[..|references| - 1], name);
    }
  }

  /** Adding a folder where there was none: the lookup now finds exactly the added one. */
  lemma {:induction false} AddedFolderFound(references: seq<ProjectReference>, projectGuid: Guid)
    requires forall x :: x in references ==> x.projectName != DependenciesSolutionFolderName
    ensures DependenciesSolutionFolderOf(references + [DependenciesSolutionFolder(projectGuid)])
      == Success(Some(DependenciesSolutionFolder(projectGuid)))
  {
    NamedNone(references, DependenciesSolutionFolderName);
    NamedAppend(references, DependenciesSolutionFolder(projectGuid), DependenciesSolutionFolderName);
  }

  /**
   * Nothing stops a second add: after adding the folder twice, every lookup
   * fails with SingleOrDefault's error, whatever the list held before.
   */
  lemma AddedTwiceLookupFails(references: seq<ProjectReference>, first: Guid, second: Guid)
    ensures var twice := references + [DependenciesSolutionFolder(first)] + [DependenciesSolutionFolder(second)];
      && DependenciesSolutionFolderOf(twice) == Failure(MoreThanOneMatch)
      && HasDependenciesSolutionFolder(twice) == Failure(MoreThanOneMatch)
      && GetDependenciesSolutionFolder(twice) == Failure(MoreThanOneMatch)
  {
    var once := references + [DependenciesSolutionFolder(first)];
    NamedAppend(references, DependenciesSolutionFolder(first), DependenciesSolutionFolderName);
    NamedAppend(once, DependenciesSolutionFolder(second), DependenciesSolutionFolderName);
  }

  /**
   * The inverted check as written: once the folder has been added to a list
   * without one, Has answers false and Get fails, although the folder is there.
   */
  lemma AddedFolderNotReported(references: seq<ProjectReference>, projectGuid: Guid)
    requires forall x :: x in references ==> x.projectName != DependenciesSolutionFolderName
    ensures var added := references + [DependenciesSolutionFolder(projectGuid)];
      && HasDependenciesSolutionFolder(added) == Success(false)
      && GetDependenciesSolutionFolder(added) == Failure(NoDependenciesSolutionFolder)
  {
    AddedFolderFound(references, projectGuid);
  }

  /** HasDependenciesSolutionFolder(out folder) as evidently intended: true exactly when the folder is found. */
  function HasDependenciesSolutionFolderCorrected(references: seq<ProjectReference>)
    : (r: Result<(bool, Option<ProjectReference>), LookupError>)
    ensures r.Failure? <==> |Named(references, DependenciesSolutionFolderName)| > 1
    ensures r.Success? ==>
      && (r.value.0 <==> exists x :: x in references && x.projectName == DependenciesSolutionFolderName)
      && (r.value.0 <==> r.value.1.Some?)
  {
    var folder :- DependenciesSolutionFolderOf(references);
    Success((folder.Some?, folder))
  }

  /** GetDependenciesSolutionFolder as evidently intended: the folder, or an error when there is none. */
  function GetDependenciesSolutionFolderCorrected(references: seq<ProjectReference>)
    : (r: Result<ProjectReference, LookupError>)
    ensures r.Success? ==> r.value in references && r.value.projectName == DependenciesSolutionFolderName
    ensures r == Failure(NoDependenciesSolutionFolder)
      <==> forall x :: x in references ==> x.projectName != DependenciesSolutionFolderName
  {
    var (has, folder) :- HasDependenciesSolutionFolderCorrected(references);
    if !has then Failure(NoDependenciesSolutionFolder) else Success(folder.value)
  }

  /** With the correction, adding the folder to a list without one makes Has true and Get return it. */
  lemma AddedFolderReported(references: seq<ProjectReference>, projectGuid: Guid)
    requires forall x :: x in references ==> x.projectName != DependenciesSolutionFolderName
    ensures var added := references + [DependenciesSolutionFolder(projectGuid)];
      && HasDependenciesSolutionFolderCorrected(added) == Success((true, Some(DependenciesSolutionFolder(projectGuid))))
      && GetDependenciesSolutionFolderCorrected(added) == Success(DependenciesSolutionFolder(projectGuid))
  {
    AddedFolderFound(references, projectGuid);
  }
}
