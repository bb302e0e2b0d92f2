/**
 * The scope of a global section and its two-way text mapping
 * (Utilities.ToPreOrPostSolution and Utilities.ToStringStandard).
 */
module Utilities {
  import opened Wrappers

  datatype PreOrPostSolution = PreSolution | PostSolution

  /**
   * Exactly "preSolution" and "postSolution" are recognised, case-sensitively;
   * every other text is the unrecognised-value error (None).
   */
  function ToPreOrPostSolution(value: string): Option<PreOrPostSolution> {
    if value == "preSolution" then Some(PreSolution)
    else if value == "postSolution" then Some(PostSolution)
    else None
  }

  /** Which texts ToPreOrPostSolution recognises, and as what. */
  lemma ToPreOrPostSolutionCases(value: string)
    ensures ToPreOrPostSolution(value) == Some(PreSolution) <==> value == "preSolution"
    ensures ToPreOrPostSolution(value) == Some(PostSolution) <==> value == "postSolution"
    ensures ToPreOrPostSolution(value).None? <==> value != "preSolution" && value != "postSolution"
  {
  }

  /** The standard text of a scope. */
  function ToStringStandard(p: PreOrPostSolution): string {
    match p
    case PreSolution => "preSolution"
    case PostSolution => "postSolution"
  }

  /** The standard text is one of the two recognised texts, one per scope. */
  lemma ToStringStandardCases(p: PreOrPostSolution)
    ensures ToStringStandard(p) == "preSolution" || ToStringStandard(p) == "postSolution"
    ensures ToStringStandard(p) == "preSolution" <==> p == PreSolution
  {
  }

  /** Reading the standard text of a scope gives that scope back. */
  lemma ScopeRoundTrip(p: PreOrPostSolution)
    ensures ToPreOrPostSolution(ToStringStandard(p)) == Some(p)
  {
  }

  /** A recognised text is the standard text of the scope it reads as. */
  lemma ScopeTextRoundTrip(value: string)
    requires ToPreOrPostSolution(value).Some?
    ensures ToStringStandard(ToPreOrPostSolution(value).value) == value
  {
  }
}
