/** app.py: which panel the entered branch code opens. */
module App {
  import opened Text
  import opened Tables
  import opened Utils

  /** The code that opens the admin panel. */
  const AdminCode: string := "ADMIN2024"

  /** What the page shows below the code field. The branch panel receives
      the code as entered and upper-cases it itself. */
  datatype Route = NoPanel | OpenAdmin | OpenBranch(enteredCode: string) | InvalidCode

  /** Lines 11-17: nothing for an empty code; the admin panel for the admin
      code in any letter case, even when a branch has that code; the branch
      panel for a code some stored branch has, ignoring case; else an error. */
  function RouteFor(entered: string, branches: seq<Branch>): (r: Route)
    ensures r == NoPanel <==> entered == ""
    ensures r == OpenAdmin <==> entered != "" && Upper(entered) == AdminCode
    ensures r.OpenBranch? <==>
              && entered != "" && Upper(entered) != AdminCode
              && exists i :: 0 <= i < |branches| && branches[i].code == Upper(entered)
    ensures r.OpenBranch? ==> r.enteredCode == entered
    ensures r == InvalidCode <==>
              && entered != "" && Upper(entered) != AdminCode
              && forall i :: 0 <= i < |branches| ==> branches[i].code != Upper(entered)
  {
    if entered == "" then NoPanel
    else if Upper(entered) == AdminCode then OpenAdmin
    else if ValidateBranchCode(entered, branches) then OpenBranch(entered)
    else InvalidCode
  }

  /** Which kind of panel a route opens, forgetting the code it carries. */
  function PanelKind(r: Route): nat
  {
    match r
    case NoPanel => 0
    case OpenAdmin => 1
    case OpenBranch(_) => 2
    case InvalidCode => 3
  }

  /** Routing ignores the letter case of the entered code: the upper-cased
      code opens the same kind of panel, and a branch panel for the same
      stored branch. */
  lemma RouteIgnoresCase(entered: string, branches: seq<Branch>)
    ensures PanelKind(RouteFor(entered, branches)) == PanelKind(RouteFor(Upper(entered), branches))
    ensures RouteFor(entered, branches).OpenBranch? ==>
              Upper(RouteFor(entered, branches).enteredCode)
                == Upper(RouteFor(Upper(entered), branches).enteredCode)
  {
    UpperIdempotent(entered);
  }
}
