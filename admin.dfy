/** modules/admin.py: the admin panel. Each method is one button press with
    the text fields' current contents. Store calls are the in-memory table
    updates of module Tables. */
module AdminPanel {
  import opened Wrappers
  import opened Seqs
  import opened Text
  import opened Tables

  /** The message an admin action ends with. */
  datatype Outcome =
    | Done                  // st.success
    | MissingInput          // "Please enter ..."
    | AlreadyExists         // "Branch code already exists." / "Rider already exists."
    | NoBranchCode          // blank rider-management code: the panel shows nothing
    | BranchNotFound        // no branch row for the code
    | AwaitingConfirmation  // linked slips found: the confirm button is armed
    | NothingPending        // no confirm button is shown
    | StoreError            // the store raised during Confirm Delete

  /** "Add Branch": both fields are stripped; a blank field or an existing
      upper-cased code is refused; otherwise one branch is appended with the
      upper-cased code, the stripped name and no riders. */
  method AddBranch(p: PortalState, newCode: string, newName: string) returns (outcome: Outcome)
    requires p.Valid()
    modifies p
    ensures p.Valid()
    ensures p.slips == old(p.slips) && p.requests == old(p.requests)
    ensures p.pendingDeleteBranch == old(p.pendingDeleteBranch)
    ensures IsBlank(newCode) || IsBlank(newName) ==>
              outcome == MissingInput && p.branches == old(p.branches)
    ensures !IsBlank(newCode) && !IsBlank(newName)
            && (exists i :: 0 <= i < |old(p.branches)| && old(p.branches)[i].code == Upper(Strip(newCode))) ==>
              outcome == AlreadyExists && p.branches == old(p.branches)
    ensures !IsBlank(newCode) && !IsBlank(newName)
            && (forall i :: 0 <= i < |old(p.branches)| ==> old(p.branches)[i].code != Upper(Strip(newCode))) ==>
              outcome == Done
              && p.branches == old(p.branches) + [Branch(Upper(Strip(newCode)), Strip(newName), [])]
  {
    var code := Strip(newCode);
    var name := Strip(newName);
    if code == [] || name == [] {
      return MissingInput;
    }
    var matching := BranchesWithCode(p.branches, Upper(code));
    if matching != [] {
      assert matching[0] in p.branches;
      return AlreadyExists;
    }
    var b := Branch(Upper(code), name, []);
    forall i | 0 <= i < |p.branches| ensures p.branches[i].code != b.code {
      assert p.branches[i] in p.branches;
    }
    AppendFreshBranch(p.branches, b);
    p.branches := p.branches + [b];
    outcome := Done;
  }

  /** What "Check Branch" decides once the code is stripped and upper-cased. */
  datatype CheckStep =
    | BlankCode                     // error message, nothing else
    | ArmConfirmation(code: string) // linked slips exist: remember the code
    | DeleteUnlinked(code: string)  // no linked slip: delete the branch row now

  /** How the code of lines 59-76 runs as written: either the error branch
      leaves `slips` unbound and `if slips:` then reads it, or it proceeds
      with one of the steps. */
  datatype WrittenCheck = ReadsUnboundSlips | Proceeds(step: CheckStep)

  /** "Check Branch" exactly as lines 59-76 are written: for a blank code the
      error branch does not bind `slips`, and the next statement reads it. */
  function CheckBranchAsWritten(removeCode: string, slips: seq<Slip>): (run: WrittenCheck)
    ensures run == ReadsUnboundSlips <==> IsBlank(removeCode)
    ensures run.Proceeds? ==> !run.step.BlankCode?
  {
    var code := Strip(removeCode);
    if code == [] then ReadsUnboundSlips
    else if SlipsOfBranch(slips, Upper(code)) != [] then Proceeds(ArmConfirmation(Upper(code)))
    else Proceeds(DeleteUnlinked(Upper(code)))
  }

  /** "Check Branch" as intended: a blank code only reports the error. */
  function CheckBranchStep(removeCode: string, slips: seq<Slip>): (step: CheckStep)
    ensures step == BlankCode <==> IsBlank(removeCode)
    ensures step.ArmConfirmation? <==>
              !IsBlank(removeCode) && exists s :: s in slips && s.branchCode == Upper(Strip(removeCode))
    ensures !IsBlank(removeCode) ==> CheckBranchAsWritten(removeCode, slips) == Proceeds(step)
  {
    var code := Strip(removeCode);
    if code == [] then BlankCode
    else
      var linked := SlipsOfBranch(slips, Upper(code));
      if linked != [] then
        assert linked[0] in slips;
        ArmConfirmation(Upper(code))
      else DeleteUnlinked(Upper(code))
  }

  /** The blank code of "Check Branch" is the input on which the written code
      and the intended behaviour part. */
  lemma BlankCheckReadsUnboundSlips()
    ensures CheckBranchAsWritten("", []) == ReadsUnboundSlips
    ensures CheckBranchStep("", []) == BlankCode
  {
  }

  /** "Check Branch": with linked slips, nothing is deleted and the
      upper-cased code becomes the pending deletion; without, the branch row
      is deleted at once and no deletion is pending. */
  method CheckBranch(p: PortalState, removeCode: string) returns (outcome: Outcome)
    requires p.Valid()
    modifies p
    ensures p.Valid()
    ensures p.slips == old(p.slips) && p.requests == old(p.requests)
    ensures IsBlank(removeCode) ==>
              outcome == MissingInput && p.branches == old(p.branches)
              && p.pendingDeleteBranch == old(p.pendingDeleteBranch)
    ensures CheckBranchStep(removeCode, old(p.slips)).ArmConfirmation? ==>
              outcome == AwaitingConfirmation && p.branches == old(p.branches)
              && p.pendingDeleteBranch == Some(Upper(Strip(removeCode)))
    ensures CheckBranchStep(removeCode, old(p.slips)).DeleteUnlinked? ==>
              outcome == Done && p.branches == BranchesExcept(old(p.branches), Upper(Strip(removeCode)))
              && p.pendingDeleteBranch == None
  {
    var step := CheckBranchStep(removeCode, p.slips);
    match step {
      case BlankCode =>
        outcome := MissingInput;
      case ArmConfirmation(code) =>
        p.pendingDeleteBranch := Some(code);
        outcome := AwaitingConfirmation;
      case DeleteUnlinked(code) =>
        DeleteBranchRows(p.branches, code);
        p.branches := BranchesExcept(p.branches, code);
        p.pendingDeleteBranch := None;
        outcome := Done;
    }
  }

  /** Where the store raises during "Confirm Delete", if it does. */
  datatype StoreFault = NoFault | SlipDeleteFails | BranchDeleteFails

  /** "Confirm Delete": deletes every slip of the pending code, then the
      branch row. The two deletes are separate store calls, so a failure of
      the second leaves the slips deleted and the branch in place. The
      pending code is cleared however the deletion ends. */
  method ConfirmDelete(p: PortalState, fault: StoreFault) returns (outcome: Outcome)
    requires p.Valid()
    modifies p
    ensures p.Valid()
    ensures p.requests == old(p.requests)
    ensures p.pendingDeleteBranch == None
    ensures old(p.pendingDeleteBranch).None? ==>
              outcome == NothingPending && p.branches == old(p.branches) && p.slips == old(p.slips)
    ensures old(p.pendingDeleteBranch).Some? ==>
              var code := old(p.pendingDeleteBranch).value;
              && (fault == NoFault ==> outcome == Done)
              && (fault != NoFault ==> outcome == StoreError)
              && p.slips == (if fault == SlipDeleteFails then old(p.slips)
                             else SlipsNotOfBranch(old(p.slips), code))
              && p.branches == (if fault == NoFault then BranchesExcept(old(p.branches), code)
                                else old(p.branches))
  {
    if p.pendingDeleteBranch.None? {
      return NothingPending;
    }
    var code := p.pendingDeleteBranch.value;
    outcome := Done;
    if fault == SlipDeleteFails {
      outcome := StoreError;
    } else {
      CascadeSlips(p.slips, code);
      p.slips := SlipsNotOfBranch(p.slips, code);
      if fault == BranchDeleteFails {
        outcome := StoreError;
      } else {
        DeleteBranchRows(p.branches, code);
        p.branches := BranchesExcept(p.branches, code);
      }
    }
    p.pendingDeleteBranch := None;
  }

  /** The rider list with every entry equal to `rider` left out, in the
      order of the rest (modules/admin.py:137). */
  function RemoveAll(riders: seq<string>, rider: string): (r: seq<string>)
    ensures |r| <= |riders|
    ensures forall x :: x in r <==> x in riders && x != rider
  {
    Filter(riders, (r: string) => r != rider)
  }

  /** Removing a rider drops every occurrence of that name, keeps every other
      name as often as it occurred and in its order, and keeps the list free
      of duplicates. */
  lemma RemoveAllSpec(riders: seq<string>, rider: string)
    ensures rider !in RemoveAll(riders, rider)
    ensures forall other :: other != rider ==>
              multiset(RemoveAll(riders, rider))[other] == multiset(riders)[other]
    ensures forall a, b :: riders == a + b ==>
              RemoveAll(riders, rider) == RemoveAll(a, rider) + RemoveAll(b, rider)
    ensures rider !in riders ==> RemoveAll(riders, rider) == riders
    ensures Distinct(riders) ==> Distinct(RemoveAll(riders, rider))
  {
    forall other | other != rider
      ensures multiset(RemoveAll(riders, rider))[other] == multiset(riders)[other]
    {
      FilterCount(riders, (r: string) => r != rider, other);
    }
    forall a, b | riders == a + b
      ensures RemoveAll(riders, rider) == RemoveAll(a, rider) + RemoveAll(b, rider)
    {
      FilterConcat(a, b, (r: string) => r != rider);
    }
    if rider !in riders {
      FilterKeepsAll(riders, (r: string) => r != rider);
    }
    if Distinct(riders) {
      FilterPreservesPairwise(riders, (r: string) => r != rider, Unequal);
    }
  }

  /** "Remove <rider>": the branch of the stripped, upper-cased code gets its
      rider list without that name. A blank code (for which the panel shows
      nothing) or an unknown branch changes nothing. */
  method RemoveRider(p: PortalState, code: string, rider: string) returns (outcome: Outcome)
    requires p.Valid()
    modifies p
    ensures p.Valid()
    ensures p.slips == old(p.slips) && p.requests == old(p.requests)
    ensures p.pendingDeleteBranch == old(p.pendingDeleteBranch)
    ensures var found := FindBranch(old(p.branches), Upper(Strip(code)));
            if IsBlank(code) then
              outcome == NoBranchCode && p.branches == old(p.branches)
            else if found.None? then
              outcome == BranchNotFound && p.branches == old(p.branches)
            else
              outcome == Done
              && p.branches == SetRiders(old(p.branches), Upper(Strip(code)), RemoveAll(found.value.riders, rider))
  {
    var key := Upper(Strip(code));
    if Strip(code) == [] {
      return NoBranchCode;
    }
    var found := FindBranch(p.branches, key);
    if found.None? {
      return BranchNotFound;
    }
    var updated := RemoveAll(found.value.riders, rider);
    RemoveAllSpec(found.value.riders, rider);
    SetRidersSpec(p.branches, key, updated);
    p.branches := SetRiders(p.branches, key, updated);
    outcome := Done;
  }

  /** "Add Rider": the stripped name is appended to the branch's rider list
      unless it is blank or already listed, so the list stays free of
      duplicates. A blank code (for which the panel shows nothing) or an
      unknown branch changes nothing. */
  method AddRider(p: PortalState, code: string, newRider: string) returns (outcome: Outcome)
    requires p.Valid()
    modifies p
    ensures p.Valid()
    ensures p.slips == old(p.slips) && p.requests == old(p.requests)
    ensures p.pendingDeleteBranch == old(p.pendingDeleteBranch)
    ensures var found := FindBranch(old(p.branches), Upper(Strip(code)));
            var name := Strip(newRider);
            if IsBlank(code) then
              outcome == NoBranchCode && p.branches == old(p.branches)
            else if found.None? then
              outcome == BranchNotFound && p.branches == old(p.branches)
            else if name == [] then
              outcome == MissingInput && p.branches == old(p.branches)
            else if name in found.value.riders then
              outcome == AlreadyExists && p.branches == old(p.branches)
            else
              outcome == Done
              && p.branches == SetRiders(old(p.branches), Upper(Strip(code)), found.value.riders + [name])
  {
    var key := Upper(Strip(code));
    if Strip(code) == [] {
      return NoBranchCode;
    }
    var found := FindBranch(p.branches, key);
    if found.None? {
      return BranchNotFound;
    }
    var name := Strip(newRider);
    if name == [] {
      return MissingInput;
    }
    var riders := found.value.riders;
    if name in riders {
      return AlreadyExists;
    }
    var updated := riders + [name];
    assert WellFormedBranch(found.value);
    AppendPreservesPairwise(riders, name, Unequal);
    SetRidersSpec(p.branches, key, updated);
    p.branches := SetRiders(p.branches, key, updated);
    outcome := Done;
  }

  const PendingStatus: string := "Pending"

  /** "Submit Request": a blank description inserts nothing; otherwise one
      request is appended with status "Pending" and the stripped description. */
  method SubmitRequest(p: PortalState, description: string, timestamp: string) returns (outcome: Outcome)
    requires p.Valid()
    modifies p
    ensures p.Valid()
    ensures p.branches == old(p.branches) && p.slips == old(p.slips)
    ensures p.pendingDeleteBranch == old(p.pendingDeleteBranch)
    ensures IsBlank(description) ==> outcome == MissingInput && p.requests == old(p.requests)
    ensures !IsBlank(description) ==>
              outcome == Done
              && p.requests == old(p.requests) + [Request(timestamp, PendingStatus, Strip(description))]
  {
    var desc := Strip(description);
    if desc == [] {
      return MissingInput;
    }
    p.requests := p.requests + [Request(timestamp, PendingStatus, desc)];
    outcome := Done;
  }
}
