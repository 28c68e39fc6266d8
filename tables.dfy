/** The hosted store as three in-memory tables (`branches`, `slips`,
    `requests`), the row filters its select/delete/update calls use, and
    the session's pending branch deletion. Every `.eq(column, value)` of
    the store is exact equality on that column. */
module Tables {
  import opened Wrappers
  import opened Seqs
  import opened Text
  import opened Digests

  /** The two values of the "Slip Type" radio button. */
  datatype SlipType = CashSlip | OnlineSlip {
    /** The label the radio button shows and the `type` column stores. */
    function Label(): (l: string)
      ensures l == "Online Slip" <==> this == OnlineSlip
      ensures l == "Cash Slip" <==> this == CashSlip
    {
      if OnlineSlip? then "Online Slip" else "Cash Slip"
    }
  }

  /** A row of `branches`. */
  datatype Branch = Branch(code: string, name: string, riders: seq<string>)

  /** A row of `slips`. `rider` is None when the branch had no rider to select. */
  datatype Slip = Slip(
    branchCode: string,
    week: string,
    slipType: SlipType,
    qty: nat,
    rider: Option<string>,
    ids: seq<string>,
    imgHash: string,
    commission: nat,
    timestamp: string)

  /** A row of `requests`. */
  datatype Request = Request(timestamp: string, status: string, description: string)

  predicate DifferentImages(a: Slip, b: Slip)
  {
    a.imgHash != b.imgHash
  }

  predicate DifferentCodes(a: Branch, b: Branch)
  {
    a.code != b.code
  }

  /** No two slips share an image fingerprint. */
  ghost predicate UniqueImages(slips: seq<Slip>)
  {
    Pairwise(slips, DifferentImages)
  }

  /** A branch code is stored upper-cased and a branch lists each rider once. */
  ghost predicate WellFormedBranch(b: Branch)
  {
    NoLowercase(b.code) && Distinct(b.riders)
  }

  /** Branch codes are unique and every branch is well formed. */
  ghost predicate BranchTableOk(branches: seq<Branch>)
  {
    Pairwise(branches, DifferentCodes) &&
    forall i :: 0 <= i < |branches| ==> WellFormedBranch(branches[i])
  }

  /** The rows a select on `slips` with `img_hash` equal to `h` returns. */
  function SlipsWithImage(slips: seq<Slip>, h: string): (r: seq<Slip>)
    ensures |r| <= |slips|
    ensures forall s :: s in r <==> s in slips && s.imgHash == h
  {
    Filter(slips, (s: Slip) => s.imgHash == h)
  }

  /** The rows a select on `slips` with `branch_code` equal to `code` returns. */
  function SlipsOfBranch(slips: seq<Slip>, code: string): (r: seq<Slip>)
    ensures |r| <= |slips|
    ensures forall s :: s in r <==> s in slips && s.branchCode == code
  {
    Filter(slips, (s: Slip) => s.branchCode == code)
  }

  /** What a delete on `slips` with `branch_code` equal to `code` leaves. */
  function SlipsNotOfBranch(slips: seq<Slip>, code: string): (r: seq<Slip>)
    ensures |r| <= |slips|
    ensures forall s :: s in r <==> s in slips && s.branchCode != code
  {
    Filter(slips, (s: Slip) => s.branchCode != code)
  }

  /** The rows a select on `branches` with `code` equal to `code` returns. */
  function BranchesWithCode(branches: seq<Branch>, code: string): (r: seq<Branch>)
    ensures |r| <= |branches|
    ensures forall b :: b in r <==> b in branches && b.code == code
  {
    Filter(branches, (b: Branch) => b.code == code)
  }

  /** What a delete on `branches` with `code` equal to `code` leaves. */
  function BranchesExcept(branches: seq<Branch>, code: string): (r: seq<Branch>)
    ensures |r| <= |branches|
    ensures forall b :: b in r <==> b in branches && b.code != code
  {
    Filter(branches, (b: Branch) => b.code != code)
  }

  /** The branch a `.eq("code", code).single()` lookup returns, or None when no row matches. */
  function FindBranch(branches: seq<Branch>, code: string): (found: Option<Branch>)
    ensures found.Some? ==> found.value in branches && found.value.code == code
    ensures found.None? <==> forall i :: 0 <= i < |branches| ==> branches[i].code != code
  {
    if branches == [] then None
    else if branches[0].code == code then Some(branches[0])
    else FindBranch(branches[1..], code)
  }

  /** `update branches set riders = riders where code = code`. */
  function SetRiders(branches: seq<Branch>, code: string, riders: seq<string>): (r: seq<Branch>)
    ensures |r| == |branches|
    ensures forall i :: 0 <= i < |r| ==> r[i].code == branches[i].code && r[i].name == branches[i].name
  {
    seq(|branches|, i requires 0 <= i < |branches| =>
      if branches[i].code == code then branches[i].(riders := riders) else branches[i])
  }

  /** Appending a slip whose fingerprint matches no stored slip keeps fingerprints unique. */
  lemma AppendFreshSlip(slips: seq<Slip>, s: Slip)
    requires UniqueImages(slips)
    requires SlipsWithImage(slips, s.imgHash) == []
    ensures UniqueImages(slips + [s])
  {
    forall i | 0 <= i < |slips|
      ensures DifferentImages(slips[i], s)
    {
      assert slips[i] in slips;
      assert slips[i] !in SlipsWithImage(slips, s.imgHash);
    }
    AppendPreservesPairwise(slips, s, DifferentImages);
  }

  /** Deleting the slips of `code` removes exactly the slips linked to it and
      keeps the slips of every other branch, in their table order: deleting
      from a concatenation deletes from each part. */
  lemma CascadeSlips(slips: seq<Slip>, code: string)
    ensures SlipsOfBranch(SlipsNotOfBranch(slips, code), code) == []
    ensures |SlipsNotOfBranch(slips, code)| == |slips| - |SlipsOfBranch(slips, code)|
    ensures forall other :: other != code ==>
              SlipsOfBranch(SlipsNotOfBranch(slips, code), other) == SlipsOfBranch(slips, other)
    ensures forall a, b :: slips == a + b ==>
              SlipsNotOfBranch(slips, code) == SlipsNotOfBranch(a, code) + SlipsNotOfBranch(b, code)
    ensures UniqueImages(slips) ==> UniqueImages(SlipsNotOfBranch(slips, code))
  {
    var rest := SlipsNotOfBranch(slips, code);
    forall a, b | slips == a + b
      ensures SlipsNotOfBranch(slips, code) == SlipsNotOfBranch(a, code) + SlipsNotOfBranch(b, code)
    {
      FilterConcat(a, b, (s: Slip) => s.branchCode != code);
    }
    forall i | 0 <= i < |rest| ensures rest[i].branchCode != code {
      assert rest[i] in rest;
    }
    FilterKeepsNone(rest, (s: Slip) => s.branchCode == code);
    FilterSplit(slips, (s: Slip) => s.branchCode == code, (s: Slip) => s.branchCode != code);
    forall other | other != code
      ensures SlipsOfBranch(rest, other) == SlipsOfBranch(slips, other)
    {
      FilterOfFilter(slips, (s: Slip) => s.branchCode != code, (s: Slip) => s.branchCode == other);
    }
    if UniqueImages(slips) {
      FilterPreservesPairwise(slips, (s: Slip) => s.branchCode != code, DifferentImages);
    }
  }

  /** Deleting the branch `code` removes every row with that code, keeps all
      other branches in their table order (deleting from a concatenation
      deletes from each part), and keeps the branch table well formed. */
  lemma DeleteBranchRows(branches: seq<Branch>, code: string)
    ensures FindBranch(BranchesExcept(branches, code), code) == None
    ensures forall other :: other != code ==>
              BranchesWithCode(BranchesExcept(branches, code), other) == BranchesWithCode(branches, other)
    ensures forall a, b :: branches == a + b ==>
              BranchesExcept(branches, code) == BranchesExcept(a, code) + BranchesExcept(b, code)
    ensures BranchTableOk(branches) ==> BranchTableOk(BranchesExcept(branches, code))
  {
    var rest := BranchesExcept(branches, code);
    forall a, b | branches == a + b
      ensures BranchesExcept(branches, code) == BranchesExcept(a, code) + BranchesExcept(b, code)
    {
      FilterConcat(a, b, (b: Branch) => b.code != code);
    }
    forall i | 0 <= i < |rest| ensures rest[i].code != code {
      assert rest[i] in rest;
    }
    forall other | other != code
      ensures BranchesWithCode(rest, other) == BranchesWithCode(branches, other)
    {
      FilterOfFilter(branches, (b: Branch) => b.code != code, (b: Branch) => b.code == other);
    }
    if BranchTableOk(branches) {
      FilterPreservesPairwise(branches, (b: Branch) => b.code != code, DifferentCodes);
      forall i | 0 <= i < |rest| ensures WellFormedBranch(rest[i]) {
        assert rest[i] in branches;
      }
    }
  }

  /** Adding a well-formed branch whose code is not yet stored keeps the table well formed. */
  lemma AppendFreshBranch(branches: seq<Branch>, b: Branch)
    requires BranchTableOk(branches)
    requires FindBranch(branches, b.code) == None
    requires WellFormedBranch(b)
    ensures BranchTableOk(branches + [b])
  {
    AppendPreservesPairwise(branches, b, DifferentCodes);
  }

  /** Writing a duplicate-free rider list to a stored branch keeps the table
      well formed, and a later lookup of that code sees the new list. */
  lemma SetRidersSpec(branches: seq<Branch>, code: string, riders: seq<string>)
    requires BranchTableOk(branches)
    requires Distinct(riders)
    ensures BranchTableOk(SetRiders(branches, code, riders))
    ensures FindBranch(branches, code).Some? ==>
              FindBranch(SetRiders(branches, code, riders), code)
                == Some(FindBranch(branches, code).value.(riders := riders))
    ensures forall other :: other != code ==>
              FindBranch(SetRiders(branches, code, riders), other) == FindBranch(branches, other)
  {
    var r := SetRiders(branches, code, riders);
    assert Pairwise(r, DifferentCodes) by {
      forall i, j | 0 <= i < j < |r| ensures DifferentCodes(r[i], r[j]) {
        assert DifferentCodes(branches[i], branches[j]);
      }
    }
    forall i | 0 <= i < |r| ensures WellFormedBranch(r[i]) {
      assert WellFormedBranch(branches[i]);
    }
    SetRidersLookup(branches, code, riders);
  }

  lemma {:induction false} SetRidersLookup(branches: seq<Branch>, code: string, riders: seq<string>)
    ensures FindBranch(branches, code).Some? ==>
              FindBranch(SetRiders(branches, code, riders), code)
                == Some(FindBranch(branches, code).value.(riders := riders))
    ensures forall other :: other != code ==>
              FindBranch(SetRiders(branches, code, riders), other) == FindBranch(branches, other)
  {
    if branches != [] {
      var r := SetRiders(branches, code, riders);
      assert r[1..] == SetRiders(branches[1..], code, riders);
      SetRidersLookup(branches[1..], code, riders);
    }
  }

  /** The three tables of the store and the one session field the admin
      panel keeps, `pending_delete_branch`. */
  class PortalState {
    var branches: seq<Branch>
    var slips: seq<Slip>
    var requests: seq<Request>
    var pendingDeleteBranch: Option<string>
    /** The digest function of the session: one MD5 for every upload. */
    const md5: Bytes -> Md5Digest

    /** The invariants the portal's operations keep: unique upper-case branch
        codes, duplicate-free rider lists, unique slip fingerprints. */
    ghost predicate Valid()
      reads this
      ensures Valid() ==> forall i, j :: 0 <= i < j < |slips| ==> slips[i].imgHash != slips[j].imgHash
      ensures Valid() ==> forall i, j :: 0 <= i < j < |branches| ==> branches[i].code != branches[j].code
      ensures Valid() ==> forall i :: 0 <= i < |branches| ==> NoLowercase(branches[i].code)
    {
      BranchTableOk(branches) && UniqueImages(slips)
    }

    /** Empty tables, no pending deletion, and the digest function `md5`. */
    constructor (md5: Bytes -> Md5Digest)
      ensures Valid()
      ensures branches == [] && slips == [] && requests == [] && pendingDeleteBranch == None
      ensures this.md5 == md5
    {
      this.md5 := md5;
      branches, slips, requests := [], [], [];
      pendingDeleteBranch := None;
    }
  }
}
