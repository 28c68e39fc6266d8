/** modules/branch.py: the branch panel. One call of `SubmitSlip` is one
    press of "Submit Slip" with the form's current values: the week and
    slip type chosen, the quantity, the uploaded file (if any), the rider
    chosen and the text entered in each id field. */
module BranchPanel {
  import opened Wrappers
  import opened Seqs
  import opened Text
  import opened Tables
  import opened Utils
  import opened Digests

  /** The options of the "Select Week" box: `f"Week {i}"` for i in 1..12. */
  function Weeks(): (weeks: seq<string>)
    ensures |weeks| == 12
  {
    seq(12, i requires 0 <= i < 12 => "Week " + Decimal(i + 1))
  }

  /** The week options are exactly the labels "Week 1" to "Week 12", in order. */
  lemma WeeksAreWeek1ToWeek12()
    ensures Weeks() == ["Week 1", "Week 2", "Week 3", "Week 4", "Week 5", "Week 6",
                        "Week 7", "Week 8", "Week 9", "Week 10", "Week 11", "Week 12"]
  {
    var w := Weeks();
    assert Decimal(10) == "10" && Decimal(11) == "11" && Decimal(12) == "12";
    assert w[0] == "Week 1" && w[1] == "Week 2" && w[2] == "Week 3" && w[3] == "Week 4";
    assert w[4] == "Week 5" && w[5] == "Week 6" && w[6] == "Week 7" && w[7] == "Week 8";
    assert w[8] == "Week 9" && w[9] == "Week 10" && w[10] == "Week 11" && w[11] == "Week 12";
  }

  /** The commission paid per slip of a type, in rupees. */
  function Rate(t: SlipType): nat
  {
    if t == OnlineSlip then 50 else 25
  }

  /** The commission of a slip (modules/branch.py:33): the quantity times
      the rate of its type. */
  function Commission(t: SlipType, qty: nat): (c: nat)
    ensures t == OnlineSlip ==> c == 50 * qty
    ensures t == CashSlip ==> c == 25 * qty
  {
    qty * Rate(t)
  }

  /** The widget key of the `i`-th id field: `tid_i` for transaction ids of
      an online slip, `sid_i` for serial numbers of a cash slip. */
  function IdKey(t: SlipType, i: nat): (k: string)
    ensures |k| > 4
    ensures k[..4] == "tid_" <==> t == OnlineSlip
    ensures k[..4] == "sid_" <==> t == CashSlip
    ensures forall j :: 4 <= j < |k| ==> IsDigit(k[j])
    ensures DecimalValue(k[4..]) == i
  {
    var k := (if t == OnlineSlip then "tid_" else "sid_") + Decimal(i);
    assert k[4..] == Decimal(i);
    DecimalRoundTrip(i);
    k
  }

  /** Each id field of the form has its own key, and the two slip types use separate fields. */
  lemma IdKeysDistinct(t: SlipType, i: nat, u: SlipType, j: nat)
    ensures IdKey(t, i) == IdKey(u, j) <==> t == u && i == j
  {
    var a, b := IdKey(t, i), IdKey(u, j);
    if a == b {
      assert a[0] == b[0];
      assert a[4..] == Decimal(i) && b[4..] == Decimal(j);
      DecimalInjective(i, j);
    }
  }

  /** What a text field shows: the text entered under that key, or "" when nothing was entered. */
  function FieldValue(fields: map<string, string>, key: string): (v: string)
    ensures key in fields ==> v == fields[key]
    ensures key !in fields ==> v == ""
  {
    if key in fields then fields[key] else ""
  }

  /** The loop at lines 25-31: one id per unit of quantity, read from the
      fields of the selected slip type. */
  method BuildIds(t: SlipType, qty: nat, fields: map<string, string>) returns (ids: seq<string>)
    ensures |ids| == qty
    ensures forall i :: 0 <= i < qty ==> ids[i] == FieldValue(fields, IdKey(t, i))
  {
    ids := [];
    if t == OnlineSlip {
      for i := 0 to qty
        invariant |ids| == i
        invariant forall k :: 0 <= k < i ==> ids[k] == FieldValue(fields, "tid_" + Decimal(k))
      {
        ids := ids + [FieldValue(fields, "tid_" + Decimal(i))];
      }
    } else {
      for i := 0 to qty
        invariant |ids| == i
        invariant forall k :: 0 <= k < i ==> ids[k] == FieldValue(fields, "sid_" + Decimal(k))
      {
        ids := ids + [FieldValue(fields, "sid_" + Decimal(i))];
      }
    }
  }

  /** What the panel shows of the branch it was opened for. */
  datatype BranchView = BranchView(name: string, riders: seq<string>)

  const UnknownBranch: string := "Unknown Branch"

  /** Lines 8-22: the branch's name and riders, or "Unknown Branch" and no
      riders when no branch has the upper-cased code. */
  function ViewBranch(branches: seq<Branch>, code: string): (v: BranchView)
    ensures (forall i :: 0 <= i < |branches| ==> branches[i].code != Upper(code)) ==>
              v == BranchView(UnknownBranch, [])
    ensures (exists i :: 0 <= i < |branches| && branches[i].code == Upper(code)) ==>
              exists i :: 0 <= i < |branches| && branches[i].code == Upper(code)
                          && v == BranchView(branches[i].name, branches[i].riders)
  {
    match FindBranch(branches, Upper(code))
    case None => BranchView(UnknownBranch, [])
    case Some(b) => BranchView(b.name, b.riders)
  }

  /** What the "Rider Name" box can return: nothing when there is no rider
      to offer, otherwise one of the offered riders. */
  predicate RiderOffered(rider: Option<string>, riders: seq<string>)
  {
    if riders == [] then rider == None else rider.Some? && rider.value in riders
  }

  datatype SubmitOutcome = Submitted | NoImage | DuplicateImage

  /** The slip lines 46-56 build from the form. */
  ghost predicate SlipFromForm(s: Slip, code: string, weekChoice: nat, t: SlipType, qty: nat,
                               rider: Option<string>, fields: map<string, string>,
                               fingerprint: string, timestamp: string)
  {
    && s.branchCode == Upper(code)
    && weekChoice < |Weeks()| && s.week == Weeks()[weekChoice]
    && s.slipType == t
    && s.qty == qty
    && s.rider == rider
    && |s.ids| == qty
    && (forall i :: 0 <= i < qty ==> s.ids[i] == FieldValue(fields, IdKey(t, i)))
    && s.imgHash == fingerprint
    && s.commission == Commission(t, qty)
    && s.timestamp == timestamp
  }

  /** "Submit Slip": rejects a missing image, rejects an image whose
      fingerprint some stored slip already has, and otherwise appends
      exactly one slip. Each call keeps slip fingerprints unique. */
  method SubmitSlip(p: PortalState, code: string, weekChoice: nat, t: SlipType, qty: nat,
                    image: Option<Bytes>, rider: Option<string>, fields: map<string, string>,
                    timestamp: string)
    returns (outcome: SubmitOutcome)
    requires p.Valid()
    requires weekChoice < |Weeks()|
    requires qty >= 1
    requires RiderOffered(rider, ViewBranch(p.branches, code).riders)
    modifies p
    ensures p.Valid()
    ensures p.branches == old(p.branches) && p.requests == old(p.requests)
    ensures p.pendingDeleteBranch == old(p.pendingDeleteBranch)
    ensures image.None? ==> outcome == NoImage && p.slips == old(p.slips)
    ensures image.Some? && (exists s :: s in old(p.slips) && s.imgHash == HashImage(p.md5, image.value)) ==>
              outcome == DuplicateImage && p.slips == old(p.slips)
    ensures image.Some? && (forall s :: s in old(p.slips) ==> s.imgHash != HashImage(p.md5, image.value)) ==>
              && outcome == Submitted
              && |p.slips| == |old(p.slips)| + 1
              && p.slips[..|old(p.slips)|] == old(p.slips)
              && SlipFromForm(p.slips[|old(p.slips)|], code, weekChoice, t, qty, rider, fields,
                              HashImage(p.md5, image.value), timestamp)
  {
    var ids := BuildIds(t, qty, fields);
    var commission := Commission(t, qty);
    if image.None? {
      return NoImage;
    }
    var fingerprint := HashImage(p.md5, image.value);
    var existing := SlipsWithImage(p.slips, fingerprint);
    if existing != [] {
      assert existing[0] in p.slips;
      return DuplicateImage;
    }
    var slip := Slip(Upper(code), Weeks()[weekChoice], t, qty, rider, ids, fingerprint,
                     commission, timestamp);
    AppendFreshSlip(p.slips, slip);
    ghost var before := p.slips;
    p.slips := p.slips + [slip];
    assert p.slips[..|before|] == before;
    outcome := Submitted;
  }

  /** Two presses of "Submit Slip" with the same image in one session: once
      the first is stored, the second is refused as a duplicate, because the
      session fingerprints every upload with the same digest function. */
  method SubmitSameImageTwice(p: PortalState, code: string, weekChoice: nat, t: SlipType, qty: nat,
                              image: Bytes, rider: Option<string>, fields: map<string, string>,
                              firstTime: string, secondTime: string)
    returns (first: SubmitOutcome, second: SubmitOutcome)
    requires p.Valid()
    requires weekChoice < |Weeks()|
    requires qty >= 1
    requires RiderOffered(rider, ViewBranch(p.branches, code).riders)
    modifies p
    ensures p.Valid()
    ensures first != NoImage && second == DuplicateImage
  {
    first := SubmitSlip(p, code, weekChoice, t, qty, Some(image), rider, fields, firstTime);
    assert exists s :: s in p.slips && s.imgHash == HashImage(p.md5, image) by {
      if first == Submitted {
        assert p.slips[|p.slips| - 1] in p.slips;
      }
    }
    second := SubmitSlip(p, code, weekChoice, t, qty, Some(image), rider, fields, secondTime);
  }

  /** A slip built from the form carries one of the labels "Week 1" to
      "Week 12", one id per unit of quantity, and the rate of its type per id. */
  lemma FormSlipFacts(s: Slip, code: string, weekChoice: nat, t: SlipType, qty: nat,
                      rider: Option<string>, fields: map<string, string>,
                      fingerprint: string, timestamp: string)
    requires SlipFromForm(s, code, weekChoice, t, qty, rider, fields, fingerprint, timestamp)
    ensures s.week in ["Week 1", "Week 2", "Week 3", "Week 4", "Week 5", "Week 6",
                       "Week 7", "Week 8", "Week 9", "Week 10", "Week 11", "Week 12"]
    ensures s.commission == |s.ids| * Rate(s.slipType)
  {
    WeeksAreWeek1ToWeek12();
  }
}
