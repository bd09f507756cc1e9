/**
 * The predecessor gate: an eligibility run, a compute pilot named by an official run, and what their
 * sealed receipts must have in common before outcomes may begin.
 */
module Chain {
  import opened Common
  import opened Sorting
  import opened Vocabulary

  /** The eight registered rejection reasons, by position. */
  const REASONS := 8

  datatype Row = Row(cohort: nat, eligible: bool, secondary: Option<bool>, reason: Option<nat>)

  /** The canonical selection, as far as its receipt records it. */
  datatype Selection = Selection(
    domain: int, domainCount: nat, ledger: int, digest: int, binding: int, supported: bool, eligibleCount: nat,
      memberCount: nat)

  datatype Receipt = Receipt(indices: seq<nat>, secondary: seq<nat>, reasons: seq<nat>)

  /** Provenance without its mode and its context digest. */
  type Provenance = int

  /** A terminally verified store; `passed` is the pilot's own gate. */
  datatype Verified = Verified(mode: Mode, receipt: Receipt, selection: Selection, provenance: Provenance,
      bindings: bool, passed: bool)

  // ----- Receipts ----------------------------------------------------------------------------

  function Eligible(rows: seq<Row>): seq<nat> {
    if rows == [] then [] else (if rows[0].eligible then [rows[0].cohort] else []) + Eligible(rows[1..])
  }

  function Secondary(rows: seq<Row>): seq<nat> {
    if rows == [] then [] else (if rows[0].secondary == Some(true) then [rows[0].cohort] else []) + Secondary(rows[1..])
  }

  function CountReason(rows: seq<Row>, reason: nat): nat {
    if rows == [] then 0 else (if rows[0].reason == Some(reason) then 1 else 0) + CountReason(rows[1..], reason)
  }

  function ReasonCounts(rows: seq<Row>): (r: seq<nat>)
    ensures |r| == REASONS
  {
    seq(REASONS, k requires 0 <= k < REASONS => CountReason(rows, k))
  }

  function ByCohort(): (Row, Row) -> bool {
    (a: Row, b: Row) => a.cohort < b.cohort
  }

  /** The receipt of a sealed ledger: the store sorts its rows by cohort index first. */
  function ReceiptOf(rows: seq<Row>): Receipt {
    var sealed := Sort(ByCohort(), rows);
    Receipt(Eligible(sealed), Secondary(sealed), ReasonCounts(sealed))
  }

  /** Every cohort index once, and each row either eligible or rejected for one registered reason. */
  predicate WellFormed(rows: seq<Row>) {
    && |rows| == POPULATION
    && (forall i, j :: 0 <= i < j < |rows| ==> rows[i].cohort != rows[j].cohort)
    && (forall i :: 0 <= i < |rows| ==> Accounted(rows[i]))
  }

  predicate Accounted(r: Row) {
    && r.cohort < POPULATION && (r.eligible <==> r.reason == None) && (r.reason.Some? ==> r.reason.value < REASONS)
    && (!r.eligible ==> r.secondary == None)
  }

  // ----- Building the gate -------------------------------------------------------------------

  /** What two receipts must share: ordered eligible indices and rejection counts. */
  predicate SamePrimary(a: Receipt, b: Receipt) {
    a.indices == b.indices && a.reasons == b.reasons
  }

  /** The predecessors named by a run; an official run names both. */
  datatype Named = Named(eligibility: Option<Verified>, pilot: Option<Verified>)

  /** A gate can be built: the predecessors exist, passed, share the provenance and are source-identical. */
  predicate Buildable(mode: Mode, named: Named, provenance: Provenance) {
    mode == EligibilityOnly
    || (
      && named.eligibility.Some? && named.eligibility.value.mode == EligibilityOnly
      && named.eligibility.value.provenance == provenance
      && (mode == Official ==>
           && named.pilot.Some? && named.pilot.value.mode == ComputePilot
           && named.pilot.value.passed && named.pilot.value.bindings
           && named.pilot.value.provenance == provenance
           && SamePrimary(named.pilot.value.receipt, named.eligibility.value.receipt)
           && named.pilot.value.selection == named.eligibility.value.selection))
  }

  /** What the built gate says to rows and a selection. */
  predicate Accepts(mode: Mode, named: Named, rows: seq<Row>, selection: Selection)
    requires mode == EligibilityOnly || (named.eligibility.Some? && (mode == Official ==> named.pilot.Some?))
  {
    mode == EligibilityOnly
    || (
      && |rows| == POPULATION
      && Eligible(rows) == named.eligibility.value.receipt.indices
      && ReasonCounts(rows) == named.eligibility.value.receipt.reasons
      && selection == named.eligibility.value.selection
      && (mode == Official ==> Secondary(rows) == named.pilot.value.receipt.secondary))
  }

  /**
   * A store sealed by a run that passed its gate. The gate sees the rows as the run gave them; the store
   * seals them in cohort order.
   */
  ghost predicate Passed(v: Verified, named: Named) {
    && Buildable(v.mode, named, v.provenance)
    && exists rows :: WellFormed(rows) && v.receipt == ReceiptOf(rows) && Accepts(v.mode, named, rows, v.selection)
  }

  // ----- Order does not matter ---------------------------------------------------------------

  function Increasing(): (nat, nat) -> bool {
    (a: nat, b: nat) => a < b
  }

  predicate HasEligible(rows: seq<Row>, cohort: nat) {
    exists r :: r in rows && r.eligible && r.cohort == cohort
  }

  predicate HasSecondary(rows: seq<Row>, cohort: nat) {
    exists r :: r in rows && r.secondary == Some(true) && r.cohort == cohort
  }

  lemma {:induction false} EligibleMembers(rows: seq<Row>)
    ensures forall i :: i in Eligible(rows) <==> HasEligible(rows, i)
    ensures forall i :: i in Secondary(rows) <==> HasSecondary(rows, i)
  {
    if rows != [] {
      EligibleMembers(rows[1..]);
      assert rows == [rows[0]] + rows[1..];
      assert forall i ::
        HasEligible(rows, i) <==> (rows[0].eligible && rows[0].cohort == i) || HasEligible(rows[1..], i);
      assert forall i ::
        HasSecondary(rows, i)
        <==> (rows[0].secondary == Some(true) && rows[0].cohort == i) || HasSecondary(rows[1..], i);
    }
  }

  lemma {:induction false} EligibleAscending(rows: seq<Row>)
    requires Ascending(ByCohort(), rows)
    ensures Ascending(Increasing(), Eligible(rows)) && Ascending(Increasing(), Secondary(rows))
  {
    if rows != [] {
      var tail := rows[1..];
      assert forall i :: 0 <= i < |tail| ==> tail[i] == rows[i + 1];
      EligibleAscending(tail);
      EligibleMembers(tail);
      assert forall r :: r in tail ==> ByCohort()(rows[0], r);
      HeadIsLeast(rows[0].cohort, Eligible(tail));
      HeadIsLeast(rows[0].cohort, Secondary(tail));
    }
  }

  lemma HeadIsLeast(n: nat, s: seq<nat>)
    requires Ascending(Increasing(), s) && forall i :: i in s ==> n < i
    ensures Ascending(Increasing(), [n] + s)
  {
    var t := [n] + s;
    forall i, j | 0 <= i < j < |t|
      ensures Increasing()(t[i], t[j])
    {
      assert t[j] in s;
    }
  }

  lemma CohortIsStrict(rows: seq<Row>)
    requires WellFormed(rows)
    ensures Strict(ByCohort(), Elements(rows)) && NoDuplicates(rows)
  {
    forall a, b | a in Elements(rows) && b in Elements(rows) && a.cohort == b.cohort
      ensures a == b
    {
      var i :| 0 <= i < |rows| && rows[i] == a;
      var j :| 0 <= j < |rows| && rows[j] == b;
      assert i == j;
    }
  }

  lemma NumbersAreStrict(dom: set<nat>)
    ensures Strict(Increasing(), dom)
  {
  }

  /** Sealing does not change an ascending list of eligible or of secondary indices. */
  lemma SealedIndices(rows: seq<Row>)
    requires WellFormed(rows)
    ensures Ascending(Increasing(), ReceiptOf(rows).indices) && Ascending(Increasing(), ReceiptOf(rows).secondary)
    ensures Ascending(Increasing(), Eligible(rows)) ==> ReceiptOf(rows).indices == Eligible(rows)
    ensures Ascending(Increasing(), Secondary(rows)) ==> ReceiptOf(rows).secondary == Secondary(rows)
  {
    var sealed := Sort(ByCohort(), rows);
    CohortIsStrict(rows);
    SortAscending(ByCohort(), rows, Elements(rows));
    SortElements(ByCohort(), rows);
    EligibleAscending(sealed);
    EligibleMembers(sealed);
    EligibleMembers(rows);
    if Ascending(Increasing(), Eligible(rows)) {
      NumbersAreStrict(Elements(Eligible(sealed)));
      AscendingUnique(Increasing(), Eligible(sealed), Eligible(rows), Elements(Eligible(sealed)));
    }
    if Ascending(Increasing(), Secondary(rows)) {
      NumbersAreStrict(Elements(Secondary(sealed)));
      AscendingUnique(Increasing(), Secondary(sealed), Secondary(rows), Elements(Secondary(sealed)));
    }
  }

  lemma {:induction false} CountInserted(s: seq<Row>, x: Row, k: nat)
    ensures CountReason(Insert(ByCohort(), s, x), k) == CountReason(s, k) + if x.reason == Some(k) then 1 else 0
  {
    if s == [] || ByCohort()(x, s[0]) {
      assert ([x] + s)[1..] == s;
    } else {
      CountInserted(s[1..], x, k);
      assert Insert(ByCohort(), s, x)[1..] == Insert(ByCohort(), s[1..], x);
    }
  }

  lemma {:induction false} CountSorted(rows: seq<Row>, k: nat)
    ensures CountReason(Sort(ByCohort(), rows), k) == CountReason(rows, k)
  {
    if rows != [] {
      CountSorted(rows[1..], k);
      CountInserted(Sort(ByCohort(), rows[1..]), rows[0], k);
    }
  }

  lemma SealedReasons(rows: seq<Row>)
    ensures ReceiptOf(rows).reasons == ReasonCounts(rows)
  {
    forall k | 0 <= k < REASONS
      ensures ReceiptOf(rows).reasons[k] == ReasonCounts(rows)[k]
    {
      CountSorted(rows, k);
    }
  }

  // ----- Agreement along the chain -----------------------------------------------------------

  lemma ReceiptsAscend(v: Verified, named: Named)
    requires Passed(v, named)
    ensures Ascending(Increasing(), v.receipt.indices) && Ascending(Increasing(), v.receipt.secondary)
  {
    var rows :| WellFormed(rows) && v.receipt == ReceiptOf(rows) && Accepts(v.mode, named, rows, v.selection);
    SealedIndices(rows);
  }

  /**
   * A run and the eligibility run it names have the same ordered indices, rejection counts, selection and
   * provenance.
   */
  lemma EligibilityAgrees(v: Verified, named: Named, root: Named)
    requires v.mode != EligibilityOnly && Passed(v, named)
    requires named.eligibility.Some? && Passed(named.eligibility.value, root)
    ensures var e := named.eligibility.value;
      SamePrimary(v.receipt, e.receipt) && v.selection == e.selection && v.provenance == e.provenance
  {
    var rows :| WellFormed(rows) && v.receipt == ReceiptOf(rows) && Accepts(v.mode, named, rows, v.selection);
    ReceiptsAscend(named.eligibility.value, root);
    SealedIndices(rows);
    SealedReasons(rows);
  }

  /** An official run has the secondary feasibility of the pilot it names. */
  lemma SecondaryAgrees(official: Verified, named: Named, pilotNamed: Named)
    requires official.mode == Official && Passed(official, named)
    requires named.pilot.Some? && Passed(named.pilot.value, pilotNamed)
    ensures official.receipt.secondary == named.pilot.value.receipt.secondary
  {
    var rows :| WellFormed(rows) && official.receipt == ReceiptOf(rows)
      && Accepts(official.mode, named, rows, official.selection);
    ReceiptsAscend(named.pilot.value, pilotNamed);
    SealedIndices(rows);
  }

  /**
   * An official run that passed its gate agrees with every run behind it: the eligibility run it names,
   * the pilot it names, and the eligibility run that pilot named, whether or not that is the same one.
   */
  lemma ChainAgrees(official: Verified, named: Named, pilotNamed: Named, root: Named, pilotRoot: Named)
    requires official.mode == Official && Passed(official, named)
    requires named.eligibility.Some? && Passed(named.eligibility.value, root)
    requires named.pilot.Some? && Passed(named.pilot.value, pilotNamed)
    requires pilotNamed.eligibility.Some? && Passed(pilotNamed.eligibility.value, pilotRoot)
    ensures var e, p, f := named.eligibility.value, named.pilot.value, pilotNamed.eligibility.value;
      && SamePrimary(official.receipt, e.receipt) && SamePrimary(official.receipt, p.receipt)
        && SamePrimary(official.receipt, f.receipt)
      && official.selection == e.selection == p.selection == f.selection
      && official.provenance == e.provenance == p.provenance == f.provenance
      && official.receipt.secondary == p.receipt.secondary
      && p.passed && p.bindings
      && e.mode == f.mode == EligibilityOnly && p.mode == ComputePilot
  {
    EligibilityAgrees(official, named, root);
    EligibilityAgrees(named.pilot.value, pilotNamed, pilotRoot);
    SecondaryAgrees(official, named, pilotNamed);
  }

  // ----- Honest runs pass ----------------------------------------------------------------------

  /** What a run seals that prepared these rows and this selection. */
  function Sealed(mode: Mode, rows: seq<Row>, selection: Selection, provenance: Provenance): Verified {
    Verified(mode, ReceiptOf(rows), selection, provenance, true, true)
  }

  /** Three runs in one world that each prepare the same rows, in cohort order, pass one gate after the other. */
  lemma HonestRunsPass(rows: seq<Row>, selection: Selection, provenance: Provenance)
    requires WellFormed(rows) && Ascending(ByCohort(), rows)
    ensures var e := Sealed(EligibilityOnly, rows, selection, provenance);
      var p := Sealed(ComputePilot, rows, selection, provenance);
      var o := Sealed(Official, rows, selection, provenance);
      && Passed(e, Named(None, None)) && Passed(p, Named(Some(e), None)) && Passed(o, Named(Some(e), Some(p)))
  {
    SealedIndices(rows);
    SealedReasons(rows);
    EligibleAscending(rows);
    var e := Sealed(EligibilityOnly, rows, selection, provenance);
    var p := Sealed(ComputePilot, rows, selection, provenance);
    assert Accepts(EligibilityOnly, Named(None, None), rows, selection);
    assert Accepts(ComputePilot, Named(Some(e), None), rows, selection);
    assert Accepts(Official, Named(Some(e), Some(p)), rows, selection);
  }

  predicate SameCount(a: seq<Row>, b: seq<Row>, reason: nat) {
    CountReason(a, reason) == CountReason(b, reason)
  }

  /** And only rows with the same eligible indices, reasons, selection and secondary feasibility pass the last one. */
  lemma OnlySameRowsPass(rows: seq<Row>, current: seq<Row>, selection: Selection, chosen: Selection,
                         provenance: Provenance)
    requires WellFormed(rows) && Ascending(ByCohort(), rows) && |current| == POPULATION
    ensures var e := Sealed(EligibilityOnly, rows, selection, provenance);
      var p := Sealed(ComputePilot, rows, selection, provenance);
      Accepts(Official, Named(Some(e), Some(p)), current, chosen) <==>
        && Eligible(current) == Eligible(rows) && Secondary(current) == Secondary(rows) && chosen == selection
        && forall k: nat :: k < REASONS ==> SameCount(current, rows, k)
  {
    SealedIndices(rows);
    SealedReasons(rows);
    EligibleAscending(rows);
    assert ReceiptOf(rows) == Receipt(Eligible(rows), Secondary(rows), ReasonCounts(rows));
    SameCounts(current, rows);
  }

  lemma SameCounts(current: seq<Row>, rows: seq<Row>)
    ensures ReasonCounts(current) == ReasonCounts(rows)
      <==> forall k: nat :: k < REASONS ==> SameCount(current, rows, k)
  {
    var a, b := ReasonCounts(current), ReasonCounts(rows);
    assert forall k: nat :: k < REASONS ==> (a[k] == b[k] <==> SameCount(current, rows, k));
    assert a == b <==> forall k: nat :: k < REASONS ==> a[k] == b[k];
  }

  // ----- Every row is accounted for ----------------------------------------------------------

  function Total(counts: seq<nat>): nat {
    if counts == [] then 0 else Total(counts[..|counts| - 1]) + counts[|counts| - 1]
  }

  /** Counts of the first `n` reasons. */
  function FirstCounts(rows: seq<Row>, n: nat): (r: seq<nat>)
    ensures |r| == n
  {
    seq(n, k requires 0 <= k < n => CountReason(rows, k))
  }

  function Rejected(rows: seq<Row>, n: nat): nat {
    if rows == [] then 0
      else (if rows[0].reason.Some? && rows[0].reason.value < n then 1 else 0) + Rejected(rows[1..], n)
  }

  lemma {:induction false} RejectedNext(rows: seq<Row>, n: nat)
    ensures Rejected(rows, n + 1) == Rejected(rows, n) + CountReason(rows, n)
  {
    if rows != [] {
      RejectedNext(rows[1..], n);
    }
  }

  lemma {:induction false} RejectedNone(rows: seq<Row>)
    ensures Rejected(rows, 0) == 0
  {
    if rows != [] {
      RejectedNone(rows[1..]);
    }
  }

  lemma {:induction false} TotalIsRejected(rows: seq<Row>, n: nat)
    ensures Total(FirstCounts(rows, n)) == Rejected(rows, n)
  {
    if n == 0 {
      RejectedNone(rows);
    } else {
      TotalIsRejected(rows, n - 1);
      RejectedNext(rows, n - 1);
      assert FirstCounts(rows, n)[..n - 1] == FirstCounts(rows, n - 1);
    }
  }

  lemma {:induction false} EligibleOrRejected(rows: seq<Row>)
    requires forall i :: 0 <= i < |rows| ==> Accounted(rows[i])
    ensures |Eligible(rows)| + Rejected(rows, REASONS) == |rows|
  {
    if rows != [] {
      EligibleOrRejected(rows[1..]);
    }
  }

  /** Eligible indices and rejection counts of a sealed receipt make up the population. */
  lemma Conservation(rows: seq<Row>)
    requires WellFormed(rows)
    ensures |ReceiptOf(rows).indices| + Total(ReceiptOf(rows).reasons) == POPULATION
  {
    var sealed := Sort(ByCohort(), rows);
    SortElements(ByCohort(), rows);
    forall i | 0 <= i < |sealed|
      ensures Accounted(sealed[i])
    {
      assert sealed[i] in sealed;
    }
    EligibleOrRejected(sealed);
    TotalIsRejected(sealed, REASONS);
    assert FirstCounts(sealed, REASONS) == ReasonCounts(sealed);
  }
}
