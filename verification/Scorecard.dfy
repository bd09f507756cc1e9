/**
 * The streaming scorecard: cases arrive in any order and only compact facts are kept, keyed in maps. The
 * final matrix is a function of the set of cases.
 */
module Scorecard {
  import opened Common
  import opened Vocabulary

  datatype Contrast = Contrast(a: Policy, b: Policy)

  const CONTRASTS: seq<Contrast> :=
    [Contrast(ConstantVelocity, LogReplay), Contrast(Idm, LogReplay), Contrast(Idm, ConstantVelocity)]

  /** The registered slices and metrics, in registry order. */
  datatype Registry = Registry(slices: seq<string>, metrics: seq<string>) {
    predicate Distinct() {
      && (forall i, j :: 0 <= i < j < |slices| ==> slices[i] != slices[j])
      && (forall i, j :: 0 <= i < j < |metrics| ==> metrics[i] != metrics[j])
    }
  }

  datatype Scalar = Scalar(index: nat, value: Option<real>)

  datatype SliceRow = SliceRow(index: nat, slice: string, eligible: bool, member: bool)

  datatype Case = Case(index: nat, specs: int, slices: seq<SliceRow>, scalars: map<(Policy, string), Scalar>,
      pass1: int, pass2: int)

  /**
   * What the constructor of a case guarantees: one row a slice, one scalar a policy and metric, all of its own
   * index.
   */
  ghost predicate ValidCase(reg: Registry, c: Case) {
    && |c.slices| == |reg.slices|
    && (forall k :: 0 <= k < |reg.slices| ==> c.slices[k].slice == reg.slices[k] && c.slices[k].index == c.index)
    && (forall p, m :: (p, m) in c.scalars <==> m in reg.metrics)
    && (forall p, m :: (p, m) in c.scalars ==> c.scalars[(p, m)].index == c.index)
    && c.pass1 == c.pass2
  }

  type Cases = map<nat, Case>

  ghost predicate ValidCases(reg: Registry, cases: Cases) {
    forall i :: i in cases ==> ValidCase(reg, cases[i]) && cases[i].index == i
  }

  ghost predicate Covers(cases: Cases, n: nat) {
    forall i :: i in cases <==> 0 <= i < n
  }

  // ----- The batch function ------------------------------------------------------------------

  datatype Cell = Cell(metric: string, slice: string, contrast: Contrast, a: seq<Scalar>, b: seq<Scalar>)

  predicate InSlice(row: SliceRow) {
    row.eligible && row.member
  }

  /** The indices below `n` whose case is in the slice, in increasing order. */
  ghost function Members(reg: Registry, cases: Cases, s: nat, n: nat): (r: seq<nat>)
    requires ValidCases(reg, cases) && s < |reg.slices| && forall i :: 0 <= i < n ==> i in cases
    ensures forall j :: 0 <= j < |r| ==> r[j] < n && InSlice(cases[r[j]].slices[s])
  {
    if n == 0 then []
    else Members(reg, cases, s, n - 1) + if InSlice(cases[n - 1].slices[s]) then [n - 1] else []
  }

  ghost function Picked(reg: Registry, cases: Cases, members: seq<nat>, p: Policy, metric: string): (r: seq<Scalar>)
    requires ValidCases(reg, cases) && metric in reg.metrics && forall j :: 0 <= j < |members| ==> members[j] in cases
    ensures |r| == |members|
  {
    seq(|members|, j requires 0 <= j < |members| => cases[members[j]].scalars[(p, metric)])
  }

  ghost function CellOf(reg: Registry, cases: Cases, n: nat, m: nat, s: nat, c: nat): Cell
    requires ValidCases(reg, cases) && Covers(cases, n) && m < |reg.metrics| && s < |reg.slices| && c < 3
  {
    var members := Members(reg, cases, s, n);
    var metric := reg.metrics[m];
    Cell(metric, reg.slices[s], CONTRASTS[c],
         Picked(reg, cases, members, CONTRASTS[c].a, metric), Picked(reg, cases, members, CONTRASTS[c].b, metric))
  }

  /** The three contrasts of one metric and slice. */
  ghost function SliceCells(reg: Registry, cases: Cases, n: nat, m: nat, s: nat): (r: seq<Cell>)
    requires ValidCases(reg, cases) && Covers(cases, n) && m < |reg.metrics| && s < |reg.slices|
    ensures |r| == 3
  {
    [CellOf(reg, cases, n, m, s, 0), CellOf(reg, cases, n, m, s, 1), CellOf(reg, cases, n, m, s, 2)]
  }

  ghost function MetricPieces(reg: Registry, cases: Cases, n: nat, m: nat): (r: seq<seq<Cell>>)
    requires ValidCases(reg, cases) && Covers(cases, n) && m < |reg.metrics|
    ensures |r| == |reg.slices| && forall s :: 0 <= s < |r| ==> |r[s]| == 3
  {
    seq(|reg.slices|, s requires 0 <= s < |reg.slices| => SliceCells(reg, cases, n, m, s))
  }

  /** All cells of one metric, slice by slice. */
  ghost function MetricCells(reg: Registry, cases: Cases, n: nat, m: nat): (r: seq<Cell>)
    requires ValidCases(reg, cases) && Covers(cases, n) && m < |reg.metrics|
    ensures |r| == |reg.slices| * 3
  {
    UniformLength(MetricPieces(reg, cases, n, m), 3);
    Concat(MetricPieces(reg, cases, n, m))
  }

  ghost function MatrixPieces(reg: Registry, cases: Cases, n: nat): (r: seq<seq<Cell>>)
    requires ValidCases(reg, cases) && Covers(cases, n)
    ensures |r| == |reg.metrics| && forall m :: 0 <= m < |r| ==> |r[m]| == |reg.slices| * 3
  {
    seq(|reg.metrics|, m requires 0 <= m < |reg.metrics| => MetricCells(reg, cases, n, m))
  }

  /** The whole matrix: metric by metric, slice by slice, contrast by contrast. */
  ghost function Matrix(reg: Registry, cases: Cases, n: nat): seq<Cell>
    requires ValidCases(reg, cases) && Covers(cases, n)
  {
    Concat(MatrixPieces(reg, cases, n))
  }

  /** Everything a finalized scorecard says. */
  datatype Summary = Summary(count: nat, slices: seq<SliceRow>, inputs: seq<Cell>, pass1: seq<int>, pass2: seq<int>)

  /** The slice rows of the first `n` cases, case by case. */
  ghost function AllSlices(reg: Registry, cases: Cases, n: nat): seq<SliceRow>
    requires ValidCases(reg, cases) && forall i :: 0 <= i < n ==> i in cases
  {
    if n == 0 then [] else AllSlices(reg, cases, n - 1) + cases[n - 1].slices
  }

  ghost function Digests(reg: Registry, cases: Cases, n: nat, first: bool): (r: seq<int>)
    requires ValidCases(reg, cases) && forall i :: 0 <= i < n ==> i in cases
  {
    seq(n, i requires 0 <= i < n => if first then cases[i].pass1 else cases[i].pass2)
  }

  ghost function Batch(reg: Registry, cases: Cases, n: nat): Summary
    requires ValidCases(reg, cases) && Covers(cases, n)
  {
    Summary(n, AllSlices(reg, cases, n), Matrix(reg, cases, n),
            Digests(reg, cases, n, true), Digests(reg, cases, n, false))
  }

  // ----- The accumulator ---------------------------------------------------------------------

  class Accumulator {
    const reg: Registry
    var digests1: map<nat, int>
    var digests2: map<nat, int>
    var specs: Option<int>
    var finalized: bool
    var scalars: map<(nat, Policy, string), Scalar>
    var slices: map<(nat, string), SliceRow>
    /** The cases taken in so far. */
    ghost var cases: Cases

    constructor (reg: Registry)
      requires reg.Distinct()
      ensures this.reg == reg && Valid() && cases == map[] && !finalized
    {
      this.reg := reg;
      digests1, digests2, specs, finalized, scalars, slices, cases := map[], map[], None, false, map[], map[], map[];
    }

    /** The kept facts are those of the cases, no more and no less. */
    ghost predicate Valid()
      reads this
    {
      && reg.Distinct() && FactsOf(cases, digests1, digests2, specs) && RowsAndScalarsOf(reg, cases, slices, scalars)
    }

    /** Take one case in, or change nothing. */
    method AddCase(c: Case) returns (ok: bool)
      requires Valid() && ValidCase(reg, c)
      modifies this
      ensures Valid() && finalized == old(finalized)
      ensures ok <==> !old(finalized) && c.index !in old(cases) && (old(specs).None? || old(specs) == Some(c.specs))
      ensures ok ==> cases == old(cases)[c.index := c]
      ensures !ok ==> unchanged(this)
    {
      if finalized {
        return false;
      }
      if c.index in digests1 {
        return false;
      }
      if specs.Some? && specs.value != c.specs {
        return false;
      }
      TakeIn(c);
      ok := true;
    }

    /** Keep the facts of a new case. */
    method TakeIn(c: Case)
      requires Valid() && ValidCase(reg, c) && c.index !in cases && (specs.None? || specs == Some(c.specs))
      modifies this
      ensures Valid() && finalized == old(finalized) && cases == old(cases)[c.index := c]
    {
      AddFacts(c);
      AddRows(c);
      cases := cases[c.index := c];
    }

    /** Its pass digests and the specification digest. */
    method AddFacts(c: Case)
      requires FactsOf(cases, digests1, digests2, specs) && (specs.None? || specs == Some(c.specs))
      modifies `specs, `digests1, `digests2
      ensures FactsOf(cases[c.index := c], digests1, digests2, specs)
    {
      FactsTakenIn(cases, c, digests1, digests2, specs);
      specs := Some(c.specs);
      digests1 := digests1[c.index := c.pass1];
      digests2 := digests2[c.index := c.pass2];
    }

    /** Its slice rows and its scalars. */
    method AddRows(c: Case)
      requires reg.Distinct() && ValidCase(reg, c) && RowsAndScalarsOf(reg, cases, slices, scalars)
      requires c.index !in cases
      modifies `slices, `scalars
      ensures RowsAndScalarsOf(reg, cases[c.index := c], slices, scalars)
    {
      NewKeys(reg, cases, slices, scalars, c);
      AddSlices(c);
      AddScalars(c);
      TakenIn(reg, cases, c, old(slices), slices, old(scalars), scalars);
    }

    /** A slice fact of a new case is never a duplicate. */
    method AddSlices(c: Case)
      requires reg.Distinct() && ValidCase(reg, c) && forall name :: (c.index, name) !in slices
      modifies `slices
      ensures SlicesPlus(reg, old(slices), slices, c, |c.slices|)
    {
      var k := 0;
      while k < |c.slices|
        invariant 0 <= k <= |c.slices|
        invariant SlicesPlus(reg, old(slices), slices, c, k)
      {
        var key := (c.index, c.slices[k].slice);
        NextSlice(reg, old(slices), slices, c, k);
        if key in slices {
          assert false;
        } else {
          slices := slices[key := c.slices[k]];
        }
        k := k + 1;
      }
    }

    /** Nor is a policy scalar. */
    method AddScalars(c: Case)
      requires forall p, m :: (c.index, p, m) !in scalars
      modifies `scalars
      ensures ScalarsPlus(old(scalars), scalars, c, c.scalars.Keys)
    {
      var left := c.scalars.Keys;
      while left != {}
        invariant left <= c.scalars.Keys
        invariant ScalarsPlus(old(scalars), scalars, c, c.scalars.Keys - left)
        decreases |left|
      {
        var pm :| pm in left;
        var key := (c.index, pm.0, pm.1);
        if key in scalars {
          assert false;
        } else {
          scalars := scalars[key := c.scalars[pm]];
        }
        left := left - {pm};
      }
      assert c.scalars.Keys - left == c.scalars.Keys;
    }

    // ----- Finalizing ------------------------------------------------------------------------

    /** Exactly the indices below the expected count, or nothing happens; then the batch result, once. */
    method Finalize(expected: int) returns (summary: Option<Summary>)
      requires Valid()
      modifies `finalized
      ensures Valid()
      ensures summary.Some? <==> !old(finalized) && expected >= 1 && Covers(cases, expected)
      ensures summary.Some? ==> summary.value == Batch(reg, cases, expected)
      ensures finalized == (old(finalized) || summary.Some?)
    {
      if finalized || expected < 1 {
        return None;
      }
      SameKeys(digests1.Keys, cases, expected);
      SameKeys(digests2.Keys, cases, expected);
      if digests1.Keys != Below(expected) || digests2.Keys != Below(expected) {
        return None;
      }
      var rows := SliceRows(reg, cases, slices, expected);
      var inputs := ScorecardInputs(reg, cases, slices, scalars, expected);
      var pass1 := DigestList(reg, cases, digests1, expected, true);
      var pass2 := DigestList(reg, cases, digests2, expected, false);
      finalized := true;
      return Some(Summary(expected, rows, inputs, pass1, pass2));
    }
  }

  lemma SameKeys(keys: set<nat>, cases: Cases, n: nat)
    requires forall i :: i in keys <==> i in cases
    ensures keys == Below(n) <==> Covers(cases, n)
  {
    if Covers(cases, n) {
      assert forall i: nat :: i in keys <==> i in Below(n);
    }
    if keys == Below(n) {
      assert forall i: nat :: i in cases <==> i in Below(n);
    }
  }

  /** The pass digests of all cases under their indices, and the specification digest they share. */
  ghost predicate FactsOf(cases: Cases, digests1: map<nat, int>, digests2: map<nat, int>, specs: Option<int>) {
    && (forall i :: i in digests1 <==> i in cases) && (forall i :: i in digests2 <==> i in cases)
    && (forall i :: i in cases ==> digests1[i] == cases[i].pass1 && digests2[i] == cases[i].pass2)
    && (forall i :: i in cases ==> specs == Some(cases[i].specs))
    && (specs.Some? ==> cases != map[])
  }

  lemma FactsTakenIn(cases: Cases, c: Case, digests1: map<nat, int>, digests2: map<nat, int>, specs: Option<int>)
    requires FactsOf(cases, digests1, digests2, specs) && (specs.None? || specs == Some(c.specs))
    ensures FactsOf(cases[c.index := c], digests1[c.index := c.pass1], digests2[c.index := c.pass2], Some(c.specs))
  {
    assert c.index in cases[c.index := c];
  }

  /** The scalars of all cases under their keys. */
  ghost predicate ScalarsOf(cases: Cases, scalars: map<(nat, Policy, string), Scalar>) {
    && (forall i, p, m :: (i, p, m) in scalars <==> i in cases && (p, m) in cases[i].scalars)
    && (forall i, p, m :: (i, p, m) in scalars ==> scalars[(i, p, m)] == cases[i].scalars[(p, m)])
  }

  ghost predicate SlicesOf(reg: Registry, cases: Cases, slices: map<(nat, string), SliceRow>)
    requires ValidCases(reg, cases)
  {
    && (forall i, name :: (i, name) in slices ==> i in cases)
    && (forall i, k :: i in cases && 0 <= k < |reg.slices| ==>
         (i, reg.slices[k]) in slices && slices[(i, reg.slices[k])] == cases[i].slices[k])
  }

  ghost predicate RowsAndScalarsOf(reg: Registry, cases: Cases, slices: map<(nat, string), SliceRow>,
      scalars: map<(nat, Policy, string), Scalar>)
  {
    ValidCases(reg, cases) && SlicesOf(reg, cases, slices) && ScalarsOf(cases, scalars)
  }

  /** `after` is `before` and the first `k` slice rows of a case. */
  ghost predicate SlicesPlus(reg: Registry, before: map<(nat, string), SliceRow>, after: map<(nat, string), SliceRow>,
      c: Case, k: nat)
    requires k <= |c.slices| == |reg.slices|
  {
    && (forall key :: key in before ==> key in after && after[key] == before[key])
    && (forall key :: key in after ==>
      key in before || (key.0 == c.index && exists j :: 0 <= j < k && reg.slices[j] == key.1))
    && (forall j :: 0 <= j < k ==> (c.index, reg.slices[j]) in after && after[(c.index, reg.slices[j])] == c.slices[j])
  }

  /** `after` is `before` and those scalars of a case whose keys are in `done`. */
  ghost predicate ScalarsPlus(before: map<(nat, Policy, string), Scalar>, after: map<(nat, Policy, string), Scalar>,
      c: Case, done: set<(Policy, string)>)
    requires done <= c.scalars.Keys
  {
    && (forall i, p, m :: (i, p, m) in after <==> (i, p, m) in before || (i == c.index && (p, m) in done))
    && (forall i, p, m :: (i, p, m) in before ==> after[(i, p, m)] == before[(i, p, m)])
    && (forall p, m :: (p, m) in done ==> after[(c.index, p, m)] == c.scalars[(p, m)])
  }

  /** Nothing is kept yet of a new case. */
  lemma NewKeys(reg: Registry, cases: Cases, slices: map<(nat, string), SliceRow>,
                scalars: map<(nat, Policy, string), Scalar>, c: Case)
    requires RowsAndScalarsOf(reg, cases, slices, scalars) && c.index !in cases
    ensures forall name :: (c.index, name) !in slices
    ensures forall p, m :: (c.index, p, m) !in scalars
  {
  }

  lemma NextSlice(reg: Registry, before: map<(nat, string), SliceRow>, after: map<(nat, string), SliceRow>,
      c: Case, k: nat)
    requires reg.Distinct() && ValidCase(reg, c) && k < |c.slices| && SlicesPlus(reg, before, after, c, k)
    requires forall name :: (c.index, name) !in before
    ensures (c.index, reg.slices[k]) !in after
    ensures SlicesPlus(reg, before, after[(c.index, reg.slices[k]) := c.slices[k]], c, k + 1)
  {
  }

  lemma TakenIn(reg: Registry, cases: Cases, c: Case,
                slices0: map<(nat, string), SliceRow>, slices1: map<(nat, string), SliceRow>,
                scalars0: map<(nat, Policy, string), Scalar>, scalars1: map<(nat, Policy, string), Scalar>)
    requires RowsAndScalarsOf(reg, cases, slices0, scalars0) && ValidCase(reg, c) && c.index !in cases
    requires SlicesPlus(reg, slices0, slices1, c, |c.slices|) && ScalarsPlus(scalars0, scalars1, c, c.scalars.Keys)
    ensures RowsAndScalarsOf(reg, cases[c.index := c], slices1, scalars1)
  {
    SlicesTakenIn(reg, cases, c, slices0, slices1);
    ScalarsTakenIn(cases, c, scalars0, scalars1);
  }

  lemma SlicesTakenIn(reg: Registry, cases: Cases, c: Case, before: map<(nat, string), SliceRow>,
      after: map<(nat, string), SliceRow>)
    requires ValidCases(reg, cases) && ValidCase(reg, c) && c.index !in cases
    requires SlicesOf(reg, cases, before) && SlicesPlus(reg, before, after, c, |c.slices|)
    ensures ValidCases(reg, cases[c.index := c]) && SlicesOf(reg, cases[c.index := c], after)
  {
  }

  lemma ScalarsTakenIn(cases: Cases, c: Case, before: map<(nat, Policy, string), Scalar>,
      after: map<(nat, Policy, string), Scalar>)
    requires c.index !in cases && ScalarsOf(cases, before) && ScalarsPlus(before, after, c, c.scalars.Keys)
    ensures ScalarsOf(cases[c.index := c], after)
  {
  }

  // ----- Building the matrix from the maps -----------------------------------------------------

  method RowsOf(reg: Registry, ghost cases: Cases, slices: map<(nat, string), SliceRow>, i: nat)
    returns (rows: seq<SliceRow>)
    requires ValidCases(reg, cases) && SlicesOf(reg, cases, slices) && i in cases
    ensures rows == cases[i].slices
  {
    rows := [];
    var k := 0;
    while k < |reg.slices|
      invariant 0 <= k <= |reg.slices| && rows == cases[i].slices[..k]
    {
      rows := rows + [slices[(i, reg.slices[k])]];
      k := k + 1;
    }
  }

  method SliceRows(reg: Registry, ghost cases: Cases, slices: map<(nat, string), SliceRow>, n: nat)
    returns (rows: seq<SliceRow>)
    requires ValidCases(reg, cases) && SlicesOf(reg, cases, slices) && Covers(cases, n)
    ensures rows == AllSlices(reg, cases, n)
  {
    rows := [];
    var i := 0;
    while i < n
      invariant 0 <= i <= n && rows == AllSlices(reg, cases, i)
    {
      var own := RowsOf(reg, cases, slices, i);
      rows := rows + own;
      i := i + 1;
    }
  }

  method DigestList(reg: Registry, ghost cases: Cases, kept: map<nat, int>, n: nat, ghost first: bool)
    returns (digests: seq<int>)
    requires ValidCases(reg, cases) && Covers(cases, n)
    requires forall i :: i in cases ==> i in kept && kept[i] == if first then cases[i].pass1 else cases[i].pass2
    ensures digests == Digests(reg, cases, n, first)
  {
    digests := [];
    var i := 0;
    while i < n
      invariant 0 <= i <= n && |digests| == i
      invariant forall k :: 0 <= k < i ==> digests[k] == Digests(reg, cases, n, first)[k]
    {
      assert i in cases;
      digests := digests + [kept[i]];
      i := i + 1;
    }
  }

  method MemberIndices(reg: Registry, ghost cases: Cases, slices: map<(nat, string), SliceRow>, s: nat, n: nat)
    returns (members: seq<nat>)
    requires ValidCases(reg, cases) && SlicesOf(reg, cases, slices) && Covers(cases, n) && s < |reg.slices|
    ensures members == Members(reg, cases, s, n)
  {
    members := [];
    var i := 0;
    while i < n
      invariant 0 <= i <= n && members == Members(reg, cases, s, i)
    {
      assert i in cases;
      var row := slices[(i, reg.slices[s])];
      if row.eligible && row.member {
        members := members + [i];
      }
      i := i + 1;
    }
  }

  method ScalarsFor(reg: Registry, ghost cases: Cases, scalars: map<(nat, Policy, string), Scalar>,
                    members: seq<nat>, p: Policy, metric: string) returns (values: seq<Scalar>)
    requires ValidCases(reg, cases) && ScalarsOf(cases, scalars)
    requires metric in reg.metrics && forall j :: 0 <= j < |members| ==> members[j] in cases
    ensures values == Picked(reg, cases, members, p, metric)
  {
    values := [];
    var j := 0;
    while j < |members|
      invariant 0 <= j <= |members| && |values| == j
      invariant forall k :: 0 <= k < j ==> values[k] == cases[members[k]].scalars[(p, metric)]
    {
      assert members[j] in cases && (p, metric) in cases[members[j]].scalars;
      values := values + [scalars[(members[j], p, metric)]];
      j := j + 1;
    }
  }

  /** The three inputs of one metric and slice. */
  method SliceInputs(reg: Registry, ghost cases: Cases, slices: map<(nat, string), SliceRow>,
                     scalars: map<(nat, Policy, string), Scalar>, m: nat, s: nat, n: nat) returns (cells: seq<Cell>)
    requires ValidCases(reg, cases) && SlicesOf(reg, cases, slices) && ScalarsOf(cases, scalars)
    requires Covers(cases, n) && m < |reg.metrics| && s < |reg.slices|
    ensures cells == SliceCells(reg, cases, n, m, s)
  {
    var members := MemberIndices(reg, cases, slices, s, n);
    cells := [];
    var c := 0;
    while c < |CONTRASTS|
      invariant 0 <= c <= 3 && |cells| == c
      invariant forall k :: 0 <= k < c ==> cells[k] == CellOf(reg, cases, n, m, s, k)
    {
      var a := ScalarsFor(reg, cases, scalars, members, CONTRASTS[c].a, reg.metrics[m]);
      var b := ScalarsFor(reg, cases, scalars, members, CONTRASTS[c].b, reg.metrics[m]);
      cells := cells + [Cell(reg.metrics[m], reg.slices[s], CONTRASTS[c], a, b)];
      c := c + 1;
    }
  }

  method MetricInputs(reg: Registry, ghost cases: Cases, slices: map<(nat, string), SliceRow>,
                      scalars: map<(nat, Policy, string), Scalar>, m: nat, n: nat) returns (cells: seq<Cell>)
    requires ValidCases(reg, cases) && SlicesOf(reg, cases, slices) && ScalarsOf(cases, scalars)
    requires Covers(cases, n) && m < |reg.metrics|
    ensures cells == MetricCells(reg, cases, n, m)
  {
    cells := [];
    ghost var pieces := MetricPieces(reg, cases, n, m);
    var s := 0;
    while s < |reg.slices|
      invariant 0 <= s <= |reg.slices| && cells == Concat(pieces[..s])
    {
      var next := SliceInputs(reg, cases, slices, scalars, m, s, n);
      ConcatSnoc(pieces[..s], pieces[s]);
      assert pieces[..s + 1] == pieces[..s] + [pieces[s]];
      cells := cells + next;
      s := s + 1;
    }
    assert pieces[..s] == pieces;
  }

  method ScorecardInputs(reg: Registry, ghost cases: Cases, slices: map<(nat, string), SliceRow>,
                         scalars: map<(nat, Policy, string), Scalar>, n: nat) returns (inputs: seq<Cell>)
    requires ValidCases(reg, cases) && SlicesOf(reg, cases, slices) && ScalarsOf(cases, scalars) && Covers(cases, n)
    ensures inputs == Matrix(reg, cases, n)
  {
    inputs := [];
    ghost var pieces := MatrixPieces(reg, cases, n);
    var m := 0;
    while m < |reg.metrics|
      invariant 0 <= m <= |reg.metrics| && inputs == Concat(pieces[..m])
    {
      var next := MetricInputs(reg, cases, slices, scalars, m, n);
      ConcatSnoc(pieces[..m], pieces[m]);
      assert pieces[..m + 1] == pieces[..m] + [pieces[m]];
      inputs := inputs + next;
      m := m + 1;
    }
    assert pieces[..m] == pieces;
  }

  // ----- What the matrix is ------------------------------------------------------------------

  /** Members increase strictly, and are exactly the indices in the slice. */
  lemma {:induction false} MembersExact(reg: Registry, cases: Cases, s: nat, n: nat)
    requires ValidCases(reg, cases) && s < |reg.slices| && forall i :: 0 <= i < n ==> i in cases
    ensures var r := Members(reg, cases, s, n);
      && (forall j, k :: 0 <= j < k < |r| ==> r[j] < r[k])
      && (forall i :: 0 <= i < n ==> (i in r <==> cases[i].slices[s].eligible && cases[i].slices[s].member))
  {
    if n > 0 {
      MembersExact(reg, cases, s, n - 1);
    }
  }

  function Indices(values: seq<Scalar>): seq<nat> {
    seq(|values|, j requires 0 <= j < |values| => values[j].index)
  }

  /** Position `j` of a cell holds this case's scalar of either policy. */
  ghost predicate Pairs(cell: Cell, c: Case, j: nat) {
    && j < |cell.a| && j < |cell.b|
    && (cell.contrast.a, cell.metric) in c.scalars && cell.a[j] == c.scalars[(cell.contrast.a, cell.metric)]
    && (cell.contrast.b, cell.metric) in c.scalars && cell.b[j] == c.scalars[(cell.contrast.b, cell.metric)]
  }

  /**
   * Every cell pairs both policies of its contrast over one strictly increasing index set, exactly the
   * eligible members of its slice, with each side's own scalars.
   */
  lemma CellPairs(reg: Registry, cases: Cases, n: nat, m: nat, s: nat, c: nat)
    requires ValidCases(reg, cases) && Covers(cases, n) && m < |reg.metrics| && s < |reg.slices| && c < 3
    ensures var cell := CellOf(reg, cases, n, m, s, c); var r := Indices(cell.a);
      && Indices(cell.b) == r
      && (forall j, k :: 0 <= j < k < |r| ==> r[j] < r[k])
      && (forall i :: i in r <==>
            0 <= i < n && i in cases && cases[i].slices[s].eligible && cases[i].slices[s].member)
      && (forall j :: 0 <= j < |r| ==> r[j] in cases && Pairs(cell, cases[r[j]], j))
  {
    var cell := CellOf(reg, cases, n, m, s, c);
    var members := Members(reg, cases, s, n);
    MembersExact(reg, cases, s, n);
    assert Indices(cell.a) == members && Indices(cell.b) == members;
  }

  /** And it is labelled with its metric, its slice and one of the three contrasts. */
  lemma CellLabels(reg: Registry, cases: Cases, n: nat, m: nat, s: nat, c: nat)
    requires ValidCases(reg, cases) && Covers(cases, n) && m < |reg.metrics| && s < |reg.slices| && c < 3
    ensures var cell := CellOf(reg, cases, n, m, s, c);
      && cell.metric == reg.metrics[m] && cell.slice == reg.slices[s]
      && cell.contrast == (if c == 0 then Contrast(ConstantVelocity, LogReplay)
                           else if c == 1 then Contrast(Idm, LogReplay) else Contrast(Idm, ConstantVelocity))
  {
  }

  ghost function SlicePieces(reg: Registry, cases: Cases, n: nat): (r: seq<seq<SliceRow>>)
    requires ValidCases(reg, cases) && forall i :: 0 <= i < n ==> i in cases
    ensures |r| == n && forall i :: 0 <= i < n ==> |r[i]| == |reg.slices|
  {
    seq(n, i requires 0 <= i < n => cases[i].slices)
  }

  lemma {:induction false} AllSlicesConcat(reg: Registry, cases: Cases, n: nat)
    requires ValidCases(reg, cases) && forall i :: 0 <= i < n ==> i in cases
    ensures AllSlices(reg, cases, n) == Concat(SlicePieces(reg, cases, n))
  {
    if n > 0 {
      AllSlicesConcat(reg, cases, n - 1);
      ConcatSnoc(SlicePieces(reg, cases, n - 1), cases[n - 1].slices);
      assert SlicePieces(reg, cases, n) == SlicePieces(reg, cases, n - 1) + [cases[n - 1].slices];
    }
  }

  /** A summary has one slice row a case and slice, in cohort then registry order, and the digests of each case. */
  lemma SummaryAt(reg: Registry, cases: Cases, n: nat, i: nat, s: nat)
    requires ValidCases(reg, cases) && Covers(cases, n) && i < n && s < |reg.slices|
    ensures var b := Batch(reg, cases, n);
      && b.count == n && |b.slices| == n * |reg.slices| && 0 <= i * |reg.slices| + s < |b.slices|
      && b.slices[i * |reg.slices| + s] == cases[i].slices[s]
      && b.slices[i * |reg.slices| + s].index == i && b.slices[i * |reg.slices| + s].slice == reg.slices[s]
      && |b.pass1| == |b.pass2| == n && b.pass1[i] == cases[i].pass1 && b.pass2[i] == cases[i].pass2
      && b.pass1 == b.pass2 && b.inputs == Matrix(reg, cases, n)
  {
    AllSlicesConcat(reg, cases, n);
    UniformLength(SlicePieces(reg, cases, n), |reg.slices|);
    UniformAt(SlicePieces(reg, cases, n), |reg.slices|, i, s);
    assert i in cases;
    forall k | 0 <= k < n
      ensures Digests(reg, cases, n, true)[k] == Digests(reg, cases, n, false)[k]
    {
      assert k in cases;
    }
  }

  /** The matrix has one cell for each metric, slice and contrast, each at its own place. */
  lemma MatrixAt(reg: Registry, cases: Cases, n: nat, m: nat, s: nat, c: nat)
    requires ValidCases(reg, cases) && Covers(cases, n) && m < |reg.metrics| && s < |reg.slices| && c < 3
    ensures |Matrix(reg, cases, n)| == |reg.metrics| * (|reg.slices| * 3)
    ensures 0 <= m * (|reg.slices| * 3) + (s * 3 + c) < |Matrix(reg, cases, n)|
    ensures Matrix(reg, cases, n)[m * (|reg.slices| * 3) + (s * 3 + c)] == CellOf(reg, cases, n, m, s, c)
  {
    UniformLength(MatrixPieces(reg, cases, n), |reg.slices| * 3);
    UniformAt(MatrixPieces(reg, cases, n), |reg.slices| * 3, m, s * 3 + c);
    MetricCellAt(reg, cases, n, m, s, c);
  }

  lemma MetricCellAt(reg: Registry, cases: Cases, n: nat, m: nat, s: nat, c: nat)
    requires ValidCases(reg, cases) && Covers(cases, n) && m < |reg.metrics| && s < |reg.slices| && c < 3
    ensures s * 3 + c < |MetricCells(reg, cases, n, m)|
    ensures MetricCells(reg, cases, n, m)[s * 3 + c] == CellOf(reg, cases, n, m, s, c)
  {
    var pieces := MetricPieces(reg, cases, n, m);
    UniformAt(pieces, 3, s, c);
    assert pieces[s][c] == CellOf(reg, cases, n, m, s, c);
  }

  // ----- Any order ---------------------------------------------------------------------------

  /** What a list of accepted cases leaves, whatever its order. */
  function Collected(list: seq<Case>): Cases {
    if list == [] then map[] else Collected(list[..|list| - 1])[list[|list| - 1].index := list[|list| - 1]]
  }

  predicate OwnIndices(list: seq<Case>) {
    forall i, j :: 0 <= i < j < |list| ==> list[i].index != list[j].index
  }

  lemma {:induction false} CollectedAt(list: seq<Case>)
    requires OwnIndices(list)
    ensures forall k :: 0 <= k < |list| ==>
      list[k].index in Collected(list) && Collected(list)[list[k].index] == list[k]
    ensures forall i :: i in Collected(list) ==> exists k :: 0 <= k < |list| && list[k].index == i
  {
    if list != [] {
      var init := list[..|list| - 1];
      CollectedAt(init);
      assert forall k :: 0 <= k < |init| ==> init[k] == list[k];
      forall i | i in Collected(list)
        ensures exists k :: 0 <= k < |list| && list[k].index == i
      {
        if i in Collected(init) {
          var k :| 0 <= k < |init| && init[k].index == i;
          assert list[k].index == i;
        }
      }
    }
  }

  predicate SameSpecs(list: seq<Case>) {
    forall i, j :: 0 <= i < j < |list| ==> list[i].specs == list[j].specs
  }

  /** An accumulator takes every case of the list. */
  predicate Streamable(list: seq<Case>) {
    OwnIndices(list) && SameSpecs(list)
  }

  lemma StreamPrefix(list: seq<Case>, i: nat)
    requires Streamable(list) && i <= |list|
    ensures Streamable(list[..i])
  {
  }

  lemma CollectedNext(list: seq<Case>, i: nat)
    requires i < |list|
    ensures Collected(list[..i + 1]) == Collected(list[..i])[list[i].index := list[i]]
  {
    assert list[..i + 1][..i] == list[..i];
  }

  lemma StreamNext(list: seq<Case>, i: nat)
    requires i < |list| && Streamable(list[..i])
    ensures Streamable(list[..i + 1])
      <==> list[i].index !in Collected(list[..i]) && (i > 0 ==> list[i].specs == list[0].specs)
  {
    var before, after := list[..i], list[..i + 1];
    CollectedAt(before);
    assert after[i] == list[i] && forall k :: 0 <= k < i ==> after[k] == before[k];
    if list[i].index in Collected(before) {
      var k :| 0 <= k < |before| && before[k].index == list[i].index;
      assert after[k].index == after[i].index;
    } else if i > 0 && list[i].specs != list[0].specs {
      assert after[0].specs != after[i].specs;
    }
  }

  /** Stream cases in the order given and finalize, as an evaluation does; a refused case ends it. */
  method Stream(reg: Registry, list: seq<Case>, expected: int) returns (summary: Option<Summary>)
    requires reg.Distinct() && forall c :: c in list ==> ValidCase(reg, c)
    ensures summary.Some? <==> Streamable(list) && expected >= 1 && Covers(Collected(list), expected)
    ensures summary.Some? ==> ValidCases(reg, Collected(list)) && summary.value == Batch(reg, Collected(list), expected)
  {
    var accumulator := new Accumulator(reg);
    var i := 0;
    while i < |list|
      invariant 0 <= i <= |list| && fresh(accumulator) && accumulator.reg == reg
      invariant accumulator.Valid() && !accumulator.finalized
      invariant Streamable(list[..i]) && accumulator.cases == Collected(list[..i])
    {
      StreamNext(list, i);
      CollectedNext(list, i);
      FirstSpecs(accumulator, list, i);
      var ok := accumulator.AddCase(list[i]);
      if !ok {
        if Streamable(list) {
          StreamPrefix(list, i + 1);
        }
        return None;
      }
      i := i + 1;
    }
    assert list[..i] == list;
    summary := accumulator.Finalize(expected);
  }

  /** What specification digest an accumulator remembers. */
  lemma FirstSpecs(accumulator: Accumulator, list: seq<Case>, i: nat)
    requires i <= |list| && accumulator.Valid() && Streamable(list[..i]) && accumulator.cases == Collected(list[..i])
    ensures accumulator.specs == if i == 0 then None else Some(list[0].specs)
  {
    if i > 0 {
      CollectedAt(list[..i]);
      assert list[..i][0] == list[0];
    }
  }

  /**
   * Whatever the order in which the same cases are streamed, every order is refused, or every order gives the
   * same summary.
   */
  lemma OrderFree(a: seq<Case>, b: seq<Case>)
    requires multiset(a) == multiset(b)
    ensures Streamable(a) <==> Streamable(b)
    ensures Streamable(a) ==> Collected(a) == Collected(b)
  {
    if Streamable(a) {
      Reordered(a, b);
    } else if Streamable(b) {
      Reordered(b, a);
    }
  }

  lemma Reordered(a: seq<Case>, b: seq<Case>)
    requires multiset(a) == multiset(b) && Streamable(a)
    ensures Streamable(b) && Collected(a) == Collected(b)
  {
    SameElements(a, b);
    PermutedKeys(a, b, (c: Case) => c.index);
    forall i, j | 0 <= i < j < |b|
      ensures b[i].specs == b[j].specs
    {
      assert b[i] in a && b[j] in a;
    }
    SameCollected(a, b);
    SameCollected(b, a);
    assert Collected(a).Keys == Collected(b).Keys;
    assert Collected(a) == Collected(b);
  }

  lemma SameCollected(a: seq<Case>, b: seq<Case>)
    requires OwnIndices(a) && OwnIndices(b) && (forall c :: c in a ==> c in b)
    ensures forall i :: i in Collected(a) ==> i in Collected(b) && Collected(a)[i] == Collected(b)[i]
  {
    CollectedAt(a);
    CollectedAt(b);
    forall i | i in Collected(a)
      ensures i in Collected(b) && Collected(a)[i] == Collected(b)[i]
    {
      var k :| 0 <= k < |a| && a[k].index == i;
      assert a[k] in b;
    }
  }
}
