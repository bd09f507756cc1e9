/**
 * The parity subset and its streaming matrix: sixteen members chosen by rank, consumed in any order, and
 * laid out as 144 rows in member, policy, metric order.
 */
module Parity {
  import opened Common
  import opened Sorting
  import opened Vocabulary
  import Order

  const SCENES := 16
  const ROWS := 144

  type Text = seq<int>

  /** An accepted member: its cohort index, its source locator and its native identity. */
  datatype Member = Member(cohort: nat, shard: Text, ordinal: nat, native: Text, bound: bool)

  /** The rank of a record, a hash of its locator and identity. */
  type Rank = (Text, nat, Text) -> Text

  function RankOf(rank: Rank, m: Member): Text {
    rank(m.shard, m.ordinal, m.native)
  }

  // ----- Selection ---------------------------------------------------------------------------

  /** The strict (rank, shard, ordinal) order. */
  predicate Before(rank: Rank, a: Member, b: Member) {
    || Order.Less(RankOf(rank, a), RankOf(rank, b))
    || (RankOf(rank, a) == RankOf(rank, b)
        && (Order.Less(a.shard, b.shard) || (a.shard == b.shard && a.ordinal < b.ordinal)))
  }

  function ByRank(rank: Rank): (Member, Member) -> bool {
    (a: Member, b: Member) => Before(rank, a, b)
  }

  function ByCohort(): (Member, Member) -> bool {
    (a: Member, b: Member) => a.cohort < b.cohort
  }

  predicate SameLocator(a: Member, b: Member) {
    a.shard == b.shard && a.ordinal == b.ordinal
  }

  /** 128 members covering the cohort, with unique locators and identities, each bound to its source. */
  predicate Acceptable(accepted: seq<Member>) {
    && |accepted| == POPULATION
    && (forall i :: 0 <= i < POPULATION ==> Sort(ByCohort(), accepted)[i].cohort == i)
    && (forall i, j :: 0 <= i < j < POPULATION ==>
      !SameLocator(accepted[i], accepted[j]) && accepted[i].native != accepted[j].native)
    && (forall i :: 0 <= i < POPULATION ==> accepted[i].bound)
  }

  datatype Chosen = Chosen(parity: nat, member: Member, rank: Text)

  function Numbered(rank: Rank, ranked: seq<Member>): seq<Chosen>
    requires |ranked| >= SCENES
  {
    seq(SCENES, i requires 0 <= i < SCENES => Chosen(i, ranked[i], RankOf(rank, ranked[i])))
  }

  method Select(accepted: seq<Member>, rank: Rank) returns (selection: Option<seq<Chosen>>)
    ensures selection == if Acceptable(accepted) then Some(Numbered(rank, Sort(ByRank(rank), accepted))) else None
  {
    if !Acceptable(accepted) {
      return None;
    }
    var cohort := Sort(ByCohort(), accepted);
    var ranked: seq<Member> := [];
    var i := 0;
    while i < |cohort|
      invariant 0 <= i <= |cohort| && ranked == cohort[..i]
    {
      ranked := ranked + [cohort[i]];
      i := i + 1;
    }
    ranked := Sort(ByRank(rank), ranked);
    CohortFirst(rank, accepted);
    var chosen: seq<Chosen> := [];
    i := 0;
    while i < SCENES
      invariant 0 <= i <= SCENES && |chosen| == i
      invariant forall k :: 0 <= k < i ==> chosen[k] == Chosen(k, ranked[k], RankOf(rank, ranked[k]))
    {
      chosen := chosen + [Chosen(i, ranked[i], RankOf(rank, ranked[i]))];
      i := i + 1;
    }
    assert chosen == Numbered(rank, ranked);
    return Some(chosen);
  }

  predicate Occurs(accepted: seq<Member>, i: nat) {
    exists m :: m in accepted && m.cohort == i
  }

  /** An acceptable cohort, without sorting it: every index occurs, locators and identities are unique, all bound. */
  predicate Covering(accepted: seq<Member>) {
    && |accepted| == POPULATION
    && (forall i: nat :: i < POPULATION ==> Occurs(accepted, i))
    && (forall i, j :: 0 <= i < j < POPULATION ==>
      !SameLocator(accepted[i], accepted[j]) && accepted[i].native != accepted[j].native)
    && (forall i :: 0 <= i < POPULATION ==> accepted[i].bound)
  }

  lemma CohortsCovered(accepted: seq<Member>)
    requires |accepted| == POPULATION && forall i: nat :: i < POPULATION ==> Occurs(accepted, i)
    ensures forall i :: 0 <= i < POPULATION ==> accepted[i].cohort < POPULATION
    ensures forall i, j :: 0 <= i < j < POPULATION ==> accepted[i].cohort != accepted[j].cohort
  {
    var s := seq(POPULATION, i requires 0 <= i < POPULATION => accepted[i].cohort);
    forall i: nat | i < POPULATION
      ensures i in s
    {
      assert Occurs(accepted, i);
      var m :| m in accepted && m.cohort == i;
      var k :| 0 <= k < |accepted| && accepted[k] == m;
      assert s[k] == i;
    }
    CoveredOnce(s, POPULATION);
    assert forall i :: 0 <= i < POPULATION ==> s[i] == accepted[i].cohort;
  }

  lemma CohortIsStrict(accepted: seq<Member>)
    requires forall i, j :: 0 <= i < j < |accepted| ==> accepted[i].cohort != accepted[j].cohort
    ensures Strict(ByCohort(), Elements(accepted)) && NoDuplicates(accepted)
  {
    forall a, b | a in Elements(accepted) && b in Elements(accepted)
      ensures a == b || ByCohort()(a, b) || ByCohort()(b, a)
    {
      var i :| 0 <= i < |accepted| && accepted[i] == a;
      var j :| 0 <= j < |accepted| && accepted[j] == b;
    }
  }

  /** Sorting the indices and comparing them with 0 to 127 asks just that every index occurs. */
  lemma AcceptableIff(accepted: seq<Member>)
    ensures Acceptable(accepted) <==> Covering(accepted)
  {
    if |accepted| == POPULATION {
      var cohort := Sort(ByCohort(), accepted);
      SortElements(ByCohort(), accepted);
      if Acceptable(accepted) {
        forall i: nat | i < POPULATION
          ensures Occurs(accepted, i)
        {
          assert cohort[i] in cohort;
        }
      }
      if Covering(accepted) {
        SortedCohort(accepted);
      }
    }
  }

  lemma SortedCohort(accepted: seq<Member>)
    requires |accepted| == POPULATION && forall i: nat :: i < POPULATION ==> Occurs(accepted, i)
    ensures forall i :: 0 <= i < POPULATION ==> Sort(ByCohort(), accepted)[i].cohort == i
  {
    var cohort := Sort(ByCohort(), accepted);
    CohortsCovered(accepted);
    CohortIsStrict(accepted);
    SortAscending(ByCohort(), accepted, Elements(accepted));
    SortElements(ByCohort(), accepted);
    var s := seq(POPULATION, i requires 0 <= i < POPULATION => cohort[i].cohort);
    forall k | 0 <= k < POPULATION
      ensures s[k] < POPULATION
    {
      assert cohort[k] in cohort;
    }
    forall j, k | 0 <= j < k < POPULATION
      ensures s[j] < s[k]
    {
      assert ByCohort()(cohort[j], cohort[k]);
    }
    forall i | 0 <= i < POPULATION
      ensures cohort[i].cohort == i
    {
      AscendingAt(s, POPULATION, i);
    }
  }

  /** On members with unique locators the order is strict and total. */
  lemma RankIsStrict(rank: Rank, dom: set<Member>)
    requires forall a, b :: a in dom && b in dom && SameLocator(a, b) ==> a == b
    ensures Strict(ByRank(rank), dom)
  {
    var less := ByRank(rank);
    forall a | a in dom
      ensures !less(a, a)
    {
      Order.Irreflexive(RankOf(rank, a));
      Order.Irreflexive(a.shard);
    }
    forall a, b, c | a in dom && b in dom && c in dom && less(a, b) && less(b, c)
      ensures less(a, c)
    {
      BeforeTransitive(rank, a, b, c);
    }
    forall a, b | a in dom && b in dom
      ensures a == b || less(a, b) || less(b, a)
    {
      Order.Total(RankOf(rank, a), RankOf(rank, b));
      Order.Total(a.shard, b.shard);
      assert SameLocator(a, b) ==> a == b;
    }
  }

  lemma BeforeTransitive(rank: Rank, a: Member, b: Member, c: Member)
    requires Before(rank, a, b) && Before(rank, b, c)
    ensures Before(rank, a, c)
  {
    if Order.Less(RankOf(rank, a), RankOf(rank, b)) && Order.Less(RankOf(rank, b), RankOf(rank, c)) {
      Order.Transitive(RankOf(rank, a), RankOf(rank, b), RankOf(rank, c));
    }
    if Order.Less(a.shard, b.shard) && Order.Less(b.shard, c.shard) {
      Order.Transitive(a.shard, b.shard, c.shard);
    }
  }

  lemma AcceptedIsStrict(rank: Rank, accepted: seq<Member>)
    requires Acceptable(accepted)
    ensures Strict(ByRank(rank), Elements(accepted)) && NoDuplicates(accepted)
  {
    forall a, b | a in Elements(accepted) && b in Elements(accepted) && SameLocator(a, b)
      ensures a == b
    {
      var i :| 0 <= i < |accepted| && accepted[i] == a;
      var j :| 0 <= j < |accepted| && accepted[j] == b;
      assert SameLocator(accepted[i], accepted[j]) && SameLocator(accepted[j], accepted[i]);
    }
    RankIsStrict(rank, Elements(accepted));
    forall i, j | 0 <= i < j < |accepted|
      ensures accepted[i] != accepted[j]
    {
      assert !SameLocator(accepted[i], accepted[j]);
    }
  }

  /** Sorting by cohort first changes nothing. */
  lemma CohortFirst(rank: Rank, accepted: seq<Member>)
    requires Acceptable(accepted)
    ensures var cohort := Sort(ByCohort(), accepted);
      cohort[..|cohort|] == cohort && Sort(ByRank(rank), cohort) == Sort(ByRank(rank), accepted)
  {
    var cohort := Sort(ByCohort(), accepted);
    AcceptedIsStrict(rank, accepted);
    SortElements(ByCohort(), accepted);
    forall i, j | 0 <= i < j < |cohort|
      ensures cohort[i] != cohort[j]
    {
      assert cohort[i].cohort == i && cohort[j].cohort == j;
    }
    SortOrderFree(ByRank(rank), cohort, accepted, Elements(accepted));
  }

  /** The selection does not depend on the order of the accepted members. */
  lemma SelectionOrderFree(rank: Rank, a: seq<Member>, b: seq<Member>)
    requires Acceptable(a) && Acceptable(b) && forall m :: m in a <==> m in b
    ensures Numbered(rank, Sort(ByRank(rank), a)) == Numbered(rank, Sort(ByRank(rank), b))
  {
    AcceptedIsStrict(rank, a);
    AcceptedIsStrict(rank, b);
    SortOrderFree(ByRank(rank), a, b, Elements(a));
  }

  /** Handed in in any other order, the same members are refused as well or give the same selection. */
  lemma SelectionPermuted(rank: Rank, a: seq<Member>, b: seq<Member>)
    requires multiset(a) == multiset(b)
    ensures Acceptable(a) <==> Acceptable(b)
    ensures Acceptable(a) ==> Numbered(rank, Sort(ByRank(rank), a)) == Numbered(rank, Sort(ByRank(rank), b))
  {
    AcceptableIff(a);
    AcceptableIff(b);
    SameElements(a, b);
    if Acceptable(a) {
      CoveringPermuted(a, b);
      SelectionOrderFree(rank, a, b);
    } else if Acceptable(b) {
      CoveringPermuted(b, a);
    }
  }

  lemma CoveringPermuted(a: seq<Member>, b: seq<Member>)
    requires multiset(a) == multiset(b) && Covering(a)
    ensures Covering(b)
  {
    SameElements(a, b);
    CohortsCovered(a);
    PermutedKeys(a, b, (m: Member) => m.cohort);
    assert |a| == |multiset(a)| == |multiset(b)| == |b|;
    forall i: nat | i < POPULATION
      ensures Occurs(b, i)
    {
      assert Occurs(a, i);
      var m :| m in a && m.cohort == i;
      assert m in b;
    }
    forall i, j | 0 <= i < j < POPULATION
      ensures !SameLocator(b[i], b[j]) && b[i].native != b[j].native
    {
      assert b[i] in b && b[j] in b && b[i].cohort != b[j].cohort;
      var k :| 0 <= k < |a| && a[k] == b[i];
      var l :| 0 <= l < |a| && a[l] == b[j];
      assert k < l || l < k;
    }
    forall i | 0 <= i < POPULATION
      ensures b[i].bound
    {
      assert b[i] in b;
    }
  }

  predicate Picked(chosen: seq<Chosen>, m: Member) {
    exists k :: 0 <= k < |chosen| && chosen[k].member == m
  }

  lemma PickedPrefix(rank: Rank, ranked: seq<Member>, m: Member)
    requires |ranked| >= SCENES
    ensures Picked(Numbered(rank, ranked), m) <==> m in ranked[..SCENES]
  {
    var chosen := Numbered(rank, ranked);
    if m in ranked[..SCENES] {
      var k :| 0 <= k < SCENES && ranked[..SCENES][k] == m;
      assert chosen[k].member == m;
    }
  }

  /** The selected members, in ascending order, are those before every member that was not selected. */
  lemma SelectionIsLeast(rank: Rank, accepted: seq<Member>)
    requires Acceptable(accepted)
    ensures var chosen := Numbered(rank, Sort(ByRank(rank), accepted));
      && (forall i, j :: 0 <= i < j < SCENES ==> Before(rank, chosen[i].member, chosen[j].member))
      && (forall i :: 0 <= i < SCENES ==> chosen[i].parity == i && chosen[i].member in accepted)
      && (forall i, m :: 0 <= i < SCENES && m in accepted && !Picked(chosen, m) ==> Before(rank, chosen[i].member, m))
  {
    var ranked := Sort(ByRank(rank), accepted);
    var chosen := Numbered(rank, ranked);
    AcceptedIsStrict(rank, accepted);
    SortAscending(ByRank(rank), accepted, Elements(accepted));
    SortElements(ByRank(rank), accepted);
    forall i | 0 <= i < SCENES
      ensures chosen[i].member in accepted
    {
      assert ranked[i] in ranked;
    }
    var rest := ranked[SCENES..];
    assert ranked == ranked[..SCENES] + rest;
    forall i, m | 0 <= i < SCENES && m in accepted && !Picked(chosen, m)
      ensures Before(rank, chosen[i].member, m)
    {
      PickedPrefix(rank, ranked, m);
      assert m in ranked && m in rest;
      var j :| 0 <= j < |rest| && rest[j] == m;
      assert ByRank(rank)(ranked[i], ranked[SCENES + j]);
    }
  }

  // ----- The streaming matrix ----------------------------------------------------------------

  datatype Metric = LogDivergence | Overlap | KinematicInfeasibility

  const POLICIES: seq<Policy> := [ConstantVelocity, Idm, LogReplay]
  const METRICS: seq<Metric> := [LogDivergence, Overlap, KinematicInfeasibility]

  datatype Row = Row(parity: nat, policy: Policy, metric: Metric, accepted: bool, evidence: int)

  function PolicyOrder(p: Policy): (i: nat)
    ensures i < 3 && POLICIES[i] == p
  {
    match p case ConstantVelocity => 0 case Idm => 1 case LogReplay => 2
  }

  function MetricOrder(m: Metric): (i: nat)
    ensures i < 3 && METRICS[i] == m
  {
    match m case LogDivergence => 0 case Overlap => 1 case KinematicInfeasibility => 2
  }

  /** The place of a row among the nine of its case. */
  function Place(r: Row): (i: nat)
    ensures i < 9
  {
    3 * PolicyOrder(r.policy) + MetricOrder(r.metric)
  }

  function ByPlace(): (Row, Row) -> bool {
    (a: Row, b: Row) => Place(a) < Place(b)
  }

  /** Nine accepted rows of this case, one for each policy and metric. */
  predicate NineRows(parity: nat, rows: seq<Row>) {
    && |rows| == 9
    && (forall i :: 0 <= i < 9 ==> rows[i].parity == parity && rows[i].accepted)
    && (forall i, j :: 0 <= i < j < 9 ==> Place(rows[i]) != Place(rows[j]))
  }

  ghost predicate Members(selection: seq<Chosen>) {
    && |selection| == SCENES
    && (forall i :: 0 <= i < SCENES ==> selection[i].parity == i)
    && (forall i, j :: 0 <= i < j < SCENES ==> selection[i].member.cohort != selection[j].member.cohort)
  }

  /** A selection is what a streaming accumulator is made for: numbered in order, one cohort index a member. */
  lemma SelectionIsMembers(rank: Rank, accepted: seq<Member>)
    requires Acceptable(accepted)
    ensures Members(Numbered(rank, Sort(ByRank(rank), accepted)))
  {
    var ranked, cohort := Sort(ByRank(rank), accepted), Sort(ByCohort(), accepted);
    AcceptedIsStrict(rank, accepted);
    SortAscending(ByRank(rank), accepted, Elements(accepted));
    SortElements(ByRank(rank), accepted);
    SortElements(ByCohort(), accepted);
    AscendingNoDuplicates(ByRank(rank), ranked, Elements(accepted));
    forall i, j | 0 <= i < j < SCENES
      ensures ranked[i].cohort != ranked[j].cohort
    {
      assert ranked[i] in ranked && ranked[j] in ranked;
      var k :| 0 <= k < |cohort| && cohort[k] == ranked[i];
      var l :| 0 <= l < |cohort| && cohort[l] == ranked[j];
    }
  }

  /** What the adapter produced for each consumed cohort index. */
  type Produced = map<nat, seq<Row>>

  ghost predicate Complete(selection: seq<Chosen>, produced: Produced) {
    && (forall i :: 0 <= i < |selection| ==> selection[i].member.cohort in produced)
    && (forall c :: c in produced ==> exists i :: 0 <= i < |selection| && selection[i].member.cohort == c)
  }

  ghost predicate Sound(selection: seq<Chosen>, produced: Produced) {
    forall i :: 0 <= i < |selection| && selection[i].member.cohort in produced ==>
      NineRows(i, produced[selection[i].member.cohort])
  }

  ghost function Blocks(selection: seq<Chosen>, produced: Produced): (r: seq<seq<Row>>)
    requires Complete(selection, produced)
    ensures |r| == |selection|
  {
    seq(|selection|, i requires 0 <= i < |selection| => Sort(ByPlace(), produced[selection[i].member.cohort]))
  }

  /** The matrix: each member's rows in place order, member after member. */
  ghost function Matrix(selection: seq<Chosen>, produced: Produced): seq<Row>
    requires Complete(selection, produced)
  {
    Concat(Blocks(selection, produced))
  }

  lemma PrefixConcat<T>(blocks: seq<seq<T>>, i: nat)
    requires i < |blocks|
    ensures Concat(blocks[..i + 1]) == Concat(blocks[..i]) + blocks[i]
  {
    ConcatSnoc(blocks[..i], blocks[i]);
    assert blocks[..i + 1] == blocks[..i] + [blocks[i]];
  }

  class Accumulator {
    const selection: seq<Chosen>
    var rows: map<nat, seq<Row>>
    var finalized: bool
    /** The rows as the adapter produced them. */
    ghost var produced: Produced

    constructor (selection: seq<Chosen>)
      requires Members(selection)
      ensures this.selection == selection && Valid() && produced == map[] && !finalized
    {
      this.selection := selection;
      rows, finalized, produced := map[], false, map[];
    }

    ghost predicate Valid()
      reads this
    {
      && Members(selection) && Sound(selection, produced)
      && rows.Keys == produced.Keys
      && (forall c :: c in produced ==> rows[c] == Sort(ByPlace(), produced[c]))
      && (forall c :: c in produced ==> exists i :: 0 <= i < SCENES && selection[i].member.cohort == c)
    }

    method Find(cohort: nat) returns (index: Option<nat>)
      requires Members(selection)
      ensures index.Some? ==> index.value < SCENES && selection[index.value].member.cohort == cohort
      ensures index.None? ==> forall i :: 0 <= i < SCENES ==> selection[i].member.cohort != cohort
    {
      var i := 0;
      while i < SCENES
        invariant 0 <= i <= SCENES
        invariant forall k :: 0 <= k < i ==> selection[k].member.cohort != cohort
      {
        if selection[i].member.cohort == cohort {
          return Some(i);
        }
        i := i + 1;
      }
      return None;
    }

    /** Take one selected case with the rows the adapter gave for it, or change nothing. */
    method AddCase(cohort: nat, sourceBound: bool, given: seq<Row>) returns (ok: bool)
      requires Valid()
      modifies this
      ensures Valid() && finalized == old(finalized)
      ensures ok <==>
        && !old(finalized) && cohort !in old(produced) && sourceBound
        && exists i :: 0 <= i < SCENES && selection[i].member.cohort == cohort && NineRows(i, given)
      ensures ok ==> produced == old(produced)[cohort := given]
      ensures !ok ==> unchanged(this)
    {
      if finalized {
        return false;
      }
      var index := Find(cohort);
      if index.None? {
        return false;
      }
      if cohort in rows {
        return false;
      }
      if !sourceBound {
        return false;
      }
      if !NineRows(index.value, given) {
        return false;
      }
      rows := rows[cohort := Sort(ByPlace(), given)];
      produced := produced[cohort := given];
      return true;
    }

    method Covered() returns (all: bool)
      requires Valid()
      ensures all <==> Complete(selection, produced)
    {
      var i := 0;
      while i < SCENES
        invariant 0 <= i <= SCENES
        invariant forall k :: 0 <= k < i ==> selection[k].member.cohort in produced
      {
        if selection[i].member.cohort !in rows {
          return false;
        }
        i := i + 1;
      }
      return true;
    }

    method Gather() returns (out: seq<Row>)
      requires Valid() && Complete(selection, produced)
      ensures out == Matrix(selection, produced)
    {
      out := [];
      ghost var blocks := Blocks(selection, produced);
      var i := 0;
      while i < SCENES
        invariant 0 <= i <= SCENES && out == Concat(blocks[..i])
      {
        PrefixConcat(blocks, i);
        out := out + rows[selection[i].member.cohort];
        i := i + 1;
      }
      assert blocks[..i] == blocks;
    }

    /** The whole matrix, exactly when every selected case has been taken in, and once. */
    method Finalize() returns (matrix: Option<seq<Row>>)
      requires Valid()
      modifies `finalized
      ensures Valid()
      ensures matrix.Some? <==> !old(finalized) && Complete(selection, produced)
      ensures matrix.Some? ==> matrix.value == Matrix(selection, produced)
      ensures finalized == (old(finalized) || matrix.Some?)
    {
      if finalized {
        return None;
      }
      var all := Covered();
      if !all {
        return None;
      }
      var out := Gather();
      finalized := true;
      return Some(out);
    }
  }

  // ----- What the matrix is ------------------------------------------------------------------

  lemma PlaceIsStrict(rows: seq<Row>)
    requires forall i, j :: 0 <= i < j < |rows| ==> Place(rows[i]) != Place(rows[j])
    ensures Strict(ByPlace(), Elements(rows)) && NoDuplicates(rows)
  {
    forall a, b | a in Elements(rows) && b in Elements(rows) && Place(a) == Place(b)
      ensures a == b
    {
      var i :| 0 <= i < |rows| && rows[i] == a;
      var j :| 0 <= j < |rows| && rows[j] == b;
      assert i == j;
    }
  }

  /** Nine rows with different places below nine are in place when sorted. */
  lemma {:induction false} AscendingPlaces(s: seq<Row>, i: nat)
    requires Ascending(ByPlace(), s) && i < |s|
    ensures i <= Place(s[i]) && Place(s[i]) + |s| <= 8 + i + 1
    decreases i
  {
    if i > 0 {
      AscendingPlaces(s, i - 1);
      assert ByPlace()(s[i - 1], s[i]);
    }
    AscendingAbove(s, i);
  }

  lemma {:induction false} AscendingAbove(s: seq<Row>, i: nat)
    requires Ascending(ByPlace(), s) && i < |s|
    ensures Place(s[i]) + (|s| - 1 - i) <= 8
    decreases |s| - i
  {
    if i < |s| - 1 {
      AscendingAbove(s, i + 1);
      assert ByPlace()(s[i], s[i + 1]);
    }
  }

  /** Sorted, row number `3p + m` of a case is the row of policy `p` and metric `m`. */
  lemma SortedBlock(parity: nat, rows: seq<Row>, p: nat, m: nat)
    requires NineRows(parity, rows) && p < 3 && m < 3
    ensures var r := Sort(ByPlace(), rows);
      |r| == 9 && r[3 * p + m].parity == parity && r[3 * p + m].policy == POLICIES[p]
        && r[3 * p + m].metric == METRICS[m]
      && r[3 * p + m] in rows
  {
    PlaceIsStrict(rows);
    SortAscending(ByPlace(), rows, Elements(rows));
    SortElements(ByPlace(), rows);
    var r := Sort(ByPlace(), rows);
    AscendingPlaces(r, 3 * p + m);
    assert r[3 * p + m] in r;
  }

  /** The finished matrix has 144 rows; the one at `9i + 3p + m` belongs to member `i`, policy `p` and metric `m`. */
  lemma MatrixAt(selection: seq<Chosen>, produced: Produced, i: nat, p: nat, m: nat)
    requires Members(selection) && Complete(selection, produced) && Sound(selection, produced)
    requires i < SCENES && p < 3 && m < 3
    ensures |Matrix(selection, produced)| == ROWS
    ensures var r := Matrix(selection, produced)[9 * i + (3 * p + m)];
      r.parity == i && r.policy == POLICIES[p] && r.metric == METRICS[m] && r in produced[selection[i].member.cohort]
  {
    var blocks := Blocks(selection, produced);
    assert forall k :: 0 <= k < |blocks| ==> |blocks[k]| == 9;
    UniformLength(blocks, 9);
    UniformAt(blocks, 9, i, 3 * p + m);
    SortedBlock(i, produced[selection[i].member.cohort], p, m);
  }

  /** The order in which an adapter lists its rows does not matter either. */
  lemma RowOrderFree(parity: nat, a: seq<Row>, b: seq<Row>)
    requires NineRows(parity, a) && NineRows(parity, b) && forall r :: r in a <==> r in b
    ensures Sort(ByPlace(), a) == Sort(ByPlace(), b)
  {
    PlaceIsStrict(a);
    PlaceIsStrict(b);
    SortOrderFree(ByPlace(), a, b, Elements(a));
  }

  /** Nor does it matter for the matrix. */
  lemma MatrixRowOrderFree(selection: seq<Chosen>, a: Produced, b: Produced)
    requires |selection| == SCENES && Complete(selection, a) && Complete(selection, b) && Sound(selection, a)
      && Sound(selection, b)
    requires forall i, r :: 0 <= i < SCENES ==>
      (r in a[selection[i].member.cohort] <==> r in b[selection[i].member.cohort])
    ensures Matrix(selection, a) == Matrix(selection, b)
  {
    forall i | 0 <= i < SCENES
      ensures Blocks(selection, a)[i] == Blocks(selection, b)[i]
    {
      RowOrderFree(i, a[selection[i].member.cohort], b[selection[i].member.cohort]);
    }
    assert Blocks(selection, a) == Blocks(selection, b);
  }

  // ----- The batch builder -------------------------------------------------------------------

  datatype CaseInput = CaseInput(parity: nat, cohort: nat, sourceBound: bool, given: seq<Row>)

  function ByParity(): (CaseInput, CaseInput) -> bool {
    (a: CaseInput, b: CaseInput) => a.parity < b.parity
  }

  /** Sixteen inputs, one for each member of the selection. */
  predicate Matching(selection: seq<Chosen>, inputs: seq<CaseInput>)
    requires |selection| == SCENES
  {
    && |inputs| == SCENES
    && (var ordered := Sort(ByParity(), inputs);
        forall i :: 0 <= i < SCENES ==> ordered[i].parity == i && ordered[i].cohort == selection[i].member.cohort)
  }

  /** What a list of consumed inputs leaves. */
  function Collected(inputs: seq<CaseInput>): Produced {
    if inputs == [] then map[]
    else Collected(inputs[..|inputs| - 1])[inputs[|inputs| - 1].cohort := inputs[|inputs| - 1].given]
  }

  lemma {:induction false} CollectedKeys(inputs: seq<CaseInput>)
    ensures forall c :: c in Collected(inputs) <==> exists k :: 0 <= k < |inputs| && inputs[k].cohort == c
  {
    if inputs != [] {
      var init := inputs[..|inputs| - 1];
      CollectedKeys(init);
      assert inputs == init + [inputs[|inputs| - 1]];
    }
  }

  predicate Fine(item: CaseInput, i: nat) {
    item.sourceBound && NineRows(i, item.given)
  }

  /** The ordered inputs from `i` on are bound and give their nine accepted rows. */
  predicate Passing(ordered: seq<CaseInput>, i: nat)
    requires i <= |ordered|
    decreases |ordered| - i
  {
    i == |ordered| || (Fine(ordered[i], i) && Passing(ordered, i + 1))
  }

  /** The inputs in member order. */
  ghost predicate InOrder(selection: seq<Chosen>, ordered: seq<CaseInput>) {
    |selection| == SCENES == |ordered| && forall i :: 0 <= i < SCENES ==>
      ordered[i].cohort == selection[i].member.cohort
  }

  /** The next input is of a member not seen before. */
  lemma NotSeen(selection: seq<Chosen>, ordered: seq<CaseInput>, i: nat)
    requires Members(selection) && InOrder(selection, ordered) && i < SCENES
    ensures ordered[i].cohort !in Collected(ordered[..i])
    ensures ordered[..i + 1][..i] == ordered[..i]
  {
    CollectedKeys(ordered[..i]);
  }

  /**
   * Feed the input of member `i`, which the accumulator has not seen; the list passes from `i` on if this input
   * does and the rest does.
   */
  method Feed(accumulator: Accumulator, ordered: seq<CaseInput>, i: nat) returns (ok: bool)
    requires accumulator.Valid() && !accumulator.finalized && i < SCENES && InOrder(accumulator.selection, ordered)
    requires accumulator.produced == Collected(ordered[..i])
    modifies accumulator
    ensures accumulator.Valid() && !accumulator.finalized
    ensures Passing(ordered, i) <==> ok && Passing(ordered, i + 1)
    ensures ok ==> accumulator.produced == Collected(ordered[..i + 1])
  {
    NotSeen(accumulator.selection, ordered, i);
    assert ordered[i].cohort == accumulator.selection[i].member.cohort;
    ok := accumulator.AddCase(ordered[i].cohort, ordered[i].sourceBound, ordered[i].given);
  }

  method FeedAll(accumulator: Accumulator, ordered: seq<CaseInput>) returns (ok: bool)
    requires accumulator.Valid() && !accumulator.finalized && InOrder(accumulator.selection, ordered)
      && accumulator.produced == map[]
    modifies accumulator
    ensures accumulator.Valid() && !accumulator.finalized
    ensures ok <==> Passing(ordered, 0)
    ensures ok ==> accumulator.produced == Collected(ordered)
  {
    var i := 0;
    while i < SCENES
      invariant 0 <= i <= SCENES && accumulator.Valid() && !accumulator.finalized
      invariant accumulator.produced == Collected(ordered[..i])
      invariant Passing(ordered, 0) <==> Passing(ordered, i)
    {
      ok := Feed(accumulator, ordered, i);
      if !ok {
        return;
      }
      i := i + 1;
    }
    assert ordered[..i] == ordered;
    ok := true;
  }

  /** Stream sixteen sorted inputs through an accumulator. */
  method BuildRows(selection: seq<Chosen>, inputs: seq<CaseInput>) returns (matrix: Option<seq<Row>>)
    requires Members(selection)
    ensures matrix.Some? <==> Matching(selection, inputs) && Passing(Sort(ByParity(), inputs), 0)
    ensures matrix.Some? ==>
      Complete(selection, Collected(Sort(ByParity(), inputs)))
        && matrix.value == Matrix(selection, Collected(Sort(ByParity(), inputs)))
  {
    if !Matching(selection, inputs) {
      return None;
    }
    var ordered := Sort(ByParity(), inputs);
    var accumulator := new Accumulator(selection);
    var ok := FeedAll(accumulator, ordered);
    if !ok {
      return None;
    }
    FedAll(selection, ordered);
    matrix := accumulator.Finalize();
  }

  lemma FedAll(selection: seq<Chosen>, ordered: seq<CaseInput>)
    requires InOrder(selection, ordered)
    ensures Complete(selection, Collected(ordered))
  {
    CollectedKeys(ordered);
    forall i | 0 <= i < SCENES
      ensures selection[i].member.cohort in Collected(ordered)
    {
      assert ordered[i].cohort == selection[i].member.cohort;
    }
    forall c | c in Collected(ordered)
      ensures exists i :: 0 <= i < |selection| && selection[i].member.cohort == c
    {
      var k :| 0 <= k < |ordered| && ordered[k].cohort == c;
      assert selection[k].member.cohort == c;
    }
  }

  predicate OwnCohorts(inputs: seq<CaseInput>) {
    forall i, j :: 0 <= i < j < |inputs| ==> inputs[i].cohort != inputs[j].cohort
  }

  lemma {:induction false} CollectedAt(inputs: seq<CaseInput>)
    requires OwnCohorts(inputs)
    ensures forall k :: 0 <= k < |inputs| ==>
      inputs[k].cohort in Collected(inputs) && Collected(inputs)[inputs[k].cohort] == inputs[k].given
  {
    if inputs != [] {
      var init := inputs[..|inputs| - 1];
      CollectedAt(init);
      assert forall k :: 0 <= k < |init| ==> init[k] == inputs[k];
    }
  }

  lemma SameCollected(a: seq<CaseInput>, b: seq<CaseInput>)
    requires OwnCohorts(a) && OwnCohorts(b) && forall x :: x in a ==> x in b
    ensures forall c :: c in Collected(a) ==> c in Collected(b) && Collected(a)[c] == Collected(b)[c]
  {
    CollectedAt(a);
    CollectedAt(b);
    CollectedKeys(a);
    forall c | c in Collected(a)
      ensures c in Collected(b) && Collected(a)[c] == Collected(b)[c]
    {
      var k :| 0 <= k < |a| && a[k].cohort == c;
      assert a[k] in b;
    }
  }

  /** The adapter's rows for a selected case are accepted. */
  predicate Takeable(selection: seq<Chosen>, item: CaseInput) {
    && item.sourceBound
    && exists i :: 0 <= i < |selection| && selection[i].member.cohort == item.cohort && NineRows(i, item.given)
  }

  /** An accumulator takes every case of the list. */
  predicate Streamable(selection: seq<Chosen>, inputs: seq<CaseInput>) {
    OwnCohorts(inputs) && forall k :: 0 <= k < |inputs| ==> Takeable(selection, inputs[k])
  }

  lemma StreamPrefix(selection: seq<Chosen>, inputs: seq<CaseInput>, i: nat)
    requires Streamable(selection, inputs) && i <= |inputs|
    ensures Streamable(selection, inputs[..i])
  {
  }

  lemma CollectedNext(inputs: seq<CaseInput>, i: nat)
    requires i < |inputs|
    ensures Collected(inputs[..i + 1]) == Collected(inputs[..i])[inputs[i].cohort := inputs[i].given]
  {
    assert inputs[..i + 1][..i] == inputs[..i];
  }

  lemma StreamNext(selection: seq<Chosen>, inputs: seq<CaseInput>, i: nat)
    requires i < |inputs| && Streamable(selection, inputs[..i])
    ensures Streamable(selection, inputs[..i + 1])
      <==> inputs[i].cohort !in Collected(inputs[..i]) && Takeable(selection, inputs[i])
  {
    var before, after := inputs[..i], inputs[..i + 1];
    CollectedKeys(before);
    assert after[i] == inputs[i] && forall k :: 0 <= k < i ==> after[k] == before[k];
    if inputs[i].cohort in Collected(before) {
      var k :| 0 <= k < |before| && before[k].cohort == inputs[i].cohort;
      assert after[k].cohort == after[i].cohort;
    }
  }

  /** Stream one case; the accumulator holds the `i` cases before it. */
  method Take(accumulator: Accumulator, inputs: seq<CaseInput>, i: nat) returns (ok: bool)
    requires i < |inputs| && accumulator.Valid() && !accumulator.finalized
    requires Streamable(accumulator.selection, inputs[..i]) && accumulator.produced == Collected(inputs[..i])
    modifies accumulator
    ensures accumulator.Valid() && !accumulator.finalized
    ensures ok <==> Streamable(accumulator.selection, inputs[..i + 1])
    ensures ok ==> accumulator.produced == Collected(inputs[..i + 1])
  {
    StreamNext(accumulator.selection, inputs, i);
    CollectedNext(inputs, i);
    ok := accumulator.AddCase(inputs[i].cohort, inputs[i].sourceBound, inputs[i].given);
  }

  /** Stream cases in the order given and finalize; a refused case ends it. */
  method Stream(selection: seq<Chosen>, inputs: seq<CaseInput>) returns (matrix: Option<seq<Row>>)
    requires Members(selection)
    ensures matrix.Some? <==> Streamable(selection, inputs) && Complete(selection, Collected(inputs))
    ensures matrix.Some? ==> matrix.value == Matrix(selection, Collected(inputs))
  {
    var accumulator := new Accumulator(selection);
    var i := 0;
    while i < |inputs|
      invariant 0 <= i <= |inputs| && fresh(accumulator) && accumulator.selection == selection
      invariant accumulator.Valid() && !accumulator.finalized
      invariant Streamable(selection, inputs[..i]) && accumulator.produced == Collected(inputs[..i])
    {
      var ok := Take(accumulator, inputs, i);
      if !ok {
        if Streamable(selection, inputs) {
          StreamPrefix(selection, inputs, i + 1);
        }
        return None;
      }
      i := i + 1;
    }
    assert inputs[..i] == inputs;
    matrix := accumulator.Finalize();
  }

  /** Select, and stream the cases given through an accumulator made for the selection. */
  method SelectAndStream(accepted: seq<Member>, rank: Rank, inputs: seq<CaseInput>) returns (matrix: Option<seq<Row>>)
    ensures matrix.Some? ==> Acceptable(accepted)
    ensures Acceptable(accepted) ==>
      var selection := Numbered(rank, Sort(ByRank(rank), accepted));
      && (matrix.Some? <==> Streamable(selection, inputs) && Complete(selection, Collected(inputs)))
      && (matrix.Some? ==> matrix.value == Matrix(selection, Collected(inputs)))
  {
    var selection := Select(accepted, rank);
    if selection.None? {
      return None;
    }
    SelectionIsMembers(rank, accepted);
    matrix := Stream(selection.value, inputs);
  }

  /**
   * Whatever the order in which the same cases are streamed, every order is refused, or every order gives the
   * same matrix.
   */
  lemma StreamOrderFree(selection: seq<Chosen>, a: seq<CaseInput>, b: seq<CaseInput>)
    requires multiset(a) == multiset(b)
    ensures Streamable(selection, a) <==> Streamable(selection, b)
    ensures Streamable(selection, a) ==> Collected(a) == Collected(b)
  {
    if Streamable(selection, a) {
      Reordered(selection, a, b);
    } else if Streamable(selection, b) {
      Reordered(selection, b, a);
    }
  }

  lemma Reordered(selection: seq<Chosen>, a: seq<CaseInput>, b: seq<CaseInput>)
    requires multiset(a) == multiset(b) && Streamable(selection, a)
    ensures Streamable(selection, b) && Collected(a) == Collected(b)
  {
    SameElements(a, b);
    PermutedKeys(a, b, (x: CaseInput) => x.cohort);
    forall k | 0 <= k < |b|
      ensures Takeable(selection, b[k])
    {
      assert b[k] in a;
    }
    SameCollected(a, b);
    SameCollected(b, a);
    assert Collected(a).Keys == Collected(b).Keys;
    assert Collected(a) == Collected(b);
  }
}
