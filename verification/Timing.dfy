/**
 * Nested timed intervals in nanoseconds, reported as millisecond ceilings. Ceilings of disjoint pieces
 * add up to more than the ceiling of the whole; the slack of every consistency gate is how much more.
 */
module Timing {
  import opened Common

  const MS := 1_000_000

  /** `(ns + 999_999) // 1_000_000`. */
  function Ceil(ns: nat): nat {
    (ns + (MS - 1)) / MS
  }

  function Sum(ds: seq<nat>): nat {
    if ds == [] then 0 else ds[0] + Sum(ds[1..])
  }

  function Ceils(ds: seq<nat>): seq<nat> {
    seq(|ds|, i requires 0 <= i < |ds| => Ceil(ds[i]))
  }

  lemma CeilBounds(ns: nat)
    ensures ns <= MS * Ceil(ns) <= ns + (MS - 1)
  {
  }

  lemma CeilMonotone(a: nat, b: nat)
    requires a <= b
    ensures Ceil(a) <= Ceil(b)
  {
  }

  lemma {:induction false} SumCeils(ds: seq<nat>)
    ensures Sum(ds) <= MS * Sum(Ceils(ds)) <= Sum(ds) + |ds| * (MS - 1)
  {
    if ds != [] {
      SumCeils(ds[1..]);
      CeilBounds(ds[0]);
      assert Ceils(ds)[1..] == Ceils(ds[1..]);
      assert |ds| * (MS - 1) == (MS - 1) + (|ds| - 1) * (MS - 1);
    }
  }

  lemma {:induction false} SumSnoc(ds: seq<nat>, d: nat)
    ensures Sum(ds + [d]) == Sum(ds) + d
  {
    if ds == [] {
      assert ds + [d] == [d];
    } else {
      assert (ds + [d])[1..] == ds[1..] + [d];
      SumSnoc(ds[1..], d);
    }
  }

  lemma {:induction false} SumConcat(a: seq<nat>, b: seq<nat>)
    ensures Sum(a + b) == Sum(a) + Sum(b)
  {
    if a == [] {
      assert a + b == b;
    } else {
      assert (a + b)[1..] == a[1..] + b;
      SumConcat(a[1..], b);
    }
  }

  /**
   * The exact slack: the ceilings of `k` pieces inside `total` exceed its ceiling by at most
   * `k - Ceil(k)`, which is `k - 1` up to a million pieces.
   */
  lemma PiecesBound(ds: seq<nat>, total: nat)
    requires Sum(ds) <= total
    ensures Sum(Ceils(ds)) + Ceil(|ds|) <= Ceil(total) + |ds|
    ensures |ds| > 0 ==> Sum(Ceils(ds)) <= Ceil(total) + |ds| - 1
  {
    var k := |ds|;
    SumCeils(ds);
    CeilBounds(total);
    CeilBounds(k);
    assert k * (MS - 1) == MS * k - k;
    var s := Sum(Ceils(ds));
    assert MS * s <= MS * Ceil(total) + MS * k - k;
    assert MS * (s - Ceil(total) - k) <= -k;
    assert MS * (s - Ceil(total) - k + Ceil(k)) <= MS - 1;
  }

  function Ones(k: nat): seq<nat> {
    seq(k, _ => 1)
  }

  lemma {:induction false} SumOnes(k: nat)
    ensures Sum(Ones(k)) == k && Sum(Ceils(Ones(k))) == k
  {
    if k > 0 {
      SumOnes(k - 1);
      assert Ones(k)[1..] == Ones(k - 1);
      assert Ceils(Ones(k))[1..] == Ceils(Ones(k - 1));
    }
  }

  /** No smaller slack will do, for any number of pieces. */
  lemma PiecesTight(k: nat)
    ensures Sum(Ones(k)) <= k && Sum(Ceils(Ones(k))) + Ceil(k) == Ceil(k) + |Ones(k)|
    ensures 0 < k <= MS ==> Sum(Ceils(Ones(k))) == Ceil(k) + k - 1
  {
    SumOnes(k);
  }

  /** Pieces that fill the whole never add up to less. */
  lemma PiecesCover(ds: seq<nat>, total: nat)
    requires Sum(ds) == total
    ensures Sum(Ceils(ds)) >= Ceil(total)
  {
    SumCeils(ds);
    CeilBounds(total);
  }

  // ----- Intervals on one clock --------------------------------------------------------------

  datatype Interval = Interval(start: int, stop: int)

  function Length(i: Interval): nat
    requires i.start <= i.stop
  {
    i.stop - i.start
  }

  /** Intervals one after the other, each of positive length, between `low` and `high`. */
  predicate Chain(low: int, pieces: seq<Interval>, high: int)
    decreases pieces
  {
    if pieces == [] then low <= high
    else low <= pieces[0].start < pieces[0].stop && Chain(pieces[0].stop, pieces[1..], high)
  }

  lemma {:induction false} ChainAdvances(low: int, pieces: seq<Interval>, high: int)
    requires Chain(low, pieces, high)
    ensures low <= high && forall i :: 0 <= i < |pieces| ==> low <= pieces[i].start < pieces[i].stop <= high
    decreases pieces
  {
    if pieces != [] {
      ChainAdvances(pieces[0].stop, pieces[1..], high);
      forall i | 0 <= i < |pieces|
        ensures low <= pieces[i].start < pieces[i].stop <= high
      {
        assert i > 0 ==> pieces[i] == pieces[1..][i - 1];
      }
    }
  }

  function Lengths(pieces: seq<Interval>): seq<nat>
    requires forall i :: 0 <= i < |pieces| ==> pieces[i].start <= pieces[i].stop
  {
    seq(|pieces|, i requires 0 <= i < |pieces| => Length(pieces[i]))
  }

  lemma {:induction false} ChainLength(low: int, pieces: seq<Interval>, high: int)
    requires Chain(low, pieces, high)
    ensures forall i :: 0 <= i < |pieces| ==> pieces[i].start <= pieces[i].stop
    ensures Sum(Lengths(pieces)) <= high - low
    decreases pieces
  {
    ChainAdvances(low, pieces, high);
    if pieces != [] {
      ChainLength(pieces[0].stop, pieces[1..], high);
      assert Lengths(pieces)[1..] == Lengths(pieces[1..]);
    }
  }

  // ----- The compute pilot -------------------------------------------------------------------

  /** `_positive_elapsed_ms`: a clock that did not advance raises. */
  method PositiveElapsed(start: int, stop: int) returns (ms: Option<nat>)
    ensures ms == if stop <= start then None else Some(Ceil(stop - start))
    ensures ms.Some? ==> MS * (ms.value - 1) < stop - start <= MS * ms.value
  {
    if stop <= start {
      return None;
    }
    return Some((stop - start + (MS - 1)) / MS);
  }

  function Largest(ms: seq<nat>): nat {
    if ms == [] then 0 else Max(ms[0], Largest(ms[1..]))
  }

  lemma {:induction false} LargestBound(ms: seq<nat>, bound: nat)
    ensures Largest(ms) <= bound <==> forall i :: 0 <= i < |ms| ==> ms[i] <= bound
  {
    if ms != [] {
      LargestBound(ms[1..], bound);
      assert forall i :: 0 < i < |ms| ==> ms[i] == ms[1..][i - 1];
    }
  }

  /** The nanoseconds of each scene: its planning and its execution. */
  function SceneNs(plans: seq<Interval>, runs: seq<Interval>): (ds: seq<nat>)
    requires |plans| == |runs|
    requires forall i :: 0 <= i < |plans| ==> plans[i].start <= plans[i].stop && runs[i].start <= runs[i].stop
    ensures |ds| == |plans|
  {
    seq(|plans|, i requires 0 <= i < |plans| => Length(plans[i]) + Length(runs[i]))
  }

  predicate Advancing(pieces: seq<Interval>) {
    forall i :: 0 <= i < |pieces| ==> pieces[i].start < pieces[i].stop
  }

  /** The timed scene loop of the NumPy pilot. */
  method SceneDurations(plans: seq<Interval>, runs: seq<Interval>) returns (durations: Option<seq<nat>>)
    requires |plans| == |runs|
    ensures durations.Some? <==> Advancing(plans) && Advancing(runs)
    ensures durations.Some? ==> durations.value == Ceils(SceneNs(plans, runs)) && |durations.value| == |plans|
    ensures durations.Some? ==> forall k :: 0 <= k < |plans| ==>
      var ns := (plans[k].stop - plans[k].start) + (runs[k].stop - runs[k].start);
      MS * (durations.value[k] - 1) < ns <= MS * durations.value[k]
  {
    var ms: seq<nat> := [];
    var i := 0;
    while i < |plans|
      invariant 0 <= i <= |plans| && |ms| == i
      invariant forall k :: 0 <= k < i ==> plans[k].start < plans[k].stop && runs[k].start < runs[k].stop
      invariant forall k :: 0 <= k < i ==> ms[k] == Ceil(Length(plans[k]) + Length(runs[k]))
      invariant forall k :: 0 <= k < i ==>
        var ns := (plans[k].stop - plans[k].start) + (runs[k].stop - runs[k].start);
        MS * (ms[k] - 1) < ns <= MS * ms[k]
    {
      if runs[i].stop <= runs[i].start || plans[i].stop <= plans[i].start {
        return None;
      }
      var ns := plans[i].stop - plans[i].start + runs[i].stop - runs[i].start;
      ms := ms + [(ns + (MS - 1)) / MS];
      i := i + 1;
    }
    return Some(ms);
  }

  /**
   * One pilot on one clock: decode, NumPy, Waymax and verification inside the wall interval, and the pieces
   * inside those.
   */
  datatype Pilot = Pilot(
    wall: Interval, decode: Interval,
    numpy: Interval, plans: seq<Interval>, runs: seq<Interval>,
    waymax: Interval, validation: Interval, scenes: seq<Interval>,
    verification: Interval)

  predicate Honest(p: Pilot) {
    && Chain(p.wall.start, [p.decode, p.numpy, p.waymax, p.verification], p.wall.stop)
    && |p.plans| == |p.runs| > 0 && Chain(p.numpy.start, p.plans + p.runs, p.numpy.stop)
    && Chain(p.waymax.start, [p.validation] + p.scenes, p.waymax.stop)
  }

  lemma HonestAdvances(p: Pilot)
    requires Honest(p)
    ensures Advancing(p.plans) && Advancing(p.runs) && Advancing(p.scenes) && p.validation.start < p.validation.stop
    ensures p.wall.start < p.wall.stop && p.numpy.start < p.numpy.stop && p.waymax.start < p.waymax.stop
    ensures p.decode.start < p.decode.stop && p.verification.start < p.verification.stop
  {
    var phases := [p.decode, p.numpy, p.waymax, p.verification];
    ChainAdvances(p.wall.start, phases, p.wall.stop);
    assert phases[0] == p.decode && phases[1] == p.numpy && phases[2] == p.waymax && phases[3] == p.verification;
    ChainAdvances(p.numpy.start, p.plans + p.runs, p.numpy.stop);
    assert forall i :: 0 <= i < |p.plans| ==> (p.plans + p.runs)[i] == p.plans[i];
    assert forall i :: 0 <= i < |p.runs| ==> (p.plans + p.runs)[|p.plans| + i] == p.runs[i];
    ChainAdvances(p.waymax.start, [p.validation] + p.scenes, p.waymax.stop);
    assert ([p.validation] + p.scenes)[0] == p.validation;
    assert forall i :: 0 <= i < |p.scenes| ==> ([p.validation] + p.scenes)[1 + i] == p.scenes[i];
  }

  lemma {:induction false} SumPairs(a: seq<nat>, b: seq<nat>, c: seq<nat>)
    requires |a| == |b| == |c| && forall i :: 0 <= i < |a| ==> c[i] == a[i] + b[i]
    ensures Sum(c) == Sum(a) + Sum(b)
  {
    if a != [] {
      SumPairs(a[1..], b[1..], c[1..]);
    }
  }

  /** All scene nanoseconds fit into the NumPy interval. */
  lemma NumpyFits(p: Pilot)
    requires Honest(p)
    ensures Advancing(p.plans) && Advancing(p.runs)
    ensures Sum(SceneNs(p.plans, p.runs)) <= p.numpy.stop - p.numpy.start
  {
    HonestAdvances(p);
    ChainLength(p.numpy.start, p.plans + p.runs, p.numpy.stop);
    assert Lengths(p.plans + p.runs) == Lengths(p.plans) + Lengths(p.runs);
    SumConcat(Lengths(p.plans), Lengths(p.runs));
    SumPairs(Lengths(p.plans), Lengths(p.runs), SceneNs(p.plans, p.runs));
  }

  /**
   * The NumPy gate never rejects an honest run: the scene ceilings exceed the outer one by at most the scene
   * count less one.
   */
  lemma NumpyGate(p: Pilot)
    requires Honest(p)
    ensures Advancing(p.plans) && Advancing(p.runs) && p.numpy.start < p.numpy.stop
    ensures Sum(Ceils(SceneNs(p.plans, p.runs))) <= Ceil(p.numpy.stop - p.numpy.start) + |p.plans| - 1
  {
    HonestAdvances(p);
    NumpyFits(p);
    PiecesBound(SceneNs(p.plans, p.runs), p.numpy.stop - p.numpy.start);
  }

  /** Nor does the Waymax gate, whose slack is the scene count: validation is one more piece. */
  lemma WaymaxGate(p: Pilot)
    requires Honest(p)
    ensures Advancing(p.scenes) && p.validation.start < p.validation.stop && p.waymax.start < p.waymax.stop
    ensures Ceil(Length(p.validation)) + Sum(Ceils(Lengths(p.scenes))) <= Ceil(p.waymax.stop - p.waymax.start)
      + |p.scenes|
  {
    HonestAdvances(p);
    var pieces := [p.validation] + p.scenes;
    ChainLength(p.waymax.start, pieces, p.waymax.stop);
    PiecesBound(Lengths(pieces), p.waymax.stop - p.waymax.start);
    assert Ceils(Lengths(pieces))[1..] == Ceils(Lengths(p.scenes));
    assert Ceils(Lengths(pieces))[0] == Ceil(Length(p.validation));
  }

  /** The pieces of a whole pilot: decode, scenes, validation, Waymax scenes, verification. */
  function AllPieces(p: Pilot): seq<nat>
    requires Honest(p)
  {
    HonestAdvances(p);
    [Length(p.decode), Length(p.validation), Length(p.verification)] + (SceneNs(p.plans, p.runs) + Lengths(p.scenes))
  }

  lemma SumCons(a: nat, rest: seq<nat>)
    ensures Sum([a] + rest) == a + Sum(rest)
  {
    assert ([a] + rest)[1..] == rest;
  }

  lemma SumThree(a: nat, b: nat, c: nat, rest: seq<nat>)
    ensures Sum([a, b, c] + rest) == a + b + c + Sum(rest)
  {
    assert [a, b, c] + rest == [a] + ([b] + ([c] + rest));
    SumCons(a, [b] + ([c] + rest));
    SumCons(b, [c] + rest);
    SumCons(c, rest);
  }

  lemma AllPiecesFit(p: Pilot)
    requires Honest(p)
    ensures Sum(AllPieces(p)) <= p.wall.stop - p.wall.start
  {
    HonestAdvances(p);
    NumpyFits(p);
    var pieces := [p.validation] + p.scenes;
    ChainLength(p.waymax.start, pieces, p.waymax.stop);
    assert Lengths(pieces)[1..] == Lengths(p.scenes) && Lengths(pieces)[0] == Length(p.validation);
    var scenes := SceneNs(p.plans, p.runs);
    SumThree(Length(p.decode), Length(p.validation), Length(p.verification), scenes + Lengths(p.scenes));
    SumConcat(scenes, Lengths(p.scenes));
    PhasesFit(p);
  }

  lemma PhasesFit(p: Pilot)
    requires Honest(p)
    ensures p.decode.start <= p.decode.stop && p.numpy.start <= p.numpy.stop && p.waymax.start <= p.waymax.stop
    ensures p.verification.start <= p.verification.stop
    ensures Length(p.decode) + Length(p.numpy) + Length(p.waymax) + Length(p.verification) <= p.wall.stop - p.wall.start
  {
    HonestAdvances(p);
    var phases := [p.decode, p.numpy, p.waymax, p.verification];
    ChainLength(p.wall.start, phases, p.wall.stop);
    var ls := Lengths(phases);
    assert ls == [Length(p.decode), Length(p.numpy), Length(p.waymax)] + [Length(p.verification)];
    SumThree(Length(p.decode), Length(p.numpy), Length(p.waymax), [Length(p.verification)]);
    assert Sum([Length(p.verification)]) == Length(p.verification) + Sum([]);
  }

  /**
   * The evidence check: decode, NumPy, Waymax and verification milliseconds exceed the wall milliseconds
   * by at most the overage `numpy_n + waymax_n + 2`, and no scene is longer than the wall.
   */
  lemma PilotConsistent(p: Pilot)
    requires Honest(p)
    ensures Advancing(p.plans) && Advancing(p.runs) && Advancing(p.scenes) && p.validation.start < p.validation.stop
    ensures p.wall.start < p.wall.stop && p.decode.start < p.decode.stop && p.verification.start < p.verification.stop
    ensures var wall := Ceil(p.wall.stop - p.wall.start);
      var numpy := Ceils(SceneNs(p.plans, p.runs)); var waymax := Ceils(Lengths(p.scenes));
      && Ceil(Length(p.decode)) + Sum(numpy) + (Ceil(Length(p.validation)) + Sum(waymax)) + Ceil(Length(p.verification))
           <= wall + (|p.plans| + |p.scenes| + 2)
      && Max(Largest(numpy), Largest(waymax)) <= wall
  {
    HonestAdvances(p);
    AllPiecesFit(p);
    var ds := AllPieces(p);
    PiecesBound(ds, p.wall.stop - p.wall.start);
    var numpy, waymax := Ceils(SceneNs(p.plans, p.runs)), Ceils(Lengths(p.scenes));
    assert Ceils(ds) == [Ceil(Length(p.decode)), Ceil(Length(p.validation)), Ceil(Length(p.verification))]
      + (numpy + waymax);
    SumThree(Ceil(Length(p.decode)), Ceil(Length(p.validation)), Ceil(Length(p.verification)), numpy + waymax);
    SumConcat(numpy, waymax);
    SceneWithinWall(p);
  }

  lemma {:induction false} PartOfSum(ds: seq<nat>, i: nat)
    requires i < |ds|
    ensures ds[i] <= Sum(ds)
  {
    if i > 0 {
      PartOfSum(ds[1..], i - 1);
    }
  }

  lemma SceneWithinWall(p: Pilot)
    requires Honest(p)
    ensures Advancing(p.plans) && Advancing(p.runs) && Advancing(p.scenes) && p.wall.start < p.wall.stop
    ensures Largest(Ceils(SceneNs(p.plans, p.runs))) <= Ceil(p.wall.stop - p.wall.start)
    ensures Largest(Ceils(Lengths(p.scenes))) <= Ceil(p.wall.stop - p.wall.start)
  {
    HonestAdvances(p);
    AllPiecesFit(p);
    var ds, wall := AllPieces(p), p.wall.stop - p.wall.start;
    var numpy, waymax := SceneNs(p.plans, p.runs), Lengths(p.scenes);
    forall i | 0 <= i < |numpy|
      ensures Ceils(numpy)[i] <= Ceil(wall)
    {
      assert ds[3 + i] == numpy[i];
      PartOfSum(ds, 3 + i);
      CeilMonotone(numpy[i], wall);
    }
    forall i | 0 <= i < |waymax|
      ensures Ceils(waymax)[i] <= Ceil(wall)
    {
      assert ds[3 + |numpy| + i] == waymax[i];
      PartOfSum(ds, 3 + |numpy| + i);
      CeilMonotone(waymax[i], wall);
    }
    LargestBound(Ceils(numpy), Ceil(wall));
    LargestBound(Ceils(waymax), Ceil(wall));
  }

  // ----- The four official phases ------------------------------------------------------------

  const PHASES := 3

  /** Accumulated nanoseconds of the execution phases; verification is what remains of the wall. */
  class PhaseClock {
    var ns: seq<nat>

    constructor ()
      ensures ns == [0, 0, 0]
    {
      ns := [0, 0, 0];
    }

    /** One observed duration is added to its phase; an unknown phase or a non-positive duration raises. */
    method Observe(phase: int, duration: int) returns (ok: bool)
      requires |ns| == PHASES
      modifies this
      ensures ok <==> 0 <= phase < PHASES && duration > 0
      ensures |ns| == PHASES && Sum(ns) == Sum(old(ns)) + if ok then duration else 0
      ensures forall i :: 0 <= i < PHASES ==> ns[i] == old(ns)[i] + if ok && i == phase then duration else 0
    {
      if !(0 <= phase < PHASES) || duration <= 0 {
        return false;
      }
      SumUpdate(ns, phase, ns[phase] + duration);
      ns := ns[phase := ns[phase] + duration];
      return true;
    }

    /** The four phase milliseconds of a wall interval. */
    method Close(start: int, stop: int) returns (ms: Option<seq<nat>>)
      requires |ns| == PHASES
      ensures ms.Some? <==> stop - start - Sum(ns) > 0
      ensures ms.Some? ==> ms.value == Ceils(ns + [stop - start - Sum(ns)])
    {
      var observed := 0;
      var i := 0;
      while i < PHASES
        invariant 0 <= i <= PHASES && observed == Sum(ns[..i])
      {
        assert ns[..i + 1] == ns[..i] + [ns[i]];
        SumSnoc(ns[..i], ns[i]);
        observed := observed + ns[i];
        i := i + 1;
      }
      assert ns[..i] == ns;
      var verification := stop - start - observed;
      if verification <= 0 {
        return None;
      }
      var complete: seq<nat> := ns + [verification];
      var out: seq<nat> := [];
      i := 0;
      while i < |complete|
        invariant 0 <= i <= |complete| && |out| == i
        invariant forall k :: 0 <= k < i ==> out[k] == Ceil(complete[k])
      {
        out := out + [(complete[i] + (MS - 1)) / MS];
        i := i + 1;
      }
      return Some(out);
    }
  }

  lemma {:induction false} SumUpdate(ds: seq<nat>, i: nat, d: nat)
    requires i < |ds|
    ensures Sum(ds[i := d]) == Sum(ds) - ds[i] + d
  {
    if i == 0 {
      assert ds[0 := d][1..] == ds[1..];
    } else {
      assert ds[i := d][1..] == ds[1..][i - 1 := d];
      SumUpdate(ds[1..], i - 1, d);
    }
  }

  /** Four phases that make up the wall exactly: their ceilings lie between its ceiling and three more. */
  lemma FourPhases(ns: seq<nat>, wall: nat)
    requires |ns| == PHASES && Sum(ns) < wall
    ensures Ceil(wall) <= Sum(Ceils(ns + [wall - Sum(ns)])) <= Ceil(wall) + 3
  {
    var all := ns + [wall - Sum(ns)];
    SumSnoc(ns, wall - Sum(ns));
    PiecesCover(all, wall);
    PiecesBound(all, wall);
  }

  // ----- The slacks are tight ----------------------------------------------------------------

  /** Unit intervals one after the other from `from`. */
  function Units(from: int, k: nat): seq<Interval> {
    seq(k, i requires 0 <= i < k => Interval(from + i, from + i + 1))
  }

  lemma {:induction false} UnitsChain(from: int, k: nat)
    ensures Chain(from, Units(from, k), from + k)
    decreases k
  {
    if k > 0 {
      assert Units(from, k)[1..] == Units(from + 1, k - 1);
      UnitsChain(from + 1, k - 1);
    }
  }

  /**
   * A pilot of `k` NumPy and `n` Waymax scenes in which nothing but its wall, its NumPy and its Waymax part is
   * longer than a nanosecond.
   */
  function UnitPilot(k: nat, n: nat): Pilot {
    var w := 1 + 2 * k;
    Pilot(Interval(0, w + n + 2), Interval(0, 1),
          Interval(1, w), Units(1, k), Units(1 + k, k),
          Interval(w, w + n + 1), Interval(w, w + 1), Units(w + 1, n),
          Interval(w + n + 1, w + n + 2))
  }

  lemma UnitPilotIsHonest(k: nat, n: nat)
    requires k > 0
    ensures Honest(UnitPilot(k, n))
  {
    var p, w := UnitPilot(k, n), 1 + 2 * k;
    assert p.plans + p.runs == Units(1, 2 * k);
    UnitsChain(1, 2 * k);
    assert [p.validation] + p.scenes == Units(w, n + 1);
    UnitsChain(w, n + 1);
    var phases := [p.decode, p.numpy, p.waymax, p.verification];
    assert phases[1..] == [p.numpy, p.waymax, p.verification] && phases[1..][1..] == [p.waymax, p.verification];
    assert phases[1..][1..][1..] == [p.verification] && phases[1..][1..][1..][1..] == [];
    assert Chain(p.waymax.stop, [p.verification], p.wall.stop);
    assert Chain(p.numpy.stop, [p.waymax, p.verification], p.wall.stop);
    assert Chain(p.decode.stop, [p.numpy, p.waymax, p.verification], p.wall.stop);
  }

  /**
   * Within a millisecond there is an honest pilot that uses all of the NumPy, the Waymax and the evidence
   * slack: none can be smaller.
   */
  lemma SlacksTight(k: nat, n: nat)
    requires 0 < k && 2 * k + n + 3 <= MS
    ensures var p := UnitPilot(k, n);
      && Honest(p) && Advancing(p.plans) && Advancing(p.runs) && Advancing(p.scenes)
      && (var numpy, waymax := Sum(Ceils(SceneNs(p.plans, p.runs))), Ceil(1) + Sum(Ceils(Lengths(p.scenes)));
          && numpy == Ceil(p.numpy.stop - p.numpy.start) + |p.plans| - 1
          && waymax == Ceil(p.waymax.stop - p.waymax.start) + |p.scenes|
          && Ceil(1) + numpy + waymax + Ceil(1) == Ceil(p.wall.stop - p.wall.start) + (|p.plans| + |p.scenes| + 2))
  {
    var p := UnitPilot(k, n);
    UnitPilotIsHonest(k, n);
    assert Ceils(SceneNs(p.plans, p.runs)) == Ones(k);
    assert Ceils(Lengths(p.scenes)) == Ones(n);
    SumOnes(k);
    SumOnes(n);
  }
}
