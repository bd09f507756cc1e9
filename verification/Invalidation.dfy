/**
 * What must happen to a result directory: a command that fails, or whose status is not delivered, leaves a
 * failure marker when the operations that write it are let through.
 */
module Invalidation {
  import opened Common
  import opened Vocabulary
  import opened Lifecycle

  /** A command past its adoption holds a writer; so does one that failed on reviews or beside a success marker. */
  predicate Holding(s: State) {
    && (!Outside(s.pc) && !s.pc.AdoptPending? && !s.pc.Failing? && !s.pc.Invalidate? ==> s.writer.Writer?)
    && (s.pc.Failing? && (s.pc.rejected || SuccessFile in s.files) ==> s.writer.Writer?)
  }

  lemma HoldingPrepares(s: State, seen: Facts)
    requires Inv(s) && Holding(s) && AtPrepare(s.pc)
    ensures Holding(PassPrepare(s, seen))
  {
  }

  lemma HoldingReviews(s: State, seen: Facts, sound: bool)
    requires Inv(s) && Holding(s) && AtReview(s.pc)
    ensures Holding(PassReview(s, seen, sound))
  {
  }

  lemma HoldingVerifies(s: State, seen: Facts)
    requires Holding(s)
    ensures AtCommit(s.pc) ==> Holding(PassCommit(s))
    ensures Ended(s.pc) ==> Holding(PassEnd(s))
    ensures !AtPrepare(s.pc) && !AtReview(s.pc) && !AtCommit(s.pc) && !Ended(s.pc) ==> Holding(PassTerminal(s, seen))
  {
  }

  lemma HoldingRaises(s: State, damage: Damage, sound: bool)
    requires Inv(s) && Holding(s)
    ensures Holding(RaisedAt(s, damage, sound))
  {
  }

  lemma HoldingStep(s: State, a: Act)
    requires Inv(s) && Holding(s)
    ensures Holding(Step(s, a))
  {
    match a
    case Pass(seen, sound) =>
      if AtPrepare(s.pc) {
        HoldingPrepares(s, seen);
      } else if AtReview(s.pc) {
        HoldingReviews(s, seen, sound);
      } else {
        HoldingVerifies(s, seen);
      }
    case Raise(damage, sound) => HoldingRaises(s, damage, sound);
    case _ =>
  }

  lemma {:induction false} HoldingRun(s: State, acts: seq<Act>)
    requires Inv(s) && Holding(s)
    ensures Inv(Run(s, acts)) && Holding(Run(s, acts))
    decreases acts
  {
    if acts != [] {
      StepKeeps(s, acts[0]);
      HoldingStep(s, acts[0]);
      HoldingRun(Step(s, acts[0]), acts[1..]);
    }
  }

  lemma EveryRunHolds(mode: Mode, acts: seq<Act>)
    ensures Inv(Run(Initial(mode), acts)) && Holding(Run(Initial(mode), acts))
  {
    InitialInv(mode);
    HoldingRun(Initial(mode), acts);
  }

  /** The next operation succeeds. */
  function Once(s: State, seen: Facts, sound: bool): State {
    Step(s, Act.Pass(seen, sound))
  }

  /** The next two operations succeed. */
  function Twice(s: State, seen: Facts, sound: bool): State {
    Once(Once(s, seen, sound), seen, sound)
  }

  /** A directory that can no longer be promoted: it has the failure marker, and beside a success marker says why. */
  predicate Failed(s: State) {
    FailureFile in s.files && (SuccessFile in s.files ==> s.invalidated)
  }

  /** Nothing contradicts a success marker but an invalidation. */
  predicate Plain(s: State) {
    SuccessFile in s.files && FailureFile in s.files ==> s.invalidated
  }

  lemma FailingOnce(s: State, seen: Facts, sound: bool)
    requires Plain(s) && Holding(s) && s.pc.Failing?
    ensures var t := Once(s, seen, sound);
      && t.pc == Invalidate && Plain(t) && (FailureFile in t.files || t.writer.Writer?)
      && (SuccessFile in t.files <==> SuccessFile in s.files)
      && (SuccessFile !in s.files && !s.pc.rejected ==> FailureFile in t.files)
  {
  }

  lemma InvalidatedOnce(s: State, seen: Facts, sound: bool)
    requires Plain(s) && s.pc == Invalidate && (FailureFile in s.files || s.writer.Writer?)
    ensures var t := Once(s, seen, sound);
      Failed(t) && t.pc == Idle && (SuccessFile in t.files <==> SuccessFile in s.files)
  {
  }

  /** A failing command that is let through leaves the failure marker; at once, when no success marker stands. */
  lemma FailingFails(s: State, seen: Facts, sound: bool)
    requires Plain(s) && Holding(s) && s.pc.Failing?
    ensures var t := Twice(s, seen, sound);
      Failed(t) && t.pc == Idle && (SuccessFile in t.files <==> SuccessFile in s.files)
    ensures SuccessFile !in s.files && !s.pc.rejected ==> FailureFile in Once(s, seen, sound).files
  {
    FailingOnce(s, seen, sound);
    InvalidatedOnce(Once(s, seen, sound), seen, sound);
  }

  /** Over every run: a status that is not delivered ends in an invalidation, whatever the failing delivery left. */
  lemma UndeliveredIsInvalidated(mode: Mode, acts: seq<Act>, damage: Damage, sound: bool, seen: Facts)
    ensures var s := Run(Initial(mode), acts);
      s.pc.Deliver? ==>
        var t := Once(Step(s, Raise(damage, sound)), seen, sound);
        && Failed(t) && t.pc == Idle && (SuccessFile in s.files ==> SuccessFile in t.files && t.invalidated)
  {
    EveryRunHolds(mode, acts);
    var s := Run(Initial(mode), acts);
    if s.pc.Deliver? {
      InvalidatedOnce(Step(s, Raise(damage, sound)), seen, sound);
    }
  }

  /** Over every run: wherever a command stands between adoption and its end, an exception leaves the marker. */
  lemma RaiseFails(mode: Mode, acts: seq<Act>, damage: Damage, sound: bool, seen: Facts)
    ensures var s := Run(Initial(mode), acts);
      !Outside(s.pc) && !Ended(s.pc) ==>
        var t := Step(s, Raise(damage, sound));
        && t.pc == Failing(false) && Failed(Twice(t, seen, sound))
        && (SuccessFile !in t.files ==> FailureFile in Once(t, seen, sound).files)
  {
    EveryRunHolds(mode, acts);
    var s := Run(Initial(mode), acts);
    if !Outside(s.pc) && !Ended(s.pc) {
      StepKeeps(s, Raise(damage, sound));
      HoldingStep(s, Raise(damage, sound));
      FailingFails(Step(s, Raise(damage, sound)), seen, sound);
    }
  }

  /** Over every run: reviews that block end in a failure marker, and in no success marker. */
  lemma BlockingReviewFails(acts: seq<Act>, seen: Facts, sound: bool)
    ensures var s := Run(Initial(Official), acts);
      s.pc.CheckRelease? && !AllAccepted(s.pc.r) ==>
        var t := Once(s, seen, sound);
        t.pc == Failing(true) && Failed(Twice(t, seen, sound)) && SuccessFile !in Twice(t, seen, sound).files
  {
    EveryRunHolds(Official, acts);
    var s := Run(Initial(Official), acts);
    if s.pc.CheckRelease? && !AllAccepted(s.pc.r) {
      StepKeeps(s, Act.Pass(seen, sound));
      HoldingStep(s, Act.Pass(seen, sound));
      FailingFails(Once(s, seen, sound), seen, sound);
    }
  }
}
