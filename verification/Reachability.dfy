/** A run of the lifecycle that ends in an official success. */
module Reachability {
  import opened Lifecycle
  import opened Vocabulary

  ghost predicate Reachable(s: State) {
    exists acts :: Run(Initial(s.mode), acts) == s
  }

  lemma {:induction false} RunSnoc(s: State, acts: seq<Act>, a: Act)
    ensures Run(s, acts + [a]) == Step(Run(s, acts), a)
    decreases acts
  {
    if acts == [] {
      assert [] + [a] == [a] && [a][1..] == [];
      assert Run(Step(s, a), []) == Step(s, a);
    } else {
      assert (acts + [a])[1..] == acts[1..] + [a];
      RunSnoc(Step(s, acts[0]), acts[1..], a);
    }
  }

  lemma ReachStep(s: State, a: Act)
    requires Reachable(s) && Step(s, a).mode == s.mode
    ensures Reachable(Step(s, a))
  {
    var acts :| Run(Initial(s.mode), acts) == s;
    RunSnoc(Initial(s.mode), acts, a);
  }

  const WORLD := Facts(1, 2, 3, 4)
  const FOUR: seq<Event> := [RowsSealed, SelectionSealed, ArtifactsSealed, AwaitingSealed]

  /** The next operation succeeds in an unchanging world. */
  lemma Onward(s: State) returns (t: State)
    requires Reachable(s) && Step(s, Act.Pass(WORLD, true)).mode == s.mode
    ensures t == Step(s, Act.Pass(WORLD, true)) && Reachable(t)
  {
    ReachStep(s, Act.Pass(WORLD, true));
    t := Step(s, Act.Pass(WORLD, true));
  }

  lemma Preparing(s: State) returns (t: State)
    requires Reachable(s) && PassPrepare(s, WORLD).mode == s.mode
    requires AtPrepare(s.pc)
    ensures t == PassPrepare(s, WORLD) && Reachable(t)
  {
    t := Onward(s);
  }

  lemma Reviewing(s: State) returns (t: State)
    requires Reachable(s) && PassReview(s, WORLD, true).mode == s.mode
    requires AtReview(s.pc)
    ensures t == PassReview(s, WORLD, true) && Reachable(t)
  {
    t := Onward(s);
  }

  lemma Committing(s: State) returns (t: State)
    requires Reachable(s) && PassCommit(s).mode == s.mode
    requires AtCommit(s.pc)
    ensures t == PassCommit(s) && Reachable(t)
  {
    t := Onward(s);
  }

  const THREE: set<File> := {PendingFile, RowsFile, SelectionFile}

  lemma Prepared(mode: Mode) returns (s: State)
    ensures Reachable(s) && s == State(mode, true, {PendingFile}, {PendingFile}, [], SealRows, WORLD,
      Writer(PendingPhase, true, false), false)
  {
    s := Initial(mode);
    assert Run(s, []) == s;
    ReachStep(s, Begin(Prepare));
    s := Preparing(Step(s, Begin(Prepare)));
    s := Preparing(s);
    s := Preparing(s);
    s := Preparing(s);
  }

  lemma Executed(s0: State) returns (s: State)
    requires Reachable(s0) && s0 == State(s0.mode, true, {PendingFile}, {PendingFile}, [], SealRows, WORLD,
      Writer(PendingPhase, true, false), false)
    ensures Reachable(s) && s == State(s0.mode, true, THREE, THREE, [RowsSealed, SelectionSealed], WriteArtifacts,
      WORLD, Writer(PendingPhase, true, false), false)
  {
    s := Preparing(s0);
    s := Preparing(s);
    s := Preparing(s);
  }

  lemma Sealable()
    ensures Reachable(State(Official, true, REVIEWABLE, REVIEWABLE, FOUR, Idle, WORLD,
      Writer(AwaitingPhase, false, false), false))
  {
    var s := Prepared(Official);
    s := Executed(s);
    s := Preparing(s);
    s := Preparing(s);
    s := Onward(s);
    assert s.files == REVIEWABLE && s.intact == REVIEWABLE && s.history == FOUR;
  }

  /** A state in the terminal commit. */
  predicate Closing(s: State, pc: Pc) {
    && s.pc == pc && s.facts == WORLD && s.writer == Writer(CommittedPhase, true, false)
    && CommittedFile in s.files && SuccessFile !in s.files && FailureFile !in s.files
  }

  lemma Adoptable(r: Reviews) returns (s: State)
    ensures Reachable(s)
    ensures s == State(Official, true, REVIEWABLE, REVIEWABLE, FOUR, Decide(r), WORLD,
      Writer(AwaitingPhase, true, false), false)
  {
    Sealable();
    s := State(Official, true, REVIEWABLE, REVIEWABLE, FOUR, Idle, WORLD, Writer(AwaitingPhase, false, false), false);
    ReachStep(s, Begin(Finalize(r)));
    s := Adopted(Step(s, Begin(Finalize(r))), r);
    s := Reviewing(s);
    s := Reviewing(s);
  }

  lemma Adopted(s0: State, r: Reviews) returns (s: State)
    requires Reachable(s0)
    requires s0 == State(Official, true, REVIEWABLE, REVIEWABLE, FOUR, ReviewRepository(r), WORLD, NoWriter, false)
    ensures Reachable(s) && s == State(Official, true, REVIEWABLE, REVIEWABLE, FOUR, ReviewLocal(r), WORLD,
      Writer(AwaitingPhase, true, false), false)
  {
    s := Reviewing(s0);
    s := Reviewing(s);
  }

  lemma Committable(r: Reviews) returns (s: State)
    requires AllAccepted(r)
    ensures Reachable(s) && Closing(s, Semantics) && s.mode == Official
  {
    s := Adoptable(r);
    s := Reviewable(s, r);
    s := Manifested(s);
    s := CommittedFrom(s);
    s := Reopened(s);
  }

  lemma CommittedFrom(s0: State) returns (s: State)
    requires Reachable(s0) && s0.mode == Official && s0.pc == WriteCommitted && s0.facts == WORLD
    requires s0.writer == Writer(AwaitingPhase, true, false)
      && s0.files == REVIEWABLE + {DecisionsFile, SummaryFile, ManifestFile}
    ensures Reachable(s) && Closing(s, Reopen) && s.mode == Official
  {
    s := Committing(s0);
  }

  lemma Reopened(s0: State) returns (s: State)
    requires Reachable(s0) && Closing(s0, Reopen)
    ensures Reachable(s) && Closing(s, Semantics) && s.mode == s0.mode
  {
    s := Committing(s0);
  }

  lemma Manifested(s0: State) returns (s: State)
    requires Reachable(s0) && s0.mode == Official && s0.pc == WriteManifest && s0.facts == WORLD
    requires s0.writer == Writer(AwaitingPhase, true, false) && s0.files == REVIEWABLE + {DecisionsFile, SummaryFile}
    ensures Reachable(s) && s.mode == Official && s.pc == WriteCommitted && s.facts == WORLD
    ensures s.writer == Writer(AwaitingPhase, true, false)
      && s.files == REVIEWABLE + {DecisionsFile, SummaryFile, ManifestFile}
  {
    s := Committing(s0);
  }

  lemma Reviewable(s0: State, r: Reviews) returns (s: State)
    requires AllAccepted(r) && Reachable(s0)
    requires s0 == State(Official, true, REVIEWABLE, REVIEWABLE, FOUR, Decide(r), WORLD,
      Writer(AwaitingPhase, true, false), false)
    ensures Reachable(s) && s.mode == Official && s.pc == WriteManifest && s.facts == WORLD
    ensures s.writer == Writer(AwaitingPhase, true, false) && s.files == REVIEWABLE + {DecisionsFile, SummaryFile}
  {
    s := Reviewing(s0);
    s := Summarised(s, r);
    s := Released(s, r);
  }

  lemma Summarised(s0: State, r: Reviews) returns (s: State)
    requires AllAccepted(r) && Reachable(s0) && s0.mode == Official && s0.pc == Summarise(r) && s0.facts == WORLD
    requires s0.writer == Writer(AwaitingPhase, true, false) && s0.files == REVIEWABLE + {DecisionsFile}
    ensures Reachable(s) && s.mode == Official && s.pc == CheckRelease(r, true) && s.facts == WORLD
    ensures s.writer == Writer(AwaitingPhase, true, false) && s.files == REVIEWABLE + {DecisionsFile, SummaryFile}
  {
    s := Reviewing(s0);
  }

  lemma Released(s0: State, r: Reviews) returns (s: State)
    requires AllAccepted(r) && Reachable(s0) && s0.pc == CheckRelease(r, true)
    ensures Reachable(s) && s == s0.(pc := WriteManifest)
  {
    s := Reviewing(s0);
  }

  function Following(pc: Pc): Pc {
    match pc
    case Semantics => Repository
    case Repository => Local
    case Local => Shards
    case Shards => Provenance
    case Provenance => Binding
    case _ => Mint
  }

  predicate Verifying(pc: Pc) {
    pc.Semantics? || pc.Repository? || pc.Local? || pc.Shards? || pc.Provenance? || pc.Binding?
  }

  lemma VerifyOnce(s0: State) returns (s: State)
    requires Reachable(s0) && Closing(s0, s0.pc)
    requires Verifying(s0.pc)
    ensures Reachable(s) && Closing(s, Following(s0.pc)) && s.mode == s0.mode
  {
    s := Onward(s0);
  }

  lemma Verifiable(s0: State) returns (s: State)
    requires Reachable(s0) && Closing(s0, Semantics)
    ensures Reachable(s) && Closing(s, Mint) && s.mode == s0.mode
  {
    s := VerifyThrice(s0);
    s := VerifyThrice(s);
  }

  lemma VerifyThrice(s0: State) returns (s: State)
    requires Reachable(s0) && Closing(s0, s0.pc) && (s0.pc.Semantics? || s0.pc.Shards?)
    ensures Reachable(s) && Closing(s, if s0.pc.Semantics? then Shards else Mint) && s.mode == s0.mode
  {
    s := VerifyOnce(s0);
    s := VerifyOnce(s);
    s := VerifyOnce(s);
  }

  lemma Marked(s0: State) returns (s: State)
    requires Reachable(s0) && Closing(s0, Semantics)
    ensures Reachable(s) && s.mode == s0.mode && s.pc == Confirm && SuccessFile in s.files && FailureFile !in s.files
  {
    s := Verifiable(s0);
    s := Onward(s);
    s := Onward(s);
  }

  /** The safety theorem is about something: accepted reviews can lead to an official success. */
  lemma SuccessIsReachable(r: Reviews) returns (s: State)
    requires AllAccepted(r)
    ensures Reachable(s) && s.mode == Official && s.pc == Confirm && SuccessFile in s.files && FailureFile !in s.files
  {
    s := Committable(r);
    s := Marked(s);
  }

  /** And so is the one about contradictions: a success whose status is lost carries both markers. */
  lemma ContradictionIsReachable(r: Reviews) returns (s: State)
    requires AllAccepted(r)
    ensures Reachable(s) && s.mode == Official && s.pc == Idle && s.invalidated
    ensures SuccessFile in s.files && FailureFile in s.files
  {
    s := SuccessIsReachable(r);
    s := Onward(s);
    ReachStep(s, Raise(Nothing, true));
    s := Onward(Step(s, Raise(Nothing, true)));
  }

  // ----- The modes without reviews -----------------------------------------------------------

  lemma Closable(s0: State) returns (s: State)
    requires s0.mode != Official && Reachable(s0)
    requires s0 == State(s0.mode, true, THREE, THREE, [RowsSealed, SelectionSealed], WriteArtifacts, WORLD,
      Writer(PendingPhase, true, false), false)
    ensures Reachable(s) && Closing(s, Semantics) && s.mode == s0.mode
  {
    s := Preparing(s0);
    assert s.files == THREE + {ArtifactsFile} && s.pc == WriteManifest;
    s := PilotManifested(s);
    s := PilotCommitted(s);
    s := Reopened(s);
  }

  lemma PilotManifested(s0: State) returns (s: State)
    requires Reachable(s0) && s0.pc == WriteManifest && s0.facts == WORLD && s0.files == THREE + {ArtifactsFile}
    requires s0.writer == Writer(PendingPhase, true, false)
    ensures Reachable(s) && s.mode == s0.mode && s.pc == WriteCommitted && s.facts == WORLD
    ensures s.files == THREE + {ArtifactsFile, ManifestFile} && s.writer == s0.writer
  {
    s := Committing(s0);
  }

  lemma PilotCommitted(s0: State) returns (s: State)
    requires Reachable(s0) && s0.pc == WriteCommitted && s0.facts == WORLD
    requires s0.files == THREE + {ArtifactsFile, ManifestFile} && s0.writer == Writer(PendingPhase, true, false)
    ensures Reachable(s) && Closing(s, Reopen) && s.mode == s0.mode
  {
    s := Committing(s0);
  }

  /** The other two modes succeed without reviews. */
  lemma PilotIsReachable(mode: Mode) returns (s: State)
    requires mode != Official
    ensures Reachable(s) && s.mode == mode && s.pc == Confirm && SuccessFile in s.files && FailureFile !in s.files
  {
    s := Prepared(mode);
    s := Executed(s);
    s := Closable(s);
    s := Marked(s);
  }
}
