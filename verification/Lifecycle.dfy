/**
 * The life of one result directory over any number of commands. A command is a process that works
 * through a fixed program; at every point an operation may succeed, raise, raise after leaving a torn or
 * a whole file behind, or the process may die. Files are created exclusively and never rewritten.
 */
module Lifecycle {
  import opened Common
  import opened Vocabulary

  /** One role's decision; the request carries the three roles in order. */
  datatype Review = Review(accept: bool, p1: nat, p2: nat, p3: nat)

  type Reviews = r: seq<Review> | |r| == 3 witness seq(3, _ => Review(false, 0, 0, 0))

  predicate AllAccepted(r: Reviews) {
    forall i :: 0 <= i < 3 ==> r[i].accept && r[i].p1 == 0 && r[i].p2 == 0
  }

  datatype File =
    | PendingFile | RowsFile | SelectionFile | ArtifactsFile | AwaitingFile | DecisionsFile | SummaryFile
    | ManifestFile | CommittedFile | SuccessFile | FailureFile

  /** What the verifiers look at: repository, local inputs, shards, provenance. */
  datatype Facts = Facts(repository: int, local: int, shards: int, provenance: int)

  /** What has durably happened. A verification remembers what it saw and what it was compared with. */
  datatype Event =
    | RowsSealed | SelectionSealed | ArtifactsSealed | AwaitingSealed
    | Decided(reviews: Reviews) | Released(open: bool) | Committed
    | SemanticsVerified
    | RepositoryVerified(found: int, bound: int) | LocalVerified(found: int, bound: int)
    | ShardsVerified(found: int, bound: int) | ProvenanceVerified(found: int, bound: int)
    | BindingVerified | Minted | Marked

  datatype Phase = PendingPhase | AwaitingPhase | CommittedPhase | SuccessPhase

  /** The writer a process holds: its phase, its capability and whether a terminal capability was issued. */
  datatype Writer = NoWriter | Writer(phase: Phase, nonce: bool, issued: bool)

  /** Where the running command is. */
  datatype Pc =
    | Idle
    | Reserve | AdoptPending | PrepareLocal | PredecessorGate
    | SealRows | SealSelection | Execute | WriteArtifacts | SealAwaiting
    | ReviewRepository(r: Reviews) | AdoptAwaiting(r: Reviews) | ReviewLocal(r: Reviews) | Precursor(r: Reviews)
    | Decide(r: Reviews) | Summarise(r: Reviews) | CheckRelease(r: Reviews, open: bool)
    | WriteManifest | WriteCommitted | Reopen
    | Semantics | Repository | Local | Shards | Provenance | Binding | Mint | Mark | Confirm
    | Deliver | Failing(rejected: bool) | Invalidate

  datatype State = State(
    mode: Mode, created: bool, files: set<File>, intact: set<File>, history: seq<Event>,
    pc: Pc, facts: Facts, writer: Writer, invalidated: bool)

  datatype Command = Prepare | Finalize(r: Reviews)

  /** What an operation that raises leaves of the file it was creating. */
  datatype Damage = Nothing | Torn | Whole

  /** `Pass`: the operation succeeds, having seen `seen`; `sound` are the gates that do not depend on reviews. */
  datatype Act = Begin(command: Command) | Pass(seen: Facts, sound: bool) | Raise(damage: Damage, sound: bool) | Die

  function Initial(mode: Mode): State {
    State(mode, false, {}, {}, [], Idle, Facts(0, 0, 0, 0), NoWriter, false)
  }

  // ----- The program -------------------------------------------------------------------------

  function Go(s: State, pc: Pc): State {
    s.(pc := pc)
  }

  function Fail(s: State): State {
    s.(pc := Failing(false))
  }

  function Log(s: State, e: Event): State {
    s.(history := s.history + [e])
  }

  /** Exclusive creation of a whole file and its event, then on; an existing file raises. */
  function Create(s: State, f: File, e: Event, next: Pc): State {
    if f in s.files then Fail(s)
    else Log(s.(files := s.files + {f}, intact := s.intact + {f}, pc := next), e)
  }

  predicate NoLaterMarker(s: State) {
    CommittedFile !in s.files && SuccessFile !in s.files && FailureFile !in s.files
  }

  /** The capability every write of the writer asserts. */
  predicate Capable(s: State, phase: Phase) {
    s.writer.Writer? && s.writer.phase == phase && s.writer.nonce && NoLaterMarker(s)
  }

  predicate CommitCapable(s: State) {
    Capable(s, PendingPhase) || Capable(s, AwaitingPhase)
  }

  predicate CommittedCapable(s: State) {
    && s.writer.Writer? && s.writer.phase == CommittedPhase && s.writer.nonce
    && CommittedFile in s.files && SuccessFile !in s.files && FailureFile !in s.files
  }

  /** The files of a sealed official precursor, and no others. */
  const REVIEWABLE: set<File> := {PendingFile, RowsFile, SelectionFile, ArtifactsFile, AwaitingFile}

  /** Preparing a run. */
  function PassPrepare(s: State, seen: Facts): State {
    match s.pc
    case Reserve =>
      if s.created then Go(s, Idle)
      else s.(created := true, files := {PendingFile}, intact := {PendingFile}, pc := AdoptPending)
    case AdoptPending =>
      if s.files == {PendingFile} == s.intact
      then s.(writer := Writer(PendingPhase, true, false), pc := PrepareLocal) else Fail(s)
    case PrepareLocal => s.(facts := seen, pc := PredecessorGate)
    case PredecessorGate => Go(s, SealRows)
    case SealRows => if Capable(s, PendingPhase) then Create(s, RowsFile, RowsSealed, SealSelection) else Fail(s)
    case SealSelection => if Capable(s, PendingPhase) then Create(s, SelectionFile, SelectionSealed, Execute)
      else Fail(s)
    case Execute => Go(s, WriteArtifacts)
    case WriteArtifacts =>
      if Capable(s, PendingPhase)
      then Create(s, ArtifactsFile, ArtifactsSealed, if s.mode == Official then SealAwaiting else WriteManifest)
        else Fail(s)
    case SealAwaiting =>
      if Capable(s, PendingPhase)
      then Create(s.(writer := Writer(AwaitingPhase, false, false)), AwaitingFile, AwaitingSealed, Deliver) else Fail(s)
    case _ => s
  }

  /** Finalizing explicit reviews. */
  function PassReview(s: State, seen: Facts, sound: bool): State {
    match s.pc
    case ReviewRepository(r) => s.(facts := s.facts.(repository := seen.repository), pc := AdoptAwaiting(r))
    case AdoptAwaiting(r) =>
      if s.mode == Official && s.files == REVIEWABLE == s.intact
      then s.(writer := Writer(AwaitingPhase, true, false), pc := ReviewLocal(r)) else Go(s, Idle)
    case ReviewLocal(r) => s.(facts := seen.(repository := s.facts.repository), pc := Precursor(r))
    case Precursor(r) => if Capable(s, AwaitingPhase) then Go(s, Decide(r)) else Fail(s)
    case Decide(r) => if Capable(s, AwaitingPhase) then Create(s, DecisionsFile, Decided(r), Summarise(r)) else Fail(s)
    case Summarise(r) =>
      var open := sound && AllAccepted(r);
      if Capable(s, AwaitingPhase) then Create(s, SummaryFile, Released(open), CheckRelease(r, open)) else Fail(s)
    case CheckRelease(r, open) =>
      if !AllAccepted(r) then Go(s, Failing(!open))
      else if !open then Fail(s)
      else Go(s, WriteManifest)
    case _ => s
  }

  function PassCommit(s: State): State {
    match s.pc
    case WriteManifest =>
      if !CommitCapable(s) || ManifestFile in s.files then Fail(s)
      else s.(files := s.files + {ManifestFile}, intact := s.intact + {ManifestFile}, pc := WriteCommitted)
    case WriteCommitted => Create(s.(writer := Promoted(s.writer)), CommittedFile, Committed, Reopen)
    case Reopen => Go(s, Semantics)
    case _ => s
  }

  function Promoted(w: Writer): Writer {
    if w.Writer? then w.(phase := CommittedPhase) else w
  }

  function Compare(s: State, e: Event, found: int, bound: int, next: Pc): State {
    if found == bound then Log(Go(s, next), e) else Fail(s)
  }

  /** The terminal commit: everything is verified again before the mark, and nothing follows it but its confirmation. */
  function PassTerminal(s: State, seen: Facts): State {
    match s.pc
    case Semantics => Log(Go(s, Repository), SemanticsVerified)
    case Repository => Compare(s, RepositoryVerified(seen.repository, s.facts.repository), seen.repository,
      s.facts.repository, Local)
    case Local => Compare(s, LocalVerified(seen.local, s.facts.local), seen.local, s.facts.local, Shards)
    case Shards => Compare(s, ShardsVerified(seen.shards, s.facts.shards), seen.shards, s.facts.shards, Provenance)
    case Provenance => Compare(s, ProvenanceVerified(seen.provenance, s.facts.provenance), seen.provenance,
      s.facts.provenance, Binding)
    case Binding => Log(Go(s, Mint), BindingVerified)
    case Mint =>
      if CommittedCapable(s) && !s.writer.issued then Log(s.(writer := s.writer.(issued := true), pc := Mark), Minted)
        else Fail(s)
    case Mark =>
      if CommittedCapable(s) && s.writer.issued then Create(s, SuccessFile, Marked, Confirm) else Fail(s)
    case Confirm => s.(writer := Writer(SuccessPhase, false, false), pc := Deliver)
    case _ => s
  }

  /** Status delivery, failing the store, and the invalidation the bootstrap asks for. */
  function PassEnd(s: State): State {
    match s.pc
    case Deliver => Go(s, Idle)
    case Failing(rejected) =>
      if SuccessFile in s.files || FailureFile in s.files
         || (rejected && !(Capable(s, AwaitingPhase) && {DecisionsFile, SummaryFile} <= s.intact))
      then Go(s, Invalidate)
      else s.(files := s.files + {FailureFile}, intact := s.intact + {FailureFile}, pc := Invalidate)
    case Invalidate =>
      if s.writer.NoWriter? || FailureFile in s.files then Go(s, Idle)
      else s.(files := s.files + {FailureFile}, intact := s.intact + {FailureFile}, pc := Idle,
              invalidated := s.invalidated || SuccessFile in s.files)
    case _ => s
  }

  predicate AtPrepare(pc: Pc) {
    pc.Reserve? || pc.AdoptPending? || pc.PrepareLocal? || pc.PredecessorGate? || pc.SealRows? || pc.SealSelection?
    || pc.Execute? || pc.WriteArtifacts? || pc.SealAwaiting?
  }

  predicate AtReview(pc: Pc) {
    pc.ReviewRepository? || pc.AdoptAwaiting? || pc.ReviewLocal? || pc.Precursor? || pc.Decide? || pc.Summarise?
    || pc.CheckRelease?
  }

  predicate AtCommit(pc: Pc) {
    pc.WriteManifest? || pc.WriteCommitted? || pc.Reopen?
  }

  predicate Ended(pc: Pc) {
    pc.Deliver? || pc.Failing? || pc.Invalidate?
  }

  function Pass(s: State, seen: Facts, sound: bool): State {
    if AtPrepare(s.pc) then PassPrepare(s, seen)
    else if AtReview(s.pc) then PassReview(s, seen, sound)
    else if AtCommit(s.pc) then PassCommit(s)
    else if Ended(s.pc) then PassEnd(s)
    else PassTerminal(s, seen)
  }

  // ----- Operations that raise ---------------------------------------------------------------

  /** The file an operation was creating, the event of its completion, and whether it got that far. */
  datatype Target = NoTarget | Target(file: File, event: Option<Event>)

  function TargetOf(s: State, sound: bool): Target {
    match s.pc
    case SealRows => Target(RowsFile, Some(RowsSealed))
    case SealSelection => Target(SelectionFile, Some(SelectionSealed))
    case WriteArtifacts => Target(ArtifactsFile, Some(ArtifactsSealed))
    case SealAwaiting => Target(AwaitingFile, Some(AwaitingSealed))
    case Decide(r) => Target(DecisionsFile, Some(Decided(r)))
    case Summarise(r) => Target(SummaryFile, Some(Released(sound && AllAccepted(r))))
    case WriteManifest => Target(ManifestFile, None)
    case WriteCommitted => Target(CommittedFile, Some(Committed))
    case Mark => Target(SuccessFile, Some(Marked))
    case _ => NoTarget
  }

  /** The same checks as before a successful write. */
  predicate Ready(s: State) {
    match s.pc
    case SealRows => Capable(s, PendingPhase)
    case SealSelection => Capable(s, PendingPhase)
    case WriteArtifacts => Capable(s, PendingPhase)
    case SealAwaiting => Capable(s, PendingPhase)
    case Decide(_) => Capable(s, AwaitingPhase)
    case Summarise(_) => Capable(s, AwaitingPhase)
    case WriteManifest => CommitCapable(s)
    case WriteCommitted => true
    case Mark => CommittedCapable(s) && s.writer.issued
    case _ => false
  }

  /** A whole file counts although its writer raised; of the terminal marker even a torn one does. */
  function Damaged(s: State, damage: Damage, sound: bool): State {
    var t := TargetOf(s, sound);
    if t.NoTarget? || !Ready(s) || t.file in s.files || damage == Nothing then s
    else Left(s, t.file, t.event, damage)
  }

  function Left(s: State, f: File, event: Option<Event>, damage: Damage): State {
    var torn := s.(files := s.files + {f});
    var kept := if damage == Whole then torn.(intact := torn.intact + {f}) else torn;
    if event.Some? && (damage == Whole || f == SuccessFile) then Log(kept, event.value) else kept
  }

  /** A failure marker that may be left while failing or invalidating. */
  function TornFailure(s: State, damage: Damage): State {
    if damage == Nothing || FailureFile in s.files then s else s.(files := s.files + {FailureFile})
  }

  function RaisedAt(s: State, damage: Damage, sound: bool): State {
    match s.pc
    case Idle => s
    case Reserve =>
      if s.created || damage == Nothing then Go(s, Idle)
      else s.(created := true, files := if damage == Torn then {PendingFile}
        else {PendingFile, FailureFile}, pc := Idle)
    case ReviewRepository(_) => Go(s, Idle)
    case AdoptAwaiting(_) => Go(s, Idle)
    case Deliver => Go(s, Invalidate)
    case Failing(_) => Go(if SuccessFile in s.files then s else TornFailure(s, damage), Invalidate)
    case Invalidate =>
      var t := if s.writer.NoWriter? then s else TornFailure(s, damage);
      t.(pc := Idle, invalidated := s.invalidated || (SuccessFile in t.files && FailureFile in t.files))
    case _ => Fail(Damaged(s, damage, sound))
  }

  function Step(s: State, a: Act): State {
    match a
    case Begin(command) =>
      if s.pc != Idle then s
      else s.(writer := NoWriter, pc := match command case Prepare => Reserve case Finalize(r) => ReviewRepository(r))
    case Pass(seen, sound) => Pass(s, seen, sound)
    case Raise(damage, sound) => RaisedAt(s, damage, sound)
    case Die => s.(pc := Idle, writer := NoWriter)
  }

  function Run(s: State, acts: seq<Act>): State
    decreases acts
  {
    if acts == [] then s else Run(Step(s, acts[0]), acts[1..])
  }

  // ----- The order of events -----------------------------------------------------------------

  /** The last nine events, the same in every mode. */
  predicate Terminal(k: nat, e: Event) {
    match k
    case 0 => e == Committed
    case 1 => e == SemanticsVerified
    case 2 => e.RepositoryVerified? && e.found == e.bound
    case 3 => e.LocalVerified? && e.found == e.bound
    case 4 => e.ShardsVerified? && e.found == e.bound
    case 5 => e.ProvenanceVerified? && e.found == e.bound
    case 6 => e == BindingVerified
    case 7 => e == Minted
    case 8 => e == Marked
    case _ => false
  }

  /** Where the terminal events begin. */
  function Base(mode: Mode): nat {
    if mode == Official then 6 else 3
  }

  predicate Fits(mode: Mode, i: nat, e: Event) {
    if i == 0 then e == RowsSealed
    else if i == 1 then e == SelectionSealed
    else if i == 2 then e == ArtifactsSealed
    else if mode == Official && i == 3 then e == AwaitingSealed
    else if mode == Official && i == 4 then e.Decided?
    else if mode == Official && i == 5 then e.Released?
    else Terminal(i - Base(mode), e)
  }

  /**
   * Every event in its place; an official store goes on from its release only when that was open for accepted
   * reviews.
   */
  predicate Legal(mode: Mode, h: seq<Event>) {
    && (forall i :: 0 <= i < |h| ==> Fits(mode, i, h[i]))
    && (mode == Official && |h| > 5 ==> h[4].Decided? && h[5].Released? && (h[5].open ==> AllAccepted(h[4].reviews)))
    && (mode == Official && |h| > 6 ==> h[5].Released? && h[5].open)
  }

  lemma LegalSnoc(mode: Mode, h: seq<Event>, e: Event)
    requires Legal(mode, h) && Fits(mode, |h|, e)
    requires mode == Official && |h| == 5 && e == Released(true) ==> h[4].Decided? && AllAccepted(h[4].reviews)
    requires mode == Official && |h| == 6 ==> h[5] == Released(true)
    ensures Legal(mode, h + [e])
  {
  }

  // ----- The invariant -----------------------------------------------------------------------

  /** The file whose completion is event number `n`, if that event has one. */
  function FileAt(mode: Mode, n: nat): Option<File> {
    if n == 0 then Some(RowsFile)
    else if n == 1 then Some(SelectionFile)
    else if n == 2 then Some(ArtifactsFile)
    else if mode == Official && n == 3 then Some(AwaitingFile)
    else if mode == Official && n == 4 then Some(DecisionsFile)
    else if mode == Official && n == 5 then Some(SummaryFile)
    else if n == Base(mode) then Some(CommittedFile)
    else if n == Base(mode) + 8 then Some(SuccessFile)
    else None
  }

  /** A file is whole exactly when its event has happened; the terminal marker exists exactly when it has. */
  predicate Recorded(mode: Mode, files: set<File>, intact: set<File>, n: nat) {
    && intact <= files
    && (RowsFile in intact <==> n > 0)
    && (SelectionFile in intact <==> n > 1)
    && (ArtifactsFile in intact <==> n > 2)
    && (mode == Official ==>
         && (AwaitingFile in intact <==> n > 3)
         && (DecisionsFile in intact <==> n > 4)
         && (SummaryFile in intact <==> n > 5))
    && (CommittedFile in intact <==> n > Base(mode))
    && (SuccessFile in files <==> n > Base(mode) + 8)
  }

  /** The directory and the history tell the same story, and only an invalidation contradicts it. */
  predicate Told(s: State) {
    && Recorded(s.mode, s.files, s.intact, |s.history|)
    && Legal(s.mode, s.history)
    && (s.files != {} ==> s.created)
    && (SuccessFile in s.files && FailureFile in s.files ==> s.invalidated)
  }

  /** Before a command holds a store, and after it. */
  predicate Outside(pc: Pc) {
    pc.Idle? || pc.Reserve? || pc.ReviewRepository? || pc.AdoptAwaiting?
  }

  /** How long the history is when a command stands at a point of its program. */
  function Length(mode: Mode, pc: Pc): nat {
    match pc
    case SealSelection => 1
    case Execute => 2
    case WriteArtifacts => 2
    case SealAwaiting => 3
    case ReviewLocal(_) => 4
    case Precursor(_) => 4
    case Decide(_) => 4
    case Summarise(_) => 5
    case CheckRelease(_, _) => 6
    case WriteManifest => Base(mode)
    case WriteCommitted => Base(mode)
    case Reopen => Base(mode) + 1
    case Semantics => Base(mode) + 1
    case Repository => Base(mode) + 2
    case Local => Base(mode) + 3
    case Shards => Base(mode) + 4
    case Provenance => Base(mode) + 5
    case Binding => Base(mode) + 6
    case Mint => Base(mode) + 7
    case Mark => Base(mode) + 8
    case Confirm => Base(mode) + 9
    case _ => 0
  }

  predicate OfficialOnly(pc: Pc) {
    pc.SealAwaiting? || pc.ReviewLocal? || pc.Precursor? || pc.Decide? || pc.Summarise? || pc.CheckRelease?
  }

  /** What the history says about the reviews at the points that depend on them. */
  predicate Reviewed(s: State) {
    match s.pc
    case Summarise(r) => |s.history| == 5 && s.history[4] == Decided(r)
    case CheckRelease(r, open) => |s.history| == 6 && s.history[4] == Decided(r) && s.history[5] == Released(open)
    case WriteManifest => s.mode == Official ==> |s.history| == 6 && s.history[5] == Released(true)
    case WriteCommitted => s.mode == Official ==> |s.history| == 6 && s.history[5] == Released(true)
    case _ => true
  }

  predicate Placed(s: State) {
    && (!Outside(s.pc) ==> s.created)
    && (!Outside(s.pc) && !Ended(s.pc) ==> |s.history| == Length(s.mode, s.pc))
    && (OfficialOnly(s.pc) ==> s.mode == Official)
    && Reviewed(s)
  }

  predicate Inv(s: State) {
    Told(s) && Placed(s)
  }

  lemma InitialInv(mode: Mode)
    ensures Inv(Initial(mode))
  {
  }

  /** The event that may come next. */
  predicate Due(s: State, e: Event) {
    && Fits(s.mode, |s.history|, e)
    && (s.mode == Official && |s.history| == 5 && e == Released(true) ==>
      s.history[4].Decided? && AllAccepted(s.history[4].reviews))
    && (s.mode == Official && |s.history| == 6 ==> s.history[5] == Released(true))
  }

  lemma RecordedNext(mode: Mode, files: set<File>, intact: set<File>, n: nat, f: File, whole: bool)
    requires Recorded(mode, files, intact, n) && f !in files && FileAt(mode, n) == Some(f)
    requires whole || f == SuccessFile
    ensures Recorded(mode, files + {f}, if whole then intact + {f} else intact, n + 1)
  {
  }

  lemma RecordedBeside(mode: Mode, files: set<File>, intact: set<File>, n: nat, f: File, whole: bool)
    requires Recorded(mode, files, intact, n) && f !in files
    requires if whole then f == ManifestFile || f == FailureFile else f != SuccessFile
    ensures Recorded(mode, files + {f}, if whole then intact + {f} else intact, n)
  {
  }

  lemma RecordedLater(mode: Mode, files: set<File>, intact: set<File>, n: nat)
    requires Recorded(mode, files, intact, n) && FileAt(mode, n) == None
    ensures Recorded(mode, files, intact, n + 1)
  {
  }

  lemma CreateKeeps(s: State, f: File, e: Event, next: Pc)
    requires Told(s) && s.created && FileAt(s.mode, |s.history|) == Some(f) && Due(s, e)
    requires f == SuccessFile ==> FailureFile !in s.files
    ensures Told(Create(s, f, e, next))
    ensures Create(s, f, e, next).created && Create(s, f, e, next).mode == s.mode
    ensures f !in s.files ==> Create(s, f, e, next).pc == next && Create(s, f, e, next).history == s.history + [e]
    ensures f in s.files ==> Create(s, f, e, next).pc == Failing(false)
  {
    if f !in s.files {
      RecordedNext(s.mode, s.files, s.intact, |s.history|, f, true);
      LegalSnoc(s.mode, s.history, e);
    }
  }

  lemma LogKeeps(s: State, e: Event)
    requires Told(s) && FileAt(s.mode, |s.history|) == None && Due(s, e)
    ensures Told(Log(s, e))
  {
    RecordedLater(s.mode, s.files, s.intact, |s.history|);
    LegalSnoc(s.mode, s.history, e);
  }

  /** The point `next` is where a command stands after event `e`. */
  predicate Suits(s: State, e: Event, next: Pc) {
    && !Outside(next) && (Ended(next) || Length(s.mode, next) == |s.history| + 1)
    && (OfficialOnly(next) ==> s.mode == Official)
    && Reviewed(s.(history := s.history + [e], pc := next))
  }

  lemma CreateInv(s: State, f: File, e: Event, next: Pc)
    requires Told(s) && s.created && FileAt(s.mode, |s.history|) == Some(f) && Due(s, e) && Suits(s, e, next)
    requires f == SuccessFile ==> FailureFile !in s.files
    ensures Inv(Create(s, f, e, next))
  {
    CreateKeeps(s, f, e, next);
  }

  lemma LogInv(s: State, e: Event, next: Pc)
    requires Told(s) && s.created && FileAt(s.mode, |s.history|) == None && Due(s, e) && Suits(s, e, next)
    ensures Inv(Log(Go(s, next), e))
  {
    LogKeeps(s, e);
  }

  lemma FailInv(s: State)
    requires Told(s) && s.created
    ensures Inv(Fail(s))
  {
  }

  // One lemma for each point of the program that writes or verifies.

  lemma SealRowsKeeps(s: State)
    requires Inv(s) && s.pc == SealRows
    ensures Inv(PassPrepare(s, s.facts))
  {
    CreateInv(s, RowsFile, RowsSealed, SealSelection);
  }

  lemma SealSelectionKeeps(s: State)
    requires Inv(s) && s.pc == SealSelection
    ensures Inv(PassPrepare(s, s.facts))
  {
    CreateInv(s, SelectionFile, SelectionSealed, Execute);
  }

  lemma WriteArtifactsKeeps(s: State)
    requires Inv(s) && s.pc == WriteArtifacts
    ensures Inv(PassPrepare(s, s.facts))
  {
    CreateInv(s, ArtifactsFile, ArtifactsSealed, if s.mode == Official then SealAwaiting else WriteManifest);
  }

  lemma SealAwaitingKeeps(s: State)
    requires Inv(s) && s.pc == SealAwaiting
    ensures Inv(PassPrepare(s, s.facts))
  {
    CreateInv(s.(writer := Writer(AwaitingPhase, false, false)), AwaitingFile, AwaitingSealed, Deliver);
  }

  lemma OpeningKeeps(s: State, seen: Facts)
    requires Inv(s) && (s.pc.Reserve? || s.pc.AdoptPending? || s.pc.PrepareLocal? || s.pc.PredecessorGate?
      || s.pc.Execute?)
    ensures Inv(PassPrepare(s, seen))
  {
  }

  lemma PassPrepareKeeps(s: State, seen: Facts)
    requires Inv(s)
    ensures Inv(PassPrepare(s, seen))
  {
    match s.pc
    case SealRows => SealRowsKeeps(s);
    case SealSelection => SealSelectionKeeps(s);
    case WriteArtifacts => WriteArtifactsKeeps(s);
    case SealAwaiting => SealAwaitingKeeps(s);
    case Reserve => OpeningKeeps(s, seen);
    case AdoptPending => OpeningKeeps(s, seen);
    case PrepareLocal => OpeningKeeps(s, seen);
    case PredecessorGate => OpeningKeeps(s, seen);
    case Execute => OpeningKeeps(s, seen);
    case _ =>
  }

  lemma AdoptedLength(s: State)
    requires Told(s) && s.mode == Official && s.files == REVIEWABLE == s.intact
    ensures |s.history| == 4
  {
    assert DecisionsFile !in s.files && AwaitingFile in s.intact;
  }

  lemma AdoptAwaitingKeeps(s: State, seen: Facts, sound: bool)
    requires Inv(s) && s.pc.AdoptAwaiting?
    ensures Inv(PassReview(s, seen, sound))
  {
    if s.mode == Official && s.files == REVIEWABLE == s.intact {
      AdoptedLength(s);
      assert s.created;
    }
  }

  lemma DecideKeeps(s: State, seen: Facts, sound: bool)
    requires Inv(s) && s.pc.Decide?
    ensures Inv(PassReview(s, seen, sound))
  {
    CreateInv(s, DecisionsFile, Decided(s.pc.r), Summarise(s.pc.r));
  }

  lemma SummariseKeeps(s: State, seen: Facts, sound: bool)
    requires Inv(s) && s.pc.Summarise?
    ensures Inv(PassReview(s, seen, sound))
  {
    var open := sound && AllAccepted(s.pc.r);
    CreateInv(s, SummaryFile, Released(open), CheckRelease(s.pc.r, open));
  }

  lemma PassReviewKeeps(s: State, seen: Facts, sound: bool)
    requires Inv(s)
    ensures Inv(PassReview(s, seen, sound))
  {
    match s.pc
    case AdoptAwaiting(_) => AdoptAwaitingKeeps(s, seen, sound);
    case Decide(_) => DecideKeeps(s, seen, sound);
    case Summarise(_) => SummariseKeeps(s, seen, sound);
    case _ =>
  }

  lemma WriteManifestKeeps(s: State)
    requires Inv(s) && s.pc == WriteManifest
    ensures Inv(PassCommit(s))
  {
    if ManifestFile !in s.files {
      RecordedBeside(s.mode, s.files, s.intact, |s.history|, ManifestFile, true);
    }
  }

  lemma WriteCommittedKeeps(s: State)
    requires Inv(s) && s.pc == WriteCommitted
    ensures Inv(PassCommit(s))
  {
    CreateInv(s.(writer := Promoted(s.writer)), CommittedFile, Committed, Reopen);
  }

  lemma PassCommitKeeps(s: State)
    requires Inv(s)
    ensures Inv(PassCommit(s))
  {
    match s.pc
    case WriteManifest => WriteManifestKeeps(s);
    case WriteCommitted => WriteCommittedKeeps(s);
    case _ =>
  }

  lemma CompareKeeps(s: State, e: Event, found: int, bound: int, next: Pc)
    requires Told(s) && s.created && FileAt(s.mode, |s.history|) == None
    requires found == bound ==> Due(s, e) && Suits(s, e, next)
    ensures Inv(Compare(s, e, found, bound, next))
  {
    if found == bound {
      LogInv(s, e, next);
    }
  }

  lemma RepositoryKeeps(s: State, seen: Facts)
    requires Inv(s) && s.pc == Repository
    ensures Inv(PassTerminal(s, seen))
  {
    CompareKeeps(s, RepositoryVerified(seen.repository, s.facts.repository), seen.repository, s.facts.repository,
      Local);
  }

  lemma LocalKeeps(s: State, seen: Facts)
    requires Inv(s) && s.pc == Local
    ensures Inv(PassTerminal(s, seen))
  {
    CompareKeeps(s, LocalVerified(seen.local, s.facts.local), seen.local, s.facts.local, Shards);
  }

  lemma ShardsKeeps(s: State, seen: Facts)
    requires Inv(s) && s.pc == Shards
    ensures Inv(PassTerminal(s, seen))
  {
    CompareKeeps(s, ShardsVerified(seen.shards, s.facts.shards), seen.shards, s.facts.shards, Provenance);
  }

  lemma ProvenanceKeeps(s: State, seen: Facts)
    requires Inv(s) && s.pc == Provenance
    ensures Inv(PassTerminal(s, seen))
  {
    CompareKeeps(s, ProvenanceVerified(seen.provenance, s.facts.provenance), seen.provenance, s.facts.provenance,
      Binding);
  }

  lemma MintKeeps(s: State, seen: Facts)
    requires Inv(s) && s.pc == Mint
    ensures Inv(PassTerminal(s, seen))
  {
    if CommittedCapable(s) && !s.writer.issued {
      LogInv(s.(writer := s.writer.(issued := true)), Minted, Mark);
    }
  }

  lemma MarkKeeps(s: State, seen: Facts)
    requires Inv(s) && s.pc == Mark
    ensures Inv(PassTerminal(s, seen))
  {
    if CommittedCapable(s) {
      CreateInv(s, SuccessFile, Marked, Confirm);
    }
  }

  lemma UnaskedKeeps(s: State, seen: Facts)
    requires Inv(s) && (s.pc == Semantics || s.pc == Binding)
    ensures Inv(PassTerminal(s, seen))
  {
    if s.pc == Semantics {
      LogInv(s, SemanticsVerified, Repository);
    } else {
      LogInv(s, BindingVerified, Mint);
    }
  }

  lemma PassTerminalKeeps(s: State, seen: Facts)
    requires Inv(s)
    ensures Inv(PassTerminal(s, seen))
  {
    match s.pc
    case Semantics => UnaskedKeeps(s, seen);
    case Repository => RepositoryKeeps(s, seen);
    case Local => LocalKeeps(s, seen);
    case Shards => ShardsKeeps(s, seen);
    case Provenance => ProvenanceKeeps(s, seen);
    case Binding => UnaskedKeeps(s, seen);
    case Mint => MintKeeps(s, seen);
    case Mark => MarkKeeps(s, seen);
    case _ =>
  }

  lemma PassEndKeeps(s: State)
    requires Inv(s)
    ensures Inv(PassEnd(s))
  {
    if FailureFile !in s.files {
      RecordedBeside(s.mode, s.files, s.intact, |s.history|, FailureFile, true);
    }
  }

  lemma LeftKeeps(s: State, f: File, event: Option<Event>, damage: Damage)
    requires Told(s) && s.created && f !in s.files && damage != Nothing
    requires if event.Some? then FileAt(s.mode, |s.history|) == Some(f) && Due(s, event.value) else f == ManifestFile
    requires f == SuccessFile ==> FailureFile !in s.files
    ensures Told(Left(s, f, event, damage)) && Left(s, f, event, damage).created
  {
    if event.Some? && (damage == Whole || f == SuccessFile) {
      RecordedNext(s.mode, s.files, s.intact, |s.history|, f, damage == Whole);
      LegalSnoc(s.mode, s.history, event.value);
    } else {
      RecordedBeside(s.mode, s.files, s.intact, |s.history|, f, damage == Whole);
    }
  }

  lemma TargetIsDue(s: State, sound: bool)
    requires Inv(s) && TargetOf(s, sound).Target?
    ensures var t := TargetOf(s, sound);
      if t.event.Some? then FileAt(s.mode, |s.history|) == Some(t.file) && Due(s, t.event.value)
        else t.file == ManifestFile
  {
  }

  lemma DamagedKeeps(s: State, damage: Damage, sound: bool)
    requires Inv(s)
    ensures Told(Damaged(s, damage, sound)) && Damaged(s, damage, sound).created == s.created
  {
    var t := TargetOf(s, sound);
    if t.Target? && Ready(s) && t.file !in s.files && damage != Nothing {
      TargetIsDue(s, sound);
      LeftKeeps(s, t.file, t.event, damage);
    }
  }

  lemma TornFailureKeeps(s: State, damage: Damage)
    requires Told(s) && s.created && SuccessFile !in s.files
    ensures Told(TornFailure(s, damage))
  {
    if FailureFile !in s.files {
      RecordedBeside(s.mode, s.files, s.intact, |s.history|, FailureFile, false);
    }
  }

  lemma RaisedInside(s: State, damage: Damage, sound: bool)
    requires Inv(s) && !Outside(s.pc) && !Ended(s.pc)
    ensures Inv(RaisedAt(s, damage, sound))
  {
    DamagedKeeps(s, damage, sound);
    FailInv(Damaged(s, damage, sound));
  }

  lemma RaisedOutside(s: State, damage: Damage, sound: bool)
    requires Inv(s) && Outside(s.pc)
    ensures Inv(RaisedAt(s, damage, sound))
  {
  }

  lemma RaisedEnding(s: State, damage: Damage, sound: bool)
    requires Inv(s) && Ended(s.pc)
    ensures Inv(RaisedAt(s, damage, sound))
  {
    if FailureFile !in s.files {
      RecordedBeside(s.mode, s.files, s.intact, |s.history|, FailureFile, false);
    }
    if SuccessFile !in s.files {
      TornFailureKeeps(s, damage);
    }
  }

  lemma StepKeeps(s: State, a: Act)
    requires Inv(s)
    ensures Inv(Step(s, a))
  {
    match a
    case Begin(_) =>
    case Pass(seen, sound) =>
      PassPrepareKeeps(s, seen);
      PassReviewKeeps(s, seen, sound);
      PassCommitKeeps(s);
      PassTerminalKeeps(s, seen);
      PassEndKeeps(s);
    case Raise(damage, sound) =>
      if Outside(s.pc) {
        RaisedOutside(s, damage, sound);
      } else if Ended(s.pc) {
        RaisedEnding(s, damage, sound);
      } else {
        RaisedInside(s, damage, sound);
      }
    case Die =>
  }

  lemma {:induction false} RunKeeps(s: State, acts: seq<Act>)
    requires Inv(s)
    ensures Inv(Run(s, acts))
    decreases acts
  {
    if acts != [] {
      StepKeeps(s, acts[0]);
      RunKeeps(Step(s, acts[0]), acts[1..]);
    }
  }

  // ----- Safety over all runs ----------------------------------------------------------------

  /** The one story of an official success. */
  ghost predicate OfficialStory(h: seq<Event>) {
    exists r: Reviews, repository: int, local: int, shards: int, provenance: int ::
      AllAccepted(r) && h == [
        RowsSealed, SelectionSealed, ArtifactsSealed, AwaitingSealed, Decided(r), Released(true), Committed,
        SemanticsVerified, RepositoryVerified(repository, repository), LocalVerified(local, local),
        ShardsVerified(shards, shards), ProvenanceVerified(provenance, provenance), BindingVerified, Minted, Marked]
  }

  /** The events behind a success marker; `Readings` says what the verified values were compared with. */
  lemma OfficialSuccess(acts: seq<Act>)
    ensures var s := Run(Initial(Official), acts);
      SuccessFile in s.files ==> OfficialStory(s.history) && AwaitingFile in s.intact && CommittedFile in s.intact
  {
    InitialInv(Official);
    RunKeeps(Initial(Official), acts);
    RunGrows(Initial(Official), acts);
    var s := Run(Initial(Official), acts);
    if SuccessFile in s.files {
      StoryOf(s.history);
    }
  }

  lemma LegalFits(mode: Mode, h: seq<Event>, i: nat)
    requires Legal(mode, h) && i < |h|
    ensures Fits(mode, i, h[i])
  {
  }

  lemma StoryOf(h: seq<Event>)
    requires Legal(Official, h) && |h| > 14
    ensures OfficialStory(h)
  {
    if |h| > 15 {
      LegalFits(Official, h, 15);
    }
    var r := h[4].reviews;
    assert Fits(Official, 8, h[8]) && Fits(Official, 9, h[9]) && Fits(Official, 10, h[10]) && Fits(Official, 11, h[11]);
    FirstHalf(h);
    SecondHalf(h);
    assert h == h[..7] + h[7..];
  }

  lemma FirstHalf(h: seq<Event>)
    requires Legal(Official, h) && |h| == 15
    ensures h[4].Decided? && AllAccepted(h[4].reviews)
    ensures h[..7] == [RowsSealed, SelectionSealed, ArtifactsSealed, AwaitingSealed, h[4], Released(true), Committed]
  {
    assert Fits(Official, 4, h[4]) && Fits(Official, 5, h[5]);
  }

  lemma SecondHalf(h: seq<Event>)
    requires Legal(Official, h) && |h| == 15
    ensures h[8].RepositoryVerified? && h[9].LocalVerified? && h[10].ShardsVerified? && h[11].ProvenanceVerified?
    ensures h[7..] == [
      SemanticsVerified, RepositoryVerified(h[8].bound, h[8].bound), LocalVerified(h[9].bound, h[9].bound),
      ShardsVerified(h[10].bound, h[10].bound), ProvenanceVerified(h[11].bound, h[11].bound), BindingVerified, Minted,
        Marked]
  {
    assert Fits(Official, 8, h[8]) && Fits(Official, 9, h[9]) && Fits(Official, 10, h[10]) && Fits(Official, 11, h[11]);
    assert Fits(Official, 7, h[7]) && Fits(Official, 12, h[12]) && Fits(Official, 13, h[13])
      && Fits(Official, 14, h[14]);
  }

  predicate Grows(s: State, t: State) {
    s.history <= t.history && s.files <= t.files && s.mode == t.mode
  }

  lemma PrefixSnoc(h: seq<Event>, e: Event)
    ensures h <= h + [e]
  {
  }

  lemma CreateGrows(s: State, f: File, e: Event, next: Pc)
    ensures Grows(s, Create(s, f, e, next))
  {
    PrefixSnoc(s.history, e);
    if f !in s.files {
      assert Create(s, f, e, next).history == s.history + [e];
    } else {
      assert Create(s, f, e, next).history == s.history;
    }
  }

  lemma PassPrepareGrows(s: State, seen: Facts)
    requires Told(s)
    ensures Grows(s, PassPrepare(s, seen))
  {
    match s.pc
    case SealRows => CreateGrows(s, RowsFile, RowsSealed, SealSelection);
    case SealSelection => CreateGrows(s, SelectionFile, SelectionSealed, Execute);
    case WriteArtifacts =>
      CreateGrows(s, ArtifactsFile, ArtifactsSealed, if s.mode == Official then SealAwaiting else WriteManifest);
    case SealAwaiting =>
      CreateGrows(s.(writer := Writer(AwaitingPhase, false, false)), AwaitingFile, AwaitingSealed, Deliver);
    case _ =>
  }

  lemma PassReviewGrows(s: State, seen: Facts, sound: bool)
    ensures Grows(s, PassReview(s, seen, sound))
  {
  }

  lemma PassCommitGrows(s: State)
    ensures Grows(s, PassCommit(s)) && Grows(s, PassEnd(s))
  {
  }

  lemma PassTerminalGrows(s: State, seen: Facts)
    ensures Grows(s, PassTerminal(s, seen))
  {
    match s.pc
    case Mint =>
    case Mark => CreateGrows(s, SuccessFile, Marked, Confirm);
    case _ =>
  }

  lemma LeftGrows(s: State, f: File, event: Option<Event>, damage: Damage)
    ensures Grows(s, Left(s, f, event, damage))
  {
    if event.Some? {
      PrefixSnoc(s.history, event.value);
    }
    var d := Left(s, f, event, damage);
    assert d.history == s.history || (event.Some? && d.history == s.history + [event.value]);
  }

  lemma RaisedInsideGrows(s: State, damage: Damage, sound: bool)
    requires !Outside(s.pc) && !Ended(s.pc)
    ensures Grows(s, RaisedAt(s, damage, sound))
  {
    var t := TargetOf(s, sound);
    if t.Target? {
      LeftGrows(s, t.file, t.event, damage);
    }
    var d := Damaged(s, damage, sound);
    assert Grows(s, d) && RaisedAt(s, damage, sound) == Fail(d);
  }

  lemma RaisedGrows(s: State, damage: Damage, sound: bool)
    requires Told(s)
    ensures Grows(s, RaisedAt(s, damage, sound))
  {
    if !Outside(s.pc) && !Ended(s.pc) {
      RaisedInsideGrows(s, damage, sound);
    }
  }

  /** Nothing that happened is undone and no file disappears. */
  lemma StepGrows(s: State, a: Act)
    requires Told(s)
    ensures Grows(s, Step(s, a))
  {
    match a
    case Begin(_) =>
    case Pass(seen, sound) =>
      PassPrepareGrows(s, seen);
      PassReviewGrows(s, seen, sound);
      PassCommitGrows(s);
      PassTerminalGrows(s, seen);
    case Raise(damage, sound) => RaisedGrows(s, damage, sound);
    case Die =>
  }

  lemma {:induction false} RunGrows(s: State, acts: seq<Act>)
    requires Inv(s)
    ensures Grows(s, Run(s, acts))
    decreases acts
  {
    if acts != [] {
      StepKeeps(s, acts[0]);
      StepGrows(s, acts[0]);
      RunGrows(Step(s, acts[0]), acts[1..]);
    }
  }

  /** One blocking review closes the directory for good: no later command can mark it successful. */
  lemma RejectionIsFinal(before: seq<Act>, after: seq<Act>)
    ensures var s := Run(Initial(Official), before);
      |s.history| > 4 && s.history[4].Decided? && !AllAccepted(s.history[4].reviews)
      ==> SuccessFile !in Run(s, after).files
  {
    InitialInv(Official);
    RunKeeps(Initial(Official), before);
    var s := Run(Initial(Official), before);
    RunKeeps(s, after);
    RunGrows(s, after);
    RunGrows(Initial(Official), before);
    var t := Run(s, after);
    if SuccessFile in t.files && |s.history| > 4 {
      assert t.history[4] == s.history[4];
      assert |t.history| > 6;
    }
  }

  /** A failed directory: no command gets past the outside of it. */
  predicate Dead(s: State) {
    FailureFile in s.files && SuccessFile !in s.files && s.created && (Outside(s.pc) || Ended(s.pc))
  }

  lemma DeadStep(s: State, a: Act)
    requires Inv(s) && Dead(s)
    ensures Dead(Step(s, a))
  {
  }

  /** A failure marker appears only as a command ends. */
  predicate Halted(s: State) {
    FailureFile in s.files && SuccessFile !in s.files ==> Outside(s.pc) || Ended(s.pc)
  }

  lemma DamagedIsNoFailure(s: State, damage: Damage, sound: bool)
    ensures FailureFile in Damaged(s, damage, sound).files <==> FailureFile in s.files
  {
  }

  /** No operation but the failing ones creates a failure marker. */
  lemma NoFailure(s: State, a: Act)
    requires FailureFile !in s.files && !Outside(s.pc) && !Ended(s.pc)
    ensures FailureFile !in Step(s, a).files
  {
    if a.Raise? {
      DamagedIsNoFailure(s, a.damage, a.sound);
    }
  }

  lemma EndsHalted(s: State, a: Act)
    requires FailureFile !in s.files && (Outside(s.pc) || Ended(s.pc))
    ensures Halted(Step(s, a))
  {
  }

  lemma HaltedStep(s: State, a: Act)
    requires Inv(s) && Halted(s)
    ensures Halted(Step(s, a))
  {
    if FailureFile in s.files && SuccessFile !in s.files {
      DeadStep(s, a);
    } else if FailureFile in s.files {
      StepGrows(s, a);
    } else if Outside(s.pc) || Ended(s.pc) {
      EndsHalted(s, a);
    } else {
      NoFailure(s, a);
    }
  }

  lemma {:induction false} HaltedRun(s: State, acts: seq<Act>)
    requires Inv(s) && Halted(s)
    ensures Halted(Run(s, acts))
    decreases acts
  {
    if acts != [] {
      StepKeeps(s, acts[0]);
      HaltedStep(s, acts[0]);
      HaltedRun(Step(s, acts[0]), acts[1..]);
    }
  }

  lemma {:induction false} DeadRun(s: State, acts: seq<Act>)
    requires Inv(s) && Dead(s)
    ensures Dead(Run(s, acts))
    decreases acts
  {
    if acts != [] {
      StepKeeps(s, acts[0]);
      DeadStep(s, acts[0]);
      DeadRun(Step(s, acts[0]), acts[1..]);
    }
  }

  /** Once a failure marker stands without a success marker, no later step of any command adds one. */
  lemma FailureIsFinal(mode: Mode, before: seq<Act>, after: seq<Act>)
    ensures var s := Run(Initial(mode), before);
      FailureFile in s.files && SuccessFile !in s.files ==> SuccessFile !in Run(s, after).files
  {
    InitialInv(mode);
    RunKeeps(Initial(mode), before);
    HaltedRun(Initial(mode), before);
    var s := Run(Initial(mode), before);
    if FailureFile in s.files && SuccessFile !in s.files {
      DeadRun(s, after);
    }
  }

  // ----- Who may write the markers -------------------------------------------------------------

  /** The file an operation is about to create, when it may. */
  predicate Creates(s: State, f: File) {
    var t := TargetOf(s, false);
    t.Target? && t.file == f && Ready(s)
  }

  lemma PrepareCreates(s: State, seen: Facts, f: File)
    requires f !in s.files && f != PendingFile
    ensures f in PassPrepare(s, seen).files ==> Creates(s, f)
  {
  }

  lemma ReviewCreates(s: State, seen: Facts, sound: bool, f: File)
    requires f !in s.files
    ensures f in PassReview(s, seen, sound).files ==> Creates(s, f)
  {
  }

  lemma CommitCreates(s: State, f: File)
    requires f !in s.files && f != FailureFile
    ensures f in PassCommit(s).files ==> Creates(s, f)
    ensures f !in PassEnd(s).files
  {
  }

  lemma VerifyCreates(s: State, seen: Facts, f: File)
    requires f !in s.files
    ensures f in PassTerminal(s, seen).files ==> Creates(s, f)
  {
  }

  lemma DamageCreates(s: State, damage: Damage, sound: bool, f: File)
    requires f !in s.files && f in Damaged(s, damage, sound).files
    ensures Creates(s, f)
  {
  }

  lemma RaiseCreates(s: State, damage: Damage, sound: bool, f: File)
    requires f !in s.files && f in RaisedAt(s, damage, sound).files && f != PendingFile && f != FailureFile
    ensures Creates(s, f)
  {
    if !Outside(s.pc) && !Ended(s.pc) {
      assert RaisedAt(s, damage, sound) == Fail(Damaged(s, damage, sound));
      DamageCreates(s, damage, sound, f);
    }
  }

  /** Whatever a step is and however it ends, it creates no file but the one its point of the program is for. */
  lemma OnlyTargets(s: State, a: Act, f: File)
    requires f !in s.files && f in Step(s, a).files && f != PendingFile && f != FailureFile
    ensures Creates(s, f)
  {
    match a
    case Pass(seen, sound) =>
      PrepareCreates(s, seen, f);
      ReviewCreates(s, seen, sound, f);
      CommitCreates(s, f);
      VerifyCreates(s, seen, f);
    case Raise(damage, sound) => RaiseCreates(s, damage, sound, f);
    case _ =>
  }

  /**
   * Whatever a step is and however it ends: only the mark of a committed writer with its issued capability
   * creates the success marker.
   */
  lemma OnlyMarkSucceeds(s: State, a: Act)
    requires Inv(s) && SuccessFile !in s.files && SuccessFile in Step(s, a).files
    ensures s.pc == Mark && CommittedCapable(s) && s.writer.issued
    ensures s.mode == Official ==> |s.history| == 14 && s.history[4].Decided? && AllAccepted(s.history[4].reviews)
  {
    OnlyTargets(s, a, SuccessFile);
  }

  /** Whatever a step is: a precursor is opened for review only when exactly its five whole files are there. */
  lemma OnlyExactIsAdopted(s: State, a: Act)
    requires Inv(s) && !s.pc.ReviewLocal? && Step(s, a).pc.ReviewLocal?
    ensures s.pc.AdoptAwaiting? && s.mode == Official && s.files == REVIEWABLE == s.intact
    ensures s.history == [RowsSealed, SelectionSealed, ArtifactsSealed, AwaitingSealed]
  {
    AdoptedHistory(s, a);
  }

  lemma AdoptedHistory(s: State, a: Act)
    requires Told(s) && s.pc.AdoptAwaiting? && Step(s, a).pc.ReviewLocal?
    ensures s.mode == Official && s.files == REVIEWABLE == s.intact
    ensures s.history == [RowsSealed, SelectionSealed, ArtifactsSealed, AwaitingSealed]
  {
    AdoptedLength(s);
    assert Fits(s.mode, 0, s.history[0]) && Fits(s.mode, 1, s.history[1]);
    assert Fits(s.mode, 2, s.history[2]) && Fits(s.mode, 3, s.history[3]);
  }

  /**
   * Whatever a step is and however it ends: the awaiting file is sealed by the pending writer, after rows,
   * selection and artifacts.
   */
  lemma OnlyWholeIsSealed(s: State, a: Act)
    requires Inv(s) && AwaitingFile !in s.files && AwaitingFile in Step(s, a).files
    ensures s.pc == SealAwaiting && s.mode == Official && Capable(s, PendingPhase)
    ensures {RowsFile, SelectionFile, ArtifactsFile} <= s.intact && |s.history| == 3
  {
    OnlyTargets(s, a, AwaitingFile);
  }

  /** A failure marker joins a success marker only by an invalidation. */
  lemma OnlyInvalidationContradicts(s: State, a: Act)
    requires Inv(s) && SuccessFile in s.files && FailureFile !in s.files && FailureFile in Step(s, a).files
    ensures s.pc == Invalidate && s.writer.Writer? && Step(s, a).invalidated
  {
    if !Outside(s.pc) && !Ended(s.pc) {
      NoFailure(s, a);
    }
  }

  /** And an invalidation follows a status that was not delivered or a command that failed. */
  lemma WhyInvalidated(s: State, a: Act)
    requires !s.pc.Invalidate? && Step(s, a).pc == Invalidate
    ensures (s.pc.Deliver? && a.Raise?) || s.pc.Failing?
  {
  }

  /** Over every run, both markers at once mean an invalidation. */
  lemma ContradictionIsInvalidation(mode: Mode, acts: seq<Act>)
    ensures var s := Run(Initial(mode), acts);
      SuccessFile in s.files && FailureFile in s.files ==> s.invalidated
  {
    InitialInv(mode);
    RunKeeps(Initial(mode), acts);
  }
}
