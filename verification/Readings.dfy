/**
 * What a run of the lifecycle reads and does, in order: the values a command found when it bound them, and
 * every durable event. A success was verified against the readings of the command that brought it about.
 */
module Readings {
  import opened Lifecycle
  import opened Vocabulary

  datatype Entry =
    | RepositoryRead(repository: int)
    | RestRead(local: int, shards: int, provenance: int)
    | Did(event: Event)

  /** The values a step finds and binds. */
  function Read(s: State, a: Act): seq<Entry> {
    if !a.Pass? then []
    else if s.pc.PrepareLocal? then
      [RepositoryRead(a.seen.repository), RestRead(a.seen.local, a.seen.shards, a.seen.provenance)]
    else if s.pc.ReviewRepository? then [RepositoryRead(a.seen.repository)]
    else if s.pc.ReviewLocal? then [RestRead(a.seen.local, a.seen.shards, a.seen.provenance)]
    else []
  }

  function AllDid(events: seq<Event>): (r: seq<Entry>)
    ensures |r| == |events|
  {
    seq(|events|, i requires 0 <= i < |events| => Did(events[i]))
  }

  /** What a step adds to the record. */
  function Observed(s: State, a: Act): seq<Entry> {
    var t := Step(s, a);
    Read(s, a) + if s.history <= t.history then AllDid(t.history[|s.history|..]) else []
  }

  /** The record `tr`, continued through a run. */
  function Record(s: State, tr: seq<Entry>, acts: seq<Act>): seq<Entry>
    decreases acts
  {
    if acts == [] then tr else Record(Step(s, acts[0]), tr + Observed(s, acts[0]), acts[1..])
  }

  /** The durable events of a record. */
  function Durable(tr: seq<Entry>): seq<Event> {
    if tr == [] then []
    else (if tr[0].Did? then [tr[0].event] else []) + Durable(tr[1..])
  }

  lemma {:induction false} DurableAppend(a: seq<Entry>, b: seq<Entry>)
    ensures Durable(a + b) == Durable(a) + Durable(b)
  {
    if a == [] {
      assert a + b == b;
    } else {
      var tail, head := a[1..], if a[0].Did? then [a[0].event] else [];
      assert (a + b)[0] == a[0] && (a + b)[1..] == tail + b;
      DurableAppend(tail, b);
      assert head + (Durable(tail) + Durable(b)) == (head + Durable(tail)) + Durable(b);
    }
  }

  lemma {:induction false} NothingDurable(tr: seq<Entry>)
    requires forall i :: 0 <= i < |tr| ==> !tr[i].Did?
    ensures Durable(tr) == []
  {
    if tr != [] {
      NothingDurable(tr[1..]);
    }
  }

  lemma ReadIsNotDurable(s: State, a: Act)
    ensures Durable(Read(s, a)) == []
  {
    var r := Read(s, a);
    assert forall i :: 0 <= i < |r| ==> !r[i].Did?;
    NothingDurable(r);
  }

  // ----- What a success was verified against ---------------------------------------------------

  /** The place of the first durable event of the command that commits: a finalizer's decisions, or the sealed rows. */
  function First(mode: Mode): nat {
    if mode == Official then 4 else 0
  }

  /** The entries a command leaves when it binds `f`. */
  function Bindings(f: Facts): seq<Entry> {
    [RepositoryRead(f.repository), RestRead(f.local, f.shards, f.provenance)]
  }

  /** The values just read are `f`. */
  predicate Fresh(tr: seq<Entry>, f: Facts) {
    |tr| >= 2 && tr[|tr| - 2..] == Bindings(f)
  }

  predicate ReadAt(tr: seq<Entry>, i: nat, f: Facts, e: Event) {
    i + 3 <= |tr| && tr[i..i + 3] == Bindings(f) + [Did(e)]
  }

  /** Somewhere in the record `f` was read right before `e` was done. */
  ghost predicate ReadBefore(tr: seq<Entry>, f: Facts, e: Event) {
    exists i: nat :: ReadAt(tr, i, f, e)
  }

  /** A verification at place `k` behind the commit found what was bound, and that was `f`. */
  predicate Verifies(k: int, e: Event, f: Facts) {
    match k
    case 2 => e == RepositoryVerified(f.repository, f.repository)
    case 3 => e == LocalVerified(f.local, f.local)
    case 4 => e == ShardsVerified(f.shards, f.shards)
    case 5 => e == ProvenanceVerified(f.provenance, f.provenance)
    case _ => true
  }

  predicate VerifiesAt(mode: Mode, h: seq<Event>, i: int, f: Facts)
    requires 0 <= i < |h|
  {
    Verifies(i - Base(mode), h[i], f)
  }

  /** What is verified is what the committing command read right before its first durable event. */
  ghost predicate Backed(mode: Mode, h: seq<Event>, tr: seq<Entry>, f: Facts) {
    && |h| > First(mode) && ReadBefore(tr, f, h[First(mode)])
    && forall i :: First(mode) <= i < |h| ==> VerifiesAt(mode, h, i, f)
  }

  /** Points between a command's first durable event and its end. */
  predicate Following(mode: Mode, pc: Pc) {
    Length(mode, pc) > First(mode)
  }

  ghost predicate TraceInv(s: State, tr: seq<Entry>) {
    && (s.pc.AdoptAwaiting? || s.pc.ReviewLocal? ==> tr != [] && tr[|tr| - 1] == RepositoryRead(s.facts.repository))
    && (s.pc.PredecessorGate? || s.pc.SealRows? || s.pc.Precursor? || s.pc.Decide? ==> Fresh(tr, s.facts))
    && (Following(s.mode, s.pc) ==> Backed(s.mode, s.history, tr, s.facts))
    && (|s.history| > First(s.mode) ==> exists f :: Backed(s.mode, s.history, tr, f))
  }

  lemma BackedLater(mode: Mode, h: seq<Event>, tr: seq<Entry>, f: Facts, more: seq<Entry>)
    requires Backed(mode, h, tr, f)
    ensures Backed(mode, h, tr + more, f)
  {
    var e := h[First(mode)];
    var i: nat :| ReadAt(tr, i, f, e);
    assert (tr + more)[i..i + 3] == tr[i..i + 3];
    assert ReadAt(tr + more, i, f, e);
  }

  lemma BackedNext(mode: Mode, h: seq<Event>, tr: seq<Entry>, f: Facts, e: Event)
    requires Backed(mode, h, tr, f) && Verifies(|h| - Base(mode), e, f)
    ensures Backed(mode, h + [e], tr + [Did(e)], f)
  {
    BackedLater(mode, h, tr, f, [Did(e)]);
    forall i | First(mode) <= i < |h + [e]|
      ensures VerifiesAt(mode, h + [e], i, f)
    {
      assert i < |h| ==> VerifiesAt(mode, h, i, f);
    }
  }

  lemma BackedFirst(mode: Mode, h: seq<Event>, tr: seq<Entry>, f: Facts, e: Event)
    requires |h| == First(mode) && Fresh(tr, f) && !e.RepositoryVerified?
    ensures Backed(mode, h + [e], tr + [Did(e)], f)
  {
    var i := |tr| - 2;
    assert (tr + [Did(e)])[i..i + 3] == tr[i..] + [Did(e)];
    assert ReadAt(tr + [Did(e)], i, f, e);
  }

  /** A step that does nothing durable, or one thing. */
  lemma ObservedShort(s: State, a: Act)
    requires Inv(s)
    ensures var t := Step(s, a);
      && (t.history == s.history || (|t.history| == |s.history| + 1 && s.history <= t.history))
      && Observed(s, a) == Read(s, a) + if t.history == s.history then [] else [Did(t.history[|s.history|])]
  {
    var t := Step(s, a);
    StepGrows(s, a);
    if t.history != s.history {
      DurableEvent(s, a);
    }
    if t.history == s.history {
      assert t.history[|s.history|..] == [];
      assert AllDid([]) == [];
    } else {
      assert t.history[|s.history|..] == [t.history[|s.history|]];
      assert AllDid([t.history[|s.history|]]) == [Did(t.history[|s.history|])];
    }
  }

  /** A step that does nothing durable reads what it binds and otherwise keeps what was bound while that matters. */
  predicate Quietly(s: State, t: State, read: seq<Entry>) {
    && t.mode == s.mode && t.history == s.history
    && (Following(t.mode, t.pc) ==> Following(s.mode, s.pc) && t.facts == s.facts)
    && ((t.pc == s.pc && t.facts == s.facts && read == [])
        || (match t.pc
            case AdoptAwaiting(_) => read == [RepositoryRead(t.facts.repository)]
            case ReviewLocal(_) => s.pc.AdoptAwaiting? && t.facts == s.facts && read == []
            case Precursor(_) =>
              && s.pc.ReviewLocal? && t.facts.repository == s.facts.repository
              && read == [RestRead(t.facts.local, t.facts.shards, t.facts.provenance)]
            case Decide(_) => s.pc.Precursor? && t.facts == s.facts && read == []
            case PredecessorGate => read == Bindings(t.facts)
            case SealRows => s.pc.PredecessorGate? && t.facts == s.facts && read == []
            case _ => true))
  }

  lemma QuietTrace(s: State, t: State, tr: seq<Entry>, read: seq<Entry>)
    requires TraceInv(s, tr) && Quietly(s, t, read)
    ensures TraceInv(t, tr + read)
  {
    var all := tr + read;
    if |s.history| > First(s.mode) {
      var f :| Backed(s.mode, s.history, tr, f);
      BackedLater(s.mode, s.history, tr, f, read);
      if Following(s.mode, t.pc) {
        BackedLater(s.mode, s.history, tr, s.facts, read);
      }
    }
    assert read == [] ==> all == tr;
    if t.pc.Precursor? && read != [] {
      assert all[|all| - 2..] == [tr[|tr| - 1]] + read;
    } else if t.pc.PredecessorGate? && read != [] {
      assert all[|all| - 2..] == read;
    }
  }

  lemma DurableTrace(s: State, t: State, a: Act, tr: seq<Entry>, e: Event)
    requires TraceInv(s, tr) && InTheMiddle(s, t, a) && t.history == s.history + [e] && Inv(t)
    ensures TraceInv(t, tr + [Did(e)])
  {
    if |s.history| > First(s.mode) {
      BackedNext(s.mode, s.history, tr, s.facts, e);
    } else if |s.history| == First(s.mode) {
      BackedFirst(s.mode, s.history, tr, s.facts, e);
    }
  }

  lemma QuietPrepare(s: State, seen: Facts, sound: bool)
    requires Inv(s) && AtPrepare(s.pc) && PassPrepare(s, seen).history == s.history
    ensures Quietly(s, PassPrepare(s, seen), Read(s, Act.Pass(seen, sound)))
  {
  }

  lemma QuietReview(s: State, seen: Facts, sound: bool)
    requires Inv(s) && AtReview(s.pc) && PassReview(s, seen, sound).history == s.history
    ensures Quietly(s, PassReview(s, seen, sound), Read(s, Act.Pass(seen, sound)))
  {
  }

  lemma QuietCommit(s: State, seen: Facts, sound: bool)
    requires Inv(s) && AtCommit(s.pc) && PassCommit(s).history == s.history
    ensures Quietly(s, PassCommit(s), Read(s, Act.Pass(seen, sound)))
  {
  }

  lemma QuietVerify(s: State, seen: Facts, sound: bool)
    requires Inv(s) && !AtPrepare(s.pc) && !AtReview(s.pc) && !AtCommit(s.pc) && !Ended(s.pc)
    requires PassTerminal(s, seen).history == s.history
    ensures Quietly(s, PassTerminal(s, seen), Read(s, Act.Pass(seen, sound)))
  {
  }

  lemma QuietEnd(s: State, seen: Facts, sound: bool)
    requires Ended(s.pc)
    ensures Quietly(s, PassEnd(s), Read(s, Act.Pass(seen, sound)))
  {
  }

  /** What an operation leaves behind that raised: at most the event it was about to do. */
  lemma DamagedFrame(s: State, damage: Damage, sound: bool)
    ensures var d, t := Damaged(s, damage, sound), TargetOf(s, sound);
      && d.mode == s.mode && d.facts == s.facts && d.pc == s.pc
      && (d.history == s.history || (t.Target? && t.event.Some? && d.history == s.history + [t.event.value]))
  {
  }

  lemma QuietEndRaise(s: State, damage: Damage, sound: bool)
    requires Ended(s.pc)
    ensures Quietly(s, RaisedAt(s, damage, sound), [])
  {
  }

  lemma QuietOutsideRaise(s: State, damage: Damage, sound: bool)
    requires Outside(s.pc)
    ensures Quietly(s, RaisedAt(s, damage, sound), [])
  {
  }

  lemma QuietRaise(s: State, damage: Damage, sound: bool)
    requires RaisedAt(s, damage, sound).history == s.history
    ensures Quietly(s, RaisedAt(s, damage, sound), [])
  {
    if Ended(s.pc) {
      QuietEndRaise(s, damage, sound);
    } else if Outside(s.pc) {
      QuietOutsideRaise(s, damage, sound);
    } else {
      DamagedFrame(s, damage, sound);
      assert RaisedAt(s, damage, sound) == Fail(Damaged(s, damage, sound));
    }
  }

  lemma QuietStep(s: State, a: Act)
    requires Inv(s) && Step(s, a).history == s.history
    ensures Quietly(s, Step(s, a), Read(s, a))
  {
    match a
    case Pass(seen, sound) =>
      if AtPrepare(s.pc) {
        QuietPrepare(s, seen, sound);
      } else if AtReview(s.pc) {
        QuietReview(s, seen, sound);
      } else if AtCommit(s.pc) {
        QuietCommit(s, seen, sound);
      } else if Ended(s.pc) {
        QuietEnd(s, seen, sound);
      } else {
        QuietVerify(s, seen, sound);
      }
    case Raise(damage, sound) => QuietRaise(s, damage, sound);
    case Begin(_) =>
    case Die =>
  }

  /** A durable event is done by a command in the middle of its work, with what it bound. */
  predicate InTheMiddle(s: State, t: State, a: Act) {
    && t.facts == s.facts && t.mode == s.mode && Read(s, a) == [] && |t.history| == |s.history| + 1
    && (|s.history| > First(s.mode) ==> Following(s.mode, s.pc))
    && (|s.history| == First(s.mode) ==> s.pc.SealRows? || s.pc.Decide?)
    && Verifies(|s.history| - Base(s.mode), t.history[|s.history|], s.facts)
    && !(t.pc.PredecessorGate? || t.pc.SealRows? || t.pc.Precursor? || t.pc.Decide? || t.pc.AdoptAwaiting?
      || t.pc.ReviewLocal?)
    && (|s.history| == First(s.mode) ==> !t.history[|s.history|].RepositoryVerified?)
  }

  lemma PreparedEvent(s: State, seen: Facts, sound: bool)
    requires Inv(s) && AtPrepare(s.pc) && PassPrepare(s, seen).history != s.history
    ensures InTheMiddle(s, PassPrepare(s, seen), Act.Pass(seen, sound))
  {
  }

  lemma ReviewedEvent(s: State, seen: Facts, sound: bool)
    requires Inv(s) && AtReview(s.pc) && PassReview(s, seen, sound).history != s.history
    ensures InTheMiddle(s, PassReview(s, seen, sound), Act.Pass(seen, sound))
  {
  }

  lemma CommittedEvent(s: State, seen: Facts, sound: bool)
    requires Inv(s) && AtCommit(s.pc) && PassCommit(s).history != s.history
    ensures InTheMiddle(s, PassCommit(s), Act.Pass(seen, sound))
  {
  }

  lemma VerifiedEvent(s: State, seen: Facts, sound: bool)
    requires Inv(s) && !AtPrepare(s.pc) && !AtReview(s.pc) && !AtCommit(s.pc) && !Ended(s.pc)
    requires PassTerminal(s, seen).history != s.history
    ensures InTheMiddle(s, PassTerminal(s, seen), Act.Pass(seen, sound))
  {
  }

  lemma EndedEvent(s: State)
    requires Ended(s.pc)
    ensures PassEnd(s).history == s.history
  {
  }

  lemma RaisedEvent(s: State, damage: Damage, sound: bool)
    requires Inv(s) && RaisedAt(s, damage, sound).history != s.history
    ensures InTheMiddle(s, RaisedAt(s, damage, sound), Act.Raise(damage, sound))
  {
    if !Outside(s.pc) && !Ended(s.pc) {
      DamagedFrame(s, damage, sound);
      TargetIsInTheMiddle(s, sound);
      assert RaisedAt(s, damage, sound) == Fail(Damaged(s, damage, sound));
    }
  }

  lemma TargetIsInTheMiddle(s: State, sound: bool)
    requires Inv(s)
    ensures TargetOf(s, sound).Target? && TargetOf(s, sound).event.Some? ==> var e := TargetOf(s, sound).event.value;
      && (|s.history| > First(s.mode) ==> Following(s.mode, s.pc))
      && (|s.history| == First(s.mode) ==> s.pc.SealRows? || s.pc.Decide?)
      && Verifies(|s.history| - Base(s.mode), e, s.facts) && !e.RepositoryVerified?
  {
  }

  lemma DurableEvent(s: State, a: Act)
    requires Inv(s) && Step(s, a).history != s.history
    ensures InTheMiddle(s, Step(s, a), a)
  {
    match a
    case Pass(seen, sound) =>
      if AtPrepare(s.pc) {
        PreparedEvent(s, seen, sound);
      } else if AtReview(s.pc) {
        ReviewedEvent(s, seen, sound);
      } else if AtCommit(s.pc) {
        CommittedEvent(s, seen, sound);
      } else if Ended(s.pc) {
        EndedEvent(s);
      } else {
        VerifiedEvent(s, seen, sound);
      }
    case Raise(damage, sound) => RaisedEvent(s, damage, sound);
    case Begin(_) =>
    case Die =>
  }

  lemma Recorded(tr: seq<Entry>, read: seq<Entry>, h: seq<Event>, t: seq<Event>, seen: seq<Entry>)
    requires Durable(tr) == h && Durable(read) == []
    requires (t == h && seen == read) || (|t| == |h| + 1 && t == h + [t[|h|]] && seen == read + [Did(t[|h|])])
    ensures Durable(tr + seen) == t
  {
    DurableAppend(tr, seen);
    if seen != read {
      DurableAppend(read, [Did(t[|h|])]);
      assert [Did(t[|h|])][1..] == [];
    }
  }

  lemma StepRecorded(s: State, a: Act, tr: seq<Entry>)
    requires Inv(s) && Durable(tr) == s.history
    ensures Durable(tr + Observed(s, a)) == Step(s, a).history
  {
    var t := Step(s, a);
    ObservedShort(s, a);
    ReadIsNotDurable(s, a);
    if t.history != s.history {
      assert t.history == s.history + [t.history[|s.history|]];
    }
    Recorded(tr, Read(s, a), s.history, t.history, Observed(s, a));
  }

  /** The record leaves nothing out: its durable events are the history. */
  lemma {:induction false} RecordIsHistory(s: State, acts: seq<Act>, tr: seq<Entry>)
    requires Inv(s) && Durable(tr) == s.history
    ensures Durable(Record(s, tr, acts)) == Run(s, acts).history
    decreases acts
  {
    if acts != [] {
      StepKeeps(s, acts[0]);
      StepRecorded(s, acts[0], tr);
      RecordIsHistory(Step(s, acts[0]), acts[1..], tr + Observed(s, acts[0]));
    }
  }

  lemma StepBacked(s: State, a: Act, tr: seq<Entry>)
    requires Inv(s) && TraceInv(s, tr)
    ensures TraceInv(Step(s, a), tr + Observed(s, a))
  {
    var t := Step(s, a);
    ObservedShort(s, a);
    if t.history == s.history {
      QuietStep(s, a);
      QuietTrace(s, t, tr, Read(s, a));
      assert Observed(s, a) == Read(s, a);
    } else {
      DurableEvent(s, a);
      StepKeeps(s, a);
      var e := t.history[|s.history|];
      DurableTrace(s, t, a, tr, e);
      assert Observed(s, a) == [Did(e)];
    }
  }

  lemma {:induction false} RunBacked(s: State, acts: seq<Act>, tr: seq<Entry>)
    requires Inv(s) && TraceInv(s, tr)
    ensures TraceInv(Run(s, acts), Record(s, tr, acts))
    decreases acts
  {
    if acts != [] {
      StepKeeps(s, acts[0]);
      StepBacked(s, acts[0], tr);
      RunBacked(Step(s, acts[0]), acts[1..], tr + Observed(s, acts[0]));
    }
  }

  /** Whatever a directory's mode: a success was verified against what its command had read before it began to write. */
  lemma SuccessIsBacked(mode: Mode, acts: seq<Act>)
    ensures var s := Run(Initial(mode), acts);
      SuccessFile in s.files ==> exists f :: Backed(mode, s.history, Record(Initial(mode), [], acts), f)
  {
    InitialInv(mode);
    RunKeeps(Initial(mode), acts);
    RunGrows(Initial(mode), acts);
    RunBacked(Initial(mode), acts, []);
  }

  /** The one story of an official success, told with the values `f` its finalizer had read. */
  function Story(r: Reviews, f: Facts): seq<Event> {
    [RowsSealed, SelectionSealed, ArtifactsSealed, AwaitingSealed, Decided(r), Released(true), Committed,
     SemanticsVerified, RepositoryVerified(f.repository, f.repository), LocalVerified(f.local, f.local),
     ShardsVerified(f.shards, f.shards), ProvenanceVerified(f.provenance, f.provenance), BindingVerified, Minted,
     Marked]
  }

  /**
   * However commands, faults and crashes interleave: an official directory holds the success marker only
   * after the precursor was sealed for review, all three roles accepted without a p1 or p2 finding, the
   * release gate was open, and repository, local inputs, shards and provenance were found again as the
   * finalizing command had read them right before it wrote the decisions, in this order, with the mark last.
   */
  lemma OfficialSuccess(acts: seq<Act>)
    ensures var s, tr := Run(Initial(Official), acts), Record(Initial(Official), [], acts);
      SuccessFile in s.files ==>
        && AwaitingFile in s.intact && CommittedFile in s.intact
        && exists r, f :: AllAccepted(r) && s.history == Story(r, f) && ReadBefore(tr, f, Decided(r))
  {
    Lifecycle.OfficialSuccess(acts);
    SuccessIsBacked(Official, acts);
    var s, tr := Run(Initial(Official), acts), Record(Initial(Official), [], acts);
    if SuccessFile in s.files {
      var f :| Backed(Official, s.history, tr, f);
      var h := s.history;
      StoryIsBacked(h, tr, f);
    }
  }

  lemma StoryIsBacked(h: seq<Event>, tr: seq<Entry>, f: Facts)
    requires OfficialStory(h) && Backed(Official, h, tr, f)
    ensures h[4].Decided? && AllAccepted(h[4].reviews) && h == Story(h[4].reviews, f)
      && ReadBefore(tr, f, Decided(h[4].reviews))
  {
    assert VerifiesAt(Official, h, 8, f) && VerifiesAt(Official, h, 9, f);
    assert VerifiesAt(Official, h, 10, f) && VerifiesAt(Official, h, 11, f);
    assert h[4] == Decided(h[4].reviews);
  }
}
