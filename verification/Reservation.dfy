/**
 * The one-shot reservation of a run directory: it can be consumed once or failed, and its failure
 * marker is written exclusively. Every operation runs under one lock, so a run is a list of operations.
 */
module Reservation {
  import opened Common
  import opened Text
  import opened Json
  import opened CanonicalJson
  import opened Dicts
  import opened Status

  /** The files of the run directory this protocol knows. */
  datatype Name = PendingFile | FailureFile

  type Files = map<Name, Bytes>

  datatype Phase = Pending | Consumed | Failed

  datatype State = State(phase: Phase, files: Files)

  /**
   * How an exclusive write goes: whether the file is created, how many bytes get in, whether all is synced and
   * reread.
   */
  datatype Attempt = Attempt(created: bool, taken: nat, synced: bool)

  /** `readable`: guarded reads of the directory and its files succeed. */
  datatype Op = Consume(readable: bool) | Fail(reason: Str, readable: bool, attempt: Attempt)

  /** `Granted` and `Marker` are the two successful returns; the others raise. */
  datatype Reply = Granted | Marker | Denied | Contradictory | Broken

  const KEYS: seq<Str> := [K("mode"), K("reason_code"), K("schema_version"), K("state")]
  const STORE_SCHEMA: Str := K("m6-result-store-6.2.0")

  function FailurePayload(codes: set<Str>, mode: Str, reason: Str): Bytes {
    Line(JObj(Zip(KEYS, [JStr(mode), JStr(CodeOr(codes, reason)), JStr(STORE_SCHEMA), JStr(MARKER)])))
  }

  /** What a fixed reservation is about. */
  datatype Ground = Ground(codes: set<Str>, mode: Str, pending: Bytes)

  function Payload(g: Ground, reason: Str): Bytes {
    FailurePayload(g.codes, g.mode, reason)
  }

  // ----- The protocol as a state machine -----------------------------------------------------

  function Prefix(b: Bytes, n: nat): Bytes {
    b[..Min(n, |b|)]
  }

  /** `O_EXCL`: an existing file is never touched; a new one holds what was written before the failure. */
  function Written(files: Files, name: Name, payload: Bytes, a: Attempt): (Files, bool) {
    if name in files || !a.created then (files, false)
    else (files[name := Prefix(payload, a.taken)], a.taken >= |payload| && a.synced)
  }

  /** The directory holds the pending file, unchanged, and nothing else. */
  predicate Untouched(g: Ground, files: Files) {
    files == map[PendingFile := g.pending]
  }

  function Next(g: Ground, s: State, op: Op): (State, Reply) {
    match op
    case Consume(readable) =>
      if s.phase != Pending || !readable || !Untouched(g, s.files) then (s, Denied)
      else (s.(phase := Consumed), Granted)
    case Fail(reason, readable, attempt) =>
      var payload := Payload(g, reason);
      if FailureFile in s.files then
        if !readable then (s, Broken)
        else if s.files[FailureFile] != payload then (s, Contradictory)
        else (s.(phase := Failed), Marker)
      else if s.phase == Failed then (s, Broken)
      else
        var (files, done) := Written(s.files, FailureFile, payload, attempt);
        if done then (State(Failed, files), Marker) else (s.(files := files), Broken)
  }

  // ----- The record and its directory --------------------------------------------------------

  class Record {
    const ground: Ground
    var phase: Phase
    var files: Files

    constructor (ground: Ground)
      ensures this.ground == ground && Value() == State(Pending, map[PendingFile := ground.pending])
    {
      this.ground := ground;
      phase := Pending;
      files := map[PendingFile := ground.pending];
    }

    function Value(): State
      reads this
    {
      State(phase, files)
    }

    method GuardedRead(name: Name, readable: bool) returns (content: Option<Bytes>)
      ensures content == if readable && name in files then Some(files[name]) else None
    {
      if !readable || name !in files {
        return None;
      }
      return Some(files[name]);
    }

    method WriteExclusive(name: Name, payload: Bytes, attempt: Attempt) returns (done: bool)
      modifies `files
      ensures (files, done) == Written(old(files), name, payload, attempt)
    {
      if name in files || !attempt.created {
        return false;
      }
      var kept := payload[..Min(attempt.taken, |payload|)];
      files := files[name := kept];
      if attempt.taken < |payload| || !attempt.synced {
        return false;
      }
      return true;
    }

    method Consume(readable: bool) returns (reply: Reply)
      modifies `phase
      ensures (Value(), reply) == Next(ground, old(Value()), Op.Consume(readable))
    {
      if phase != Pending {
        return Denied;
      }
      if files.Keys - {PendingFile} != {} {
        return Denied;
      }
      var content := GuardedRead(PendingFile, readable);
      if content != Some(ground.pending) {
        return Denied;
      }
      OnlyPending(files);
      phase := Consumed;
      return Granted;
    }

    /** Fail with a reason: an existing marker must already say the same. */
    method Fail(reason: Str, readable: bool, attempt: Attempt) returns (reply: Reply)
      modifies `phase, `files
      ensures (Value(), reply) == Next(ground, old(Value()), Op.Fail(reason, readable, attempt))
    {
      var payload := Payload(ground, reason);
      if phase == Failed {
        var content := GuardedRead(FailureFile, readable);
        if content.None? {
          return Broken;
        }
        return if content.value == payload then Marker else Contradictory;
      }
      if FailureFile in files {
        var content := GuardedRead(FailureFile, readable);
        if content.None? {
          return Broken;
        }
        if content.value != payload {
          return Contradictory;
        }
      } else {
        var done := WriteExclusive(FailureFile, payload, attempt);
        if !done {
          return Broken;
        }
      }
      phase := Failed;
      return Marker;
    }
  }

  lemma OnlyPending(files: Files)
    requires files.Keys - {PendingFile} == {} && PendingFile in files
    ensures files == map[PendingFile := files[PendingFile]]
  {
    forall name | name in files
      ensures name == PendingFile
    {
      assert name !in files.Keys - {PendingFile};
    }
  }

  // ----- Runs --------------------------------------------------------------------------------

  function Run(g: Ground, s: State, ops: seq<Op>): (r: (State, seq<Reply>))
    ensures |r.1| == |ops|
    decreases ops
  {
    if ops == [] then (s, [])
    else
      var (next, reply) := Next(g, s, ops[0]);
      var (last, replies) := Run(g, next, ops[1..]);
      (last, [reply] + replies)
  }

  function Count(replies: seq<Reply>, reply: Reply): nat {
    if replies == [] then 0 else (if replies[0] == reply then 1 else 0) + Count(replies[1..], reply)
  }

  /** Reachable states: a failed record has its marker on disk. */
  predicate Consistent(g: Ground, s: State) {
    s.phase == Failed ==> FailureFile in s.files
  }

  lemma {:induction false} RunKeeps(g: Ground, s: State, ops: seq<Op>)
    requires Consistent(g, s)
    ensures Consistent(g, Run(g, s, ops).0)
    ensures s.phase == Failed ==> Run(g, s, ops).0.phase == Failed
    ensures s.phase != Pending ==> Run(g, s, ops).0.phase != Pending
    ensures FailureFile in s.files ==>
      FailureFile in Run(g, s, ops).0.files && Run(g, s, ops).0.files[FailureFile] == s.files[FailureFile]
    ensures PendingFile in s.files ==>
      PendingFile in Run(g, s, ops).0.files && Run(g, s, ops).0.files[PendingFile] == s.files[PendingFile]
    decreases ops
  {
    if ops != [] {
      RunKeeps(g, Next(g, s, ops[0]).0, ops[1..]);
    }
  }

  /** However the operations interleave, a reservation is consumed at most once, and never once a failure was begun. */
  lemma {:induction false} ConsumedAtMostOnce(g: Ground, s: State, ops: seq<Op>)
    requires Consistent(g, s)
    ensures Count(Run(g, s, ops).1, Granted) <= if s.phase == Pending && FailureFile !in s.files then 1 else 0
    decreases ops
  {
    if ops != [] {
      var next := Next(g, s, ops[0]).0;
      ConsumedAtMostOnce(g, next, ops[1..]);
      assert Run(g, s, ops).1[1..] == Run(g, next, ops[1..]).1;
    }
  }

  /** A new reservation and its directory. */
  function Start(g: Ground): State {
    State(Pending, map[PendingFile := g.pending])
  }

  /** An operation that uses the reservation up: a readable consumption, or a failure that gets its file created. */
  predicate Spends(op: Op) {
    match op
    case Consume(readable) => readable
    case Fail(_, _, attempt) => attempt.created
  }

  /** A reservation is granted to the first operation that uses it up, when that is a consumption, and to no other. */
  lemma {:induction false} GrantedIff(g: Ground, ops: seq<Op>, k: nat)
    requires k < |ops|
    ensures Run(g, Start(g), ops).1[k] == Granted <==>
      ops[k] == Op.Consume(true) && forall j :: 0 <= j < k ==> !Spends(ops[j])
    decreases ops
  {
    var s := Start(g);
    assert PendingFile in s.files && FailureFile !in s.files;
    if k > 0 {
      assert Run(g, s, ops).1[k] == Run(g, Next(g, s, ops[0]).0, ops[1..]).1[k - 1];
      if Spends(ops[0]) {
        NeverGranted(g, Next(g, s, ops[0]).0, ops[1..], k - 1);
      } else {
        assert Next(g, s, ops[0]).0 == s;
        GrantedIff(g, ops[1..], k - 1);
        assert forall j :: 0 < j < k ==> ops[j] == ops[1..][j - 1];
        assert (forall j :: 0 <= j < k - 1 ==> !Spends(ops[1..][j])) <==> forall j :: 0 < j < k ==> !Spends(ops[j]) by {
          assert forall j :: 0 <= j < k - 1 ==> ops[1..][j] == ops[j + 1];
        }
      }
    }
  }

  lemma {:induction false} NeverGranted(g: Ground, s: State, ops: seq<Op>, k: nat)
    requires k < |ops| && (s.phase != Pending || FailureFile in s.files)
    ensures Run(g, s, ops).1[k] != Granted
    decreases ops
  {
    if k > 0 {
      NeverGranted(g, Next(g, s, ops[0]).0, ops[1..], k - 1);
    }
  }

  /** A failure whose file is created, written and synced is acknowledged, and its marker says why. */
  lemma FirstFailureMarks(g: Ground, s: State, reason: Str, readable: bool, a: Attempt)
    requires Lawful(g) && Consistent(g, s) && FailureFile !in s.files
    requires a.created && a.synced && a.taken >= |Payload(g, reason)|
    ensures var (t, reply) := Next(g, s, Op.Fail(reason, readable, a));
      && reply == Marker && t.phase == Failed && FailureFile in t.files
      && Field(t.files[FailureFile], "mode") == Some(JStr(g.mode))
      && Field(t.files[FailureFile], "reason_code")
         == Some(JStr(if reason in g.codes then reason else K("unexpected_failure")))
      && Field(t.files[FailureFile], "schema_version") == Some(JStr(K("m6-result-store-6.2.0")))
      && Field(t.files[FailureFile], "state") == Some(JStr(K("TERMINAL_FAILURE")))
  {
    PayloadSays(g, reason);
    assert Prefix(Payload(g, reason), a.taken) == Payload(g, reason);
  }

  lemma PayloadSays(g: Ground, reason: Str)
    requires Lawful(g)
    ensures var p := Payload(g, reason);
      && Field(p, "mode") == Some(JStr(g.mode)) && Field(p, "reason_code") == Some(JStr(CodeOr(g.codes, reason)))
      && Field(p, "schema_version") == Some(JStr(STORE_SCHEMA)) && Field(p, "state") == Some(JStr(MARKER))
  {
    CodeOfPayload(g, reason);
    var values := [JStr(g.mode), JStr(CodeOr(g.codes, reason)), JStr(STORE_SCHEMA), JStr(MARKER)];
    KeysOrdered();
    UnderZip(KEYS, values, 0, "mode");
    UnderZip(KEYS, values, 1, "reason_code");
    UnderZip(KEYS, values, 2, "schema_version");
    UnderZip(KEYS, values, 3, "state");
  }

  // ----- Markers -----------------------------------------------------------------------------

  lemma KeysOrdered()
    ensures KeyOrder(KEYS)
  {
    TextBefore("mode", "reason_code", 0);
    TextBefore("reason_code", "schema_version", 0);
    TextBefore("schema_version", "state", 1);
    KeyOrderOf(KEYS);
  }

  predicate Lawful(g: Ground) {
    Codes(g.codes) && Unpaired(g.mode)
  }

  function PayloadDict(g: Ground, reason: Str): Json {
    JObj(Zip(KEYS, [JStr(g.mode), JStr(CodeOr(g.codes, reason)), JStr(STORE_SCHEMA), JStr(MARKER)]))
  }

  /** Two reasons give the same marker exactly when they normalise to the same code. */
  lemma SamePayloadIff(g: Ground, r: Str, q: Str)
    requires Lawful(g)
    ensures Payload(g, r) == Payload(g, q) <==> CodeOr(g.codes, r) == CodeOr(g.codes, q)
  {
    if Payload(g, r) == Payload(g, q) {
      CodeOfPayload(g, r);
      CodeOfPayload(g, q);
    }
  }

  lemma CodeOfPayload(g: Ground, r: Str)
    requires Lawful(g)
    ensures var v := Loads(Payload(g, r));
      && v == Some(PayloadDict(g, r)) && |v.value.members| == 4
      && v.value.members[1].value == JStr(CodeOr(g.codes, r))
  {
    KeysOrdered();
    var rule := Rule(_ => None, true);
    TextValues(rule, KEYS, [JStr(g.mode), JStr(CodeOr(g.codes, r)), JStr(STORE_SCHEMA), JStr(MARKER)]);
    LineRoundTrip(rule, PayloadDict(g, r));
  }

  /** A torn marker is no marker: a proper prefix of a payload is nobody's payload. */
  lemma TornIsNoPayload(g: Ground, r: Str, q: Str, n: nat)
    requires n < |Payload(g, r)|
    ensures Payload(g, r)[..n] != Payload(g, q)
  {
    if Payload(g, r)[..n] == Payload(g, q) {
      LinesPrefixFree(PayloadDict(g, q), PayloadDict(g, r));
    }
  }

  // ----- What later operations see -----------------------------------------------------------

  /** Once a marker exists, the answer to every later failure depends on it alone, and consuming is over. */
  lemma {:induction false} LaterReplies(g: Ground, s: State, ops: seq<Op>, k: nat)
    requires Consistent(g, s) && FailureFile in s.files && k < |ops|
    ensures ops[k].Fail? ==>
      Run(g, s, ops).1[k] ==
        (if !ops[k].readable then Broken
         else if s.files[FailureFile] == Payload(g, ops[k].reason) then Marker else Contradictory)
    ensures ops[k].Consume? ==> Run(g, s, ops).1[k] == Denied
    decreases ops
  {
    if k > 0 {
      var next := Next(g, s, ops[0]).0;
      LaterReplies(g, next, ops[1..], k - 1);
      assert Run(g, s, ops).1[1..] == Run(g, next, ops[1..]).1;
    }
  }

  /**
   * The first reason wins. After a failure was acknowledged, the same reason returns the same marker, any
   * other reason is contradicted, and the marker on disk is never written again.
   */
  lemma FirstReasonWins(g: Ground, s: State, first: Op, ops: seq<Op>, k: nat)
    requires Lawful(g) && Consistent(g, s) && first.Fail? && Next(g, s, first).1 == Marker
    requires k < |ops| && ops[k].Fail? && ops[k].readable
    ensures var next := Next(g, s, first).0;
      && next.phase == Failed
      && Run(g, next, ops).0.phase == Failed
      && FailureFile in Run(g, next, ops).0.files
      && Run(g, next, ops).0.files[FailureFile] == Payload(g, first.reason)
      && Run(g, next, ops).1[k] ==
         if CodeOr(g.codes, ops[k].reason) == CodeOr(g.codes, first.reason) then Marker else Contradictory
  {
    var next := Next(g, s, first).0;
    assert Prefix(Payload(g, first.reason), |Payload(g, first.reason)|) == Payload(g, first.reason);
    MarkerContent(g, s, first);
    RunKeeps(g, next, ops);
    LaterReplies(g, next, ops, k);
    SamePayloadIff(g, ops[k].reason, first.reason);
  }

  lemma MarkerContent(g: Ground, s: State, op: Op)
    requires op.Fail? && Next(g, s, op).1 == Marker
    ensures var next := Next(g, s, op).0;
      next.phase == Failed && FailureFile in next.files && next.files[FailureFile] == Payload(g, op.reason)
  {
  }

  /**
   * A failure that created the file but did not get all bytes in poisons the reservation for good: no
   * reason is ever acknowledged again. A later failure is acknowledged exactly when the bytes were
   * complete, whatever else went wrong, and its reason is the same.
   */
  lemma TornWrite(g: Ground, s: State, op: Op, ops: seq<Op>, k: nat)
    requires Lawful(g) && Consistent(g, s) && FailureFile !in s.files
    requires op.Fail? && op.attempt.created && Next(g, s, op).1 == Broken
    requires k < |ops| && ops[k].Fail? && ops[k].readable
    ensures var reply := Run(g, Next(g, s, op).0, ops).1[k];
      && (reply == Marker <==>
           op.attempt.taken >= |Payload(g, op.reason)| && CodeOr(g.codes, ops[k].reason) == CodeOr(g.codes, op.reason))
      && (reply != Marker ==> reply == Contradictory)
  {
    var payload := Payload(g, op.reason);
    var next := Next(g, s, op).0;
    assert next.files[FailureFile] == Prefix(payload, op.attempt.taken);
    LaterReplies(g, next, ops, k);
    if op.attempt.taken < |payload| {
      TornIsNoPayload(g, op.reason, ops[k].reason, op.attempt.taken);
    } else {
      assert Prefix(payload, op.attempt.taken) == payload;
      SamePayloadIff(g, ops[k].reason, op.reason);
    }
  }
}
