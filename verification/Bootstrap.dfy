/**
 * The bootstrap: it captures everything the command prints, takes one status from it, and prints that
 * status or a rejection. The command inside is arbitrary: it may emit, register and print as it likes.
 */
module Bootstrap {
  import opened Common
  import opened Text
  import opened Json
  import opened JsonLimits
  import opened Dicts
  import opened Dumping
  import opened Status
  import opened StatusFields

  /** Where descriptors 1 and 2 point. */
  datatype Target = Console | Capture

  /** The descriptor a command writes to: one of the streams, a saved copy of the console, or something else. */
  datatype Channel = Stream(second: bool) | Saved(second: bool) | Elsewhere

  /** What the command inside does; `None` stands for an argument of a wrong type. */
  datatype Action =
    | Emit(payload: Option<Bytes>, error: Option<bool>)
    | Register(callable: bool)
    | Say(to: Channel, text: Bytes)

  datatype End = Returns(code: Option<int>) | Raises

  /** A failure before the command is imported, a refusal of its surroundings, or its run. */
  datatype Inner = Breaks | Refuses(code: Str) | Runs(actions: seq<Action>, end: End, cleaned: bool)

  datatype Report = Report(code: Option<int>, payload: Bytes, error: bool, duplicate: bool)

  /** `Escapes`: the process ends with an exception out of the bootstrap itself. */
  datatype Exit = Code(n: int) | Escapes

  function Rejection(codes: set<Str>, code: Str): Bytes {
    Line(RejectionDict(CodeOr(codes, code), REJECTED))
  }

  const MISMATCH: Str := K("runtime_mismatch")
  const CAPTURE_FAILED: Str := K("terminal_capture_failed")
  const OUTPUT_DETECTED: Str := K("terminal_output_detected")

  // ----- What a run of the command leaves behind -----------------------------------------------

  /** The kept status, the registered callback, refused calls, captured bytes, and what the saved copies were told. */
  datatype Tally =
    Tally(statuses: seq<(Bytes, bool)>, callbacks: nat, duplicate: bool, captured: nat, out: Bytes, err: Bytes)

  function Step(t: Tally, a: Action): Tally {
    match a
    case Emit(payload, error) =>
      if t.statuses == [] && payload.Some? && error.Some? then t.(statuses := [(payload.value, error.value)])
      else t.(duplicate := true)
    case Register(callable) =>
      if t.callbacks == 0 && callable then t.(callbacks := 1) else t.(duplicate := true)
    case Say(Stream(_), text) => t.(captured := t.captured + |text|)
    case Say(Saved(second), text) => if second then t.(err := t.err + text) else t.(out := t.out + text)
    case Say(Elsewhere, _) => t
  }

  function Play(t: Tally, actions: seq<Action>): Tally
    decreases actions
  {
    if actions == [] then t else Play(Step(t, actions[0]), actions[1..])
  }

  /** The emissions of a run, well typed or not. */
  function Emissions(actions: seq<Action>): seq<Action> {
    if actions == [] then []
    else (if actions[0].Emit? then [actions[0]] else []) + Emissions(actions[1..])
  }

  function Registrations(actions: seq<Action>): nat {
    if actions == [] then 0 else (if actions[0].Register? then 1 else 0) + Registrations(actions[1..])
  }

  function AsEmission(s: (Bytes, bool)): Action {
    Emit(Some(s.0), Some(s.1))
  }

  lemma {:induction false} PlayKeeps(t: Tally, actions: seq<Action>)
    requires |t.statuses| <= 1 && t.callbacks <= 1
    ensures |Play(t, actions).statuses| <= 1 && t.callbacks <= Play(t, actions).callbacks <= 1
    ensures t.duplicate ==> Play(t, actions).duplicate
    ensures t.captured <= Play(t, actions).captured
    decreases actions
  {
    if actions != [] {
      PlayKeeps(Step(t, actions[0]), actions[1..]);
    }
  }

  /** When nothing was refused, the kept status is all the command ever emitted, and it registered at most once. */
  lemma {:induction false} NothingRefused(t: Tally, actions: seq<Action>)
    requires |t.statuses| <= 1 && t.callbacks <= 1 && !Play(t, actions).duplicate
    ensures !t.duplicate && Play(t, actions).callbacks == t.callbacks + Registrations(actions)
    ensures t.statuses != [] ==> Emissions(actions) == [] && Play(t, actions).statuses == t.statuses
    ensures t.statuses == [] ==>
      Emissions(actions) == if Play(t, actions).statuses == [] then [] else [AsEmission(Play(t, actions).statuses[0])]
    decreases actions
  {
    PlayKeeps(t, actions);
    if actions != [] {
      PlayKeeps(Step(t, actions[0]), actions[1..]);
      NothingRefused(Step(t, actions[0]), actions[1..]);
    }
  }

  /** All that is said to one descriptor, in order. */
  function Said(actions: seq<Action>, to: Channel): Bytes {
    if actions == [] then []
    else (if actions[0].Say? && actions[0].to == to then actions[0].text else []) + Said(actions[1..], to)
  }

  /** Every byte for stream 1 or 2 counts as captured, and the saved copies pass on what they are told. */
  lemma {:induction false} PlayTells(t: Tally, actions: seq<Action>)
    ensures Play(t, actions).captured ==
      t.captured + |Said(actions, Stream(false))| + |Said(actions, Stream(true))|
    ensures Play(t, actions).out == t.out + Said(actions, Saved(false))
    ensures Play(t, actions).err == t.err + Said(actions, Saved(true))
    decreases actions
  {
    if actions != [] {
      PlayTells(Step(t, actions[0]), actions[1..]);
    }
  }

  /** Nothing is captured exactly when every word to stream 1 or 2 was empty. */
  lemma NothingCaptured(actions: seq<Action>)
    ensures Play(NOTHING, actions).captured == 0 <==>
      forall a :: a in actions && a.Say? && a.to.Stream? ==> a.text == []
  {
    PlayTells(NOTHING, actions);
    SaidNothing(actions, Stream(false));
    SaidNothing(actions, Stream(true));
  }

  lemma {:induction false} SaidNothing(actions: seq<Action>, to: Channel)
    ensures Said(actions, to) == [] <==> forall a :: a in actions && a.Say? && a.to == to ==> a.text == []
  {
    if actions != [] {
      SaidNothing(actions[1..], to);
    }
  }

  /** Emissions and registrations have the right types. */
  predicate WellTyped(actions: seq<Action>) {
    forall a :: a in actions ==>
      (a.Emit? ==> a.payload.Some? && a.error.Some?) && (a.Register? ==> a.callable)
  }

  /** Something is refused exactly when it has the wrong type or is one too many. */
  lemma {:induction false} RefusedIff(t: Tally, actions: seq<Action>)
    requires |t.statuses| <= 1 && t.callbacks <= 1
    ensures Play(t, actions).duplicate <==>
      || t.duplicate || !WellTyped(actions)
      || |t.statuses| + |Emissions(actions)| > 1 || t.callbacks + Registrations(actions) > 1
    decreases actions
  {
    PlayKeeps(t, actions);
    if actions != [] {
      var a, next := actions[0], Step(t, actions[0]);
      PlayKeeps(next, actions[1..]);
      RefusedIff(next, actions[1..]);
      assert WellTyped(actions) <==> WellTyped([a]) && WellTyped(actions[1..]) by {
        assert actions == [a] + actions[1..];
      }
    }
  }

  /** A callback is registered exactly when one was offered. */
  lemma {:induction false} RegisteredIff(t: Tally, actions: seq<Action>)
    requires t.callbacks <= 1
    ensures Play(t, actions).callbacks == if t.callbacks == 1 || Register(true) in actions then 1 else 0
    decreases actions
  {
    if actions != [] {
      RegisteredIff(Step(t, actions[0]), actions[1..]);
    }
  }

  function Done(inner: Inner): seq<Action> {
    if inner.Runs? then inner.actions else []
  }

  /** What the run hands to the bootstrap. */
  function Reported(codes: set<Str>, inner: Inner, t: Tally): Option<Report> {
    match inner
    case Breaks => None
    case Refuses(code) => Some(Report(Some(1), Rejection(codes, code), true, false))
    case Runs(_, end, cleaned) =>
      if end.Raises? || !cleaned then None
      else if |t.statuses| != 1 then Some(Report(end.code, [], true, t.duplicate))
      else Some(Report(end.code, t.statuses[0].0, t.statuses[0].1, t.duplicate))
  }

  lemma RejectionIsNotEmpty(codes: set<Str>, code: Str)
    ensures Rejection(codes, code) != []
  {
    PrintedHead(RejectionDict(CodeOr(codes, code), REJECTED), [10]);
  }

  const NOTHING := Tally([], 0, false, 0, [], [])

  /** The report, or the rejection that stands for an exception out of the command. */
  function Settled(codes: set<Str>, report: Option<Report>): Report {
    match report
    case Some(r) => r
    case None => Report(Some(1), Rejection(codes, MISMATCH), true, false)
  }

  /** A validator of reports. */
  type Judge = Report -> Verdict

  /** The validator of the bootstrap. */
  function Judging(py: Python, codes: set<Str>): Judge {
    (r: Report) => Validate(py, codes, Some(r.payload), Some(r.error), r.code)
  }

  /** What it accepts is not empty, and its code is zero exactly when its error flag is off. */
  ghost predicate Sensible(judge: Judge) {
    forall r :: judge(r) == Accepted ==> r.payload != [] && r.code.Some? && (r.code.value == 0 <==> !r.error)
  }

  lemma JudgingIsSensible(py: Python, codes: set<Str>)
    ensures Sensible(Judging(py, codes))
  {
    forall r | Judging(py, codes)(r) == Accepted
      ensures r.payload != [] && r.code.Some? && (r.code.value == 0 <==> !r.error)
    {
      AcceptedFlag(py, codes, Some(r.payload), Some(r.error), r.code);
    }
  }

  // ----- What the operating system decides -----------------------------------------------------

  /** The `n` calls from `c` on succeed. */
  predicate AllOk(ok: nat -> bool, c: nat, n: nat) {
    forall k :: c <= k < c + n ==> ok(k)
  }

  /** Writing `n` bytes from call `c` on gets all of them out. */
  predicate Sends(ok: nat -> bool, room: nat -> nat, c: nat, n: nat)
    decreases n
  {
    n == 0 || (ok(c) && room(c) > 0 && Sends(ok, room, c + 1, n - Min(room(c), n)))
  }

  /** The answers of the system, how much each write takes, and the first call that counts. */
  datatype Calls = Calls(ok: nat -> bool, room: nat -> nat, start: nat)

  /** Nine calls set the capture up; without them the command does not run. */
  function Tallied(calls: Calls, inner: Inner): Tally {
    if AllOk(calls.ok, calls.start, 9) then Play(NOTHING, Done(inner)) else NOTHING
  }

  function Handed(codes: set<Str>, calls: Calls, inner: Inner): Report {
    Settled(codes, if AllOk(calls.ok, calls.start, 9) then Reported(codes, inner, Tallied(calls, inner)) else None)
  }

  /** Set-up, flush, restoring and inspecting succeed, sixteen calls in all, and nothing was captured or refused. */
  predicate Trusted(calls: Calls, r: Report, t: Tally) {
    AllOk(calls.ok, calls.start, 16) && !r.duplicate && t.captured == 0
  }

  /** What a capture prints that cannot be trusted. */
  function Detected(codes: set<Str>): Report {
    Report(Some(1), Rejection(codes, OUTPUT_DETECTED), true, false)
  }

  /** What a trusted capture prints when the validator does not raise. */
  function Chosen(judge: Judge, codes: set<Str>, r: Report): Report {
    if judge(r).Accepted? then r else Report(Some(1), Rejection(codes, CAPTURE_FAILED), true, false)
  }

  /** What there is to see at the end. */
  datatype Final = Final(out: Bytes, err: Bytes, invalidations: seq<Str>)

  /** `after` is `before` and a prefix of the payload: all of it exactly when the write succeeded. */
  ghost predicate Grown(before: Bytes, after: Bytes, payload: Bytes, all: bool) {
    exists n: nat :: n <= |payload| && (all <==> n == |payload|) && after == before + payload[..n]
  }

  /** On top of what the command told the saved copies, the report on its own stream, whole or in part. */
  ghost predicate Printed(t: Tally, f: Final, said: Report, sent: bool) {
    if said.error then f.out == t.out && Grown(t.err, f.err, said.payload, sent)
    else f.err == t.err && Grown(t.out, f.out, said.payload, sent)
  }

  function ExitCode(said: Report, sent: bool): int {
    if sent && said.code.Some? then said.code.value else 1
  }

  /** Invalidations are asked for only of a registered callback. */
  function Asked(t: Tally, codes: seq<Str>): seq<Str> {
    if t.callbacks == 1 then codes else []
  }

  /** A refused or non-zero status invalidates, and so does one that could not be printed. */
  function Reasons(judge: Judge, r: Report, sent: bool): seq<Str> {
    (if judge(r).Accepted? && r.code == Some(0) then [] else [CAPTURE_FAILED]) + if sent then [] else [CAPTURE_FAILED]
  }

  /** A capture that cannot be trusted is rejected and invalidates, twice when the rejection could not be printed. */
  ghost predicate Untrusted(codes: set<Str>, t: Tally, f: Final, sent: bool) {
    && Printed(t, f, Detected(codes), sent)
    && f.invalidations == Asked(t, [OUTPUT_DETECTED]) + Asked(t, if sent then [] else [CAPTURE_FAILED])
  }

  /** How a bootstrap ends whose calls are counted from `c`: the command, the system and the validator settle it. */
  ghost predicate Outcome(judge: Judge, codes: set<Str>, calls: Calls, inner: Inner, f: Final,
                          exit: Exit)
  {
    var t, r := Tallied(calls, inner), Handed(codes, calls, inner);
    if !Trusted(calls, r, t) then
      exit == Code(1) && (Untrusted(codes, t, f, true) || Untrusted(codes, t, f, false))
    else if judge(r).Raised? then
      exit == Escapes && f == Final(t.out, t.err, [])
    else
      var said := Chosen(judge, codes, r);
      var sent := Sends(calls.ok, calls.room, calls.start + 16, |said.payload|);
      exit == Code(ExitCode(said, sent)) && Printed(t, f, said, sent)
      && f.invalidations == Asked(t, Reasons(judge, r, sent))
  }

  /** A report that is printed has something to print: the empty payload is refused. */
  lemma SaidIsNotEmpty(judge: Judge, codes: set<Str>, r: Report, said: Report)
    requires Sensible(judge) && (said == Detected(codes) || said == Chosen(judge, codes, r))
    ensures said.payload != []
  {
    RejectionIsNotEmpty(codes, OUTPUT_DETECTED);
    RejectionIsNotEmpty(codes, CAPTURE_FAILED);
  }

  /** From what was said to how the run ended. */
  lemma Ended(judge: Judge, codes: set<Str>, calls: Calls, inner: Inner, said: Report, sent: bool, f: Final, exit: Exit)
    requires var t, r := Tallied(calls, inner), Handed(codes, calls, inner);
      var extra := !Trusted(calls, r, t);
      && (if extra then said == Detected(codes) else said == Chosen(judge, codes, r) && !judge(r).Raised?)
      && (extra || (sent <==> Sends(calls.ok, calls.room, calls.start + 16, |said.payload|)))
      && exit == Code(ExitCode(said, sent)) && Printed(t, f, said, sent)
      && f.invalidations == Asked(t, if extra then [OUTPUT_DETECTED] else Reasons(judge, r, true))
                            + Asked(t, if sent then [] else [CAPTURE_FAILED])
    ensures Outcome(judge, codes, calls, inner, f, exit)
  {
  }

  class Process {
    const judge: Judge
    const codes: set<Str>
    /** The outcome of every operating-system call, in order, and how much a write takes. */
    const ok: nat -> bool
    const room: nat -> nat
    var clock: nat

    var statuses: seq<(Bytes, bool)>
    var duplicate: bool
    var callbacks: nat
    var invalidations: seq<Str>

    var out: Target
    var err: Target
    var captured: nat
    var consoleOut: Bytes
    var consoleErr: Bytes

    constructor (py: Python, codes: set<Str>, ok: nat -> bool, room: nat -> nat)
      ensures judge == Judging(py, codes) && this.codes == codes && this.ok == ok && this.room == room
      ensures clock == 0 && Started()
    {
      judge := Judging(py, codes);
      this.codes := codes;
      this.ok := ok;
      this.room := room;
      clock, statuses, duplicate, callbacks, invalidations := 0, [], false, 0, [];
      out, err, captured, consoleOut, consoleErr := Console, Console, 0, [], [];
    }

    ghost predicate Started()
      reads this
    {
      Counted() == NOTHING && invalidations == [] && out == Console && err == Console
    }

    method Try() returns (good: bool)
      modifies `clock
      ensures good == ok(old(clock)) && clock == old(clock) + 1
    {
      good := ok(clock);
      clock := clock + 1;
    }

    // ----- What the command inside may call ----------------------------------------------------

    method StatusSink(payload: Option<Bytes>, error: Option<bool>) returns (taken: bool)
      modifies `statuses, `duplicate
      ensures taken <==> old(statuses) == [] && payload.Some? && error.Some?
      ensures taken ==> statuses == [(payload.value, error.value)] && duplicate == old(duplicate)
      ensures !taken ==> statuses == old(statuses) && duplicate
    {
      if statuses != [] {
        duplicate := true;
        return false;
      }
      if payload.None? || error.None? {
        duplicate := true;
        return false;
      }
      statuses := statuses + [(payload.value, error.value)];
      return true;
    }

    method FailureSink(callable: bool) returns (taken: bool)
      modifies `callbacks, `duplicate
      ensures taken <==> old(callbacks) == 0 && callable
      ensures taken ==> callbacks == 1 && duplicate == old(duplicate)
      ensures !taken ==> callbacks == old(callbacks) && duplicate
    {
      if callbacks != 0 || !callable {
        duplicate := true;
        return false;
      }
      callbacks := callbacks + 1;
      return true;
    }

    /** Streams 1 and 2 end in the capture; the saved copies are descriptors like any other and end on the console. */
    method Write(to: Channel, text: Bytes)
      requires out == Capture && err == Capture
      modifies `captured, `consoleOut, `consoleErr
      ensures Counted() == Step(old(Counted()), Say(to, text))
    {
      match to {
        case Stream(_) => captured := captured + |text|;
        case Saved(second) =>
          if second {
            consoleErr := consoleErr + text;
          } else {
            consoleOut := consoleOut + text;
          }
        case Elsewhere =>
      }
    }

    function Counted(): Tally
      reads this
    {
      Tally(statuses, callbacks, duplicate, captured, consoleOut, consoleErr)
    }

    /** The command runs behind the capture. */
    method Perform(actions: seq<Action>)
      requires out == Capture && err == Capture
      modifies `statuses, `duplicate, `callbacks, `captured, `consoleOut, `consoleErr
      ensures Counted() == Play(old(Counted()), actions)
    {
      var i := 0;
      while i < |actions|
        invariant 0 <= i <= |actions|
        invariant Play(Counted(), actions[i..]) == Play(old(Counted()), actions)
      {
        assert actions[i..][0] == actions[i] && actions[i..][1..] == actions[i + 1..];
        ghost var before := Counted();
        match actions[i] {
          case Emit(payload, error) => var taken := StatusSink(payload, error);
          case Register(callable) => var taken := FailureSink(callable);
          case Say(to, text) => Write(to, text);
        }
        assert Counted() == Step(before, actions[i]);
        i := i + 1;
      }
    }

    // ----- The capture -------------------------------------------------------------------------

    /** Import, run and clean up; `None` when an exception comes out. */
    method RunCaptured(inner: Inner) returns (report: Option<Report>)
      requires out == Capture && err == Capture && Counted() == NOTHING
      modifies `statuses, `duplicate, `callbacks, `captured, `consoleOut, `consoleErr
      ensures Counted() == Play(NOTHING, Done(inner))
      ensures report == Reported(codes, inner, Counted())
    {
      if inner.Breaks? {
        return None;
      }
      if inner.Refuses? {
        return Some(Report(Some(1), Rejection(codes, inner.code), true, false));
      }
      Perform(inner.actions);
      if inner.end.Raises? || !inner.cleaned {
        return None;
      }
      if |statuses| != 1 {
        return Some(Report(inner.end.code, [], true, duplicate));
      }
      return Some(Report(inner.end.code, statuses[0].0, statuses[0].1, duplicate));
    }

    /**
     * Flush, save and redirect; anything may fail, and nothing is redirected unless all that comes before
     * succeeded.
     */
    method SetUp() returns (stage: nat)
      requires out == Console && err == Console
      modifies `clock, `out, `err
      ensures stage <= 9 && (stage == 9 <==> AllOk(ok, old(clock), 9)) && (stage == 9 ==> clock == old(clock) + 9)
      ensures out == (if stage >= 8 then Capture else Console) && err == (if stage == 9 then Capture else Console)
    {
      stage := 0;
      while stage < 9
        invariant stage <= 9 && clock == old(clock) + stage && AllOk(ok, old(clock), stage)
        invariant out == (if stage >= 8 then Capture else Console) && err == (if stage == 9 then Capture else Console)
      {
        var good := Try();
        if !good {
          return;
        }
        if stage == 7 {
          out := Capture;
        } else if stage == 8 {
          err := Capture;
        }
        stage := stage + 1;
      }
    }

    /** Point the descriptors back, each if it was saved. */
    method Restore(savedOut: bool, savedErr: bool) returns (failed: bool)
      modifies `clock, `out, `err
      ensures !failed ==> (savedOut ==> out == Console) && (savedErr ==> err == Console)
      ensures savedOut && savedErr ==> (failed <==> !AllOk(ok, old(clock), 2)) && clock == old(clock) + 2
    {
      failed := false;
      if savedOut {
        var good := Try();
        if good { out := Console; } else { failed := true; }
      }
      if savedErr {
        var good := Try();
        if good { err := Console; } else { failed := true; }
      }
    }

    /** Whether anything was captured, or its size or closing could not be trusted. */
    method Extra(files: nat, suspect: bool) returns (extra: bool)
      requires files <= 2
      modifies `clock
      ensures clock == old(clock) + 2 * files
      ensures extra <==> suspect || (files > 0 && captured > 0) || !AllOk(ok, old(clock), 2 * files)
    {
      extra := suspect;
      var i := 0;
      while i < files
        invariant i <= files && clock == old(clock) + 2 * i
        invariant extra <==> suspect || (i > 0 && captured > 0) || !AllOk(ok, old(clock), 2 * i)
      {
        var sized := Try();
        extra := extra || !sized || captured > 0;
        var closed := Try();
        extra := extra || !closed;
        i := i + 1;
      }
    }

    /** Ask the registered callback to invalidate the run; without one there is nothing to invalidate. */
    method Invalidate(code: Str)
      modifies `invalidations
      ensures invalidations == old(invalidations) + Asked(Counted(), [code])
    {
      if callbacks == 1 {
        invalidations := invalidations + [code];
      } else {
        invalidations := invalidations + [];
      }
    }

    /** The write loop: all bytes go out exactly when every call takes some of what is left; a prefix always does. */
    method WriteAll(stdout: bool, payload: Bytes) returns (all: bool)
      modifies `clock, `consoleOut, `consoleErr
      ensures all <==> Sends(ok, room, old(clock), |payload|)
      ensures stdout ==> consoleErr == old(consoleErr) && Grown(old(consoleOut), consoleOut, payload, all)
      ensures !stdout ==> consoleOut == old(consoleOut) && Grown(old(consoleErr), consoleErr, payload, all)
    {
      var sent := 0;
      while sent < |payload|
        invariant 0 <= sent <= |payload|
        invariant Sends(ok, room, old(clock), |payload|) <==> Sends(ok, room, clock, |payload| - sent)
        invariant stdout ==> consoleErr == old(consoleErr) && consoleOut == old(consoleOut) + payload[..sent]
        invariant !stdout ==> consoleOut == old(consoleOut) && consoleErr == old(consoleErr) + payload[..sent]
      {
        var taken := Min(room(clock), |payload| - sent);
        var good := Try();
        var n := if good then taken else 0;
        if n <= 0 {
          return false;
        }
        assert payload[..sent + n] == payload[..sent] + payload[sent..sent + n];
        if stdout {
          consoleOut := consoleOut + payload[sent..sent + n];
        } else {
          consoleErr := consoleErr + payload[sent..sent + n];
        }
        sent := sent + n;
      }
      assert payload[..sent] == payload;
      return true;
    }

    /** The captured part: what the command reported, and whether the capture itself can be trusted. */
    method Captured(inner: Inner) returns (report: Option<Report>, failed: bool, stage: nat)
      requires Started()
      modifies `clock, `out, `err, `statuses, `duplicate, `callbacks, `captured, `consoleOut, `consoleErr
      ensures stage <= 9 && (stage == 9 <==> AllOk(ok, old(clock), 9))
      ensures Counted() == Tallied(Calls(ok, room, old(clock)), inner)
      ensures Settled(codes, report) == Handed(codes, Calls(ok, room, old(clock)), inner)
      ensures failed <==> !AllOk(ok, old(clock), 12)
      ensures !failed ==> clock == old(clock) + 12
    {
      stage := SetUp();
      failed := stage < 9;
      report := None;
      if stage == 9 {
        report := RunCaptured(inner);
        var flushed := Try();
        failed := !flushed;
      }
      var unrestored := Restore(stage >= 2, stage >= 3);
      failed := failed || unrestored;
    }

    /** And whether it can be trusted once the captured files were inspected and closed. */
    method Gathered(inner: Inner) returns (r: Report, extra: bool, stage: nat)
      requires Started()
      modifies `clock, `out, `err, `statuses, `duplicate, `callbacks, `captured, `consoleOut, `consoleErr
      ensures var calls := Calls(ok, room, old(clock));
        && Counted() == Tallied(calls, inner) && r == Handed(codes, calls, inner)
        && (extra <==> !Trusted(calls, r, Counted()))
        && (!extra ==> stage == 9 && clock == old(clock) + 16)
    {
      var report, failed;
      report, failed, stage := Captured(inner);
      r := Settled(codes, report);
      extra := Extra(if stage >= 7 then 2 else if stage == 6 then 1 else 0, failed || r.duplicate);
    }

    /** Choose what to print and whether to invalidate. `None`: the validator raised. */
    method Decide(r: Report, extra: bool) returns (said: Option<Report>)
      requires invalidations == []
      modifies `invalidations
      ensures said.None? <==> !extra && judge(r).Raised?
      ensures said.None? ==> invalidations == []
      ensures said.Some? ==> said.value == if extra then Detected(codes) else Chosen(judge, codes, r)
      ensures said.Some? ==>
        invalidations == Asked(Counted(), if extra then [OUTPUT_DETECTED] else Reasons(judge, r, true))
    {
      if extra {
        Invalidate(OUTPUT_DETECTED);
        return Some(Detected(codes));
      }
      var verdict := judge(r);
      if verdict.Raised? {
        return None;
      }
      if verdict.Refused? {
        Invalidate(CAPTURE_FAILED);
        return Some(Report(Some(1), Rejection(codes, CAPTURE_FAILED), true, false));
      }
      if r.code != Some(0) {
        Invalidate(CAPTURE_FAILED);
      }
      return Some(r);
    }

    /** Print to the saved descriptor, if there is one; a status that could not be printed invalidates. */
    method Deliver(said: Report, saved: bool) returns (exit: Exit)
      requires said.payload != []
      modifies `clock, `consoleOut, `consoleErr, `invalidations
      ensures var sent := saved && Sends(ok, room, old(clock), |said.payload|);
        && exit == Code(ExitCode(said, sent)) && Printed(old(Counted()), Snapshot(), said, sent)
        && invalidations == old(invalidations) + Asked(Counted(), if sent then [] else [CAPTURE_FAILED])
    {
      var emitted := false;
      if saved {
        emitted := WriteAll(!said.error, said.payload);
      } else {
        assert said.payload[..0] == [];
      }
      if !emitted {
        Invalidate(CAPTURE_FAILED);
      }
      exit := Code(if emitted && said.code.Some? then said.code.value else 1);
    }

    function Snapshot(): Final
      reads this
    {
      Final(consoleOut, consoleErr, invalidations)
    }

    /**
     * The whole bootstrap, from its first call on: the command inside, the answers of the system and the
     * validator settle what is printed, what is invalidated and how the process ends.
     */
    method Run(inner: Inner) returns (exit: Exit)
      requires Started() && Sensible(judge)
      modifies this
      ensures Outcome(judge, codes, Calls(ok, room, old(clock)), inner, Snapshot(), exit)
    {
      ghost var calls := Calls(ok, room, clock);
      var r, extra, stage := Gathered(inner);
      var said := Decide(r, extra);
      if said.None? {
        return Escapes;
      }
      SaidIsNotEmpty(judge, codes, r, said.value);
      var saved := if said.value.error then stage >= 3 else stage >= 2;
      ghost var sent := saved && Sends(ok, room, clock, |said.value.payload|);
      exit := Deliver(said.value, saved);
      Ended(judge, codes, calls, inner, said.value, sent, Snapshot(), exit);
    }
  }

  // ----- What the outcome means ----------------------------------------------------------------

  /** The command returned normally with one status and nothing refused or captured. */
  predicate Quiet(inner: Inner, t: Tally) {
    && inner.Runs? && inner.end.Returns? && inner.cleaned
    && |t.statuses| == 1 && !t.duplicate && t.captured == 0
  }

  lemma QuietReport(codes: set<Str>, calls: Calls, inner: Inner)
    requires var t, r := Tallied(calls, inner), Handed(codes, calls, inner);
      Trusted(calls, r, t) && inner.Runs? && r != Settled(codes, None) && r.payload != []
    ensures var t := Tallied(calls, inner);
      Quiet(inner, t) && Handed(codes, calls, inner) == Report(inner.end.code, t.statuses[0].0, t.statuses[0].1, false)
      && Emissions(inner.actions) == [AsEmission(t.statuses[0])]
  {
    NothingRefused(NOTHING, inner.actions);
  }

  lemma RejectionVerdict(py: Python, codes: set<Str>, code: Str)
    requires Codes(codes) && py.limits.Usable()
    ensures !Judging(py, codes)(Report(Some(1), Rejection(codes, code), true, false)).Raised?
  {
    var known := CodeOr(codes, code);
    RejectionClean(py.rule, known, REJECTED);
    TextFits(py, REJECTED_KEYS, [JStr(known), JStr(SCHEMA), JStr(REJECTED)]);
    LineVerdict(py, codes, RejectionDict(known, REJECTED), true, 1);
    RejectionChecks(codes, RejectionDict(known, REJECTED), known, false, true, 1);
  }

  /**
   * The bootstrap dies exactly when every call of the capture succeeded, the command was quiet and the
   * validator raises on its status: it cannot be read or dumped, or is looked up where it cannot be.
   */
  lemma EscapesIff(py: Python, codes: set<Str>, calls: Calls, inner: Inner, f: Final, exit: Exit)
    requires py.rule.Settles() && py.limits.Usable() && Codes(codes)
    requires Outcome(Judging(py, codes), codes, calls, inner, f, exit)
    ensures var t := Play(NOTHING, Done(inner));
      exit.Escapes? <==>
        && AllOk(calls.ok, calls.start, 16) && Quiet(inner, t) && inner.end.code.Some?
        && RaisesOn(py, t.statuses[0].0, t.statuses[0].1, inner.end.code.value)
    ensures exit.Escapes? ==> f.invalidations == []
  {
    var t, r := Tallied(calls, inner), Handed(codes, calls, inner);
    if exit.Escapes? {
      RejectionVerdict(py, codes, MISMATCH);
      if inner.Refuses? {
        RejectionVerdict(py, codes, inner.code);
      }
      QuietReport(codes, calls, inner);
    }
    if Quiet(inner, t) && inner.end.code.Some? {
      RaisedIff(py, codes, t.statuses[0].0, t.statuses[0].1, inner.end.code.value);
    }
  }

  /** One status, emitted once, accepted and completely printed; nothing captured, nothing invalidated. */
  ghost predicate Succeeded(judge: Judge, inner: Inner, t: Tally, f: Final) {
    && Quiet(inner, t) && inner.end.code == Some(0) && Emissions(inner.actions) == [AsEmission(t.statuses[0])]
    && judge(Report(Some(0), t.statuses[0].0, false, false)).Accepted? && !t.statuses[0].1
    && f == Final(t.out + t.statuses[0].0, t.err, [])
  }

  /** Code 0 out of the bootstrap is success in every respect, and any other code invalidated a registered run. */
  lemma ZeroIsSuccess(judge: Judge, codes: set<Str>, calls: Calls, inner: Inner, f: Final, exit: Exit)
    requires Sensible(judge) && Outcome(judge, codes, calls, inner, f, exit)
    ensures var t := Tallied(calls, inner);
      && (exit == Code(0) ==> Succeeded(judge, inner, t, f))
      && (exit.Code? && exit.n != 0 && t.callbacks == 1 ==> f.invalidations != [])
      && (exit.Code? && exit.n != 0 ==>
            f.out == t.out || (|t.statuses| == 1 && t.out < f.out < t.out + t.statuses[0].0))
  {
    var t, r := Tallied(calls, inner), Handed(codes, calls, inner);
    if Trusted(calls, r, t) && judge(r).Accepted? && r.code == Some(0) {
      QuietReport(codes, calls, inner);
      WholeOrPart(t.out, f.out, r.payload, Sends(calls.ok, calls.room, calls.start + 16, |r.payload|));
    }
  }

  /** The command emitted this once, well typed and not as an error. */
  predicate EmitsOnly(inner: Inner, p: Bytes) {
    && inner.Runs? && WellTyped(inner.actions)
    && Emissions(inner.actions) == [Emit(Some(p), Some(false))] && Registrations(inner.actions) <= 1
  }

  /** A command that deserves code 0: it came back with 0, said nothing to a stream and emitted one good status. */
  ghost predicate Deserving(judge: Judge, inner: Inner, p: Bytes) {
    && EmitsOnly(inner, p) && inner.end == Returns(Some(0)) && inner.cleaned
    && Said(inner.actions, Stream(false)) == Said(inner.actions, Stream(true)) == []
    && judge(Report(Some(0), p, false, false)).Accepted?
  }

  /** What such a command leaves to be counted. */
  lemma DeservingIff(judge: Judge, inner: Inner, p: Bytes)
    ensures Deserving(judge, inner, p) <==>
      && inner.Runs? && inner.end == Returns(Some(0)) && inner.cleaned
      && judge(Report(Some(0), p, false, false)).Accepted?
      && (var t := Play(NOTHING, inner.actions); !t.duplicate && t.captured == 0 && t.statuses == [(p, false)])
  {
    if inner.Runs? {
      var t := Play(NOTHING, inner.actions);
      PlayTells(NOTHING, inner.actions);
      RefusedIff(NOTHING, inner.actions);
      PlayKeeps(NOTHING, inner.actions);
      if !t.duplicate {
        NothingRefused(NOTHING, inner.actions);
        assert t.statuses != [] ==> t.statuses == [t.statuses[0]];
        assert Emissions(inner.actions) == [Emit(Some(p), Some(false))] ==> t.statuses == [(p, false)];
      }
    }
  }

  /** The payload of the first emission. */
  function FirstPayload(inner: Inner): Bytes {
    var e := Emissions(Done(inner));
    if e != [] && e[0].Emit? && e[0].payload.Some? then e[0].payload.value else []
  }

  lemma Earned(judge: Judge, codes: set<Str>, calls: Calls, inner: Inner, f: Final, exit: Exit)
    requires Sensible(judge) && Outcome(judge, codes, calls, inner, f, exit) && exit == Code(0)
    ensures Deserving(judge, inner, FirstPayload(inner)) && AllOk(calls.ok, calls.start, 16)
    ensures Sends(calls.ok, calls.room, calls.start + 16, |FirstPayload(inner)|)
    ensures f == Final(Said(inner.actions, Saved(false)) + FirstPayload(inner), Said(inner.actions, Saved(true)), [])
  {
    ZeroIsSuccess(judge, codes, calls, inner, f, exit);
    var t := Tallied(calls, inner);
    assert t.statuses == [t.statuses[0]];
    assert t.statuses[0] == (FirstPayload(inner), false);
    DeservingIff(judge, inner, FirstPayload(inner));
    PlayTells(NOTHING, inner.actions);
  }

  lemma Deserved(judge: Judge, codes: set<Str>, calls: Calls, inner: Inner, p: Bytes, f: Final, exit: Exit)
    requires Sensible(judge) && Outcome(judge, codes, calls, inner, f, exit)
    requires Deserving(judge, inner, p) && AllOk(calls.ok, calls.start, 16)
    requires Sends(calls.ok, calls.room, calls.start + 16, |p|)
    ensures exit == Code(0)
  {
    DeservingIff(judge, inner, p);
    AcceptedOutcome(judge, codes, calls, inner, Tallied(calls, inner), Report(Some(0), p, false, false), f, exit);
  }

  /**
   * Code 0 exactly for a deserving command under a system that lets everything through; and then the console
   * holds what the saved copies were told and the status, and no run is invalidated.
   */
  lemma ZeroIff(judge: Judge, codes: set<Str>, calls: Calls, inner: Inner, f: Final, exit: Exit)
    requires Sensible(judge) && Outcome(judge, codes, calls, inner, f, exit)
    ensures var p := FirstPayload(inner);
      && (exit == Code(0) <==>
            Deserving(judge, inner, p) && AllOk(calls.ok, calls.start, 16)
            && Sends(calls.ok, calls.room, calls.start + 16, |p|))
      && (exit == Code(0) ==>
            f == Final(Said(inner.actions, Saved(false)) + p, Said(inner.actions, Saved(true)), []))
  {
    var p := FirstPayload(inner);
    if exit == Code(0) {
      Earned(judge, codes, calls, inner, f, exit);
    } else if Deserving(judge, inner, p) && AllOk(calls.ok, calls.start, 16)
        && Sends(calls.ok, calls.room, calls.start + 16, |p|) {
      Deserved(judge, codes, calls, inner, p, f, exit);
    }
  }

  /** Any other code invalidates the run the command registered, if it got to run. */
  lemma NonZeroInvalidates(judge: Judge, codes: set<Str>, calls: Calls, inner: Inner, f: Final, exit: Exit)
    requires Sensible(judge) && Outcome(judge, codes, calls, inner, f, exit)
    requires exit.Code? && exit.n != 0 && AllOk(calls.ok, calls.start, 9) && Register(true) in Done(inner)
    ensures f.invalidations != []
  {
    RegisteredIff(NOTHING, inner.actions);
    ZeroIsSuccess(judge, codes, calls, inner, f, exit);
  }

  lemma WholeOrPart(before: Bytes, after: Bytes, payload: Bytes, all: bool)
    requires Grown(before, after, payload, all) && payload != []
    ensures if all then after == before + payload else after == before || before < after < before + payload
  {
    var n: nat :| n <= |payload| && (all <==> n == |payload|) && after == before + payload[..n];
    assert payload == payload[..n] + payload[n..];
    assert n == |payload| ==> payload[..n] == payload;
    assert n == 0 ==> after == before;
    assert before + payload == after + payload[n..];
  }

  /** A rejection for one known reason, on the error stream and with code 1. */
  ghost predicate RejectsFor(codes: set<Str>, r: Report, reason: string) {
    && r.code == Some(1) && r.error && !r.duplicate
    && Field(r.payload, "status") == Some(JStr(K("rejected")))
    && Field(r.payload, "reason_code") == Some(JStr(Known(codes, K(reason))))
  }

  /** Whatever stands for the status of a command says why. */
  lemma RejectionsSayWhy(py: Python, judge: Judge, codes: set<Str>, inner: Inner, t: Tally, r: Report)
    requires Codes(codes)
    ensures RejectsFor(codes, Detected(codes), "terminal_output_detected")
    ensures RejectsFor(codes, Settled(codes, None), "runtime_mismatch")
    ensures if judge(r).Accepted? then Chosen(judge, codes, r) == r
            else RejectsFor(codes, Chosen(judge, codes, r), "terminal_capture_failed")
    ensures inner.Refuses? ==>
      && Reported(codes, inner, t).Some?
      && Field(Reported(codes, inner, t).value.payload, "reason_code") == Some(JStr(Known(codes, inner.code)))
  {
    RejectionSays(py.rule, codes, OUTPUT_DETECTED, false, None, Rejection(codes, OUTPUT_DETECTED));
    RejectionSays(py.rule, codes, CAPTURE_FAILED, false, None, Rejection(codes, CAPTURE_FAILED));
    RejectionSays(py.rule, codes, MISMATCH, false, None, Rejection(codes, MISMATCH));
    if inner.Refuses? {
      RejectionSays(py.rule, codes, inner.code, false, None, Rejection(codes, inner.code));
    }
  }

  // ----- The status of the process -------------------------------------------------------------

  /** What `SystemExit(n)` leaves: the low byte, or 255 for an integer too wide for the C library. */
  function LowByte(n: int): int {
    if -0x8000_0000_0000_0000 <= n < 0x8000_0000_0000_0000 then n % 256 else 255
  }

  function ProcessStatus(exit: Exit): int {
    match exit
    case Code(n) => LowByte(n)
    case Escapes => 1
  }

  /** A return code that is not zero but looks like it from outside. */
  predicate Wraps(inner: Inner) {
    inner.Runs? && inner.end.Returns? && inner.end.code.Some? && inner.end.code.value != 0
      && LowByte(inner.end.code.value) == 0
  }

  /** A process status of 0 means success exactly when the command's return code does not wrap. */
  lemma StatusZeroIff(judge: Judge, codes: set<Str>, calls: Calls, inner: Inner, f: Final, exit: Exit)
    requires Sensible(judge) && Outcome(judge, codes, calls, inner, f, exit) && ProcessStatus(exit) == 0
    ensures Succeeded(judge, inner, Tallied(calls, inner), f) <==> !Wraps(inner)
  {
    ZeroIsSuccess(judge, codes, calls, inner, f, exit);
  }

  lemma PlayOne(t: Tally, a: Action)
    ensures Play(t, [a]) == Step(t, a)
    ensures Emissions([a]) == if a.Emit? then [a] else []
  {
    assert [a][1..] == [];
  }

  lemma PlayTwo(t: Tally, a: Action, b: Action)
    ensures Play(t, [a, b]) == Step(Step(t, a), b)
    ensures Emissions([a, b]) == (if a.Emit? then [a] else []) + (if b.Emit? then [b] else [])
  {
    assert [a, b][1..] == [b];
    PlayOne(Step(t, a), b);
  }

  lemma {:induction false} EscapesLength(us: seq<Unit>, rest: Bytes)
    ensures |EscapeUnits(us, rest)| <= 6 * |us| + |rest|
  {
    if us != [] {
      EscapesLength(us[1..], rest);
    }
  }

  lemma {:induction false} UnitsLength(s: Str)
    ensures |Units(s)| <= 2 * |s|
  {
    if s != [] {
      UnitsLength(s[1..]);
    }
  }

  lemma QuoteLength(s: Str, rest: Bytes)
    ensures |Quote(s, rest)| <= 12 * |s| + 2 + |rest|
  {
    UnitsLength(s);
    EscapesLength(Units(s), [34] + rest);
  }

  lemma {:induction false} TextsLength(members: seq<Member>, rest: Bytes)
    requires forall m :: m in members ==> |m.key| <= 30 && m.value.JStr? && |m.value.s| <= 30
    ensures |PrintMembers(members, rest)| <= 726 * |members| + |rest|
  {
    if members != [] {
      var tail := if |members| == 1 then rest else [44] + PrintMembers(members[1..], rest);
      TextsLength(members[1..], rest);
      QuoteLength(members[0].value.s, tail);
      QuoteLength(members[0].key, [58] + Quote(members[0].value.s, tail));
    }
  }

  lemma ZipIsShort(keys: seq<Str>, texts: seq<Str>, values: seq<Json>)
    requires |keys| == |texts| == |values| == 3
    requires forall i :: 0 <= i < 3 ==> |keys[i]| <= 30 && |texts[i]| <= 30 && values[i] == JStr(texts[i])
    ensures |Line(JObj(Zip(keys, values)))| <= MAX_STATUS_BYTES
  {
    TextsLength(Zip(keys, values), [125] + [10]);
  }

  lemma RejectionIsShort(code: Str)
    requires |code| <= 30
    ensures |Line(RejectionDict(code, REJECTED))| <= MAX_STATUS_BYTES
  {
    ZipIsShort(REJECTED_KEYS, [code, SCHEMA, REJECTED], [JStr(code), JStr(SCHEMA), JStr(REJECTED)]);
  }

  /** A rejection is accepted with any code that is not zero. */
  lemma RejectionIsAccepted(py: Python, codes: set<Str>, code: int)
    requires Codes(codes) && py.limits.Usable() && code != 0
    ensures Judging(py, codes)(Report(Some(code), Rejection(codes, MISMATCH), true, false)).Accepted?
  {
    RejectionIsShort(CodeOr(codes, MISMATCH));
    RejectionAcceptedIff(py, codes, MISMATCH, false, None, code);
  }

  /** A command that emits one rejection and returns 256. */
  function Wrapping(p: Bytes): Inner {
    Runs([Emit(Some(p), Some(true))], Returns(Some(256)), true)
  }

  lemma WrappingReport(codes: set<Str>, p: Bytes)
    ensures var t := Play(NOTHING, Wrapping(p).actions);
      && t == Tally([(p, true)], 0, false, 0, [], [])
      && Reported(codes, Wrapping(p), t) == Some(Report(Some(256), p, true, false))
  {
    PlayOne(NOTHING, Emit(Some(p), Some(true)));
  }

  lemma WrapsUnder(judge: Judge, codes: set<Str>, calls: Calls, p: Bytes, f: Final, exit: Exit)
    requires p != [] && judge(Report(Some(256), p, true, false)).Accepted?
    requires AllOk(calls.ok, calls.start, 16) && Sends(calls.ok, calls.room, calls.start + 16, |p|)
    requires Outcome(judge, codes, calls, Wrapping(p), f, exit)
    ensures exit == Code(256) && f.out == [] && f.err == [] + p
  {
    WrappingReport(codes, p);
    var inner := Wrapping(p);
    AcceptedOutcome(judge, codes, calls, inner, Tallied(calls, inner), Handed(codes, calls, inner), f, exit);
    WholeOrPart([], f.err, p, true);
  }

  /** A command that rejects with code 256 ends a process with status 0, although a rejection is all it printed. */
  lemma RejectionWraps(py: Python, codes: set<Str>, calls: Calls, p: Bytes, f: Final, exit: Exit)
    requires Codes(codes) && py.limits.Usable() && p == Rejection(codes, MISMATCH)
    requires AllOk(calls.ok, calls.start, 16) && Sends(calls.ok, calls.room, calls.start + 16, |p|)
    requires Outcome(Judging(py, codes), codes, calls, Wrapping(p), f, exit)
    ensures ProcessStatus(exit) == 0 && f.out == [] && f.err == p
  {
    RejectionIsAccepted(py, codes, 256);
    RejectionIsNotEmpty(codes, MISMATCH);
    WrapsUnder(Judging(py, codes), codes, calls, p, f, exit);
    assert [] + p == p;
  }

  /** How an accepted status ends. */
  lemma AcceptedOutcome(judge: Judge, codes: set<Str>, calls: Calls, inner: Inner, t: Tally, r: Report, f: Final,
      exit: Exit)
    requires Outcome(judge, codes, calls, inner, f, exit) && t == Tallied(calls, inner)
      && r == Handed(codes, calls, inner)
    requires Trusted(calls, r, t) && judge(r).Accepted?
    ensures var sent := Sends(calls.ok, calls.room, calls.start + 16, |r.payload|);
      && exit == Code(ExitCode(r, sent)) && Printed(t, f, r, sent)
        && f.invalidations == Asked(t, Reasons(judge, r, sent))
  {
  }

  /** A command that speaks to a saved copy of the console and then emits a status. */
  function Speaking(text: Bytes, p: Bytes): Inner {
    Runs([Say(Saved(false), text), Emit(Some(p), Some(false))], Returns(Some(0)), true)
  }

  lemma SpeakingReport(codes: set<Str>, text: Bytes, p: Bytes)
    ensures var t := Play(NOTHING, Speaking(text, p).actions);
      && t == Tally([(p, false)], 0, false, 0, text, [])
      && Reported(codes, Speaking(text, p), t) == Some(Report(Some(0), p, false, false))
  {
    PlayTwo(NOTHING, Say(Saved(false), text), Emit(Some(p), Some(false)));
    assert [] + text == text;
  }

  /** What a command tells a saved copy of the console stands before the status of a success. */
  lemma SavedCopySpeaks(judge: Judge, codes: set<Str>, calls: Calls, text: Bytes, p: Bytes, f: Final, exit: Exit)
    requires Sensible(judge) && judge(Report(Some(0), p, false, false)).Accepted?
    requires AllOk(calls.ok, calls.start, 16) && Sends(calls.ok, calls.room, calls.start + 16, |p|)
    requires Outcome(judge, codes, calls, Speaking(text, p), f, exit)
    ensures exit == Code(0) && f.out == text + p
  {
    SpeakingReport(codes, text, p);
    var inner := Speaking(text, p);
    AcceptedOutcome(judge, codes, calls, inner, Tallied(calls, inner), Handed(codes, calls, inner), f, exit);
    ZeroIsSuccess(judge, codes, calls, inner, f, exit);
  }

  /** Nothing but the status is on the console exactly when the saved copies were told nothing. */
  lemma OnlyTheStatusIff(judge: Judge, codes: set<Str>, calls: Calls, inner: Inner, f: Final, exit: Exit)
    requires Sensible(judge) && Outcome(judge, codes, calls, inner, f, exit) && exit == Code(0)
    ensures var t := Tallied(calls, inner);
      |t.statuses| == 1 && (f.out == t.statuses[0].0 && f.err == [] <==> t.out == [] && t.err == [])
  {
    ZeroIsSuccess(judge, codes, calls, inner, f, exit);
    var t := Tallied(calls, inner);
    assert |f.out| == |t.out| + |t.statuses[0].0|;
  }

  /** A command that registers its invalidator and emits a NaN kills the bootstrap, and its run is not invalidated. */
  lemma NaNEscapes(py: Python, codes: set<Str>, calls: Calls, f: Final, exit: Exit)
    requires py.limits.Usable() && AllOk(calls.ok, calls.start, 16)
    requires Outcome(Judging(py, codes), codes, calls,
                     Runs([Register(true), Emit(Some(NAN_LINE), Some(false))], Returns(Some(0)), true), f, exit)
    ensures exit == Escapes && f == Final([], [], [])
  {
    PlayTwo(NOTHING, Register(true), Emit(Some(NAN_LINE), Some(false)));
    NaNRaises(py, codes, false, 0);
  }

  // ----- The official command inside -----------------------------------------------------------

  /**
   * How the official command ends: its context was not activated, its captured run returned, or it
   * failed. The payload is missing when building it raised.
   */
  datatype Ending = NotActivated | Returned(payload: Option<Bytes>) | FailedRun(payload: Option<Bytes>)

  /** It registers its invalidator first, emits one status and returns 0 or 1 with it. */
  function Official(e: Ending): Inner {
    match e
    case NotActivated => Runs([], Returns(Some(1)), true)
    case Returned(None) => Runs([Register(true)], Raises, true)
    case FailedRun(None) => Runs([Register(true)], Raises, true)
    case Returned(Some(p)) => Runs([Register(true), Emit(Some(p), Some(false))], Returns(Some(0)), true)
    case FailedRun(Some(p)) => Runs([Register(true), Emit(Some(p), Some(true))], Returns(Some(1)), true)
  }

  /** Its payloads come from its emitters, of whatever size and with whatever marker the emitters let through. */
  ghost predicate FromEmitters(limits: Limits, codes: set<Str>, e: Ending) {
    match e
    case Returned(Some(p)) => EmittedSuccess(limits, p) || EmittedAwaiting(p)
    case FailedRun(Some(p)) => exists code, failed, marker: Option<Str> ::
      RejectionOutput(codes, code, failed, marker) == Some(p)
    case _ => true
  }

  function Reports(e: Ending): Option<Report> {
    match e
    case NotActivated => Some(Report(Some(1), [], true, false))
    case Returned(None) => None
    case FailedRun(None) => None
    case Returned(Some(p)) => Some(Report(Some(0), p, false, false))
    case FailedRun(Some(p)) => Some(Report(Some(1), p, true, false))
  }

  lemma OfficialReport(codes: set<Str>, e: Ending)
    ensures var t := Play(NOTHING, Official(e).actions);
      && Reported(codes, Official(e), t) == Reports(e)
      && t.callbacks == (if e.NotActivated? then 0 else 1) && t.captured == 0 && t.out == t.err == []
  {
    var actions := Official(e).actions;
    if |actions| == 1 {
      PlayOne(NOTHING, actions[0]);
    } else if |actions| == 2 {
      PlayTwo(NOTHING, actions[0], actions[1]);
    }
  }

  /** What an emitter produces is at worst refused. */
  lemma EmittersNeverRaise(py: Python, codes: set<Str>, e: Ending)
    requires py.limits.Usable() && Codes(codes) && FromEmitters(py.limits, codes, e) && !e.NotActivated?
      && e.payload.Some?
    ensures var code := if e.FailedRun? then 1 else 0;
      !Judging(py, codes)(Report(Some(code), e.payload.value, e.FailedRun?, false)).Raised?
  {
    var p := e.payload.value;
    if |p| <= MAX_STATUS_BYTES {
      if e.FailedRun? {
        var code, failed, marker: Option<Str> :| RejectionOutput(codes, code, failed, marker) == Some(p);
        RejectionAcceptedIff(py, codes, code, failed, marker, 1);
      } else {
        EmittedIsAccepted(py, codes, p, false, 0);
      }
    }
  }

  /** The bootstrap hands on the code of the official command or 1, when the validator does not raise. */
  lemma OfficialCode(judge: Judge, codes: set<Str>, calls: Calls, e: Ending, f: Final, exit: Exit)
    requires Outcome(judge, codes, calls, Official(e), f, exit)
    requires !judge(Settled(codes, None)).Raised? && !judge(Settled(codes, Reports(e))).Raised?
    ensures exit == Code(0) || exit == Code(1)
  {
    OfficialReport(codes, e);
  }

  lemma OfficialStatus(judge: Judge, e: Ending, t: Tally, f: Final)
    requires Succeeded(judge, Official(e), t, f) && t.out == t.err == []
    ensures e.Returned? && e.payload == Some(f.out) && f.err == [] && f.invalidations == []
  {
    var actions := Official(e).actions;
    if e.Returned? && e.payload.Some? {
      PlayTwo(NOTHING, actions[0], actions[1]);
      assert Emissions(actions)[0] == AsEmission(t.statuses[0]);
      assert t.out + t.statuses[0].0 == t.statuses[0].0;
    }
  }

  /** Under any sensible validator: code 0 is the run's own status on the console, any other code invalidates. */
  lemma OfficialAgreement(judge: Judge, codes: set<Str>, calls: Calls, e: Ending, f: Final, exit: Exit)
    requires Sensible(judge) && Outcome(judge, codes, calls, Official(e), f, exit)
    ensures exit == Code(0) ==> e.Returned? && e.payload == Some(f.out) && f.err == [] && f.invalidations == []
    ensures exit.Code? && exit.n != 0 && AllOk(calls.ok, calls.start, 9) && !e.NotActivated? ==> f.invalidations != []
  {
    OfficialReport(codes, e);
    ZeroIsSuccess(judge, codes, calls, Official(e), f, exit);
    if exit == Code(0) {
      OfficialStatus(judge, e, Tallied(calls, Official(e)), f);
    }
  }

  /** The two layers agree on the exit code, what is printed and what is invalidated. */
  predicate Agree(calls: Calls, e: Ending, f: Final, exit: Exit) {
    && exit.Code? && (ProcessStatus(exit) == 0 <==> exit == Code(0))
    && (exit == Code(0) ==> e.Returned? && e.payload == Some(f.out) && f.err == [] && f.invalidations == [])
    && (exit != Code(0) && AllOk(calls.ok, calls.start, 9) && !e.NotActivated? ==> f.invalidations != [])
  }

  lemma OfficialExitUnder(judge: Judge, codes: set<Str>, calls: Calls, e: Ending, f: Final, exit: Exit)
    requires Sensible(judge) && Outcome(judge, codes, calls, Official(e), f, exit)
    requires !judge(Settled(codes, None)).Raised? && !judge(Settled(codes, Reports(e))).Raised?
    ensures Agree(calls, e, f, exit)
  {
    OfficialCode(judge, codes, calls, e, f, exit);
    OfficialAgreement(judge, codes, calls, e, f, exit);
  }

  /**
   * Under the official command the bootstrap never dies, process status 0 means its run returned and its own
   * status is all there is on the console, and any other status invalidated the run it registered.
   */
  lemma OfficialExit(py: Python, codes: set<Str>, calls: Calls, e: Ending, f: Final, exit: Exit)
    requires Codes(codes) && py.limits.Usable() && FromEmitters(py.limits, codes, e)
    requires Outcome(Judging(py, codes), codes, calls, Official(e), f, exit)
    ensures Agree(calls, e, f, exit)
  {
    NothingRaises(py, codes, e);
    JudgingIsSensible(py, codes);
    OfficialExitUnder(Judging(py, codes), codes, calls, e, f, exit);
  }

  lemma NothingRaises(py: Python, codes: set<Str>, e: Ending)
    requires Codes(codes) && py.limits.Usable() && FromEmitters(py.limits, codes, e)
    ensures !Judging(py, codes)(Settled(codes, None)).Raised? && !Judging(py, codes)(Settled(codes, Reports(e))).Raised?
  {
    RejectionVerdict(py, codes, MISMATCH);
    if !e.NotActivated? && e.payload.Some? {
      EmittersNeverRaise(py, codes, e);
    }
  }
}
