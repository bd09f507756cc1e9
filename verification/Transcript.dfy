/** The drain thread of `_terminal.py`: one pipe read chunk by chunk, with bounded retention. */
module Transcript {
  import opened Common

  const MAX_TRANSCRIPT_BYTES: nat := 2 * 1024 * 1024

  // "\n...[terminal transcript truncated]...\n"
  const TRUNCATED: Bytes :=
    [10, 46, 46, 46, 91, 116, 101, 114, 109, 105, 110, 97, 108, 32, 116, 114, 97, 110, 115, 99, 114,
     105, 112, 116, 32, 116, 114, 117, 110, 99, 97, 116, 101, 100, 93, 46, 46, 46, 10]

  const RETAINED_LIMIT: nat := MAX_TRANSCRIPT_BYTES - |TRUNCATED|

  /** One turn of the drain loop. `Read([])` is end of file. */
  datatype DrainEvent =
    | StopRequested
    | NotReady
    | Interrupted
    | WouldBlock
    | Read(data: Bytes)
    | Fault

  /** How the loop ended; `Running` when the thread is still waiting after the last event. */
  datatype Ending = EndOfFile | Stopped | Faulted | Running

  predicate Ends(e: DrainEvent) {
    e.StopRequested? || e.Fault? || (e.Read? && e.data == [])
  }

  function DataOf(e: DrainEvent): Bytes {
    if e.Read? then e.data else []
  }

  /** The bytes the pipe delivered before the loop ended. */
  function Stream(events: seq<DrainEvent>): Bytes {
    if events == [] || Ends(events[0]) then []
    else DataOf(events[0]) + Stream(events[1..])
  }

  function EndingOf(events: seq<DrainEvent>): Ending {
    if events == [] then Running
    else match events[0]
      case StopRequested => Stopped
      case Fault => Faulted
      case Read(data) => if data == [] then EndOfFile else EndingOf(events[1..])
      case _ => EndingOf(events[1..])
  }

  /** One turn moves the data of an event from what is still to come to what was received. */
  lemma Advance(received: Bytes, events: seq<DrainEvent>, i: nat)
    requires i < |events|
    ensures Ends(events[i]) ==> received + Stream(events[i..]) == received
    ensures Ends(events[i]) ==> EndingOf(events[i..]) == EndingOf([events[i]])
    ensures !Ends(events[i]) ==>
              received + Stream(events[i..]) == received + DataOf(events[i]) + Stream(events[i + 1..])
    ensures !Ends(events[i]) ==> EndingOf(events[i..]) == EndingOf(events[i + 1..])
  {
    assert events[i..][0] == events[i] && events[i..][1..] == events[i + 1..];
    if !Ends(events[i]) {
      assert Stream(events[i..]) == DataOf(events[i]) + Stream(events[i + 1..]);
    }
  }

  /** What a whole stream leaves behind: its bounded prefix, marked when something was dropped. */
  function PayloadOf(stream: Bytes): Bytes {
    if |stream| <= RETAINED_LIMIT then stream else stream[..RETAINED_LIMIT] + TRUNCATED
  }

  lemma PayloadIsBounded(stream: Bytes)
    ensures |PayloadOf(stream)| <= MAX_TRANSCRIPT_BYTES
    ensures PayloadOf(stream) == [] <==> stream == []
    ensures stream[..Min(|stream|, RETAINED_LIMIT)] <= PayloadOf(stream)
    ensures |stream| > RETAINED_LIMIT ==>
      && |PayloadOf(stream)| == MAX_TRANSCRIPT_BYTES
      && PayloadOf(stream)[RETAINED_LIMIT..] == TRUNCATED
    ensures |stream| <= RETAINED_LIMIT ==> |PayloadOf(stream)| == |stream|
  {
    assert RETAINED_LIMIT == 2097113;
    assert PayloadOf(stream)[..Min(|stream|, RETAINED_LIMIT)] == stream[..Min(|stream|, RETAINED_LIMIT)];
  }

  /** Events that carry no data never change what is retained, wherever they fall. */
  lemma {:induction false} IdleTurnsAreInvisible(before: seq<DrainEvent>, idle: DrainEvent, after: seq<DrainEvent>)
    requires idle.NotReady? || idle.Interrupted? || idle.WouldBlock?
    ensures Stream(before + [idle] + after) == Stream(before + after)
    ensures EndingOf(before + [idle] + after) == EndingOf(before + after)
  {
    if before == [] {
      assert ([idle] + after)[1..] == after;
      assert [] + [idle] + after == [idle] + after && [] + after == after;
    } else {
      assert (before + [idle] + after)[1..] == before[1..] + [idle] + after;
      assert (before + after)[1..] == before[1..] + after;
      IdleTurnsAreInvisible(before[1..], idle, after);
    }
  }

  /** Splitting one read into two, at any point that is not an end, is invisible as well. */
  lemma {:induction false} ChunkingIsInvisible(before: seq<DrainEvent>, a: Bytes, b: Bytes, after: seq<DrainEvent>)
    requires a != [] && b != []
    ensures Stream(before + [Read(a), Read(b)] + after) == Stream(before + [Read(a + b)] + after)
    ensures EndingOf(before + [Read(a), Read(b)] + after) == EndingOf(before + [Read(a + b)] + after)
  {
    if before == [] {
      var two, one := [Read(a), Read(b)] + after, [Read(a + b)] + after;
      assert [] + [Read(a), Read(b)] + after == two && [] + [Read(a + b)] + after == one;
      assert two[1..][1..] == after && one[1..] == after;
      assert two[1..][0] == Read(b);
      assert Stream(two) == a + (b + Stream(after));
      assert Stream(one) == (a + b) + Stream(after);
    } else {
      assert (before + [Read(a), Read(b)] + after)[1..] == before[1..] + [Read(a), Read(b)] + after;
      assert (before + [Read(a + b)] + after)[1..] == before[1..] + [Read(a + b)] + after;
      ChunkingIsInvisible(before[1..], a, b, after);
    }
  }

  function Reads(chunks: seq<Bytes>): seq<DrainEvent> {
    seq(|chunks|, i requires 0 <= i < |chunks| => Read(chunks[i]))
  }

  /** Chunk after chunk arrives until the loop ends, and what ends it is reported. */
  lemma {:induction false} EverythingArrives(chunks: seq<Bytes>, last: DrainEvent)
    requires (forall i :: 0 <= i < |chunks| ==> chunks[i] != []) && Ends(last)
    ensures Stream(Reads(chunks) + [last]) == Concat(chunks)
    ensures EndingOf(Reads(chunks) + [last]) ==
      if last.StopRequested? then Stopped else if last.Fault? then Faulted else EndOfFile
    ensures EndingOf(Reads(chunks)) == Running
  {
    if chunks != [] {
      EverythingArrives(chunks[1..], last);
      assert (Reads(chunks) + [last])[1..] == Reads(chunks[1..]) + [last];
      assert Reads(chunks)[1..] == Reads(chunks[1..]);
    }
  }

  class BoundedTranscript {
    var chunks: seq<Bytes>
    var retainedBytes: nat
    var truncated: bool
    var failed: bool
    ghost var received: Bytes

    ghost predicate Valid()
      reads this
    {
      && retainedBytes == |Concat(chunks)|
      && Concat(chunks) == received[..Min(|received|, RETAINED_LIMIT)]
      && (truncated <==> |received| > RETAINED_LIMIT)
    }

    constructor ()
      ensures Valid() && received == [] && !failed
    {
      chunks, retainedBytes, truncated, failed, received := [], 0, false, false, [];
    }

    /** The arms of one read: keep what fits, note what does not. */
    method Retain(chunk: Bytes)
      requires Valid()
      modifies this
      ensures Valid() && received == old(received) + chunk && failed == old(failed)
    {
      var available := Max(0, RETAINED_LIMIT - retainedBytes);
      if available > 0 {
        var retained := if |chunk| <= available then chunk else chunk[..available];
        ConcatSnoc(chunks, retained);
        chunks := chunks + [retained];
        retainedBytes := retainedBytes + |retained|;
      }
      if |chunk| > available {
        truncated := true;
      }
      received := received + chunk;
    }

    method Drain(events: seq<DrainEvent>) returns (ending: Ending)
      requires Valid() && received == [] && !failed
      modifies this
      ensures Valid() && received == Stream(events)
      ensures ending == EndingOf(events)
      ensures failed <==> ending.Stopped? || ending.Faulted?
    {
      var i := 0;
      ending := Running;
      assert events[0..] == events;
      while i < |events|
        invariant 0 <= i <= |events|
        invariant Valid() && !failed && ending.Running?
        invariant received + Stream(events[i..]) == Stream(events)
        invariant EndingOf(events[i..]) == EndingOf(events)
      {
        Advance(received, events, i);
        match events[i] {
          case StopRequested =>
            failed := true;
            return Stopped;
          case Fault =>
            failed := true;
            return Faulted;
          case Read(data) =>
            if data == [] {
              return EndOfFile;
            }
            Retain(data);
          case _ =>
            assert received + [] == received;
        }
        i := i + 1;
      }
      assert events[i..] == [];
    }

    /** `retained_payload`: its own bound check never fires. */
    method RetainedPayload() returns (payload: Option<Bytes>)
      requires Valid()
      ensures payload == Some(PayloadOf(received))
    {
      var joined := Concat(chunks);
      if truncated {
        joined := joined + TRUNCATED;
      }
      PayloadIsBounded(received);
      assert joined == PayloadOf(received);
      if |joined| > MAX_TRANSCRIPT_BYTES {
        payload := None;
      } else {
        payload := Some(joined);
      }
    }
  }

  /** One answer of `os.write`. */
  datatype WriteAnswer = Accepted(count: int) | WriteInterrupted | WriteError

  /** The call took something, or was interrupted and is retried. */
  predicate Goes(a: WriteAnswer, retry: bool) {
    match a
    case Accepted(count) => count > 0
    case WriteInterrupted => retry
    case WriteError => false
  }

  /** How many bytes the calls take, up to the first that ends the loop. */
  function Capacity(answers: seq<WriteAnswer>, retry: bool): nat {
    if answers == [] || !Goes(answers[0], retry) then 0
    else (if answers[0].Accepted? then answers[0].count else 0) + Capacity(answers[1..], retry)
  }

  predicate AllGo(answers: seq<WriteAnswer>, retry: bool) {
    forall k :: 0 <= k < |answers| ==> Goes(answers[k], retry)
  }

  /** Retrying makes interruptions invisible, wherever they fall. */
  lemma {:induction false} InterruptionsAreInvisible(a: seq<WriteAnswer>, b: seq<WriteAnswer>)
    ensures Capacity(a + [WriteInterrupted] + b, true) == Capacity(a + b, true)
  {
    if a == [] {
      assert [] + [WriteInterrupted] + b == [WriteInterrupted] + b && ([WriteInterrupted] + b)[1..] == b && [] + b == b;
    } else {
      assert (a + [WriteInterrupted] + b)[1..] == a[1..] + [WriteInterrupted] + b && (a + b)[1..] == a[1..] + b;
      InterruptionsAreInvisible(a[1..], b);
    }
  }

  /** How delivery ended; `Blocked` when the descriptor gave no further answer. */
  datatype Delivery = Delivered | Refused | Blocked

  /**
   * `write_all` (when `retry`) and the bootstrap's `_write_all` (when not): an interrupted call is
   * retried by the first and ends the second. `sent` is what reached the descriptor.
   */
  method WriteAll(payload: Bytes, answers: seq<WriteAnswer>, retry: bool) returns (result: Delivery, sent: Bytes)
    ensures result.Delivered? <==> Capacity(answers, retry) >= |payload|
    ensures result.Blocked? <==> Capacity(answers, retry) < |payload| && AllGo(answers, retry)
    ensures sent == payload[..Min(Capacity(answers, retry), |payload|)]
  {
    var remaining := payload;
    sent := [];
    var i := 0;
    while remaining != [] && i < |answers|
      invariant 0 <= i <= |answers|
      invariant sent + remaining == payload
      invariant AllGo(answers[..i], retry)
      invariant if remaining == [] then Capacity(answers, retry) >= |payload|
                else Capacity(answers, retry) == |sent| + Capacity(answers[i..], retry)
    {
      assert answers[i..][0] == answers[i] && answers[i..][1..] == answers[i + 1..];
      match answers[i] {
        case WriteInterrupted =>
          if !retry {
            return Refused, sent;
          }
        case WriteError =>
          return Refused, sent;
        case Accepted(count) =>
          if count <= 0 {
            return Refused, sent;
          }
          // The operating system never takes more than it was offered.
          var taken := Min(count, |remaining|);
          sent := sent + remaining[..taken];
          remaining := remaining[taken..];
      }
      i := i + 1;
    }
    assert i == |answers| ==> answers[..i] == answers && answers[i..] == [];
    result := if remaining == [] then Delivered else Blocked;
  }
}
