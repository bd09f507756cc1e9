/**
 * Preregistration before outcomes. The executor is arbitrary: it may register and begin outcomes in any
 * order, as often as it likes, and swallow what is raised at it.
 */
module Preregistration {
  import opened Common
  import opened Vocabulary

  /** A row by its content, and a selection by its object identity. */
  type Row = int
  type Selection = int

  /** What has been made durable, and the outcome boundary, in order. */
  datatype Event = RowsSealed(rows: seq<Row>) | SelectionSealed(selection: Selection) | OutcomesBegun

  /** One call of the executor; `None` for malformed rows or no selection, and which store writes succeed. */
  datatype Call =
    | Register(rows: Option<seq<Row>>, selection: Option<Selection>, rowsWrite: bool, selectionWrite: bool,
      swallowed: bool)
    | Begin(swallowed: bool)

  datatype Evidence = Evidence(mode: Mode, rows: seq<Row>, selection: Selection)

  datatype End = Returns(evidence: Evidence) | Raises

  type Gate = (seq<Row>, Option<Selection>) -> bool

  // ----- What the calls of an executor amount to -----------------------------------------------

  /** Nothing sealed, nothing sealed any more, or rows and selection sealed and the boundary crossed or not. */
  datatype Progress = Fresh | Poisoned | Done(rows: seq<Row>, selection: Selection, begun: bool)

  /** Complete rows the predecessor gate accepts. */
  predicate Presentable(gate: Gate, c: Call) {
    c.Register? && c.rows.Some? && |c.rows.value| == POPULATION && gate(c.rows.value, c.selection)
  }

  /** And both receipts can be written. */
  predicate Sealing(gate: Gate, c: Call) {
    Presentable(gate, c) && c.rowsWrite && c.selection.Some? && c.selectionWrite
  }

  /** A call that does not raise. */
  predicate Succeeds(gate: Gate, p: Progress, c: Call) {
    match c
    case Register(_, _, _, _, _) => p.Fresh? && Sealing(gate, c)
    case Begin(_) => p.Done? && !p.begun
  }

  function Next(gate: Gate, p: Progress, c: Call): Progress {
    if Succeeds(gate, p, c) then
      if c.Begin? then p.(begun := true) else Done(c.rows.value, c.selection.value, false)
    else if p.Fresh? && Presentable(gate, c) then Poisoned
    else p
  }

  /** How far the calls come; `None` when one raises out of the executor. */
  function Replay(gate: Gate, p: Progress, calls: seq<Call>): Option<Progress>
    decreases calls
  {
    if calls == [] then Some(p)
    else if Succeeds(gate, p, calls[0]) || calls[0].swallowed then Replay(gate, Next(gate, p, calls[0]), calls[1..])
    else None
  }

  /** Nothing that comes later changes what is sealed. */
  lemma {:induction false} SealedStays(gate: Gate, p: Progress, calls: seq<Call>)
    requires p.Done? && Replay(gate, p, calls).Some?
    ensures var q := Replay(gate, p, calls).value;
      q.Done? && q.rows == p.rows && q.selection == p.selection
      && (q.begun <==> p.begun || exists i :: 0 <= i < |calls| && calls[i].Begin?)
    decreases calls
  {
    if calls != [] {
      SealedStays(gate, Next(gate, p, calls[0]), calls[1..]);
      assert forall i :: 0 <= i < |calls[1..]| ==> calls[1..][i] == calls[i + 1];
      if i :| 0 <= i < |calls| && calls[i].Begin? {
        assert i > 0 ==> calls[1..][i - 1].Begin?;
      }
    }
  }

  /** The first `n` calls: each raises, is swallowed and spoils nothing. */
  predicate Harmless(gate: Gate, calls: seq<Call>, n: nat)
    requires n <= |calls|
  {
    forall i :: 0 <= i < n ==> calls[i].swallowed && !Presentable(gate, calls[i])
  }

  /** Calls after it: more registrations are swallowed, and so is every crossing but the first. */
  predicate Orderly(begun: bool, calls: seq<Call>)
    decreases calls
  {
    calls == []
    || ((calls[0].swallowed || (calls[0].Begin? && !begun)) && Orderly(begun || calls[0].Begin?, calls[1..]))
  }

  lemma {:induction false} OrderlyIff(gate: Gate, p: Progress, calls: seq<Call>)
    requires p.Done?
    ensures Orderly(p.begun, calls) <==> Replay(gate, p, calls).Some?
    decreases calls
  {
    if calls != [] {
      OrderlyIff(gate, Next(gate, p, calls[0]), calls[1..]);
    }
  }

  /** Rows and selection are sealed by call `i`. */
  predicate SealedBy(gate: Gate, calls: seq<Call>, i: nat, rows: seq<Row>, selection: Selection) {
    && i < |calls| && Sealing(gate, calls[i]) && calls[i].rows == Some(rows) && calls[i].selection == Some(selection)
    && Harmless(gate, calls, i) && Orderly(false, calls[i + 1..])
  }

  /**
   * An executor that does not raise has sealed exactly when one of its calls presents complete accepted rows and
   * both receipts are written, nothing before it spoiled the store, and nothing after it asked for more.
   */
  lemma {:induction false} SealedIff(gate: Gate, calls: seq<Call>, rows: seq<Row>, selection: Selection)
    ensures (exists i: nat :: SealedBy(gate, calls, i, rows, selection)) <==>
      Seals(Replay(gate, Fresh, calls), rows, selection)
    decreases calls
  {
    if calls != [] {
      var c, rest := calls[0], calls[1..];
      if Sealing(gate, c) {
        OrderlyIff(gate, Next(gate, Fresh, c), rest);
        SealsFirst(gate, calls, rows, selection);
        if Replay(gate, Fresh, calls).Some? {
          SealedStays(gate, Next(gate, Fresh, c), rest);
        }
      } else if Presentable(gate, c) {
        StaysPoisoned(gate, rest);
      } else {
        SealedIff(gate, rest, rows, selection);
        SealsLater(gate, calls, rows, selection);
      }
    }
  }

  lemma SealsFirst(gate: Gate, calls: seq<Call>, rows: seq<Row>, selection: Selection)
    requires calls != [] && Sealing(gate, calls[0])
    ensures (exists i: nat :: SealedBy(gate, calls, i, rows, selection)) <==> SealedBy(gate, calls, 0, rows, selection)
  {
  }

  lemma SealsLater(gate: Gate, calls: seq<Call>, rows: seq<Row>, selection: Selection)
    requires calls != [] && !Presentable(gate, calls[0])
    ensures (exists i: nat :: SealedBy(gate, calls, i, rows, selection)) <==>
      calls[0].swallowed && exists i: nat :: SealedBy(gate, calls[1..], i, rows, selection)
  {
    var c, rest := calls[0], calls[1..];
    if i: nat :| SealedBy(gate, calls, i, rows, selection) {
      assert calls[i + 1..] == rest[i..];
      assert SealedBy(gate, rest, i - 1, rows, selection);
    }
    if c.swallowed && exists i: nat :: SealedBy(gate, rest, i, rows, selection) {
      var i: nat :| SealedBy(gate, rest, i, rows, selection);
      assert calls[i + 2..] == rest[i + 1..];
      assert SealedBy(gate, calls, i + 1, rows, selection);
    }
  }

  lemma {:induction false} StaysPoisoned(gate: Gate, calls: seq<Call>)
    ensures Replay(gate, Poisoned, calls).Some? ==> Replay(gate, Poisoned, calls) == Some(Poisoned)
    decreases calls
  {
    if calls != [] {
      StaysPoisoned(gate, calls[1..]);
    }
  }

  // ----- The store and the runner --------------------------------------------------------------

  /** The result store as far as it matters here: write-once receipts, and poison on any raise. */
  class Store {
    var rows: Option<seq<Row>>
    var selection: Option<Selection>
    var poisoned: bool
    ghost var log: seq<Event>

    constructor ()
      ensures rows == None && selection == None && !poisoned && log == []
    {
      rows, selection, poisoned, log := None, None, false, [];
    }

    method WriteEligibilityLedger(content: seq<Row>, written: bool) returns (ok: bool)
      modifies this
      ensures ok <==> !old(poisoned) && old(rows).None? && written
      ensures ok ==> rows == Some(content) && log == old(log) + [RowsSealed(content)] && !poisoned
      ensures !ok ==> rows == old(rows) && log == old(log) && poisoned
      ensures selection == old(selection)
    {
      if poisoned || rows.Some? || !written {
        poisoned := true;
        return false;
      }
      rows := Some(content);
      log := log + [RowsSealed(content)];
      return true;
    }

    method WriteQualification(chosen: Option<Selection>, written: bool) returns (ok: bool)
      modifies this
      ensures ok <==> !old(poisoned) && old(rows).Some? && old(selection).None? && chosen.Some? && written
      ensures ok ==> selection == chosen && log == old(log) + [SelectionSealed(chosen.value)] && !poisoned
      ensures !ok ==> selection == old(selection) && log == old(log) && poisoned
      ensures rows == old(rows)
    {
      if poisoned || rows.None? || selection.Some? || chosen.None? || !written {
        poisoned := true;
        return false;
      }
      selection := chosen;
      log := log + [SelectionSealed(chosen.value)];
      return true;
    }

    ghost method Cross()
      modifies `log
      ensures log == old(log) + [OutcomesBegun]
    {
      log := log + [OutcomesBegun];
    }
  }

  class Runner {
    const store: Store
    const mode: Mode
    /** The predecessor gate, built before the executor runs. */
    const gate: Gate
    var registeredRows: Option<seq<Row>>
    var registeredSelection: Option<Selection>
    var outcomesStarted: bool

    constructor (store: Store, mode: Mode, gate: Gate)
      requires store.rows == None && store.selection == None && !store.poisoned && store.log == []
      ensures this.store == store && this.mode == mode && this.gate == gate
      ensures Ordered() && !outcomesStarted && Reached() == Fresh
    {
      this.store := store;
      this.mode := mode;
      this.gate := gate;
      registeredRows, registeredSelection, outcomesStarted := None, None, false;
    }

    /** What was sealed, and in which order, after any number of calls. */
    ghost predicate Ordered()
      reads this, store
    {
      && (registeredRows.None? ==>
           && registeredSelection.None? && !outcomesStarted && store.selection.None?
           && store.log == (if store.rows.Some? then [RowsSealed(store.rows.value)] else [])
           && (store.rows.Some? ==> store.poisoned))
      && (registeredRows.Some? ==>
           && registeredSelection.Some?
           && |registeredRows.value| == POPULATION && gate(registeredRows.value, registeredSelection)
           && store.rows == registeredRows && store.selection == registeredSelection
           && store.log == Sealed(registeredRows.value, registeredSelection.value)
             + (if outcomesStarted then [OutcomesBegun] else []))
    }

    function Reached(): Progress
      requires registeredRows.Some? ==> registeredSelection.Some?
      reads this, store
    {
      if registeredRows.Some? then Done(registeredRows.value, registeredSelection.value, outcomesStarted)
      else if store.poisoned then Poisoned
      else Fresh
    }

    /** Seal rows and selection once, behind the gate. */
    method Preregister(rows: Option<seq<Row>>, selection: Option<Selection>, rowsWrite: bool, selectionWrite: bool)
      returns (ok: bool)
      requires Ordered()
      modifies this`registeredRows, this`registeredSelection, store
      ensures Ordered()
      ensures ok <==>
        && old(registeredRows).None? && !old(store.poisoned)
        && rows.Some? && |rows.value| == POPULATION && gate(rows.value, selection) && selection.Some?
        && rowsWrite && selectionWrite
      ensures ok ==> registeredRows == rows && registeredSelection == selection
      ensures old(store.poisoned) ==> store.poisoned
      ensures !ok ==> registeredRows == old(registeredRows) && registeredSelection == old(registeredSelection)
      ensures forall swallowed :: var c := Register(rows, selection, rowsWrite, selectionWrite, swallowed);
        (ok <==> Succeeds(gate, old(Reached()), c)) && Reached() == Next(gate, old(Reached()), c)
    {
      if registeredRows.Some? {
        return false;
      }
      if rows.None? || |rows.value| != POPULATION {
        return false;
      }
      if !gate(rows.value, selection) {
        return false;
      }
      ok := store.WriteEligibilityLedger(rows.value, rowsWrite);
      if !ok {
        return false;
      }
      ok := store.WriteQualification(selection, selectionWrite);
      if !ok {
        return false;
      }
      registeredRows := rows;
      registeredSelection := selection;
    }

    /** Cross the outcome boundary once, behind the seal. */
    method BeginOutcomes() returns (ok: bool)
      requires Ordered()
      modifies this`outcomesStarted, store`log
      ensures Ordered()
      ensures ok <==> old(registeredRows).Some? && !old(outcomesStarted)
      ensures outcomesStarted <==> ok || old(outcomesStarted)
      ensures forall swallowed ::
        (ok <==> Succeeds(gate, old(Reached()), Begin(swallowed)))
        && Reached() == Next(gate, old(Reached()), Begin(swallowed))
    {
      if registeredRows.None? || registeredSelection.None? {
        return false;
      }
      if outcomesStarted {
        return false;
      }
      outcomesStarted := true;
      store.Cross();
      return true;
    }

    /** An executor: its calls one after the other, each raising out of it unless it swallows. */
    method Execute(calls: seq<Call>, end: End) returns (evidence: Option<Evidence>)
      requires Ordered()
      modifies this, store
      ensures Ordered()
      ensures var q := Replay(gate, old(Reached()), calls);
        && evidence == (if q.Some? && end.Returns? then Some(end.evidence) else None)
        && (q.Some? ==> Reached() == q.value)
    {
      var i := 0;
      while i < |calls|
        invariant 0 <= i <= |calls|
        invariant Ordered()
        invariant Replay(gate, Reached(), calls[i..]) == Replay(gate, old(Reached()), calls)
      {
        assert calls[i..][0] == calls[i] && calls[i..][1..] == calls[i + 1..];
        var ok: bool;
        match calls[i] {
          case Register(rows, selection, rowsWrite, selectionWrite, _) =>
            ok := Preregister(rows, selection, rowsWrite, selectionWrite);
          case Begin(_) =>
            ok := BeginOutcomes();
        }
        if !ok && !calls[i].swallowed {
          return None;
        }
        i := i + 1;
      }
      return if end.Raises? then None else Some(end.evidence);
    }

    /**
     * Run an executor and check its evidence. Whatever it did, a run that goes on has sealed its rows and
     * its selection exactly once behind the gate, before any outcome, crossed into outcomes at most once,
     * and carries exactly those rows and that selection.
     */
    method Prepare(calls: seq<Call>, end: End) returns (evidence: Option<Evidence>)
      requires Ordered() && store.log == []
      modifies this, store
      ensures evidence.Some? ==> Preregistered(evidence.value, mode, gate, store.log)
      ensures evidence.Some? ==> (OutcomesBegun in store.log <==> outcomesStarted)
      ensures evidence.Some? <==>
        && end.Returns? && end.evidence.mode == mode
        && Seals(Replay(gate, old(Reached()), calls), end.evidence.rows, end.evidence.selection)
      ensures evidence.Some? ==> evidence.value == end.evidence
    {
      evidence := Execute(calls, end);
      if evidence.None? {
        return None;
      }
      if evidence.value.mode != mode {
        return None;
      }
      if registeredRows.None? || registeredSelection != Some(evidence.value.selection)
        || evidence.value.rows != registeredRows.value {
        return None;
      }
    }
  }

  predicate Seals(q: Option<Progress>, rows: seq<Row>, selection: Selection) {
    q.Some? && q.value.Done? && q.value.rows == rows && q.value.selection == selection
  }

  function Sealed(rows: seq<Row>, selection: Selection): seq<Event> {
    [RowsSealed(rows), SelectionSealed(selection)]
  }

  /** Evidence equal to what was sealed, and a log that seals once and in order. */
  ghost predicate Preregistered(e: Evidence, mode: Mode, gate: Gate, log: seq<Event>) {
    && e.mode == mode && |e.rows| == POPULATION && gate(e.rows, Some(e.selection))
    && (log == Sealed(e.rows, e.selection) || log == Sealed(e.rows, e.selection) + [OutcomesBegun])
  }
}
