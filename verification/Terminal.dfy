/**
 * `capture_terminal` of `_terminal.py`: descriptors 1 and 2 are isolated around a callback, an
 * optional commit runs once the capture is proven clean, and the descriptors are restored or sealed.
 *
 * Every operating-system call consumes one answer of a script, so a script is a fault pattern and a
 * contract stated for all scripts holds under every pattern. Other threads may write to descriptors
 * 1 and 2 during any call.
 */
module Terminal {
  import opened Common
  import opened Transcript

  datatype Target = Original(stream: nat) | PipeWriter | PipeReader | NullDevice

  datatype Entry = Entry(target: Target, inheritable: bool)

  type Table = map<nat, Entry>

  /**
   * What one call meets: whether it fails, whether a failing close still closes, what other threads
   * write to streams 1 and 2 meanwhile, and, when the wait for the drain thread fails, whether the
   * thread ends and how much of the pipe it has read.
   */
  datatype Answer = Answer(fails: bool, closesAnyway: bool, noise1: Bytes, noise2: Bytes, exits: bool, drained: nat)

  /** A callback: what it writes, which streams it closes, and its value (`None` when it raises). */
  datatype Behaviour<+V> = Behaviour(value: Option<V>, out1: Bytes, out2: Bytes, closes1: bool, closes2: bool)

  /** Descriptors 1 and 2 cannot reach a stream the process started with. */
  ghost predicate Isolated(t: Table) {
    && (1 in t ==> !t[1].target.Original?)
    && (2 in t ==> !t[2].target.Original?)
  }

  ghost predicate NoWriter(t: Table) {
    forall d :: d in t ==> !t[d].target.PipeWriter?
  }

  predicate HasWriter(t: Table) {
    exists d :: d in t && t[d].target.PipeWriter?
  }

  ghost predicate Extends(a: Table, b: Table) {
    forall d :: d in a ==> d in b && b[d] == a[d]
  }

  ghost predicate SameExcept(a: Table, b: Table, changed: set<nat>) {
    forall d :: d !in changed ==> ((d in a <==> d in b) && (d in a ==> a[d] == b[d]))
  }

  lemma ExtendsDespite(a: Table, b: Table, c: Table, changed: set<nat>)
    requires Extends(a, b) && SameExcept(b, c, changed) && changed !! a.Keys
    ensures Extends(a, c)
  {
  }

  /** Everything but the two streams and what was dropped is still there. */
  ghost predicate Keeps(a: Table, b: Table, dropped: set<nat>) {
    forall d :: d in a && d != 1 && d != 2 && d !in dropped ==> d in b && b[d] == a[d]
  }

  lemma KeepsTrans(a: Table, b: Table, c: Table, x: set<nat>, y: set<nat>)
    requires Keeps(a, b, x) && Keeps(b, c, y)
    ensures Keeps(a, c, x + y)
  {
  }

  ghost predicate SameAt(a: Table, b: Table, d: nat) {
    (d in a <==> d in b) && (d in a ==> a[d] == b[d])
  }

  ghost predicate NoNewWriters(a: Table, b: Table) {
    forall d :: InPipe(b, d) ==> InPipe(a, d)
  }

  /** What a descriptor is bound to. */
  function At(t: Table, d: nat): Option<Entry> {
    if d in t then Some(t[d]) else None
  }

  function One(d: Option<nat>): set<nat> {
    if d.Some? then {d.value} else {}
  }

  /** A descriptor that is not one of the two streams. */
  function Freed(d: Option<nat>): set<nat> {
    if d.Some? && d.value != 1 && d.value != 2 then {d.value} else {}
  }

  /** The ends of a drained pipe that are closed: a stuck drain thread keeps the read end. */
  function Drops(ends: (nat, nat), stuck: Option<nat>): set<nat> {
    if stuck.Some? then {ends.1} else {ends.0, ends.1}
  }

  function Two(pair: Option<(nat, nat)>): set<nat> {
    if pair.Some? then {pair.value.0, pair.value.1} else {}
  }

  predicate OnTerminal(t: Table, d: nat) {
    d in t && t[d].target.Original?
  }

  predicate InPipe(t: Table, d: nat) {
    d in t && t[d].target.PipeWriter?
  }

  /** Both streams still reach what the process started with. */
  predicate Open(t: Table) {
    OnTerminal(t, 1) && OnTerminal(t, 2)
  }

  /** Nothing but these descriptors writes to the pipe. */
  ghost predicate WritersIn(t: Table, allowed: set<nat>) {
    forall d :: d in t && t[d].target.PipeWriter? ==> d in allowed
  }

  /** What arrives from `b1` written to stream 1 and `b2` to stream 2 where only the given ones count. */
  function Mixed(b1: Bytes, b2: Bytes, one: bool, two: bool): Bytes {
    (if one then b1 else []) + (if two then b2 else [])
  }

  /** `before`, and what other threads write to the given streams during `n` calls from `c` on. */
  function Heard(s: nat -> Answer, c: nat, n: nat, one: bool, two: bool, before: Bytes): (r: Bytes)
    ensures !one && !two ==> r == before
    decreases n, c
  {
    if n == 0 then before
    else Heard(s, c + 1, n - 1, one, two, before + Mixed(s(c).noise1, s(c).noise2, one, two))
  }

  lemma {:induction false} HeardGrows(s: nat -> Answer, c: nat, n: nat, one: bool, two: bool, before: Bytes)
    ensures before <= Heard(s, c, n, one, two, before)
    decreases n
  {
    if n > 0 {
      HeardGrows(s, c + 1, n - 1, one, two, before + Mixed(s(c).noise1, s(c).noise2, one, two));
    }
  }

  /** Two stretches of calls heard one after the other. */
  lemma {:induction false} HeardOn(s: nat -> Answer, c: nat, m: nat, n: nat, one: bool, two: bool, before: Bytes)
    ensures Heard(s, c + m, n, one, two, Heard(s, c, m, one, two, before)) == Heard(s, c, m + n, one, two, before)
    decreases m
  {
    if m > 0 {
      HeardOn(s, c + 1, m - 1, n, one, two, before + Mixed(s(c).noise1, s(c).noise2, one, two));
    }
  }

  /** The descriptor the system hands out: the lowest unused number. */
  function LowestUnused(t: Table, from: nat): (d: nat)
    ensures d !in t && d >= from && forall k :: from <= k < d ==> k in t
    decreases |set k | k in t && k >= from|
  {
    if from !in t then from
    else
      var above := set k | k in t && k >= from + 1;
      var all := set k | k in t && k >= from;
      assert from in all && from !in above && above <= all;
      SmallerSet(above, all);
      LowestUnused(t, from + 1)
  }

  lemma SmallerSet(a: set<nat>, b: set<nat>)
    requires a < b
    ensures |a| < |b|
  {
    assert b == a + (b - a);
    assert b - a != {};
  }

  /** How many of the first `n` calls from `c` on succeed before one fails. */
  function Faultless(s: nat -> Answer, c: nat, n: nat): (k: nat)
    ensures k <= n
    decreases n, c
  {
    if n == 0 || s(c).fails then 0 else 1 + Faultless(s, c + 1, n - 1)
  }

  lemma {:induction false} FaultlessSplits(s: nat -> Answer, c: nat, m: nat, n: nat)
    ensures Faultless(s, c, m + n) == if Faultless(s, c, m) < m then Faultless(s, c, m) else m + Faultless(s, c + m, n)
    decreases m
  {
    if m > 0 {
      FaultlessSplits(s, c + 1, m - 1, n);
    }
  }

  /** One of the four preparing calls fails, and so does the close of the read end right after it. */
  predicate PrepareLeaks(s: nat -> Answer, c: nat) {
    var prepared := Faultless(s, c, 4);
    prepared < 4 && s(c + prepared + 1).fails
  }

  /** The write end is lost exactly when the pipe was made and its preparation leaks. */
  predicate WriterLeaks(s: nat -> Answer, c: nat) {
    !s(c).fails && PrepareLeaks(s, c + 1)
  }

  /** A single fault never loses a descriptor. */
  lemma LeakNeedsTwoFaultsInARow(s: nat -> Answer, c: nat)
    requires WriterLeaks(s, c)
    ensures exists k: nat :: c < k <= c + 4 && s(k).fails && s(k + 1).fails
  {
    FirstFault(s, c + 1, 4);
    var k := c + 1 + Faultless(s, c + 1, 4);
    assert s(k).fails && s(k + 1).fails;
  }

  lemma {:induction false} FirstFault(s: nat -> Answer, c: nat, n: nat)
    requires Faultless(s, c, n) < n
    ensures s(c + Faultless(s, c, n)).fails
    decreases n
  {
    if !s(c).fails {
      FirstFault(s, c + 1, n - 1);
    }
  }

  /** A pattern that loses the write end: the first flag and then the close of the read end fail. */
  lemma LeakHappens(s: nat -> Answer)
    requires forall n :: s(n).fails <==> n == 11 || n == 12
    ensures Faultless(s, 0, 2) == 2 && Faultless(s, 2, 8) == 8 && WriterLeaks(s, 10)
  {
    FaultFree(s, 0, 2);
    FaultFree(s, 2, 8);
    assert Faultless(s, 11, 4) == 0;
  }

  lemma {:induction false} FaultFree(s: nat -> Answer, c: nat, n: nat)
    ensures Faultless(s, c, n) == n <==> forall k :: c <= k < c + n ==> !s(k).fails
    decreases n
  {
    if n > 0 {
      FaultFree(s, c + 1, n - 1);
    }
  }

  // ----- What a fault pattern decides --------------------------------------------------------

  /** The callback runs exactly when the eighteen calls before it succeed. */
  predicate Started(s: nat -> Answer, c: nat) {
    Faultless(s, c, 18) == 18
  }

  /** Nor does one of the seven calls between the callback and the commit fail. */
  predicate CleanToGate(s: nat -> Answer, c: nat) {
    Faultless(s, c, 25) == 25
  }

  /**
   * From here to `AtGate`, `a` is the first call after the callback: it flushes, the next one opens the
   * sink, and the two after that, if there is a sink, put it in place of the streams.
   */
  predicate SinkOpens(s: nat -> Answer, a: nat) {
    !s(a + 1).fails
  }

  /** The streams a callback closes. */
  function Shut<V>(b: Behaviour<V>): set<nat> {
    (if b.closes1 then {1} else {}) + if b.closes2 then {2} else {}
  }

  /** A sink that is a stream stays. */
  function Kept(sink: Option<nat>): Option<nat> {
    if sink in {Some(1), Some(2)} then sink else None
  }

  /** The sink takes the number of a stream the callback closed. */
  function KeptSink<V>(s: nat -> Answer, a: nat, b: Behaviour<V>): Option<nat> {
    if !SinkOpens(s, a) then None else if b.closes1 then Some(1) else if b.closes2 then Some(2) else None
  }

  /**
   * Where sealing leaves stream `d`, bound to `before` once the callback returned: at the sink, with its own
   * inheritability, unless there is no sink or its own call fails. A sink under its number is there anyway.
   */
  function Sunk(s: nat -> Answer, a: nat, d: nat, kept: Option<nat>, before: Option<Entry>, inherit: bool)
    : Option<Entry>
  {
    if !SinkOpens(s, a) then before
    else if !s(a + 1 + d).fails then Some(Entry(NullDevice, inherit))
    else if kept == Some(d) then Some(Entry(NullDevice, false))
    else before
  }

  /** A stream in the pipe after a callback that may have closed it. */
  function Left<V>(b: Behaviour<V>, d: nat, inherit: bool): Option<Entry> {
    if d in Shut(b) then None else Some(Entry(PipeWriter, inherit))
  }

  /** Stream `d`, whose inheritability is `inherit`, after callback and sealing. */
  function Muted<V>(s: nat -> Answer, a: nat, b: Behaviour<V>, d: nat, inherit: bool): Option<Entry> {
    Sunk(s, a, d, KeptSink(s, a, b), Left(b, d, inherit), inherit)
  }

  lemma MutedIs<V>(s: nat -> Answer, a: nat, b: Behaviour<V>, t: Table, sink: Option<nat>, d: nat)
    requires d in {1, 2} && InPipe(t, d) && Kept(sink) == KeptSink(s, a, b)
    ensures Sunk(s, a, d, sink, At(t - Shut(b), d), t[d].inheritable) == Muted(s, a, b, d, t[d].inheritable)
  {
    assert t[d] == Entry(PipeWriter, t[d].inheritable);
  }

  /** And after a commit, if one runs. */
  function MutedStill<V>(s: nat -> Answer, a: nat, b: Behaviour<V>, commit: Option<Behaviour<()>>, runs: bool, d: nat,
                         inherit: bool): Option<Entry>
  {
    if commit.Some? && runs && d in Shut(commit.value) then None else Muted(s, a, b, d, inherit)
  }

  /** The call that closes the write end. */
  function WriterCloseAt(s: nat -> Answer, a: nat): nat {
    a + if SinkOpens(s, a) then 4 else 2
  }

  /** A stream that was in the pipe was not moved to the sink. */
  predicate StreamLeft(s: nat -> Answer, a: nat, one: bool, two: bool) {
    (one && (!SinkOpens(s, a) || s(a + 2).fails)) || (two && (!SinkOpens(s, a) || s(a + 3).fails))
  }

  /** The drain thread, waited for after call `w` closes the write end, comes to its end. */
  predicate DrainEnds(s: nat -> Answer, w: nat, left: bool) {
    (!s(w + 1).fails && !left && (!s(w).fails || s(w).closesAnyway)) || s(w + 1).exits
  }

  /** The pipe's contents at the commit when no call since the callback's start, when it held `before`, fails. */
  function Drained<V>(s: nat -> Answer, a: nat, b: Behaviour<V>, before: Bytes): Bytes {
    Moved(s, a, !b.closes1, !b.closes2, before + (b.out1 + b.out2))
  }

  /** Four calls later stream 1 is no longer in the pipe while stream 2 is moved. */
  function Moved(s: nat -> Answer, a: nat, one: bool, two: bool, before: Bytes): Bytes {
    Heard(s, a + 3, 1, false, two, Heard(s, a, 3, one, two, before))
  }

  /** The pipe's contents when the callback starts: stream 1 is already in it while stream 2 is redirected. */
  function AtStart(s: nat -> Answer, c: nat): Bytes {
    Heard(s, c + 17, 1, true, false, [])
  }

  /** The whole stream behind the transcript of a clean capture. */
  function AtGate<V>(s: nat -> Answer, c: nat, b: Behaviour<V>): Bytes {
    Drained(s, c + 18, b, AtStart(s, c))
  }

  /** An empty transcript is that of a silent callback. */
  lemma SilentAtGate<V>(s: nat -> Answer, c: nat, b: Behaviour<V>)
    requires AtGate(s, c, b) == []
    ensures b.out1 == b.out2 == []
  {
    var before := AtStart(s, c) + (b.out1 + b.out2);
    HeardGrows(s, c + 18, 3, !b.closes1, !b.closes2, before);
    HeardGrows(s, c + 21, 1, false, !b.closes2, Heard(s, c + 18, 3, !b.closes1, !b.closes2, before));
  }

  /** A capture that got as far as its pipe: the call that closes the write end. */
  function ReleaseAt(s: nat -> Answer, c: nat): nat {
    var k := Faultless(s, c, 18);
    if k == 18 then WriterCloseAt(s, c + 18) else if k == 17 then c + 19 else c + k + 1
  }

  /**
   * And whether a stream still writes to the pipe then; a redirected stream is closed when the other could not
   * be moved.
   */
  predicate StillWriting<V>(s: nat -> Answer, c: nat, b: Behaviour<V>) {
    var k := Faultless(s, c, 18);
    if k == 18 then StreamLeft(s, c + 18, !b.closes1, !b.closes2)
    else k == 17 && s(c + 18).fails && !s(c + 18).closesAnyway
  }

  /** The drain thread never ends and keeps the read end. */
  predicate Stuck<V>(s: nat -> Answer, c: nat, b: Behaviour<V>) {
    Faultless(s, c, 18) >= 15 && !DrainEnds(s, ReleaseAt(s, c), StillWriting(s, c, b))
  }

  /** The first restoring call. */
  function RestoreAt<V>(s: nat -> Answer, c: nat, b: Behaviour<V>): nat {
    ReleaseAt(s, c) + if Stuck(s, c, b) then 2 else 3
  }

  /** The streams among those to be restored, from call `g` on, whose restoring call fails. */
  function BrokenAt(s: nat -> Answer, g: nat, out: bool, err: bool): set<nat> {
    (if out && s(g).fails then {1} else {}) + (if err && s(g + 1).fails then {2} else {})
  }

  function Broken<V>(s: nat -> Answer, c: nat, b: Behaviour<V>): set<nat> {
    BrokenAt(s, RestoreAt(s, c, b), Faultless(s, c, 18) >= 17, Started(s, c))
  }

  /** How many descriptors are closed at the end. */
  function Closes(sink: Option<nat>, restore: Option<(nat, nat)>): nat {
    (if sink.Some? && sink.value != 1 && sink.value != 2 then 1 else 0) + (if restore.Some? then 2 else 0)
  }

  /** The terminal after the streams were restored by calls `g` and `g + 1`, and `closes` more. */
  function HeardAgain(s: nat -> Answer, g: nat, closes: nat, before: Bytes): Bytes {
    Heard(s, g + 2, closes, !s(g).fails, !s(g + 1).fails, Heard(s, g + 1, 1, !s(g).fails, false, before))
  }

  /** The terminal's contents when the callback starts: only stream 2 still reaches it while it is redirected. */
  function ScreenAtStart(s: nat -> Answer, c: nat, before: Bytes): Bytes {
    Heard(s, c + 17, 1, false, true, Heard(s, c, 17, true, true, before))
  }

  /** How many descriptors a capture closes after its callback ran. */
  function ClosesAfter<V>(s: nat -> Answer, a: nat, b: Behaviour<V>): nat {
    if !SinkOpens(s, a) || KeptSink(s, a, b).Some? then 2 else 3
  }

  /**
   * How many calls follow the commit when every call succeeds: two to restore, three to close, less a sink that
   * stays.
   */
  function CallsLeft<V>(b: Behaviour<V>, seal: bool): nat {
    (if seal then 0 else 2) + if b.closes1 || b.closes2 then 2 else 3
  }

  predicate Clean<V>(s: nat -> Answer, c: nat, b: Behaviour<V>, seal: bool) {
    Faultless(s, c, 25 + CallsLeft(b, seal)) == 25 + CallsLeft(b, seal)
  }

  /** The terminal after a capture whose callback ran: nothing from its start to the restoring of the streams. */
  function OnScreen<V>(s: nat -> Answer, c: nat, b: Behaviour<V>, seal: bool, before: Bytes): Bytes {
    if seal then ScreenAtStart(s, c, before)
    else HeardAgain(s, RestoreAt(s, c, b), ClosesAfter(s, c + 18, b), ScreenAtStart(s, c, before))
  }

  /** The commit runs: for a callback that returned and was silent, before any fault. */
  predicate Committing<V>(s: nat -> Answer, c: nat, b: Behaviour<V>, commit: Option<Behaviour<()>>) {
    commit.Some? && CleanToGate(s, c) && b.value.Some? && AtGate(s, c, b) == []
  }

  /** A clean capture has a clean start, and a clean end needs a clean gate. */
  lemma CleanEarlier<V>(s: nat -> Answer, c: nat, b: Behaviour<V>, seal: bool)
    ensures CleanToGate(s, c) ==> Started(s, c)
    ensures Clean(s, c, b, seal) ==> CleanToGate(s, c)
  {
    FaultlessSplits(s, c, 18, 7);
    FaultlessSplits(s, c, 25, CallsLeft(b, seal));
  }

  /** From the first call after the callback on. */
  lemma CleanLater<V>(s: nat -> Answer, c: nat, b: Behaviour<V>, seal: bool)
    requires Started(s, c)
    ensures CleanToGate(s, c) <==> Faultless(s, c + 18, 7) == 7
    ensures Clean(s, c, b, seal) <==> Faultless(s, c + 18, 7 + CallsLeft(b, seal)) == 7 + CallsLeft(b, seal)
  {
    FaultlessSplits(s, c, 18, 7);
    FaultlessSplits(s, c, 18, 7 + CallsLeft(b, seal));
  }

  /** With seven clean calls behind it the end of a capture is as long as its sink makes it. */
  lemma CleanEnding<V>(s: nat -> Answer, a: nat, b: Behaviour<V>, seal: bool, g: nat)
    requires Faultless(s, a, 7) == 7
    requires DrainEnds(s, a + 4, StreamLeft(s, a, !b.closes1, !b.closes2)) ==> g == a + 7
    ensures var n := (if seal then 0 else 2) + ClosesAfter(s, a, b);
      Faultless(s, a, 7 + CallsLeft(b, seal)) == 7 + CallsLeft(b, seal)
      <==> Faultless(s, g, n) == n
  {
    SevenCalls(s, a, !b.closes1, !b.closes2);
    FaultFree(s, a, 7);
    FaultlessSplits(s, a, 7, CallsLeft(b, seal));
  }

  /** The first of three calls opens the sink. */
  lemma OpenFirst(s: nat -> Answer, c: nat, one: bool, two: bool, before: Bytes)
    ensures Faultless(s, c, 3) == 3 <==> !s(c).fails && Faultless(s, c + 1, 2) == 2
    ensures Heard(s, c, 2, one, two, before) == Heard(s, c + 1, 1, one, two, Heard(s, c, 1, one, two, before))
  {
    FaultlessSplits(s, c, 1, 2);
    HeardOn(s, c, 1, 1, one, two, before);
  }

  /** The first of four calls flushes. */
  lemma FlushFirst(s: nat -> Answer, a: nat, one: bool, two: bool, before: Bytes)
    ensures Faultless(s, a, 4) == 4 <==> !s(a).fails && Faultless(s, a + 1, 3) == 3
    ensures Moved(s, a, one, two, before)
         == Heard(s, a + 3, 1, false, two, Heard(s, a + 1, 2, one, two, Heard(s, a, 1, one, two, before)))
  {
    FaultlessSplits(s, a, 1, 3);
    HeardOn(s, a, 1, 2, one, two, before);
  }

  /** The seven calls between callback and commit: a flush, three for the sink, three for the drain. */
  lemma SevenCalls(s: nat -> Answer, a: nat, one: bool, two: bool)
    ensures Faultless(s, a, 7) == 7 <==> Faultless(s, a, 4) == 4 && Faultless(s, a + 4, 3) == 3
    ensures Faultless(s, a, 4) == 4 ==> SinkOpens(s, a) && !StreamLeft(s, a, one, two)
  {
    FaultlessSplits(s, a, 4, 3);
    FaultFree(s, a, 4);
  }

  /** Without a fault the drain thread ends and both streams come back. */
  lemma TroubleNeedsAFault<V>(s: nat -> Answer, c: nat, b: Behaviour<V>)
    ensures CleanToGate(s, c) ==> !Stuck(s, c, b) && RestoreAt(s, c, b) == c + 25
    ensures Clean(s, c, b, false) ==> Broken(s, c, b) == {}
  {
    CleanEarlier(s, c, b, false);
    FaultFree(s, c, 25);
    FaultFree(s, c, 25 + CallsLeft(b, false));
  }

  /** What the redirection stage got hold of before it finished or failed. */
  datatype Setup = Setup(status: Option<(nat, nat)>, restore: Option<(nat, nat)>, pipe: Option<(nat, nat)>,
                         out: bool, err: bool)

  ghost predicate Bound(t: Table, d: nat, e: Entry) {
    d in t && t[d] == e
  }

  /** Two new descriptors holding copies of streams 1 and 2. */
  ghost predicate Copies(pair: (nat, nat), t0: Table, t: Table)
    requires 1 in t0 && 2 in t0
  {
    && pair.0 !in t0 && pair.1 !in t0 && pair.0 != pair.1
    && Bound(t, pair.0, Entry(t0[1].target, false)) && Bound(t, pair.1, Entry(t0[2].target, false))
  }

  ghost predicate Apart(a: (nat, nat), b: (nat, nat)) {
    a.0 != b.0 && a.0 != b.1 && a.1 != b.0 && a.1 != b.1
  }

  ghost predicate CopiesHeld(s: Setup, t0: Table, t: Table)
    requires 1 in t0 && 2 in t0
  {
    && (s.status.Some? ==> Copies(s.status.value, t0, t))
    && (s.restore.Some? ==> s.status.Some? && Copies(s.restore.value, t0, t) && Apart(s.restore.value, s.status.value))
    && (forall d :: d in t0 && d != 1 && d != 2 ==> Bound(t, d, t0[d]))
  }

  ghost predicate PipeHeld(s: Setup, t0: Table, t: Table) {
    s.pipe.Some? ==>
      && s.status.Some? && s.restore.Some?
      && s.pipe.value.0 !in t0 && s.pipe.value.1 !in t0 && s.pipe.value.0 != s.pipe.value.1
      && Apart(s.pipe.value, s.status.value) && Apart(s.pipe.value, s.restore.value)
      && Bound(t, s.pipe.value.0, Entry(PipeReader, false)) && Bound(t, s.pipe.value.1, Entry(PipeWriter, false))
      && WritersIn(t, {1, 2, s.pipe.value.1})
  }

  ghost predicate StreamsHeld(s: Setup, t0: Table, t: Table)
    requires 1 in t0 && 2 in t0
  {
    && (s.out ==> s.pipe.Some?)
    && (s.err ==> s.out)
    && Bound(t, 1, if s.out then Entry(PipeWriter, t0[1].inheritable) else t0[1])
    && Bound(t, 2, if s.err then Entry(PipeWriter, t0[2].inheritable) else t0[2])
  }

  ghost predicate Held(s: Setup, t0: Table, t: Table)
    requires 1 in t0 && 2 in t0
  {
    CopiesHeld(s, t0, t) && PipeHeld(s, t0, t) && StreamsHeld(s, t0, t)
  }

  lemma HeldLonger(s: Setup, t0: Table, t1: Table, t2: Table)
    requires 1 in t0 && 2 in t0 && Held(s, t0, t1) && s.pipe.None? && Extends(t1, t2)
    ensures Held(s, t0, t2)
  {
  }

  lemma HeldWithPipe(s: Setup, t0: Table, t1: Table, ends: (nat, nat), t2: Table)
    requires 1 in t0 && 2 in t0 && Held(s, t0, t1) && s.restore.Some? && s.pipe.None?
    requires Extends(t1, t2) && ends.0 !in t1 && ends.1 !in t1 && ends.0 != ends.1
    requires Bound(t2, ends.0, Entry(PipeReader, false)) && Bound(t2, ends.1, Entry(PipeWriter, false))
    requires WritersIn(t2, {ends.1})
    ensures Held(s.(pipe := Some(ends)), t0, t2)
  {
    var r := s.(pipe := Some(ends));
    assert StreamsHeld(r, t0, t2);
    assert PipeHeld(r, t0, t2);
    assert CopiesHeld(r, t0, t2);
  }

  lemma HeldRerouted(s: Setup, t0: Table, t1: Table, out: bool, err: bool, t2: Table)
    requires 1 in t0 && 2 in t0 && Held(s, t0, t1) && s.pipe.Some? && !s.out
    requires SameExcept(t1, t2, {1, 2}) && (err ==> out)
    requires Bound(t2, 1, if out then Entry(PipeWriter, t0[1].inheritable) else t0[1])
    requires Bound(t2, 2, if err then Entry(PipeWriter, t0[2].inheritable) else t0[2])
    ensures Held(s.(out := out, err := err), t0, t2)
  {
    var r := s.(out := out, err := err);
    assert CopiesHeld(r, t0, t2);
    assert PipeHeld(r, t0, t2);
  }

  /** Everything the stage opened and still has to close or hand over. */
  function Opened(s: Setup): set<nat> {
    Two(s.status) + Two(s.restore) + Two(s.pipe)
  }

  datatype Primary = CallbackRaised | CommitRaised | CaptureFailed | OutputDetected

  /** `Escaped`: the streams could not be inspected and nothing was touched. */
  datatype Outcome<+T> =
    | Returned(value: T, status: (nat, nat))
    | Failed(primary: Primary, transcript: Bytes, status: (nat, nat))
    | CaptureUnavailable
    | Escaped

  function StatusOf<T>(o: Outcome<T>): Option<(nat, nat)> {
    if o.Returned? || o.Failed? then Some(o.status) else None
  }

  /** The descriptors a caller receives with an outcome. */
  function HandedOver<T>(o: Outcome<T>): set<nat> {
    Two(StatusOf(o))
  }

  /** How far a capture got once everything but the streams was unwound; `committed` is the commit's outcome. */
  datatype Unwound<+T> =
    Unwound(value: Option<T>, failed: bool, transcript: Bytes, committed: Option<bool>, sink: Option<nat>)

  /** The choice of outcome at the end of `capture_terminal`. */
  function Conclude<T>(status: Option<(nat, nat)>, u: Unwound<T>, failed: bool, started: bool): Outcome<T> {
    if status.None? then CaptureUnavailable
    else if started && u.value.None? then Failed(CallbackRaised, u.transcript, status.value)
    else if u.committed == Some(false) then Failed(CommitRaised, u.transcript, status.value)
    else if (failed && u.committed.None?) || u.value.None? then Failed(CaptureFailed, u.transcript, status.value)
    else if u.transcript != [] then Failed(OutputDetected, u.transcript, status.value)
    else Returned(u.value.value, status.value)
  }

  /** What a caller may rely on afterwards: its status copies, and every descriptor but the two streams. */
  ghost predicate Intact(s: Setup, t0: Table, t: Table)
    requires 1 in t0 && 2 in t0
  {
    && (s.status.Some? ==> Copies(s.status.value, t0, t))
    && (forall d :: d in t0 && d != 1 && d != 2 ==> Bound(t, d, t0[d]))
  }

  ghost predicate AllOriginal(t: Table) {
    forall d :: d in t ==> t[d].target.Original?
  }

  /** Both streams are what they were, except those whose restoring call failed: they stay silent. */
  ghost predicate Restored(t0: Table, t: Table, broken: set<nat>)
    requires 1 in t0 && 2 in t0
  {
    && (if 1 in broken then !OnTerminal(t, 1) else Bound(t, 1, t0[1]))
    && (if 2 in broken then !OnTerminal(t, 2) else Bound(t, 2, t0[2]))
  }

  lemma HeldDespite(s: Setup, t0: Table, t1: Table, t2: Table, dropped: set<nat>)
    requires 1 in t0 && 2 in t0 && CopiesHeld(s, t0, t1) && Keeps(t1, t2, dropped)
    requires dropped == {} || (PipeHeld(s, t0, t1) && dropped <= Two(s.pipe))
    ensures CopiesHeld(s, t0, t2)
  {
  }

  /** A sink is none of the descriptors a capture holds, and none of the process's but a stream's. */
  ghost predicate Aside(sink: Option<nat>, s: Setup, t0: Table) {
    sink.Some? ==> sink.value !in Two(s.status) + Two(s.restore) && (sink.value in {1, 2} || sink.value !in t0)
  }

  lemma ReleaseKeeps(s: Setup, t0: Table, t1: Table, t2: Table, sink: Option<nat>, broken: set<nat>)
    requires 1 in t0 && 2 in t0 && CopiesHeld(s, t0, t1) && Aside(sink, s, t0)
    requires Keeps(t1, t2, Freed(sink) + Two(s.restore)) && SameAt(t1, t2, 1) && SameAt(t1, t2, 2)
    ensures Intact(s, t0, t2)
    ensures Restored(t0, t1, broken) ==> Restored(t0, t2, broken)
    ensures Isolated(t1) ==> Isolated(t2)
  {
  }

  /** What is held once both streams are in the pipe is what the callback needs. */
  lemma ReadyToRun(s: Setup, t0: Table, t: Table)
    requires 1 in t0 && 2 in t0 && Held(s, t0, t) && s.err
    ensures Prepared(s.pipe.value, t) && InPipe(t, 1) && InPipe(t, 2)
    ensures s.pipe.value.0 in Opened(s) && s.pipe.value.1 in Opened(s) && 1 !in Opened(s) && 2 !in Opened(s)
  {
  }

  /** And what is left after the callback is what unwinding needs. */
  lemma ReadyToUnwind(s: Setup, t0: Table, t1: Table, sink: Option<nat>, stuck: Option<nat>)
    requires 1 in t0 && 2 in t0 && Held(s, t0, t1) && s.err
    requires sink.Some? ==> sink.value !in Opened(s) && (sink.value in {1, 2} || sink.value !in t1)
    requires stuck in {None, Some(s.pipe.value.0)}
    ensures Aside(sink, s, t0) && Drops(s.pipe.value, stuck) <= Two(s.pipe)
    ensures var owed := Opened(s) + One(sink) - Drops(s.pipe.value, stuck);
      && Two(s.restore) <= owed && (sink.Some? ==> sink.value in owed)
      && owed - Freed(sink) - Two(s.restore) == Two(s.status) + One(stuck) + One(Kept(sink))
  {
  }

  /** Who still writes to the pipe once its own write end is closed, or not. */
  lemma WritersLeft(t1: Table, t2: Table, w: nat)
    requires WritersIn(t1, {1, 2, w}) && w !in {1, 2} && InPipe(t1, w) && (t2 == t1 || t2 == t1 - {w})
    ensures NoWriter(t2) <==> !InPipe(t1, 1) && !InPipe(t1, 2) && t2 == t1 - {w}
  {
    assert InPipe(t1, 1) ==> InPipe(t2, 1);
    assert InPipe(t1, 2) ==> InPipe(t2, 2);
    assert t2 == t1 ==> InPipe(t2, w);
  }

  /** A pipe ready to be drained: nothing but its own write end and the two streams writes to it. */
  ghost predicate Prepared(ends: (nat, nat), t: Table) {
    && ends.0 !in {1, 2, ends.1} && ends.1 !in {1, 2}
    && Bound(t, ends.0, Entry(PipeReader, false)) && Bound(t, ends.1, Entry(PipeWriter, false))
    && WritersIn(t, {1, 2, ends.1})
  }

  lemma SinkAdded(t: Table, sink: nat)
    requires sink !in t
    ensures var after := t[sink := Entry(NullDevice, false)];
      && Keeps(t, after, {}) && NoNewWriters(t, after) && (Isolated(t) ==> Isolated(after))
      && (InPipe(after, 1) <==> InPipe(t, 1)) && (InPipe(after, 2) <==> InPipe(t, 2))
  {
  }

  lemma PreparedStill(ends: (nat, nat), t0: Table, t1: Table)
    requires Prepared(ends, t0) && Keeps(t0, t1, {}) && NoNewWriters(t0, t1)
    ensures Prepared(ends, t1)
  {
    forall d | d in t1 && t1[d].target.PipeWriter?
      ensures d in {1, 2, ends.1}
    {
      assert InPipe(t1, d);
    }
  }

  /** The lowest unused number is that of the first stream the callback closed, if it closed one. */
  lemma SinkNumber<V>(t: Table, b: Behaviour<V>, sink: Option<nat>)
    requires 0 in t && 1 in t && 2 in t
    requires sink.Some? ==> sink.value !in t - Shut(b) && forall k: nat :: k < sink.value ==> k in t - Shut(b)
    ensures sink.Some? ==> Kept(sink) == if b.closes1 then Some(1) else if b.closes2 then Some(2) else None
    ensures sink.Some? ==> sink.value in {1, 2} || sink.value !in t
  {
    if sink.Some? && sink.value > 2 {
      assert 1 in t - Shut(b) && 2 in t - Shut(b);
    }
  }

  /** How far the redirection came, told by the first failing call; `c` is the first call of the capture. */
  ghost predicate Arrived(s: nat -> Answer, c: nat, got: Setup, clock: nat) {
    var k := Faultless(s, c, 18);
    && (got.status.Some? <==> k >= 6) && (got.pipe.Some? <==> k >= 15)
    && (got.out <==> k >= 17) && (got.err <==> k == 18)
    && (got.pipe.Some? ==> clock == c + if got.err then 18 else k + 1)
  }

  /**
   * The sixteen calls of a redirection: thirteen to acquire, four of them for the first copies, and three to
   * reroute.
   */
  lemma SixteenCalls(s: nat -> Answer, c: nat)
    ensures Faultless(s, c, 4) == 4 <==> Faultless(s, c, 16) >= 4
    ensures Faultless(s, c, 13) == 13 <==> Faultless(s, c, 16) >= 13
    ensures Faultless(s, c, 13) == 13 ==> Faultless(s, c, 16) == 13 + Faultless(s, c + 13, 3)
  {
    FaultlessSplits(s, c, 4, 12);
    FaultlessSplits(s, c, 13, 3);
  }

  /** The first two calls only ask, so the redirection is counted from the third. */
  lemma Arriving(s: nat -> Answer, c: nat, got: Setup, clock: nat)
    requires Faultless(s, c, 2) == 2
    requires var k := Faultless(s, c + 2, 16);
      && (got.status.Some? <==> k >= 4) && (got.pipe.Some? <==> k >= 13) && (got.out <==> k >= 15)
        && (got.err <==> k == 16)
      && (got.pipe.Some? ==> clock == c + 2 + if got.err then 16 else k + 1)
    ensures Arrived(s, c, got, clock)
    ensures got.status.Some? <==> Faultless(s, c, 6) == 6
    ensures Faultless(s, c, 10) == 10 <==> Faultless(s, c + 2, 8) == 8
    ensures got.err <==> Started(s, c)
  {
    FaultlessSplits(s, c, 2, 16);
    FaultlessSplits(s, c, 2, 8);
    FaultlessSplits(s, c, 6, 12);
  }

  lemma StatusArrived(s: nat -> Answer, c: nat, got: Setup, clock: nat)
    requires Arrived(s, c, got, clock)
    ensures got.status.Some? <==> Faultless(s, c, 6) == 6
  {
    FaultlessSplits(s, c, 6, 12);
  }

  /** What a callback leaves to be done; `g` is the first call after the commit. */
  lemma StartedPlan<V>(s: nat -> Answer, c: nat, b: Behaviour<V>, seal: bool, stuck: bool, g: nat, early: bool,
      failed: bool)
    requires Started(s, c) && g == WriterCloseAt(s, c + 18) + if stuck then 2 else 3
    requires stuck <==> !DrainEnds(s, WriterCloseAt(s, c + 18), StreamLeft(s, c + 18, !b.closes1, !b.closes2))
    requires early <==> Faultless(s, c + 18, 7) < 7
    requires var n := (if seal then 0 else 2) + ClosesAfter(s, c + 18, b); failed <==> early || Faultless(s, g, n) < n
    ensures (failed <==> !Clean(s, c, b, seal)) && (early <==> !CleanToGate(s, c)) && (stuck <==> Stuck(s, c, b))
    ensures RestoreAt(s, c, b) == g && Broken(s, c, b) == BrokenAt(s, g, true, true)
  {
    CleanEarlier(s, c, b, seal);
    CleanLater(s, c, b, seal);
    SevenCalls(s, c + 18, !b.closes1, !b.closes2);
    if !early {
      CleanEnding(s, c + 18, b, seal, g);
    }
  }

  lemma StartedRan<T>(s: nat -> Answer, c: nat, body: Behaviour<T>, commit: Option<Behaviour<()>>, seal: bool,
                      u: Unwound<T>, commits: seq<T>, failed: bool)
    requires Started(s, c) && Gated(s, c + 18, body, commit, AtStart(s, c), u, commits)
    requires (failed <==> !Clean(s, c, body, seal)) && (u.failed <==> !CleanToGate(s, c))
    ensures Ran(s, c, body, commit, seal, u, commits, failed)
  {
    PayloadIsBounded(AtGate(s, c, body));
  }

  /** What a redirection that failed with a pipe leaves to be done, told by the first failing call. */
  lemma AbortedPiped<V>(s: nat -> Answer, c: nat, got: Setup, clock: nat, b: Behaviour<V>, stuck: bool)
    requires Arrived(s, c, got, clock) && !got.err && got.pipe.Some?
    requires stuck <==>
      !DrainEnds(s, clock + if got.out then 1 else 0, got.out && s(clock).fails && !s(clock).closesAnyway)
    ensures !Started(s, c) && !CleanToGate(s, c) && (stuck <==> Stuck(s, c, b))
    ensures Broken(s, c, b) ==
      BrokenAt(s, clock + (if got.out then 1 else 0) + if stuck then 2 else 3, got.out, false)
  {
    CleanEarlier(s, c, b, false);
  }

  lemma AbortedBare<V>(s: nat -> Answer, c: nat, got: Setup, clock: nat, b: Behaviour<V>)
    requires Arrived(s, c, got, clock) && !got.err && !got.out && got.pipe.None?
    ensures !Started(s, c) && !CleanToGate(s, c) && !Stuck(s, c, b) && Broken(s, c, b) == {}
  {
    CleanEarlier(s, c, b, false);
  }

  lemma AbortedRan<T>(s: nat -> Answer, c: nat, body: Behaviour<T>, commit: Option<Behaviour<()>>, seal: bool,
                      u: Unwound<T>, t0: Table, t: Table)
    requires !Started(s, c) && !CleanToGate(s, c) && u.value.None? && u.committed.None?
    requires 1 in t0 && 2 in t0 && Restored(t0, t, Broken(s, c, body))
    ensures Ran(s, c, body, commit, seal, u, [], true)
    ensures StreamsEnd(s, c, body, commit, seal, t0, t)
  {
  }

  /** The books after a failed redirection. */
  lemma SettledAborted(s: Setup, t0: Table, t: Table, stuck: Option<nat>)
    requires 1 in t0 && 2 in t0 && CopiesHeld(s, t0, t) && PipeHeld(s, t0, t) && s.pipe.Some?
    requires stuck in {None, Some(s.pipe.value.0)}
    ensures Opened(s) - Drops(s.pipe.value, stuck) - Two(s.restore) == Two(s.status) + One(stuck)
  {
  }

  /** A pipe that was made and prepared was not lost. */
  lemma NoLeakOnce(s: nat -> Answer, c: nat)
    requires Started(s, c)
    ensures !(Faultless(s, c, 10) == 10 && WriterLeaks(s, c + 10)) && Faultless(s, c, 6) == 6
  {
    FaultlessSplits(s, c, 6, 12);
    FaultFree(s, c, 18);
    FaultFree(s, c + 11, 4);
  }

  // ----- The guarantee -----------------------------------------------------------------------

  /** A transcript shows what the pipe held up to some point. */
  ghost predicate Evidence(transcript: Bytes, pipe: Bytes) {
    exists n: nat :: n <= |pipe| && transcript == PayloadOf(pipe[..n])
  }

  lemma EvidenceLasts(transcript: Bytes, before: Bytes, after: Bytes)
    requires Evidence(transcript, before) && before <= after
    ensures Evidence(transcript, after)
  {
    var n: nat :| n <= |before| && transcript == PayloadOf(before[..n]);
    assert after[..n] == before[..n];
  }

  /** From the callback to the commit: `a` is the first call after the callback and `before` what the pipe held then. */
  ghost predicate Gated<T>(s: nat -> Answer, a: nat, body: Behaviour<T>, commit: Option<Behaviour<()>>, before: Bytes,
                           u: Unwound<T>, commits: seq<T>)
  {
    && (u.failed <==> Faultless(s, a, 7) < 7)
    && u.value == body.value
    && (!u.failed ==> u.transcript == PayloadOf(Drained(s, a, body, before)))
    && (u.committed.Some? <==> commit.Some? && u.value.Some? && !u.failed && u.transcript == [])
    && (u.committed.Some? ==> u.committed.value == commit.value.value.Some?)
    && commits == if u.committed.Some? then [body.value.value] else []
  }

  /** What is known of a capture once unwound. */
  ghost predicate Ran<T>(s: nat -> Answer, c: nat, body: Behaviour<T>, commit: Option<Behaviour<()>>, seal: bool,
                         u: Unwound<T>, commits: seq<T>, failed: bool)
  {
    && (if Started(s, c)
        then u.value == body.value && (failed <==> !Clean(s, c, body, seal))
        else u.value.None? && u.committed.None? && failed)
    && (CleanToGate(s, c) ==> u.transcript == PayloadOf(AtGate(s, c, body)))
    && (u.committed.Some? <==> Committing(s, c, body, commit))
    && (u.committed.Some? ==> u.committed.value == commit.value.value.Some?)
    && commits == if u.committed.Some? then [body.value.value] else []
  }

  /** The all-or-nothing guarantee: which calls fail and what the callback does settle the outcome and the commit. */
  ghost predicate AllOrNothing<T>(s: nat -> Answer, c: nat, body: Behaviour<T>, commit: Option<Behaviour<()>>,
                                  seal: bool, outcome: Outcome<T>, commits: seq<T>)
  {
    && commits == (if Committing(s, c, body, commit) then [body.value.value] else [])
    // A normal return.
    && (outcome.Returned? <==>
          if commit.Some? then Committing(s, c, body, commit) && commit.value.value.Some?
          else Clean(s, c, body, seal) && body.value.Some? && AtGate(s, c, body) == [])
    && (outcome.Returned? ==> body.value == Some(outcome.value))
    // The cause of a failure; what is left is a fault of the capture.
    && (outcome.CaptureUnavailable? <==> Faultless(s, c, 6) < 6)
    && (outcome.Failed? && outcome.primary.CallbackRaised? <==> Started(s, c) && body.value.None?)
    && (outcome.Failed? && outcome.primary.CommitRaised?
        <==> Committing(s, c, body, commit) && commit.value.value.None?)
    && (outcome.Failed? && outcome.primary.OutputDetected?
        <==> Clean(s, c, body, seal) && body.value.Some? && AtGate(s, c, body) != [])
    && (outcome.Failed? && CleanToGate(s, c) ==> outcome.transcript == PayloadOf(AtGate(s, c, body)))
  }

  lemma Concluded<T>(s: nat -> Answer, c: nat, body: Behaviour<T>, commit: Option<Behaviour<()>>, seal: bool,
                     status: Option<(nat, nat)>, u: Unwound<T>, commits: seq<T>, failed: bool)
    requires Ran(s, c, body, commit, seal, u, commits, failed)
    requires status.Some? <==> Faultless(s, c, 6) == 6
    ensures AllOrNothing(s, c, body, commit, seal, Conclude(status, u, failed, Started(s, c)), commits)
    ensures HandedOver(Conclude(status, u, failed, Started(s, c))) == Two(status)
    ensures StatusOf(Conclude(status, u, failed, Started(s, c))) == status
  {
    CleanEarlier(s, c, body, seal);
    FaultlessSplits(s, c, 6, 12);
    PayloadIsBounded(AtGate(s, c, body));
  }

  /** Where stream `d` ends when the callback ran: where it began, unless it is sealed or cannot be restored. */
  function EndsAs<T>(s: nat -> Answer, c: nat, body: Behaviour<T>, commit: Option<Behaviour<()>>, seal: bool, d: nat,
                     was: Entry): Option<Entry>
  {
    if seal || d in Broken(s, c, body)
    then MutedStill(s, c + 18, body, commit, Committing(s, c, body, commit), d, was.inheritable)
    else Some(was)
  }

  /** The same told by the first call after the callback, the first restoring call and whether the commit ran. */
  ghost predicate Ended<T>(s: nat -> Answer, a: nat, g: nat, body: Behaviour<T>, commit: Option<Behaviour<()>>,
                           seal: bool, runs: bool, t0: Table, t: Table)
    requires 1 in t0 && 2 in t0
  {
    && At(t, 1) == (if seal || s(g).fails then MutedStill(s, a, body, commit, runs, 1, t0[1].inheritable)
                    else Some(t0[1]))
    && At(t, 2) == (if seal || s(g + 1).fails then MutedStill(s, a, body, commit, runs, 2, t0[2].inheritable)
                    else Some(t0[2]))
  }

  lemma StartedEnd<T>(s: nat -> Answer, c: nat, g: nat, body: Behaviour<T>, commit: Option<Behaviour<()>>, seal: bool,
                      runs: bool, t0: Table, t: Table)
    requires 1 in t0 && 2 in t0 && Ended(s, c + 18, g, body, commit, seal, runs, t0, t)
    requires Started(s, c) && Broken(s, c, body) == BrokenAt(s, g, true, true)
    requires runs <==> Committing(s, c, body, commit)
    ensures StreamsEnd(s, c, body, commit, seal, t0, t)
  {
  }

  /** All of it: what is known once everything behind the callback is done. */
  lemma StartedDone<T>(s: nat -> Answer, c: nat, body: Behaviour<T>, commit: Option<Behaviour<()>>, seal: bool,
                       stuck: bool, g: nat, u: Unwound<T>, commits: seq<T>, failed: bool, t0: Table, t: Table)
    requires 1 in t0 && 2 in t0 && Started(s, c)
    requires g == WriterCloseAt(s, c + 18) + if stuck then 2 else 3
    requires stuck <==> !DrainEnds(s, WriterCloseAt(s, c + 18), StreamLeft(s, c + 18, !body.closes1, !body.closes2))
    requires Gated(s, c + 18, body, commit, AtStart(s, c), u, commits)
    requires var n := (if seal then 0 else 2) + ClosesAfter(s, c + 18, body);
      failed <==> u.failed || Faultless(s, g, n) < n
    requires Ended(s, c + 18, g, body, commit, seal, u.committed.Some?, t0, t)
    ensures Ran(s, c, body, commit, seal, u, commits, failed) && StreamsEnd(s, c, body, commit, seal, t0, t)
    ensures (stuck <==> Stuck(s, c, body)) && RestoreAt(s, c, body) == g
  {
    StartedPlan(s, c, body, seal, stuck, g, u.failed, failed);
    StartedRan(s, c, body, commit, seal, u, commits, failed);
    StartedEnd(s, c, g, body, commit, seal, u.committed.Some?, t0, t);
  }

  /** What unwinding does to the streams that were muted. */
  lemma MutedEnd<T>(s: nat -> Answer, a: nat, g: nat, body: Behaviour<T>, commit: Option<Behaviour<()>>, seal: bool,
                    runs: bool, t0: Table, t1: Table, t2: Table)
    requires 1 in t0 && 2 in t0
    requires At(t1, 1) == MutedStill(s, a, body, commit, runs, 1, t0[1].inheritable)
    requires At(t1, 2) == MutedStill(s, a, body, commit, runs, 2, t0[2].inheritable)
    requires Unmuted(t0, t1, t2, if seal then {1, 2} else BrokenAt(s, g, true, true))
    ensures Ended(s, a, g, body, commit, seal, runs, t0, t2)
  {
  }

  /** The streams but `muted` are back. */
  ghost predicate Unmuted(t0: Table, t1: Table, t2: Table, muted: set<nat>)
    requires 1 in t0 && 2 in t0
  {
    && At(t2, 1) == (if 1 in muted then At(t1, 1) else Some(t0[1]))
    && At(t2, 2) == (if 2 in muted then At(t1, 2) else Some(t0[2]))
  }

  lemma UnmutedStill(t0: Table, t1: Table, t2: Table, t3: Table, muted: set<nat>)
    requires 1 in t0 && 2 in t0 && Unmuted(t0, t1, t2, muted) && SameAt(t2, t3, 1) && SameAt(t2, t3, 2)
    ensures Unmuted(t0, t1, t3, muted)
  {
  }

  /** Where the two streams end up. */
  ghost predicate StreamsEnd<T>(s: nat -> Answer, c: nat, body: Behaviour<T>, commit: Option<Behaviour<()>>, seal: bool,
                                t0: Table, t: Table)
    requires 1 in t0 && 2 in t0
  {
    if Started(s, c) then
      && At(t, 1) == EndsAs(s, c, body, commit, seal, 1, t0[1])
      && At(t, 2) == EndsAs(s, c, body, commit, seal, 2, t0[2])
    else Restored(t0, t, Broken(s, c, body))
  }

  /** A sealed stream that neither callback nor commit closed ends at the null device unless its own call failed. */
  lemma SealedStream<T>(s: nat -> Answer, c: nat, body: Behaviour<T>, commit: Option<Behaviour<()>>, t0: Table,
                        t: Table, d: nat)
    requires 1 in t0 && 2 in t0 && d in {1, 2} && Started(s, c) && StreamsEnd(s, c, body, commit, true, t0, t)
    ensures Isolated(t)
    ensures commit.None? || d !in Shut(commit.value) ==>
      ((SinkOpens(s, c + 18) && !s(c + 19 + d).fails) || KeptSink(s, c + 18, body) == Some(d)
       <==> d in t && t[d].target.NullDevice?)
    ensures d !in Shut(body) && (commit.None? || d !in Shut(commit.value)) ==>
      d in t && t[d].inheritable == t0[d].inheritable
    ensures Clean(s, c, body, true) && (commit.None? || d !in Shut(commit.value)) ==>
      Bound(t, d, Entry(NullDevice, t0[d].inheritable))
  {
    CleanEarlier(s, c, body, true);
    FaultFree(s, c, 25);
  }

  /**
   * Every descriptor opened is closed once or handed over, with three exceptions: the write end of a pipe
   * that could not be prepared, the read end of a drain thread that never ends, a sink in a stream's place.
   */
  ghost predicate Accounted<T>(s: nat -> Answer, c: nat, body: Behaviour<T>, outcome: Outcome<T>, owed: set<nat>,
                               leaked: Option<nat>, stuck: Option<nat>, t: Table)
  {
    && owed == HandedOver(outcome) + One(leaked) + One(stuck)
               + One(if Started(s, c) then KeptSink(s, c + 18, body) else None)
    && (leaked.Some? <==> Faultless(s, c, 10) == 10 && WriterLeaks(s, c + 10))
    && (leaked.Some? ==> Bound(t, leaked.value, Entry(PipeWriter, false)))
    && (stuck.Some? <==> Stuck(s, c, body))
    && (stuck.Some? ==> Bound(t, stuck.value, Entry(PipeReader, false)))
  }

  class Process {
    var table: Table
    var tty: Bytes
    var pipe: Bytes
    var clock: nat
    const script: nat -> Answer
    /**
     * Descriptors opened here whose close has not been attempted; opening one twice or closing one twice is an
     * error.
     */
    ghost var owed: set<nat>

    constructor (table: Table, script: nat -> Answer)
      ensures this.table == table && this.script == script && clock == 0
      ensures tty == [] && pipe == [] && owed == {}
    {
      this.table, this.script, clock := table, script, 0;
      tty, pipe, owed := [], [], {};
    }

    /** Everything owed is open, so a newly handed-out number is never already owed. */
    ghost predicate Tidy()
      reads this
    {
      owed <= table.Keys
    }

    // ----- Operating-system calls ------------------------------------------------------------

    /** One call goes by: its answer is taken and other threads write. */
    method Tick() returns (a: Answer)
      modifies this`tty, this`pipe, this`clock
      ensures a == script(old(clock)) && clock == old(clock) + 1
      ensures tty == Heard(script, old(clock), 1, OnTerminal(table, 1), OnTerminal(table, 2), old(tty))
      ensures pipe == Heard(script, old(clock), 1, InPipe(table, 1), InPipe(table, 2), old(pipe))
      ensures old(pipe) <= pipe
    {
      HeardGrows(script, clock, 1, InPipe(table, 1), InPipe(table, 2), pipe);
      a := script(clock);
      clock := clock + 1;
      tty := tty + Mixed(a.noise1, a.noise2, OnTerminal(table, 1), OnTerminal(table, 2));
      pipe := pipe + Mixed(a.noise1, a.noise2, InPipe(table, 1), InPipe(table, 2));
    }

    /** A call that touches no descriptor: a flush, the start of a thread. */
    method Attempt() returns (ok: bool)
      modifies this`tty, this`pipe, this`clock
      ensures ok <==> !script(old(clock)).fails
      ensures clock == old(clock) + 1
      ensures tty == Heard(script, old(clock), 1, OnTerminal(table, 1), OnTerminal(table, 2), old(tty))
      ensures pipe == Heard(script, old(clock), 1, InPipe(table, 1), InPipe(table, 2), old(pipe))
      ensures old(pipe) <= pipe
    {
      var a := Tick();
      ok := !a.fails;
    }

    method GetInheritable(d: nat) returns (flag: Option<bool>)
      modifies this`tty, this`pipe, this`clock
      ensures flag == if d in table && !script(old(clock)).fails then Some(table[d].inheritable) else None
      ensures clock == old(clock) + 1
      ensures tty == Heard(script, old(clock), 1, OnTerminal(table, 1), OnTerminal(table, 2), old(tty))
    {
      var a := Tick();
      flag := if d in table && !a.fails then Some(table[d].inheritable) else None;
    }

    /** `os.dup`: the copy is not inheritable. */
    method Dup(d: nat) returns (copy: Option<nat>)
      requires Tidy()
      modifies this
      ensures Tidy()
      ensures copy.Some? <==> d in old(table) && !script(old(clock)).fails
      ensures copy.Some? ==>
                && copy.value !in old(table) && (forall k: nat :: k < copy.value ==> k in old(table))
                && table == old(table)[copy.value := Entry(old(table)[d].target, false)]
                && owed == old(owed) + {copy.value}
      ensures copy.None? ==> table == old(table) && owed == old(owed)
      ensures clock == old(clock) + 1
      ensures tty == Heard(script, old(clock), 1, OnTerminal(old(table), 1), OnTerminal(old(table), 2), old(tty))
    {
      var a := Tick();
      if d in table && !a.fails {
        var unused := LowestUnused(table, 0);
        table := table[unused := Entry(table[d].target, false)];
        owed := owed + {unused};
        copy := Some(unused);
      } else {
        copy := None;
      }
    }

    method Dup2(source: nat, target: nat, inheritable: bool) returns (ok: bool)
      modifies this`table, this`tty, this`pipe, this`clock
      ensures ok <==> source in old(table) && !script(old(clock)).fails
      ensures table == if ok then old(table)[target := Entry(old(table)[source].target, inheritable)] else old(table)
      ensures clock == old(clock) + 1
      ensures tty == Heard(script, old(clock), 1, OnTerminal(old(table), 1), OnTerminal(old(table), 2), old(tty))
      ensures pipe == Heard(script, old(clock), 1, InPipe(old(table), 1), InPipe(old(table), 2), old(pipe))
      ensures old(pipe) <= pipe
    {
      var a := Tick();
      ok := source in table && !a.fails;
      if ok {
        table := table[target := Entry(table[source].target, inheritable)];
      }
    }

    /** `os.open(os.devnull, ...)`. */
    method OpenNull() returns (fd: Option<nat>)
      requires Tidy()
      modifies this
      ensures Tidy()
      ensures fd.Some? <==> !script(old(clock)).fails
      ensures fd.Some? ==>
                && fd.value !in old(table) && (forall k: nat :: k < fd.value ==> k in old(table))
                && table == old(table)[fd.value := Entry(NullDevice, false)]
                && owed == old(owed) + {fd.value}
      ensures fd.None? ==> table == old(table) && owed == old(owed)
      ensures clock == old(clock) + 1
      ensures tty == Heard(script, old(clock), 1, OnTerminal(old(table), 1), OnTerminal(old(table), 2), old(tty))
      ensures pipe == Heard(script, old(clock), 1, InPipe(old(table), 1), InPipe(old(table), 2), old(pipe))
      ensures old(pipe) <= pipe
    {
      var a := Tick();
      if a.fails {
        fd := None;
      } else {
        var unused := LowestUnused(table, 0);
        table := table[unused := Entry(NullDevice, false)];
        owed := owed + {unused};
        fd := Some(unused);
      }
    }

    /** `os.pipe`: an empty pipe, read end first. */
    method MakePipe() returns (ends: Option<(nat, nat)>)
      requires Tidy()
      modifies this
      ensures Tidy()
      ensures ends.Some? <==> !script(old(clock)).fails
      ensures ends.Some? ==>
                && ends.value.0 !in old(table) && ends.value.1 !in old(table) && ends.value.0 != ends.value.1
                && table == old(table)[ends.value.0 := Entry(PipeReader, false)][ends.value.1 := Entry(PipeWriter,
                  false)]
                && owed == old(owed) + {ends.value.0, ends.value.1}
                && pipe == []
      ensures ends.None? ==> table == old(table) && owed == old(owed)
      ensures clock == old(clock) + 1
      ensures tty == Heard(script, old(clock), 1, OnTerminal(old(table), 1), OnTerminal(old(table), 2), old(tty))
    {
      var a := Tick();
      if a.fails {
        ends := None;
      } else {
        var r := LowestUnused(table, 0);
        table := table[r := Entry(PipeReader, false)];
        var w := LowestUnused(table, 0);
        table := table[w := Entry(PipeWriter, false)];
        owed := owed + {r, w};
        pipe := [];
        ends := Some((r, w));
      }
    }

    /** `os.close`. A failing close may or may not have closed. */
    method Close(d: nat) returns (ok: bool)
      modifies this`table, this`tty, this`pipe, this`clock
      ensures ok <==> d in old(table) && !script(old(clock)).fails
      ensures table == if ok || script(old(clock)).closesAnyway then old(table) - {d} else old(table)
      ensures clock == old(clock) + 1
      ensures tty == Heard(script, old(clock), 1, OnTerminal(old(table), 1), OnTerminal(old(table), 2), old(tty))
      ensures pipe == Heard(script, old(clock), 1, InPipe(old(table), 1), InPipe(old(table), 2), old(pipe))
      ensures old(pipe) <= pipe
    {
      var a := Tick();
      ok := d in table && !a.fails;
      if ok || a.closesAnyway {
        table := table - {d};
      }
    }

    /** Closing something opened here: allowed once for each time it was opened. */
    method Retire(d: nat) returns (ok: bool)
      requires d in owed
      modifies this
      ensures old(Tidy()) ==> Tidy()
      ensures ok <==> d in old(table) && !script(old(clock)).fails
      ensures table == if ok || script(old(clock)).closesAnyway then old(table) - {d} else old(table)
      ensures owed == old(owed) - {d}
      ensures clock == old(clock) + 1
      ensures tty == Heard(script, old(clock), 1, OnTerminal(old(table), 1), OnTerminal(old(table), 2), old(tty))
      ensures pipe == Heard(script, old(clock), 1, InPipe(old(table), 1), InPipe(old(table), 2), old(pipe))
      ensures old(pipe) <= pipe
    {
      ok := Close(d);
      owed := owed - {d};
    }

    /**
     * Waiting for the drain thread: it ends cleanly only at end of file, which needs every write end
     * of this process closed. Anything else is a fault: a timeout, a read error, a writer elsewhere.
     */
    method JoinDrain() returns (clean: bool, exited: bool, transcript: Bytes)
      modifies this`tty, this`pipe, this`clock
      ensures clean <==> !script(old(clock)).fails && NoWriter(table)
      ensures exited <==> clean || script(old(clock)).exits
      ensures clean ==> transcript == PayloadOf(pipe)
      ensures Evidence(transcript, pipe)
      ensures clock == old(clock) + 1
      ensures tty == Heard(script, old(clock), 1, OnTerminal(table, 1), OnTerminal(table, 2), old(tty))
      ensures pipe == Heard(script, old(clock), 1, InPipe(table, 1), InPipe(table, 2), old(pipe))
      ensures old(pipe) <= pipe
    {
      var a := Tick();
      clean := !a.fails && !HasWriter(table);
      exited := clean || a.exits;
      var n := if clean then |pipe| else Min(a.drained, |pipe|);
      transcript := PayloadOf(pipe[..n]);
      assert clean ==> pipe[..n] == pipe;
    }

    /** A callback or a commit runs: it writes and may close streams, and returns or raises. */
    method Invoke<V>(b: Behaviour<V>) returns (value: Option<V>)
      modifies this`table, this`tty, this`pipe
      ensures value == b.value
      ensures table == old(table) - Shut(b)
      ensures tty == old(tty) + Mixed(b.out1, b.out2, OnTerminal(old(table), 1), OnTerminal(old(table), 2))
      ensures pipe == old(pipe) + Mixed(b.out1, b.out2, InPipe(old(table), 1), InPipe(old(table), 2))
    {
      tty := tty + Mixed(b.out1, b.out2, OnTerminal(table, 1), OnTerminal(table, 2));
      pipe := pipe + Mixed(b.out1, b.out2, InPipe(table, 1), InPipe(table, 2));
      table := table - Shut(b);
      value := b.value;
    }

    // ----- Duplication and redirection -------------------------------------------------------

    method SafeDup(d: nat) returns (copy: Option<nat>)
      requires d in table
      requires Tidy()
      modifies this
      ensures Tidy()
      ensures copy.Some? <==> Faultless(script, old(clock), 2) == 2
      ensures Extends(old(table), table) && (NoWriter(old(table)) ==> NoWriter(table))
      ensures copy.Some? ==>
                && copy.value !in old(table) && Bound(table, copy.value, Entry(old(table)[d].target, false))
                && owed == old(owed) + {copy.value}
                && clock == old(clock) + 2 && 0 in table
      ensures copy.Some? && Open(old(table)) ==> tty == Heard(script, old(clock), 2, true, true, old(tty))
      ensures copy.None? ==> owed == old(owed)
    {
      copy := Dup(d);
      if copy.Some? {
        HeardOn(script, old(clock), 1, 1, true, true, old(tty));
        var ok := Attempt();
        if !ok {
          var closed := Retire(copy.value);
          copy := None;
        }
      }
    }

    method SafeDupPair(first: nat, second: nat) returns (copies: Option<(nat, nat)>)
      requires first in table && second in table
      requires Tidy()
      modifies this
      ensures Tidy()
      ensures copies.Some? <==> Faultless(script, old(clock), 4) == 4
      ensures Extends(old(table), table) && (NoWriter(old(table)) ==> NoWriter(table))
      ensures copies.Some? ==>
                && copies.value.0 !in old(table) && copies.value.1 !in old(table) && copies.value.0 != copies.value.1
                && Bound(table, copies.value.0, Entry(old(table)[first].target, false))
                && Bound(table, copies.value.1, Entry(old(table)[second].target, false))
                && owed == old(owed) + {copies.value.0, copies.value.1}
                && clock == old(clock) + 4 && 0 in table
      ensures copies.Some? && Open(old(table)) ==> tty == Heard(script, old(clock), 4, true, true, old(tty))
      ensures copies.None? ==> owed == old(owed)
    {
      FaultlessSplits(script, clock, 2, 2);
      HeardOn(script, clock, 2, 2, true, true, tty);
      copies := None;
      var a := SafeDup(first);
      if a.Some? {
        var b := SafeDup(second);
        if b.Some? {
          copies := Some((a.value, b.value));
        } else {
          var closed := Retire(a.value);
        }
      }
    }

    method AttemptTwice() returns (ok: bool)
      modifies this`tty, this`pipe, this`clock
      ensures ok <==> Faultless(script, old(clock), 2) == 2
      ensures clock == old(clock) + if ok then 2 else Faultless(script, old(clock), 2) + 1
      ensures ok && Open(table) ==> tty == Heard(script, old(clock), 2, true, true, old(tty)) && pipe == old(pipe)
    {
      HeardOn(script, clock, 1, 1, true, true, tty);
      ok := Attempt();
      if ok { ok := Attempt(); }
    }

    /** Three flags and the start of the drain thread. */
    method PreparePipe() returns (ok: bool)
      modifies this`tty, this`pipe, this`clock
      ensures ok <==> Faultless(script, old(clock), 4) == 4
      ensures clock == old(clock) + if ok then 4 else Faultless(script, old(clock), 4) + 1
      ensures ok && Open(table) ==> tty == Heard(script, old(clock), 4, true, true, old(tty)) && pipe == old(pipe)
    {
      FaultlessSplits(script, clock, 2, 2);
      HeardOn(script, clock, 2, 2, true, true, tty);
      ok := AttemptTwice();
      if ok { ok := AttemptTwice(); }
    }

    /** The clean-up of a pipe that could not be prepared: the second close needs the first to succeed. */
    method AbandonPipe(r: nat, w: nat) returns (closed: bool)
      requires r != w && r in table && r in owed && w in owed
      modifies this
      ensures old(Tidy()) ==> Tidy()
      ensures SameExcept(old(table), table, if closed then {r, w} else {r})
      ensures closed <==> !script(old(clock)).fails
      ensures owed == old(owed) - (if closed then {r, w} else {r})
    {
      closed := Retire(r);
      if closed {
        var second := Retire(w);
      }
    }

    method PrepareOrAbandon(r: nat, w: nat) returns (ok: bool, ghost leaked: Option<nat>)
      requires r != w && r in table && r in owed && w in owed
      modifies this
      ensures old(Tidy()) ==> Tidy()
      ensures ok <==> Faultless(script, old(clock), 4) == 4
      ensures ok ==> table == old(table) && owed == old(owed) && leaked.None? && clock == old(clock) + 4
      ensures ok && Open(table) ==> tty == Heard(script, old(clock), 4, true, true, old(tty)) && pipe == old(pipe)
      ensures !ok ==> SameExcept(old(table), table, if leaked.Some? then {r} else {r, w})
      ensures !ok ==> owed == old(owed) - (if leaked.Some? then {r} else {r, w}) && leaked in {None, Some(w)}
      ensures leaked.Some? <==> PrepareLeaks(script, old(clock))
    {
      leaked := None;
      ok := PreparePipe();
      if !ok {
        var closed := AbandonPipe(r, w);
        leaked := if closed then None else Some(w);
      }
    }

    /** `_bounded_transcript_pipe`: pipe, three flags, drain thread. */
    method OpenTranscriptPipe() returns (ends: Option<(nat, nat)>, ghost leaked: Option<nat>)
      requires Tidy()
      modifies this
      ensures Tidy()
      ensures Extends(old(table), table)
      ensures ends.Some? <==> Faultless(script, old(clock), 5) == 5
      ensures ends.Some? ==>
                && ends.value.0 !in old(table) && ends.value.1 !in old(table) && ends.value.0 != ends.value.1
                && Bound(table, ends.value.0, Entry(PipeReader, false))
                && Bound(table, ends.value.1, Entry(PipeWriter, false))
                && (NoWriter(old(table)) ==> WritersIn(table, {ends.value.1}))
                && owed == old(owed) + {ends.value.0, ends.value.1}
                && clock == old(clock) + 5 && leaked.None?
      ensures ends.Some? && Open(old(table)) ==>
                tty == Heard(script, old(clock), 5, true, true, old(tty)) && pipe == []
      ensures ends.None? ==> owed == old(owed) + One(leaked)
      ensures leaked.Some? ==> leaked.value !in old(table) && Bound(table, leaked.value, Entry(PipeWriter, false))
      ensures leaked.Some? <==> WriterLeaks(script, old(clock))
    {
      leaked := None;
      FaultlessSplits(script, clock, 1, 4);
      HeardOn(script, clock, 1, 4, true, true, tty);
      ends := MakePipe();
      if ends.Some? {
        var r, w := ends.value.0, ends.value.1;
        assert r !in old(owed) && w !in old(owed);
        ghost var t1 := table;
        var ok;
        ok, leaked := PrepareOrAbandon(r, w);
        if !ok {
          ExtendsDespite(old(table), t1, table, if leaked.Some? then {r} else {r, w});
          assert owed == old(owed) + One(leaked);
          ends := None;
        }
      }
    }

    method AcquireCopies() returns (s: Setup)
      requires Tidy() && Open(table) && NoWriter(table)
      modifies this
      ensures Tidy() && Held(s, old(table), table)
      ensures s.pipe.None? && Open(table) && NoWriter(table)
      ensures owed == old(owed) + Two(s.status) + Two(s.restore)
      ensures s.status.Some? <==> Faultless(script, old(clock), 4) == 4
      ensures s.restore.Some? <==> Faultless(script, old(clock), 8) == 8
      ensures s.restore.Some? ==> clock == old(clock) + 8 && 0 in table
      ensures s.restore.Some? ==> tty == Heard(script, old(clock), 8, true, true, old(tty))
    {
      FaultlessSplits(script, clock, 4, 4);
      HeardOn(script, clock, 4, 4, true, true, tty);
      s := Setup(None, None, None, false, false);
      var status := SafeDupPair(1, 2);
      if status.Some? {
        var restore := SafeDupPair(1, 2);
        s := s.(status := status, restore := restore);
      }
    }

    method Reroute(writer: nat, inherit1: bool, inherit2: bool) returns (out: bool, err: bool)
      requires Bound(table, writer, Entry(PipeWriter, false)) && writer != 1 && writer != 2 && Open(table)
      modifies this`table, this`tty, this`pipe, this`clock
      ensures out <==> Faultless(script, old(clock), 3) >= 2
      ensures err <==> Faultless(script, old(clock), 3) == 3
      ensures clock == old(clock) + if err then 3 else Faultless(script, old(clock), 3) + 1
      ensures SameExcept(old(table), table, {1, 2})
      ensures Bound(table, 1, if out then Entry(PipeWriter, inherit1) else old(table)[1])
      ensures Bound(table, 2, if err then Entry(PipeWriter, inherit2) else old(table)[2])
      ensures err ==>
                && tty == Heard(script, old(clock) + 2, 1, false, true,
                  Heard(script, old(clock), 2, true, true, old(tty)))
                && pipe == Heard(script, old(clock) + 2, 1, true, false, old(pipe))
    {
      FaultlessSplits(script, clock, 1, 2);
      HeardOn(script, clock, 1, 1, true, true, tty);
      err := false;
      out := Attempt();
      if out {
        out := Dup2(writer, 1, inherit1);
        if out {
          err := Dup2(writer, 2, inherit2);
        }
      }
    }

    method AcquireAll() returns (s: Setup, ghost leaked: Option<nat>)
      requires Tidy() && Open(table) && NoWriter(table)
      modifies this
      ensures Tidy() && Held(s, old(table), table) && !s.out
      ensures owed == old(owed) + Opened(s) + One(leaked)
      ensures s.status.Some? <==> Faultless(script, old(clock), 4) == 4
      ensures s.pipe.Some? <==> Faultless(script, old(clock), 13) == 13
      ensures s.pipe.Some? ==>
                && clock == old(clock) + 13 && 0 in table && pipe == []
                && tty == Heard(script, old(clock), 13, true, true, old(tty))
      ensures leaked.Some? ==>
                && s.pipe.None? && leaked.value !in Opened(s)
                && leaked.value !in old(table) && Bound(table, leaked.value, Entry(PipeWriter, false))
      ensures leaked.Some? <==> Faultless(script, old(clock), 8) == 8 && WriterLeaks(script, old(clock) + 8)
    {
      leaked := None;
      FaultlessSplits(script, clock, 8, 5);
      HeardOn(script, clock, 8, 5, true, true, tty);
      s := AcquireCopies();
      if s.restore.Some? {
        ghost var t1 := table;
        var ends;
        ends, leaked := OpenTranscriptPipe();
        if ends.None? {
          HeldLonger(s, old(table), t1, table);
        } else {
          HeldWithPipe(s, old(table), t1, ends.value, table);
          s := s.(pipe := ends);
        }
      }
    }

    /** The flush and the two redirections, from what is held to what is held. */
    method RerouteAll(got: Setup, ghost t0: Table, inherit1: bool, inherit2: bool) returns (s: Setup)
      requires Open(table) && 1 in t0 && 2 in t0 && Held(got, t0, table) && got.pipe.Some? && !got.out
      requires inherit1 == t0[1].inheritable && inherit2 == t0[2].inheritable
      modifies this`table, this`tty, this`pipe, this`clock
      ensures Held(s, t0, table) && s == got.(out := s.out, err := s.err)
      ensures s.out <==> Faultless(script, old(clock), 3) >= 2
      ensures s.err <==> Faultless(script, old(clock), 3) == 3
      ensures clock == old(clock) + if s.err then 3 else Faultless(script, old(clock), 3) + 1
      ensures old(table).Keys <= table.Keys
      ensures s.err ==>
                && tty == Heard(script, old(clock) + 2, 1, false, true,
                  Heard(script, old(clock), 2, true, true, old(tty)))
                && pipe == Heard(script, old(clock) + 2, 1, true, false, old(pipe))
    {
      ghost var t1 := table;
      var out, err := Reroute(got.pipe.value.1, inherit1, inherit2);
      HeldRerouted(got, t0, t1, out, err, table);
      s := got.(out := out, err := err);
    }

    /** The body of the `try`, up to the callback: copies, pipe, flush, two redirections. */
    method Redirect(inherit1: bool, inherit2: bool) returns (s: Setup, ghost leaked: Option<nat>)
      requires Tidy() && Open(table) && NoWriter(table)
      requires inherit1 == table[1].inheritable && inherit2 == table[2].inheritable
      modifies this
      ensures Tidy() && Held(s, old(table), table)
      ensures owed == old(owed) + Opened(s) + One(leaked)
      ensures var k := Faultless(script, old(clock), 16);
                && (s.status.Some? <==> k >= 4) && (s.pipe.Some? <==> k >= 13)
                && (s.out <==> k >= 15) && (s.err <==> k == 16)
                && (s.pipe.Some? ==> clock == old(clock) + if s.err then 16 else k + 1)
      ensures s.err ==>
                && 0 in table && pipe == Heard(script, old(clock) + 15, 1, true, false, [])
                && tty == Heard(script, old(clock) + 15, 1, false, true,
                                Heard(script, old(clock), 15, true, true, old(tty)))
      ensures leaked.Some? ==>
                && s.pipe.None? && leaked.value !in Opened(s)
                && leaked.value !in old(table) && Bound(table, leaked.value, Entry(PipeWriter, false))
      ensures leaked.Some? <==> Faultless(script, old(clock), 8) == 8 && WriterLeaks(script, old(clock) + 8)
    {
      SixteenCalls(script, clock);
      HeardOn(script, clock, 13, 2, true, true, tty);
      s, leaked := AcquireAll();
      if s.pipe.Some? {
        s := RerouteAll(s, old(table), inherit1, inherit2);
      }
    }

    /** The same, counted from the first call of the capture. */
    method RedirectFrom(ghost c: nat, ghost before: Bytes, inherit1: bool, inherit2: bool)
      returns (s: Setup, ghost leaked: Option<nat>)
      requires Tidy() && Open(table) && NoWriter(table)
      requires inherit1 == table[1].inheritable && inherit2 == table[2].inheritable
      requires clock == c + 2 && Faultless(script, c, 2) == 2 && tty == Heard(script, c, 2, true, true, before)
      modifies this
      ensures Tidy() && Held(s, old(table), table) && Arrived(script, c, s, clock)
      ensures owed == old(owed) + Opened(s) + One(leaked)
      ensures s.err ==> 0 in table && pipe == AtStart(script, c) && tty == ScreenAtStart(script, c, before)
      ensures leaked.Some? ==>
                && s.pipe.None? && leaked.value !in Opened(s)
                && leaked.value !in old(table) && Bound(table, leaked.value, Entry(PipeWriter, false))
      ensures leaked.Some? <==> Faultless(script, c, 10) == 10 && WriterLeaks(script, c + 10)
    {
      HeardOn(script, c, 2, 15, true, true, before);
      s, leaked := Redirect(inherit1, inherit2);
      Arriving(script, c, s, clock);
    }

    // ----- Unwinding -------------------------------------------------------------------------

    /** The sink takes the place of both streams. */
    method PutInPlace(sink: nat, inherit1: bool, inherit2: bool) returns (ok: bool)
      requires sink in table && table[sink].target.NullDevice? && Isolated(table)
      modifies this`table, this`tty, this`pipe, this`clock
      ensures Isolated(table) && tty == old(tty)
      ensures ok <==> Faultless(script, old(clock), 2) == 2
      ensures clock == old(clock) + 2
      ensures Keeps(old(table), table, {}) && NoNewWriters(old(table), table)
      ensures old(table).Keys <= table.Keys && table[sink].target.NullDevice?
      ensures At(table, 1) == if script(old(clock)).fails then At(old(table), 1) else Some(Entry(NullDevice, inherit1))
      ensures At(table, 2) ==
              if script(old(clock) + 1).fails then At(old(table), 2) else Some(Entry(NullDevice, inherit2))
      ensures InPipe(table, 1) <==> InPipe(old(table), 1) && script(old(clock)).fails
      ensures InPipe(table, 2) <==> InPipe(old(table), 2) && script(old(clock) + 1).fails
      ensures old(pipe) <= pipe
      ensures ok ==> var one, two := InPipe(old(table), 1), InPipe(old(table), 2);
                pipe == Heard(script, old(clock) + 1, 1, false, two, Heard(script, old(clock), 1, one, two, old(pipe)))
    {
      var ok1 := Dup2(sink, 1, inherit1);
      var ok2 := Dup2(sink, 2, inherit2);
      ok := ok1 && ok2;
    }

    /** After a callback: streams 1 and 2 go to a sink. */
    method Seal(inherit1: bool, inherit2: bool) returns (ok: bool, sink: Option<nat>)
      requires Tidy() && Isolated(table) && clock > 0
      modifies this
      ensures Isolated(table) && tty == old(tty)
      ensures ok <==> Faultless(script, old(clock), 3) == 3
      ensures sink.Some? <==> !script(old(clock)).fails
      ensures clock == old(clock) + if sink.Some? then 3 else 1
      ensures sink.Some? ==>
                && sink.value !in old(table) && sink.value !in old(owed)
                && (forall k: nat :: k < sink.value ==> k in old(table))
                && sink.value in table
      ensures owed == old(owed) + One(sink)
      ensures Keeps(old(table), table, {}) && NoNewWriters(old(table), table)
      ensures InPipe(table, 1) <==> InPipe(old(table), 1) && (sink.None? || script(old(clock) + 1).fails)
      ensures InPipe(table, 2) <==> InPipe(old(table), 2) && (sink.None? || script(old(clock) + 2).fails)
      ensures old(pipe) <= pipe
      ensures ok ==> var one, two := InPipe(old(table), 1), InPipe(old(table), 2);
                pipe == Heard(script, old(clock) + 2, 1, false, two, Heard(script, old(clock), 2, one, two, old(pipe)))
      ensures At(table, 1) == Sunk(script, old(clock) - 1, 1, sink, At(old(table), 1), inherit1)
      ensures At(table, 2) == Sunk(script, old(clock) - 1, 2, sink, At(old(table), 2), inherit2)
    {
      OpenFirst(script, clock, InPipe(table, 1), InPipe(table, 2), pipe);
      sink := OpenNull();
      ok := sink.Some?;
      if sink.Some? {
        SinkAdded(old(table), sink.value);
        ghost var t1 := table;
        ok := PutInPlace(sink.value, inherit1, inherit2);
        KeepsTrans(old(table), t1, table, {}, {});
      }
    }

    /** `finish`: release the writer, wait for the drain thread, which closes the reader as it ends. */
    method Finish(r: nat, w: nat) returns (ok: bool, transcript: Bytes, ghost stuck: Option<nat>)
      requires r in owed && w in owed && r !in {1, 2, w} && w !in {1, 2}
      requires r in table && InPipe(table, w) && !InPipe(table, r) && WritersIn(table, {1, 2, w})
      modifies this
      ensures Keeps(old(table), table, Drops((r, w), stuck)) && SameAt(old(table), table, 1)
        && SameAt(old(table), table, 2)
      ensures table.Keys >= old(table).Keys - {r, w}
      ensures owed == old(owed) - Drops((r, w), stuck) && stuck in {None, Some(r)}
      ensures var left := InPipe(old(table), 1) || InPipe(old(table), 2);
                && (stuck.None? <==> DrainEnds(script, old(clock), left))
                && (ok <==> !left && Faultless(script, old(clock), 3) == 3)
      ensures clock == old(clock) + if stuck.Some? then 2 else 3
      ensures ok ==> NoWriter(table) && pipe == old(pipe) && transcript == PayloadOf(pipe)
      ensures old(pipe) <= pipe && Evidence(transcript, pipe)
      ensures Isolated(old(table)) ==> tty == old(tty)
    {
      FaultlessSplits(script, clock, 1, 2);
      var closed := Retire(w);
      var clean, exited;
      clean, exited, transcript := JoinDrain();
      WritersLeft(old(table), table, w);
      ok := closed && clean;
      stuck := Some(r);
      if exited {
        stuck := None;
        ghost var before := pipe;
        var retired := Retire(r);
        EvidenceLasts(transcript, before, pipe);
        ok := ok && retired;
      }
    }

    /** The commit runs only for a callback that returned, with no fault so far and an empty transcript. */
    method Gate<T>(value: Option<T>, failed: bool, transcript: Bytes, commit: Option<Behaviour<()>>)
      returns (committed: Option<bool>, commits: seq<T>)
      modifies this`table, this`tty, this`pipe
      ensures committed.Some? <==> commit.Some? && value.Some? && !failed && transcript == []
      ensures commits == if committed.Some? then [value.value] else []
      ensures committed.Some? ==> committed.value == commit.value.value.Some?
      ensures table == if committed.Some? then old(table) - Shut(commit.value) else old(table)
      ensures old(Isolated(table)) ==> Isolated(table) && tty == old(tty)
      ensures old(pipe) <= pipe && (NoWriter(old(table)) ==> pipe == old(pipe))
    {
      committed, commits := None, [];
      if commit.Some? && value.Some? && !failed && transcript == [] {
        var result := Invoke(commit.value);
        committed, commits := Some(result.Some?), [value.value];
      }
    }

    /** The flush after the callback, and the sink. */
    method FlushAndSeal(inherit1: bool, inherit2: bool) returns (ok: bool, sink: Option<nat>)
      requires Tidy() && Isolated(table)
      modifies this
      ensures Isolated(table) && tty == old(tty)
      ensures ok <==> Faultless(script, old(clock), 4) == 4
      ensures sink.Some? <==> SinkOpens(script, old(clock))
      ensures clock == WriterCloseAt(script, old(clock))
      ensures sink.Some? ==>
                && sink.value !in old(table) && sink.value !in old(owed)
                && (forall k: nat :: k < sink.value ==> k in old(table))
                && sink.value in table
      ensures owed == old(owed) + One(sink)
      ensures Keeps(old(table), table, {}) && NoNewWriters(old(table), table)
      ensures var one, two := InPipe(old(table), 1), InPipe(old(table), 2);
                && (InPipe(table, 1) || InPipe(table, 2) <==> StreamLeft(script, old(clock), one, two))
                && (ok ==> pipe == Moved(script, old(clock), one, two, old(pipe)))
      ensures old(pipe) <= pipe
      ensures At(table, 1) == Sunk(script, old(clock), 1, sink, At(old(table), 1), inherit1)
      ensures At(table, 2) == Sunk(script, old(clock), 2, sink, At(old(table), 2), inherit2)
    {
      FlushFirst(script, clock, InPipe(table, 1), InPipe(table, 2), pipe);
      var flushed := Attempt();
      var sealed;
      sealed, sink := Seal(inherit1, inherit2);
      ok := flushed && sealed;
    }

    /** After the callback: flush, sink, drain. */
    method SealAndDrain(ends: (nat, nat), inherit1: bool, inherit2: bool)
      returns (ok: bool, transcript: Bytes, sink: Option<nat>, ghost stuck: Option<nat>)
      requires Tidy() && Isolated(table) && Prepared(ends, table) && ends.0 in owed && ends.1 in owed
      modifies this
      ensures Isolated(table) && tty == old(tty)
      ensures ok <==> Faultless(script, old(clock), 7) == 7
      ensures var one, two := InPipe(old(table), 1), InPipe(old(table), 2);
                && (stuck.None? <==> DrainEnds(script, WriterCloseAt(script, old(clock)),
                                               StreamLeft(script, old(clock), one, two)))
                && (ok ==> pipe == Moved(script, old(clock), one, two, old(pipe)))
      ensures clock == WriterCloseAt(script, old(clock)) + if stuck.Some? then 2 else 3
      ensures ok ==> NoWriter(table) && transcript == PayloadOf(pipe)
      ensures old(pipe) <= pipe && Evidence(transcript, pipe)
      ensures Keeps(old(table), table, Drops(ends, stuck))
      ensures sink.Some? <==> SinkOpens(script, old(clock))
      ensures sink.Some? ==>
                && sink.value !in old(table) && sink.value !in old(owed) && sink.value in table
                && (forall k: nat :: k < sink.value ==> k in old(table))
      ensures owed == old(owed) + One(sink) - Drops(ends, stuck)
      ensures stuck in {None, Some(ends.0)}
      ensures At(table, 1) == Sunk(script, old(clock), 1, sink, At(old(table), 1), inherit1)
      ensures At(table, 2) == Sunk(script, old(clock), 2, sink, At(old(table), 2), inherit2)
    {
      SevenCalls(script, clock, InPipe(table, 1), InPipe(table, 2));
      ghost var t0 := table;
      var sealed;
      sealed, sink := FlushAndSeal(inherit1, inherit2);
      ghost var t1 := table;
      PreparedStill(ends, t0, t1);
      var finished;
      finished, transcript, stuck := Finish(ends.0, ends.1);
      KeepsTrans(t0, t1, table, {}, Drops(ends, stuck));
      assert {} + Drops(ends, stuck) == Drops(ends, stuck);
      ok := sealed && finished;
    }

    /** The callback and the drain, with streams 1 and 2 isolated throughout. */
    method RunDrained<T>(ends: (nat, nat), inherit1: bool, inherit2: bool, body: Behaviour<T>)
      returns (value: Option<T>, ok: bool, transcript: Bytes, sink: Option<nat>, ghost stuck: Option<nat>)
      requires Tidy() && InPipe(table, 1) && InPipe(table, 2) && 0 in table && Prepared(ends, table)
      requires ends.0 in owed && ends.1 in owed && 1 !in owed && 2 !in owed
      requires table[1].inheritable == inherit1 && table[2].inheritable == inherit2
      modifies this
      ensures Isolated(table) && tty == old(tty) && value == body.value
      ensures ok <==> Faultless(script, old(clock), 7) == 7
      ensures ok ==> NoWriter(table) && transcript == PayloadOf(Drained(script, old(clock), body, old(pipe)))
      ensures old(pipe) + (body.out1 + body.out2) <= pipe && Evidence(transcript, pipe)
      ensures var a := old(clock);
                && (stuck.None? <==> DrainEnds(script, WriterCloseAt(script, a),
                                               StreamLeft(script, a, !body.closes1, !body.closes2)))
                && clock == WriterCloseAt(script, a) + (if stuck.Some? then 2 else 3)
                && (sink.Some? <==> SinkOpens(script, a)) && Kept(sink) == KeptSink(script, a, body)
      ensures Keeps(old(table), table, Drops(ends, stuck))
      ensures sink.Some? ==>
                && sink.value !in old(owed) && (sink.value in {1, 2} || sink.value !in old(table))
                && (sink.value in {1, 2} || sink.value in table)
      ensures owed == old(owed) + One(sink) - Drops(ends, stuck)
      ensures stuck in {None, Some(ends.0)}
      ensures At(table, 1) == Muted(script, old(clock), body, 1, inherit1)
      ensures At(table, 2) == Muted(script, old(clock), body, 2, inherit2)
    {
      value := Invoke(body);
      ghost var t1 := table;
      ok, transcript, sink, stuck := SealAndDrain(ends, inherit1, inherit2);
      SinkNumber(old(table), body, sink);
      MutedIs(script, old(clock), body, old(table), sink, 1);
      MutedIs(script, old(clock), body, old(table), sink, 2);
    }

    /** From the callback to the commit, with streams 1 and 2 isolated throughout. */
    method RunIsolated<T>(ends: (nat, nat), inherit1: bool, inherit2: bool, body: Behaviour<T>,
                          commit: Option<Behaviour<()>>)
      returns (u: Unwound<T>, commits: seq<T>, ghost stuck: Option<nat>)
      requires Tidy() && InPipe(table, 1) && InPipe(table, 2) && 0 in table && Prepared(ends, table)
      requires ends.0 in owed && ends.1 in owed && 1 !in owed && 2 !in owed
      requires table[1].inheritable == inherit1 && table[2].inheritable == inherit2
      modifies this
      ensures Isolated(table) && tty == old(tty)
      ensures Gated(script, old(clock), body, commit, old(pipe), u, commits)
      ensures old(pipe) + (body.out1 + body.out2) <= pipe && Evidence(u.transcript, pipe)
      ensures var a := old(clock);
                && (stuck.None? <==> DrainEnds(script, WriterCloseAt(script, a),
                                               StreamLeft(script, a, !body.closes1, !body.closes2)))
                && clock == WriterCloseAt(script, a) + (if stuck.Some? then 2 else 3)
                && (u.sink.Some? <==> SinkOpens(script, a)) && Kept(u.sink) == KeptSink(script, a, body)
      ensures Keeps(old(table), table, Drops(ends, stuck))
      ensures u.sink.Some? ==>
                && u.sink.value !in old(owed) && (u.sink.value in {1, 2} || u.sink.value !in old(table))
                && (u.sink.value in {1, 2} || u.sink.value in table)
      ensures owed == old(owed) + One(u.sink) - Drops(ends, stuck)
      ensures stuck in {None, Some(ends.0)}
      ensures At(table, 1) == MutedStill(script, old(clock), body, commit, u.committed.Some?, 1, inherit1)
      ensures At(table, 2) == MutedStill(script, old(clock), body, commit, u.committed.Some?, 2, inherit2)
    {
      var value, ok, transcript, sink;
      value, ok, transcript, sink, stuck := RunDrained(ends, inherit1, inherit2, body);
      ghost var t1, p1 := table, pipe;
      var committed;
      committed, commits := Gate(value, !ok, transcript, commit);
      EvidenceLasts(transcript, p1, pipe);
      u := Unwound(value, !ok, transcript, committed, sink);
    }

    /** Without a callback: a redirected stream is simply closed, and the pipe is drained. */
    method RunAborted<T>(ends: (nat, nat), out: bool) returns (u: Unwound<T>, ghost stuck: Option<nat>)
      requires Prepared(ends, table) && ends.0 in owed && ends.1 in owed
      requires (out <==> InPipe(table, 1)) && !InPipe(table, 2)
      modifies this
      ensures u.failed && u.value.None? && u.committed.None? && u.sink.None?
      ensures Keeps(old(table), table, Drops(ends, stuck)) && SameAt(old(table), table, 2)
      ensures if out then !OnTerminal(table, 1) else SameAt(old(table), table, 1)
      ensures var c, w := old(clock), old(clock) + if out then 1 else 0;
                && (stuck.Some? <==> !DrainEnds(script, w, out && script(c).fails && !script(c).closesAnyway))
                && clock == w + if stuck.Some? then 2 else 3
      ensures owed == old(owed) - Drops(ends, stuck) && stuck in {None, Some(ends.0)}
    {
      if out {
        var closed := Close(1);
      }
      var finished, transcript;
      finished, transcript, stuck := Finish(ends.0, ends.1);
      u := Unwound(None, true, transcript, None, None);
    }

    /** Streams 1 and 2 get their originals back; `broken` are those whose own restoring call failed. */
    method Restore(s: Setup, inherit1: bool, inherit2: bool) returns (ok: bool, ghost broken: set<nat>)
      requires s.restore.Some? && s.restore.value.0 in table && s.restore.value.1 in table && (s.err ==> s.out)
      requires s.restore.value.0 != 1 && s.restore.value.1 != 1
      modifies this`table, this`tty, this`pipe, this`clock
      ensures broken == BrokenAt(script, old(clock), s.out, s.err)
      ensures Keeps(old(table), table, {}) && (!s.out ==> SameAt(old(table), table, 1))
        && (!s.err ==> SameAt(old(table), table, 2))
      ensures ok <==> broken == {}
      ensures clock == old(clock) + (if s.out then 1 else 0) + (if s.err then 1 else 0)
      ensures s.out ==> if 1 !in broken then Bound(table, 1, Entry(old(table)[s.restore.value.0].target, inherit1))
                        else SameAt(old(table), table, 1)
      ensures s.err ==> if 2 !in broken then Bound(table, 2, Entry(old(table)[s.restore.value.1].target, inherit2))
                        else SameAt(old(table), table, 2)
      ensures s.err && Isolated(old(table)) && old(table)[s.restore.value.0].target.Original? ==>
                tty == Heard(script, old(clock) + 1, 1, 1 !in broken, false, old(tty))
      ensures old(pipe) <= pipe
    {
      ok, broken := true, {};
      if s.out {
        ok := Dup2(s.restore.value.0, 1, inherit1);
        broken := if ok then {} else {1};
      }
      if s.err {
        var ok2 := Dup2(s.restore.value.1, 2, inherit2);
        broken := broken + if ok2 then {} else {2};
        ok := ok && ok2;
      }
    }

    /** Every redirected stream is restored unless its own call fails, and then it stays silent. */
    method RestoreHeld(s: Setup, ghost t0: Table, inherit1: bool, inherit2: bool) returns (ok: bool)
      requires 1 in t0 && 2 in t0 && Open(t0) && CopiesHeld(s, t0, table) && s.restore.Some? && (s.err ==> s.out)
      requires inherit1 == t0[1].inheritable && inherit2 == t0[2].inheritable
      requires if s.out then !OnTerminal(table, 1) else Bound(table, 1, t0[1])
      requires if s.err then !OnTerminal(table, 2) else Bound(table, 2, t0[2])
      modifies this`table, this`tty, this`pipe, this`clock
      ensures CopiesHeld(s, t0, table) && Keeps(old(table), table, {})
      ensures Restored(t0, table, BrokenAt(script, old(clock), s.out, s.err))
      ensures s.err ==> Unmuted(t0, old(table), table, BrokenAt(script, old(clock), true, true))
      ensures clock == old(clock) + (if s.out then 1 else 0) + (if s.err then 1 else 0)
      ensures ok <==> BrokenAt(script, old(clock), s.out, s.err) == {}
      ensures s.err ==> tty == Heard(script, old(clock) + 1, 1, !script(old(clock)).fails, false, old(tty))
      ensures old(pipe) <= pipe
    {
      ghost var t1 := table;
      ghost var broken;
      ok, broken := Restore(s, inherit1, inherit2);
      HeldDespite(s, t0, t1, table, {});
    }

    /** A sink is closed unless it took the place of a stream. */
    method ReleaseSink(sink: Option<nat>) returns (ok: bool)
      requires sink.Some? ==> sink.value in owed && Freed(sink) <= table.Keys
      modifies this
      ensures var n := Closes(sink, None);
                && (ok <==> Faultless(script, old(clock), n) == n) && clock == old(clock) + n
                && tty == Heard(script, old(clock), n, OnTerminal(old(table), 1), OnTerminal(old(table), 2), old(tty))
      ensures Keeps(old(table), table, Freed(sink)) && owed == old(owed) - Freed(sink)
      ensures SameAt(old(table), table, 1) && SameAt(old(table), table, 2)
      ensures old(pipe) <= pipe
    {
      ok := true;
      if sink.Some? && sink.value != 1 && sink.value != 2 {
        ok := Retire(sink.value);
      }
    }

    method ReleaseCopies(copies: (nat, nat)) returns (ok: bool)
      requires copies.0 in owed && copies.1 in owed && copies.0 in table && copies.1 in table && copies.0 != copies.1
      requires copies.0 !in {1, 2} && copies.1 !in {1, 2}
      modifies this
      ensures ok <==> Faultless(script, old(clock), 2) == 2
      ensures tty == Heard(script, old(clock), 2, OnTerminal(old(table), 1), OnTerminal(old(table), 2), old(tty))
      ensures Keeps(old(table), table, {copies.0, copies.1}) && owed == old(owed) - {copies.0, copies.1}
      ensures SameAt(old(table), table, 1) && SameAt(old(table), table, 2)
      ensures old(pipe) <= pipe
    {
      HeardOn(script, clock, 1, 1, OnTerminal(table, 1), OnTerminal(table, 2), tty);
      var ok0 := Retire(copies.0);
      var ok1 := Retire(copies.1);
      ok := ok0 && ok1;
    }

    /** The private descriptors are closed, each exactly once; a sink that took the place of a stream stays. */
    method Release(sink: Option<nat>, restore: Option<(nat, nat)>) returns (ok: bool)
      requires Two(restore) <= owed && (restore.Some? ==> restore.value.0 != restore.value.1)
      requires sink.Some? ==> sink.value in owed && sink.value !in Two(restore) && Freed(sink) <= table.Keys
      requires Two(restore) <= table.Keys && 1 !in Two(restore) && 2 !in Two(restore)
      modifies this
      ensures Keeps(old(table), table, Freed(sink) + Two(restore))
      ensures SameAt(old(table), table, 1) && SameAt(old(table), table, 2)
      ensures owed == old(owed) - Freed(sink) - Two(restore)
      ensures ok <==> Faultless(script, old(clock), Closes(sink, restore)) == Closes(sink, restore)
      ensures tty == Heard(script, old(clock), Closes(sink, restore),
                           OnTerminal(old(table), 1), OnTerminal(old(table), 2), old(tty))
      ensures old(pipe) <= pipe
    {
      FaultlessSplits(script, clock, Closes(sink, None), 2);
      HeardOn(script, clock, Closes(sink, None), 2, OnTerminal(table, 1), OnTerminal(table, 2), tty);
      ok := ReleaseSink(sink);
      if restore.Some? {
        ghost var t1 := table;
        var closed := ReleaseCopies(restore.value);
        KeepsTrans(old(table), t1, table, Freed(sink), Two(restore));
        ok := ok && closed;
      }
    }

    /** After a callback: streams back in place (unless sealed), private descriptors closed. */
    method Unwind(s: Setup, ghost t0: Table, inherit1: bool, inherit2: bool, sink: Option<nat>, restoring: bool)
      returns (ok: bool)
      requires 1 in t0 && 2 in t0 && Open(t0) && CopiesHeld(s, t0, table)
      requires inherit1 == t0[1].inheritable && inherit2 == t0[2].inheritable
      requires s.out && s.err && s.restore.Some? && Isolated(table)
      requires Two(s.restore) <= owed && Aside(sink, s, t0)
      requires sink.Some? ==> sink.value in owed && Freed(sink) <= table.Keys
      modifies this
      ensures Intact(s, t0, table) && old(pipe) <= pipe
      ensures Keeps(old(table), table, Freed(sink) + Two(s.restore))
      ensures Unmuted(t0, old(table), table, if restoring then BrokenAt(script, old(clock), true, true) else {1, 2})
      ensures owed == old(owed) - Freed(sink) - Two(s.restore)
      ensures var n := (if restoring then 2 else 0) + Closes(sink, s.restore);
              ok <==> Faultless(script, old(clock), n) == n
      ensures tty == if restoring then HeardAgain(script, old(clock), Closes(sink, s.restore), old(tty)) else old(tty)
    {
      ok := true;
      ghost var broken := BrokenAt(script, clock, true, true);
      if restoring {
        FaultlessSplits(script, clock, 2, Closes(sink, s.restore));
        ok := RestoreHeld(s, t0, inherit1, inherit2);
      }
      ghost var t2 := table;
      var released := Release(sink, s.restore);
      ReleaseKeeps(s, t0, t2, table, sink, broken);
      UnmutedStill(t0, old(table), t2, table, if restoring then broken else {1, 2});
      ok := ok && released;
    }

    /** The callback and the commit, from what is held to what is left to unwind. */
    method RunHeld<T>(s: Setup, ghost t0: Table, inherit1: bool, inherit2: bool, body: Behaviour<T>,
                      commit: Option<Behaviour<()>>)
      returns (u: Unwound<T>, commits: seq<T>, ghost stuck: Option<nat>)
      requires 1 in t0 && 2 in t0 && Tidy() && owed == Opened(s) && 0 in table && s.err && Held(s, t0, table)
      requires inherit1 == t0[1].inheritable && inherit2 == t0[2].inheritable
      modifies this
      ensures Isolated(table) && tty == old(tty) && CopiesHeld(s, t0, table) && Aside(u.sink, s, t0)
      ensures Gated(script, old(clock), body, commit, old(pipe), u, commits)
      ensures old(pipe) + (body.out1 + body.out2) <= pipe && Evidence(u.transcript, pipe)
      ensures var a := old(clock);
                && (stuck.None? <==> DrainEnds(script, WriterCloseAt(script, a),
                                               StreamLeft(script, a, !body.closes1, !body.closes2)))
                && clock == WriterCloseAt(script, a) + (if stuck.Some? then 2 else 3)
                && Closes(u.sink, s.restore) == ClosesAfter(script, a, body)
                && owed - Freed(u.sink) - Two(s.restore) == Two(s.status) + One(stuck) + One(KeptSink(script, a, body))
      ensures Two(s.restore) <= owed && (u.sink.Some? ==> u.sink.value in owed && Freed(u.sink) <= table.Keys)
      ensures stuck.Some? ==> stuck == Some(s.pipe.value.0) && Bound(table, stuck.value, Entry(PipeReader, false))
      ensures At(table, 1) == MutedStill(script, old(clock), body, commit, u.committed.Some?, 1, inherit1)
      ensures At(table, 2) == MutedStill(script, old(clock), body, commit, u.committed.Some?, 2, inherit2)
    {
      ghost var t1 := table;
      ReadyToRun(s, t0, t1);
      u, commits, stuck := RunIsolated(s.pipe.value, inherit1, inherit2, body, commit);
      ReadyToUnwind(s, t0, t1, u.sink, stuck);
      HeldDespite(s, t0, t1, table, Drops(s.pipe.value, stuck));
    }

    /** Everything after a redirection that reached the callback. */
    method CompleteStarted<T>(s: Setup, ghost t0: Table, inherit1: bool, inherit2: bool, body: Behaviour<T>,
                              commit: Option<Behaviour<()>>, seal: bool)
      returns (u: Unwound<T>, commits: seq<T>, failed: bool, ghost stuck: Option<nat>)
      requires 1 in t0 && 2 in t0 && Open(t0) && Tidy() && owed == Opened(s) && 0 in table
      requires s.err && Held(s, t0, table) && inherit1 == t0[1].inheritable && inherit2 == t0[2].inheritable
      modifies this
      ensures Intact(s, t0, table)
      ensures var a := old(clock);
              var g := WriterCloseAt(script, a) + (if stuck.Some? then 2 else 3);
                && (stuck.None? <==> DrainEnds(script, WriterCloseAt(script, a),
                                               StreamLeft(script, a, !body.closes1, !body.closes2)))
                && Ended(script, a, g, body, commit, seal, u.committed.Some?, t0, table)
                && tty == (if seal then old(tty) else HeardAgain(script, g, ClosesAfter(script, a, body), old(tty)))
                && (var n := (if seal then 0 else 2) + ClosesAfter(script, a, body);
                    failed <==> u.failed || Faultless(script, g, n) < n)
                && owed == Two(s.status) + One(stuck) + One(KeptSink(script, a, body))
      ensures stuck.Some? ==> Bound(table, stuck.value, Entry(PipeReader, false))
      ensures Gated(script, old(clock), body, commit, old(pipe), u, commits)
      ensures old(pipe) + (body.out1 + body.out2) <= pipe && Evidence(u.transcript, pipe)
    {
      u, commits, stuck := RunHeld(s, t0, inherit1, inherit2, body, commit);
      ghost var t1, p2, g := table, pipe, clock;
      var ok := Unwind(s, t0, inherit1, inherit2, u.sink, !seal);
      EvidenceLasts(u.transcript, p2, pipe);
      MutedEnd(script, old(clock), g, body, commit, seal, u.committed.Some?, t0, t1, table);
      failed := u.failed || !ok;
    }

    /** Without a pipe nothing was redirected: the copies for restoring are closed. */
    method CompleteBare<T>(s: Setup, ghost t0: Table, ghost leaked: Option<nat>) returns (u: Unwound<T>)
      requires 1 in t0 && 2 in t0 && Held(s, t0, table) && s.pipe.None? && owed == Opened(s) + One(leaked)
      requires leaked.Some? ==>
                 leaked.value !in Opened(s) && leaked.value !in t0
                   && Bound(table, leaked.value, Entry(PipeWriter, false))
      modifies this
      ensures u.failed && u.value.None? && u.committed.None?
      ensures Intact(s, t0, table) && Restored(t0, table, {})
      ensures owed == Two(s.status) + One(leaked)
      ensures leaked.Some? ==> Bound(table, leaked.value, Entry(PipeWriter, false))
    {
      if s.restore.Some? {
        var ok := ReleaseCopies(s.restore.value);
      }
      u := Unwound(None, true, [], None, None);
    }

    /** Stream 1 back in place if it was redirected, private descriptors closed. */
    method UnwindPiped(s: Setup, ghost t0: Table, inherit1: bool, inherit2: bool)
      requires 1 in t0 && 2 in t0 && Open(t0) && CopiesHeld(s, t0, table) && s.restore.Some? && !s.err
      requires inherit1 == t0[1].inheritable && inherit2 == t0[2].inheritable
      requires if s.out then !OnTerminal(table, 1) else Bound(table, 1, t0[1])
      requires Bound(table, 2, t0[2]) && Two(s.restore) <= owed
      modifies this
      ensures Intact(s, t0, table) && Restored(t0, table, BrokenAt(script, old(clock), s.out, false))
      ensures Keeps(old(table), table, Two(s.restore)) && owed == old(owed) - Two(s.restore)
    {
      ghost var t1, broken := table, BrokenAt(script, clock, s.out, false);
      var ok := RestoreHeld(s, t0, inherit1, inherit2);
      ghost var t2 := table;
      ok := ReleaseCopies(s.restore.value);
      ReleaseKeeps(s, t0, t2, table, None, broken);
    }

    /** Everything after a redirection that failed once there was a pipe: the streams always go back. */
    method CompletePiped<T>(s: Setup, ghost t0: Table, inherit1: bool, inherit2: bool)
      returns (u: Unwound<T>, ghost stuck: Option<nat>)
      requires 1 in t0 && 2 in t0 && OnTerminal(t0, 1) && OnTerminal(t0, 2)
      requires owed == Opened(s) && !s.err && Held(s, t0, table) && s.pipe.Some?
      requires inherit1 == t0[1].inheritable && inherit2 == t0[2].inheritable
      modifies this
      ensures u.failed && u.value.None? && u.committed.None?
      ensures owed == Two(s.status) + One(stuck)
      ensures var c, w := old(clock), old(clock) + if s.out then 1 else 0;
              var g := w + if stuck.Some? then 2 else 3;
                && (stuck.Some? <==> !DrainEnds(script, w, s.out && script(c).fails && !script(c).closesAnyway))
                && Intact(s, t0, table) && Restored(t0, table, BrokenAt(script, g, s.out, false))
      ensures stuck.Some? ==> Bound(table, stuck.value, Entry(PipeReader, false))
    {
      ghost var t1 := table;
      u, stuck := RunAborted(s.pipe.value, s.out);
      HeldDespite(s, t0, t1, table, Drops(s.pipe.value, stuck));
      SettledAborted(s, t0, t1, stuck);
      UnwindPiped(s, t0, inherit1, inherit2);
    }

    /** Whether each stream survives an exec, asked before anything is touched. */
    method Inspect() returns (flags: Option<(bool, bool)>)
      modifies this`tty, this`pipe, this`clock
      ensures flags.Some? <==> 1 in table && 2 in table && Faultless(script, old(clock), 2) == 2
      ensures flags.Some? ==> flags == Some((table[1].inheritable, table[2].inheritable)) && clock == old(clock) + 2
      ensures flags.Some? && Open(table) ==> tty == Heard(script, old(clock), 2, true, true, old(tty))
    {
      HeardOn(script, clock, 1, 1, true, true, tty);
      flags := None;
      var inherit1 := GetInheritable(1);
      if inherit1.Some? {
        var inherit2 := GetInheritable(2);
        if inherit2.Some? {
          flags := Some((inherit1.value, inherit2.value));
        }
      }
    }

    /** The `finally` block after a callback; `c` is the first call of the capture. */
    method FinishStarted<T>(s: Setup, ghost t0: Table, ghost c: nat, inherit1: bool, inherit2: bool, body: Behaviour<T>,
                            commit: Option<Behaviour<()>>, seal: bool)
      returns (u: Unwound<T>, commits: seq<T>, failed: bool, ghost stuck: Option<nat>)
      requires 1 in t0 && 2 in t0 && AllOriginal(t0) && Tidy() && owed == Opened(s) && 0 in table
      requires s.err && Held(s, t0, table) && inherit1 == t0[1].inheritable && inherit2 == t0[2].inheritable
      requires Started(script, c) && clock == c + 18 && pipe == AtStart(script, c)
      modifies this
      ensures Ran(script, c, body, commit, seal, u, commits, failed)
      ensures Intact(s, t0, table) && StreamsEnd(script, c, body, commit, seal, t0, table)
      ensures tty == if seal then old(tty)
                     else HeardAgain(script, RestoreAt(script, c, body), ClosesAfter(script, c + 18, body), old(tty))
      ensures old(pipe) + (body.out1 + body.out2) <= pipe && Evidence(u.transcript, pipe)
      ensures owed == Two(s.status) + One(stuck) + One(KeptSink(script, c + 18, body))
      ensures stuck.Some? <==> Stuck(script, c, body)
      ensures stuck.Some? ==> Bound(table, stuck.value, Entry(PipeReader, false))
    {
      u, commits, failed, stuck := CompleteStarted(s, t0, inherit1, inherit2, body, commit, seal);
      ghost var g := WriterCloseAt(script, c + 18) + if stuck.Some? then 2 else 3;
      StartedDone(script, c, body, commit, seal, stuck.Some?, g, u, commits, failed, t0, table);
    }

    /** After a redirection that failed with a pipe. */
    method FinishPiped<T>(s: Setup, ghost t0: Table, ghost c: nat, inherit1: bool, inherit2: bool, body: Behaviour<T>,
                          commit: Option<Behaviour<()>>, seal: bool)
      returns (u: Unwound<T>, ghost stuck: Option<nat>)
      requires 1 in t0 && 2 in t0 && AllOriginal(t0) && owed == Opened(s) && s.pipe.Some?
      requires Held(s, t0, table) && inherit1 == t0[1].inheritable && inherit2 == t0[2].inheritable
      requires Arrived(script, c, s, clock) && !s.err
      modifies this
      ensures Ran(script, c, body, commit, seal, u, [], true)
      ensures Intact(s, t0, table) && StreamsEnd(script, c, body, commit, seal, t0, table)
      ensures owed == Two(s.status) + One(stuck)
      ensures stuck.Some? <==> Stuck(script, c, body)
      ensures stuck.Some? ==> Bound(table, stuck.value, Entry(PipeReader, false))
    {
      ghost var from := clock;
      u, stuck := CompletePiped(s, t0, inherit1, inherit2);
      AbortedPiped(script, c, s, from, body, stuck.Some?);
      AbortedRan(script, c, body, commit, seal, u, t0, table);
    }

    /** And without one. */
    method FinishBare<T>(s: Setup, ghost t0: Table, ghost c: nat, ghost leaked: Option<nat>, body: Behaviour<T>,
                         commit: Option<Behaviour<()>>, seal: bool)
      returns (u: Unwound<T>)
      requires 1 in t0 && 2 in t0 && Held(s, t0, table) && s.pipe.None? && owed == Opened(s) + One(leaked)
      requires leaked.Some? ==>
                 leaked.value !in Opened(s) && leaked.value !in t0
                   && Bound(table, leaked.value, Entry(PipeWriter, false))
      requires Arrived(script, c, s, clock)
      modifies this
      ensures Ran(script, c, body, commit, seal, u, [], true)
      ensures Intact(s, t0, table) && StreamsEnd(script, c, body, commit, seal, t0, table)
      ensures owed == Two(s.status) + One(leaked) && !Stuck(script, c, body)
      ensures leaked.Some? ==> Bound(table, leaked.value, Entry(PipeWriter, false))
    {
      AbortedBare(script, c, s, clock, body);
      u := CompleteBare(s, t0, leaked);
      AbortedRan(script, c, body, commit, seal, u, t0, table);
    }

    /** A capture from its callback on. */
    method SettleStarted<T>(s: Setup, ghost t0: Table, ghost c: nat, inherit1: bool, inherit2: bool, body: Behaviour<T>,
                            commit: Option<Behaviour<()>>, seal: bool)
      returns (outcome: Outcome<T>, commits: seq<T>, ghost stuck: Option<nat>)
      requires 1 in t0 && 2 in t0 && AllOriginal(t0) && Tidy() && owed == Opened(s) && 0 in table
      requires s.err && Held(s, t0, table) && inherit1 == t0[1].inheritable && inherit2 == t0[2].inheritable
      requires Started(script, c) && clock == c + 18 && pipe == AtStart(script, c)
      modifies this
      ensures !outcome.Escaped? && StatusOf(outcome) == s.status
      ensures AllOrNothing(script, c, body, commit, seal, outcome, commits)
      ensures StreamsEnd(script, c, body, commit, seal, t0, table) && Intact(s, t0, table)
      ensures tty == if seal then old(tty)
                     else HeardAgain(script, RestoreAt(script, c, body), ClosesAfter(script, c + 18, body), old(tty))
      ensures AtStart(script, c) + (body.out1 + body.out2) <= pipe
      ensures outcome.Failed? ==> Evidence(outcome.transcript, pipe)
      ensures Accounted(script, c, body, outcome, owed, None, stuck, table)
    {
      var u: Unwound<T>, failed;
      u, commits, failed, stuck := FinishStarted(s, t0, c, inherit1, inherit2, body, commit, seal);
      NoLeakOnce(script, c);
      Concluded(script, c, body, commit, seal, s.status, u, commits, failed);
      outcome := Conclude(s.status, u, failed, true);
    }

    /** A capture from a failed redirection on. */
    method SettleAborted<T>(s: Setup, ghost t0: Table, ghost c: nat, ghost leaked: Option<nat>, inherit1: bool,
                            inherit2: bool, body: Behaviour<T>, commit: Option<Behaviour<()>>, seal: bool)
      returns (outcome: Outcome<T>, ghost stuck: Option<nat>)
      requires 1 in t0 && 2 in t0 && AllOriginal(t0) && owed == Opened(s) + One(leaked)
      requires leaked.Some? ==>
                 && s.pipe.None? && leaked.value !in Opened(s)
                 && leaked.value !in t0 && Bound(table, leaked.value, Entry(PipeWriter, false))
      requires leaked.Some? <==> Faultless(script, c, 10) == 10 && WriterLeaks(script, c + 10)
      requires Held(s, t0, table) && inherit1 == t0[1].inheritable && inherit2 == t0[2].inheritable
      requires Arrived(script, c, s, clock) && !s.err
      modifies this
      ensures !outcome.Escaped? && StatusOf(outcome) == s.status
      ensures AllOrNothing(script, c, body, commit, seal, outcome, [])
      ensures StreamsEnd(script, c, body, commit, seal, t0, table) && Intact(s, t0, table)
      ensures Accounted(script, c, body, outcome, owed, leaked, stuck, table)
    {
      var u: Unwound<T>;
      StatusArrived(script, c, s, clock);
      if s.pipe.Some? {
        u, stuck := FinishPiped(s, t0, c, inherit1, inherit2, body, commit, seal);
      } else {
        stuck := None;
        u := FinishBare(s, t0, c, leaked, body, commit, seal);
      }
      Concluded(script, c, body, commit, seal, s.status, u, [], true);
      outcome := Conclude(s.status, u, true, false);
    }

    method Capture<T>(inherit1: bool, inherit2: bool, ghost c: nat, ghost before: Bytes, body: Behaviour<T>,
                      commit: Option<Behaviour<()>>, seal: bool)
      returns (outcome: Outcome<T>, commits: seq<T>, ghost leaked: Option<nat>, ghost stuck: Option<nat>)
      requires AllOriginal(table) && owed == {} && 1 in table && 2 in table
      requires inherit1 == table[1].inheritable && inherit2 == table[2].inheritable
      requires clock == c + 2 && Faultless(script, c, 2) == 2 && tty == Heard(script, c, 2, true, true, before)
      modifies this
      ensures !outcome.Escaped?
      ensures AllOrNothing(script, c, body, commit, seal, outcome, commits)
      ensures StreamsEnd(script, c, body, commit, seal, old(table), table)
      ensures Started(script, c) ==>
                && tty == OnScreen(script, c, body, seal, before)
                && AtStart(script, c) + (body.out1 + body.out2) <= pipe
                && (outcome.Failed? ==> Evidence(outcome.transcript, pipe))
      ensures Accounted(script, c, body, outcome, owed, leaked, stuck, table)
      ensures StatusOf(outcome).Some? ==> Copies(outcome.status, old(table), table)
      ensures forall d :: d in old(table) && d != 1 && d != 2 ==> Bound(table, d, old(table)[d])
    {
      var s;
      s, leaked := RedirectFrom(c, before, inherit1, inherit2);
      if s.err {
        outcome, commits, stuck := SettleStarted(s, old(table), c, inherit1, inherit2, body, commit, seal);
      } else {
        outcome, stuck := SettleAborted(s, old(table), c, leaked, inherit1, inherit2, body, commit, seal);
        commits := [];
      }
    }

    /**
     * `capture_terminal`, under every script. `commits` lists the values the commit was called with. The
     * script and the callback settle whether the callback and the commit run, the outcome, where the two
     * streams end up, every byte the terminal gets once the callback started, and every descriptor opened.
     */
    method CaptureTerminal<T>(body: Behaviour<T>, commit: Option<Behaviour<()>>, seal: bool)
      returns (outcome: Outcome<T>, commits: seq<T>, ghost leaked: Option<nat>, ghost stuck: Option<nat>)
      requires AllOriginal(table) && owed == {}
      modifies this
      ensures outcome.Escaped? <==> 1 !in old(table) || 2 !in old(table) || Faultless(script, old(clock), 2) < 2
      ensures outcome.Escaped? ==> table == old(table) && owed == {} && commits == []
      ensures !outcome.Escaped? ==>
                && AllOrNothing(script, old(clock), body, commit, seal, outcome, commits)
                && StreamsEnd(script, old(clock), body, commit, seal, old(table), table)
                && Accounted(script, old(clock), body, outcome, owed, leaked, stuck, table)
                && (StatusOf(outcome).Some? ==> Copies(outcome.status, old(table), table))
                && forall d :: d in old(table) && d != 1 && d != 2 ==> Bound(table, d, old(table)[d])
      ensures !outcome.Escaped? && Started(script, old(clock)) ==>
                && tty == OnScreen(script, old(clock), body, seal, old(tty))
                && AtStart(script, old(clock)) + (body.out1 + body.out2) <= pipe
                && (outcome.Failed? ==> Evidence(outcome.transcript, pipe))
    {
      commits, leaked, stuck := [], None, None;
      var flags := Inspect();
      if flags.None? {
        outcome := Escaped;
      } else {
        outcome, commits, leaked, stuck :=
          Capture(flags.value.0, flags.value.1, old(clock), old(tty), body, commit, seal);
      }
    }
  }
}
