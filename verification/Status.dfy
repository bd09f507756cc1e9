/**
 * The one-line status a run prints: what the official command may emit, and what the bootstrap
 * accepts. `codes` is the list of reason codes, which the two files keep in common.
 */
module Status {
  import opened Common
  import opened Text
  import opened Json
  import opened CanonicalJson
  import opened JsonLimits
  import opened Dumping
  import opened Dicts

  const MAX_STATUS_BYTES := 64 * 1024

  const SCHEMA: Str := K("m6-cli-status-2.0.0")
  const PROFILE: Str := K("official_m6")
  const SUCCESS: Str := K("success")
  const AWAITING: Str := K("awaiting_review")
  const REJECTED: Str := K("rejected")
  const FAILURE: Str := K("failure")
  const UNEXPECTED: Str := K("unexpected_failure")
  const OFFICIAL: Str := K("official")
  const OUTPUTS: Str := K("outputs")
  const M6: Str := K("m6")
  const MARKER: Str := K("TERMINAL_FAILURE")

  const SUCCESS_KEYS: seq<Str> :=
    [K("aggregate_counts"), K("mode"), K("profile"), K("result_path"), K("schema_version"), K("stage_durations_ms"),
      K("status")]
  const AWAITING_KEYS: seq<Str> := [K("mode"), K("profile"), K("result_path"), K("schema_version"), K("status")]
  const REJECTED_KEYS: seq<Str> := [K("reason_code"), K("schema_version"), K("status")]
  const FAILURE_KEYS: seq<Str> := [K("failure_marker"), K("reason_code"), K("schema_version"), K("status")]

  predicate Mode(s: Str) {
    s == K("eligibility_only") || s == K("compute_pilot") || s == OFFICIAL
  }

  // ----- Names and paths ---------------------------------------------------------------------

  predicate NameCode(c: int) {
    97 <= c <= 122 || 48 <= c <= 57 || c == 46 || c == 95 || c == 45
  }

  predicate RunName(s: Str) {
    && 1 <= |s| <= 128 && (forall i :: 0 <= i < |s| ==> NameCode(s[i]))
    && (97 <= s[0] <= 122 || 48 <= s[0] <= 57)
  }

  predicate SafeComponent(s: Str) {
    && 1 <= |s| <= 128 && (forall i :: 0 <= i < |s| ==> NameCode(s[i]) || 65 <= s[i] <= 90)
    && s[0] != 46 && s[0] != 95 && s[0] != 45
  }

  /** The segments between slashes, empty ones included. */
  function Segments(s: Str): (r: seq<Str>)
    ensures r != []
  {
    if s == [] then [[]]
    else
      var rest := Segments(s[1..]);
      if s[0] == 47 then [[]] + rest else [[s[0]] + rest[0]] + rest[1..]
  }

  function WithSlashes(segments: seq<Str>): Str
    requires segments != []
  {
    if |segments| == 1 then segments[0] else segments[0] + ([47] + WithSlashes(segments[1..]))
  }

  /** What `pathlib` keeps of a relative path: no empty and no dot segments. */
  function Parts(segments: seq<Str>): seq<Str> {
    if segments == [] then []
    else if segments[0] == [] || segments[0] == [46] then Parts(segments[1..])
    else [segments[0]] + Parts(segments[1..])
  }

  /** The text is spelled the way `pathlib` would spell it. */
  predicate Normalised(s: Str) {
    forall i :: 0 <= i < |Segments(s)| ==> Segments(s)[i] != [] && Segments(s)[i] != [46]
  }

  lemma {:induction false} WithSlashesSegments(s: Str)
    ensures WithSlashes(Segments(s)) == s
  {
    if s != [] {
      WithSlashesSegments(s[1..]);
      var rest := Segments(s[1..]);
      var all := Segments(s);
      if s[0] == 47 {
        assert all[1..] == rest;
      } else if |rest| > 1 {
        assert all[1..] == rest[1..];
        assert all[0] + ([47] + WithSlashes(rest[1..])) == [s[0]] + WithSlashes(rest);
      }
      assert s == [s[0]] + s[1..];
    }
  }

  predicate Slashless(s: Str) {
    forall i :: 0 <= i < |s| ==> s[i] != 47
  }

  lemma {:induction false} SegmentsCons(head: Str, tail: Str)
    requires Slashless(head)
    ensures Segments(head + ([47] + tail)) == [head] + Segments(tail)
  {
    var s := head + ([47] + tail);
    if head == [] {
      assert s[1..] == tail;
    } else {
      assert s[1..] == head[1..] + ([47] + tail);
      SegmentsCons(head[1..], tail);
      assert [head[0]] + head[1..] == head;
    }
  }

  lemma {:induction false} SegmentsOne(s: Str)
    requires Slashless(s)
    ensures Segments(s) == [s]
  {
    if s != [] {
      SegmentsOne(s[1..]);
      assert s == [s[0]] + s[1..];
    }
  }

  lemma {:induction false} PartsKeepAll(segments: seq<Str>)
    ensures Parts(segments) == segments <==> forall i :: 0 <= i < |segments| ==>
      segments[i] != [] && segments[i] != [46]
    ensures |Parts(segments)| <= |segments|
  {
    if segments != [] {
      PartsKeepAll(segments[1..]);
      if segments[0] != [] && segments[0] != [46] {
        assert Parts(segments)[1..] == Parts(segments[1..]);
        assert segments == [segments[0]] + segments[1..];
        if forall i :: 0 <= i < |segments[1..]| ==> segments[1..][i] != [] && segments[1..][i] != [46] {
          forall i | 0 <= i < |segments|
            ensures segments[i] != [] && segments[i] != [46]
          {
            assert i > 0 ==> segments[i] == segments[1..][i - 1];
          }
        }
      }
      assert forall i :: 0 <= i < |segments[1..]| ==> segments[1..][i] == segments[i + 1];
    }
  }

  /** `outputs/m6/NAME`. */
  function ResultPath(name: Str): Str {
    OUTPUTS + ([47] + (M6 + ([47] + name)))
  }

  /** `outputs/m6/NAME/TERMINAL_FAILURE`. */
  function MarkerPath(name: Str): Str {
    OUTPUTS + ([47] + (M6 + ([47] + (name + ([47] + MARKER)))))
  }

  /** The validator's pattern for a result path. */
  predicate ResultPattern(s: Str) {
    |s| >= 11 && RunName(s[11..]) && s == ResultPath(s[11..])
  }

  /** The validator's pattern for a failure marker. */
  predicate MarkerPattern(s: Str) {
    |s| >= 28 && RunName(s[11..|s| - 17]) && s == MarkerPath(s[11..|s| - 17])
  }

  /** The emitter's test of a failure marker, on the parts `pathlib` finds. */
  predicate MarkerParts(s: Str) {
    var parts := Parts(Segments(s));
    && s != [] && s[0] != 47
    && |parts| == 4 && parts[0] == OUTPUTS && parts[1] == M6 && RunName(parts[2]) && parts[3] == MARKER
  }

  lemma FixedSegments()
    ensures |OUTPUTS| == 7 && Slashless(OUTPUTS) && OUTPUTS[0] == 111
    ensures |M6| == 2 && Slashless(M6) && M6[0] == 109
    ensures |MARKER| == 16 && Slashless(MARKER) && MARKER[0] == 84
  {
  }

  lemma MarkerSegments(name: Str)
    requires RunName(name)
    ensures Segments(MarkerPath(name)) == [OUTPUTS, M6, name, MARKER]
  {
    FixedSegments();
    SegmentsCons(OUTPUTS, M6 + ([47] + (name + ([47] + MARKER))));
    SegmentsCons(M6, name + ([47] + MARKER));
    SegmentsCons(name, MARKER);
    SegmentsOne(MARKER);
  }

  lemma MarkerSlashes(name: Str)
    ensures WithSlashes([OUTPUTS, M6, name, MARKER]) == MarkerPath(name)
  {
    var g := [OUTPUTS, M6, name, MARKER];
    var h, t := [M6, name, MARKER], [name, MARKER];
    assert t[1..] == [MARKER] && WithSlashes(t) == name + ([47] + MARKER);
    assert h[1..] == t && WithSlashes(h) == M6 + ([47] + WithSlashes(t));
    assert g[1..] == h;
  }

  lemma MarkerPathMatches(name: Str)
    requires RunName(name)
    ensures MarkerPattern(MarkerPath(name))
  {
    FixedSegments();
    var s := MarkerPath(name);
    assert s[11..|s| - 17] == name;
  }

  lemma MarkerIsNormalised(name: Str)
    requires RunName(name)
    ensures Normalised(MarkerPath(name))
  {
    FixedSegments();
    MarkerSegments(name);
  }

  /** A marker the emitter lets through matches the validator's pattern exactly when it is normalised. */
  lemma MarkerAgreesIff(s: Str)
    requires MarkerParts(s)
    ensures MarkerPattern(s) <==> Normalised(s)
  {
    if MarkerPattern(s) {
      MarkerIsNormalised(s[11..|s| - 17]);
    }
    if Normalised(s) {
      var g := Segments(s);
      PartsKeepAll(g);
      assert g == [OUTPUTS, M6, g[2], MARKER];
      WithSlashesSegments(s);
      MarkerSlashes(g[2]);
      MarkerPathMatches(g[2]);
    }
  }

  /** The validator's pattern is stricter: what matches it, the emitter lets through. */
  lemma PatternHasParts(s: Str)
    requires MarkerPattern(s)
    ensures MarkerParts(s)
  {
    var name := s[11..|s| - 17];
    FixedSegments();
    MarkerSegments(name);
    MarkerIsNormalised(name);
    PartsKeepAll(Segments(s));
  }

  // ----- The emitters ------------------------------------------------------------------------

  function Line(w: Json): Bytes {
    PrintTo(w, [10])
  }

  function RejectionDict(code: Str, status: Str): Json {
    JObj(Zip(REJECTED_KEYS, [JStr(code), JStr(SCHEMA), JStr(status)]))
  }

  function FailureDict(marker: Str, code: Str): Json {
    JObj(Zip(FAILURE_KEYS, [JStr(marker), JStr(code), JStr(SCHEMA), JStr(FAILURE)]))
  }

  function CodeOr(codes: set<Str>, code: Str): Str {
    if code in codes then code else UNEXPECTED
  }

  /** A rejection or a failure; a marker the checks refuse raises. */
  function RejectionOutput(codes: set<Str>, code: Str, failed: bool, marker: Option<Str>): Option<Bytes> {
    match marker
    case None => Some(Line(RejectionDict(CodeOr(codes, code), if failed then FAILURE else REJECTED)))
    case Some(path) =>
      if failed && MarkerParts(path) then Some(Line(FailureDict(path, CodeOr(codes, code)))) else None
  }

  /** A `Path` of a result: its parts and its POSIX text. */
  datatype ResultRef = ResultRef(parts: seq<Str>, text: Str)

  predicate SafeResult(path: ResultRef) {
    && |path.parts| == 3 && path.parts[0] == OUTPUTS && path.parts[1] == M6 && RunName(path.parts[2])
    && path.text == ResultPath(path.parts[2])
  }

  predicate Count(v: Json) {
    v.JInt? && v.n >= 0
  }

  /** Non-empty, keys in order, safe and with non-negative integers. */
  predicate SafeCounts(counts: seq<Member>) {
    counts != [] && Sorted(counts) && forall i :: 0 <= i < |counts| ==>
      SafeComponent(counts[i].key) && Count(counts[i].value)
  }

  function SuccessDict(counts: seq<Member>, mode: Str, path: Str, durations: seq<Member>): Json {
    JObj(Zip(SUCCESS_KEYS,
      [JObj(counts), JStr(mode), JStr(PROFILE), JStr(path), JStr(SCHEMA), JObj(durations), JStr(SUCCESS)]))
  }

  /** Printing an integer of too many digits raises. */
  function SuccessOutput(limits: Limits, counts: seq<Member>, mode: Str, path: ResultRef, durations: seq<Member>)
    : Option<Bytes>
  {
    if Mode(mode) && SafeCounts(counts) && SafeCounts(durations) && SafeResult(path)
       && FitMembers(limits, counts, 2) && FitMembers(limits, durations, 2)
    then Some(Line(SuccessDict(counts, mode, path.text, durations)))
    else None
  }

  function AwaitingDict(path: Str): Json {
    JObj(Zip(AWAITING_KEYS, [JStr(OFFICIAL), JStr(PROFILE), JStr(path), JStr(SCHEMA), JStr(AWAITING)]))
  }

  predicate Sha256Text(s: Str) {
    |s| == 64 && forall i :: 0 <= i < |s| ==> HexCode(s[i])
  }

  function AwaitingOutput(mode: Str, catalog: Str, verification: Str, path: ResultRef): Option<Bytes> {
    if mode == OFFICIAL && Sha256Text(catalog) && Sha256Text(verification) && SafeResult(path)
    then Some(Line(AwaitingDict(path.text)))
    else None
  }

  // ----- The validator -----------------------------------------------------------------------

  /** `Raised`: an exception leaves the validator. */
  datatype Verdict = Accepted | Refused | Raised

  function If(b: bool): Verdict {
    if b then Accepted else Refused
  }

  /** Lists and dicts cannot be looked up in a set: Python raises. */
  predicate Unhashable(v: Option<Json>) {
    v.Some? && (v.value.JArr? || v.value.JObj?)
  }

  predicate IntegerMapping(v: Json) {
    && v.JObj? && v.members != []
    && forall i :: 0 <= i < |v.members| ==> SafeComponent(v.members[i].key) && Count(v.members[i].value)
  }

  function CheckSuccess(m: seq<Member>, error: bool, code: int): Verdict {
    if error || code != 0 || Keys(m) != SUCCESS_KEYS then Refused
    else
      var v := Values(m);
      if Unhashable(Some(v[1])) then Raised
      else If(
        && v[1].JStr? && Mode(v[1].s) && v[2] == JStr(PROFILE) && v[3].JStr? && ResultPattern(v[3].s)
        && IntegerMapping(v[0]) && IntegerMapping(v[5]))
  }

  function CheckAwaiting(m: seq<Member>, error: bool, code: int): Verdict {
    if error || code != 0 || Keys(m) != AWAITING_KEYS then Refused
    else
      var v := Values(m);
      If(v[0] == JStr(OFFICIAL) && v[1] == JStr(PROFILE) && v[2].JStr? && ResultPattern(v[2].s))
  }

  function CheckFailure(codes: set<Str>, m: seq<Member>, failed: bool, error: bool, code: int): Verdict {
    if !error || code == 0 then Refused
    else
      var reason := Get(m, K("reason_code"));
      if Unhashable(reason) then Raised
      else if !(reason.Some? && reason.value.JStr? && reason.value.s in codes) then Refused
      else
        var marker := Get(m, K("failure_marker"));
        if failed && marker.Some? && marker.value != JNull
        then If(marker.value.JStr? && MarkerPattern(marker.value.s) && Keys(m) == FAILURE_KEYS)
        else If(Keys(m) == REJECTED_KEYS)
  }

  function Check(codes: set<Str>, m: seq<Member>, error: bool, code: int): Verdict {
    if Get(m, K("schema_version")) != Some(JStr(SCHEMA)) then Refused
    else
      var status := Get(m, K("status"));
      if status == Some(JStr(SUCCESS)) then CheckSuccess(m, error, code)
      else if status == Some(JStr(AWAITING)) then CheckAwaiting(m, error, code)
      else if Unhashable(status) then Raised
      else if status == Some(JStr(REJECTED)) then CheckFailure(codes, m, false, error, code)
      else if status == Some(JStr(FAILURE)) then CheckFailure(codes, m, true, error, code)
      else Refused
  }

  /** The arguments the bootstrap was handed; `None` for an object of another type. */
  function Validate(py: Python, codes: set<Str>, payload: Option<Bytes>, error: Option<bool>,
      code: Option<int>): Verdict {
    if payload.None? || payload.value == [] || |payload.value| > MAX_STATUS_BYTES || error.None? || code.None?
      then Refused
    else Judge(py, codes, payload.value, error.value, code.value)
  }

  /** Only a text that does not decode is refused for it; what gives up reading or dumping raises. */
  function Judge(py: Python, codes: set<Str>, payload: Bytes, error: bool, code: int): Verdict {
    if !AsciiText(payload) then Refused
    else match ScanText(py.limits, payload)
      case Bad => Refused
      case Overrun => Raised
      case Got(v, _) =>
        if !v.JObj? then Refused
        else match Dumped(py, v)
          case None => Raised
          case Some(w) => if Line(w) != payload then Refused else Check(codes, w.members, error, code)
  }

  // ----- The keys of a status ----------------------------------------------------------------

  lemma SuccessKeysOrdered()
    ensures KeyOrder(SUCCESS_KEYS)
  {
    TextBefore("aggregate_counts", "mode", 0);
    TextBefore("mode", "profile", 0);
    TextBefore("profile", "result_path", 0);
    TextBefore("result_path", "schema_version", 0);
    TextBefore("schema_version", "stage_durations_ms", 1);
    TextBefore("stage_durations_ms", "status", 3);
    KeyOrderOf(SUCCESS_KEYS);
  }

  lemma AwaitingKeysOrdered()
    ensures KeyOrder(AWAITING_KEYS)
  {
    TextBefore("mode", "profile", 0);
    TextBefore("profile", "result_path", 0);
    TextBefore("result_path", "schema_version", 0);
    TextBefore("schema_version", "status", 1);
    KeyOrderOf(AWAITING_KEYS);
  }

  lemma RejectedKeysOrdered()
    ensures KeyOrder(REJECTED_KEYS)
  {
    TextBefore("reason_code", "schema_version", 0);
    TextBefore("schema_version", "status", 1);
    KeyOrderOf(REJECTED_KEYS);
  }

  lemma FailureKeysOrdered()
    ensures KeyOrder(FAILURE_KEYS)
  {
    TextBefore("failure_marker", "reason_code", 0);
    TextBefore("reason_code", "schema_version", 0);
    TextBefore("schema_version", "status", 1);
    KeyOrderOf(FAILURE_KEYS);
  }

  lemma StatusWords()
    ensures SUCCESS != AWAITING && SUCCESS != REJECTED && SUCCESS != FAILURE
    ensures AWAITING != REJECTED && AWAITING != FAILURE && REJECTED != FAILURE
  {
    assert SUCCESS[0] == 115 && AWAITING[0] == 97 && REJECTED[0] == 114 && FAILURE[0] == 102;
  }

  // ----- Emitted dicts pass the checks, and only they do -------------------------------------

  predicate SuccessFields(counts: Json, mode: Json, path: Json, durations: Json) {
    mode.JStr? && Mode(mode.s) && path.JStr? && ResultPattern(path.s) && IntegerMapping(counts)
      && IntegerMapping(durations)
  }

  lemma SuccessChecks(codes: set<Str>, w: Json, counts: Json, mode: Json, path: Json, durations: Json, error: bool,
      code: int)
    requires w == JObj(Zip(SUCCESS_KEYS, [counts, mode, JStr(PROFILE), path, JStr(SCHEMA), durations, JStr(SUCCESS)]))
    ensures Check(codes, w.members, error, code) == CheckSuccess(w.members, error, code)
    ensures CheckSuccess(w.members, error, code) == Accepted
      <==> !error && code == 0 && SuccessFields(counts, mode, path, durations)
  {
    var values := [counts, mode, JStr(PROFILE), path, JStr(SCHEMA), durations, JStr(SUCCESS)];
    SuccessKeysOrdered();
    GetZip(SUCCESS_KEYS, values, 4);
    GetZip(SUCCESS_KEYS, values, 6);
    ZipParts(SUCCESS_KEYS, values);
  }

  lemma AwaitingChecks(codes: set<Str>, w: Json, mode: Json, profile: Json, path: Json, error: bool, code: int)
    requires w == JObj(Zip(AWAITING_KEYS, [mode, profile, path, JStr(SCHEMA), JStr(AWAITING)]))
    ensures Check(codes, w.members, error, code) == CheckAwaiting(w.members, error, code)
    ensures CheckAwaiting(w.members, error, code) == If(
      !error && code == 0 && mode == JStr(OFFICIAL) && profile == JStr(PROFILE) && path.JStr? && ResultPattern(path.s))
  {
    var values := [mode, profile, path, JStr(SCHEMA), JStr(AWAITING)];
    AwaitingKeysOrdered();
    GetZip(AWAITING_KEYS, values, 3);
    GetZip(AWAITING_KEYS, values, 4);
    ZipParts(AWAITING_KEYS, values);
    StatusWords();
  }

  lemma RejectionChecks(codes: set<Str>, w: Json, reason: Str, failed: bool, error: bool, code: int)
    requires w == RejectionDict(reason, if failed then FAILURE else REJECTED)
    ensures Check(codes, w.members, error, code) == If(error && code != 0 && reason in codes)
  {
    var status := if failed then FAILURE else REJECTED;
    var values := [JStr(reason), JStr(SCHEMA), JStr(status)];
    RejectedKeysOrdered();
    GetZip(REJECTED_KEYS, values, 0);
    GetZip(REJECTED_KEYS, values, 1);
    GetZip(REJECTED_KEYS, values, 2);
    ZipParts(REJECTED_KEYS, values);
    ZipSorted(REJECTED_KEYS, values);
    TextBefore("failure_marker", "reason_code", 0);
    HeadIsLeast(w.members, K("failure_marker"));
    GetAbsent(w.members, K("failure_marker"));
    StatusWords();
  }

  lemma FailureChecks(codes: set<Str>, w: Json, marker: Str, reason: Str, error: bool, code: int)
    requires w == FailureDict(marker, reason)
    ensures Check(codes, w.members, error, code) == If(error && code != 0 && reason in codes && MarkerPattern(marker))
  {
    var values := [JStr(marker), JStr(reason), JStr(SCHEMA), JStr(FAILURE)];
    FailureKeysOrdered();
    GetZip(FAILURE_KEYS, values, 0);
    GetZip(FAILURE_KEYS, values, 1);
    GetZip(FAILURE_KEYS, values, 2);
    GetZip(FAILURE_KEYS, values, 3);
    ZipParts(FAILURE_KEYS, values);
    StatusWords();
  }

  // ----- Every status is canonical -----------------------------------------------------------

  /** A dict that prints as it is and reads back as it is. */
  predicate Clean(rule: Rule, w: Json) {
    w.JObj? && Canonical(rule, w) && AllUnpaired(w)
  }

  lemma TextValues(rule: Rule, keys: seq<Str>, values: seq<Json>)
    requires |keys| == |values| && KeyOrder(keys)
    requires forall i :: 0 <= i < |values| ==> Clean(rule, values[i]) || (values[i].JStr? && Unpaired(values[i].s))
    ensures Clean(rule, JObj(Zip(keys, values)))
  {
    forall i | 0 <= i < |values|
      ensures Canonical(rule, values[i]) && AllUnpaired(values[i])
    {
      assert Clean(rule, values[i]) || (values[i].JStr? && Unpaired(values[i].s));
    }
    ZipCanonical(rule, keys, values);
    ZipUnpaired(keys, values);
  }

  lemma CountsClean(rule: Rule, counts: seq<Member>)
    requires SafeCounts(counts)
    ensures Clean(rule, JObj(counts))
  {
    forall i | 0 <= i < |counts|
      ensures counts[i].key != [] && Unpaired(counts[i].key) && Canonical(rule, counts[i].value)
        && AllUnpaired(counts[i].value)
    {
      AsciiIsUnpaired(counts[i].key);
    }
  }

  lemma FixedIsAscii()
    ensures Ascii(OUTPUTS) && Ascii(M6) && Ascii(MARKER)
  {
  }

  lemma PathsUnpaired(name: Str)
    requires RunName(name)
    ensures Unpaired(ResultPath(name)) && Unpaired(MarkerPath(name))
  {
    FixedIsAscii();
    AsciiIsUnpaired(ResultPath(name));
    AsciiIsUnpaired(MarkerPath(name));
  }

  lemma {:induction false} DroppedOrKept(segments: seq<Str>, i: nat)
    requires i < |segments|
    ensures segments[i] == [] || segments[i] == [46] || segments[i] in Parts(segments)
  {
    if i > 0 {
      DroppedOrKept(segments[1..], i - 1);
    }
  }

  lemma {:induction false} WithSlashesAscii(segments: seq<Str>)
    requires segments != [] && forall i :: 0 <= i < |segments| ==> Ascii(segments[i])
    ensures Ascii(WithSlashes(segments))
  {
    if |segments| > 1 {
      WithSlashesAscii(segments[1..]);
    }
  }

  /**
   * Dropped segments are empty or a dot, the others are fixed or a run name: a marker is ASCII however it is
   * spelled.
   */
  lemma MarkerUnpaired(s: Str)
    requires MarkerParts(s)
    ensures Unpaired(s)
  {
    var g := Segments(s);
    FixedIsAscii();
    forall i | 0 <= i < |g|
      ensures Ascii(g[i])
    {
      DroppedOrKept(g, i);
    }
    WithSlashesAscii(g);
    WithSlashesSegments(s);
    AsciiIsUnpaired(s);
  }

  lemma ModeUnpaired(mode: Str)
    requires Mode(mode)
    ensures Unpaired(mode)
  {
  }

  lemma ResultPathMatches(name: Str)
    requires RunName(name)
    ensures ResultPattern(ResultPath(name))
  {
    FixedSegments();
    assert ResultPath(name)[11..] == name;
  }

  lemma SuccessClean(rule: Rule, counts: seq<Member>, mode: Str, name: Str, durations: seq<Member>)
    requires Mode(mode) && SafeCounts(counts) && SafeCounts(durations) && RunName(name)
    ensures Clean(rule, SuccessDict(counts, mode, ResultPath(name), durations))
  {
    SuccessKeysOrdered();
    CountsClean(rule, counts);
    CountsClean(rule, durations);
    PathsUnpaired(name);
    ModeUnpaired(mode);
    TextValues(rule, SUCCESS_KEYS,
      [JObj(counts), JStr(mode), JStr(PROFILE), JStr(ResultPath(name)), JStr(SCHEMA), JObj(durations), JStr(SUCCESS)]);
  }

  lemma AwaitingClean(rule: Rule, name: Str)
    requires RunName(name)
    ensures Clean(rule, AwaitingDict(ResultPath(name)))
  {
    AwaitingKeysOrdered();
    PathsUnpaired(name);
    TextValues(rule, AWAITING_KEYS,
      [JStr(OFFICIAL), JStr(PROFILE), JStr(ResultPath(name)), JStr(SCHEMA), JStr(AWAITING)]);
  }

  lemma RejectionClean(rule: Rule, reason: Str, status: Str)
    requires Unpaired(reason) && Unpaired(status)
    ensures Clean(rule, RejectionDict(reason, status))
  {
    RejectedKeysOrdered();
    TextValues(rule, REJECTED_KEYS, [JStr(reason), JStr(SCHEMA), JStr(status)]);
  }

  lemma FailureClean(rule: Rule, marker: Str, reason: Str)
    requires Unpaired(reason) && Unpaired(marker)
    ensures Clean(rule, FailureDict(marker, reason))
  {
    FailureKeysOrdered();
    TextValues(rule, FAILURE_KEYS, [JStr(marker), JStr(reason), JStr(SCHEMA), JStr(FAILURE)]);
  }

  /** Printing a clean dict, parsing the line and printing again is the identity. */
  lemma LineRoundTrip(rule: Rule, w: Json)
    requires Clean(rule, w)
    ensures Loads(Line(w)) == Some(w) && Settle(rule, w) == Some(w)
  {
    LoadsPrinted(w, [10]);
    FuseAllKeeps(w);
    SettleKeeps(rule, w);
  }

  /** The interpreter can read and dump it. */
  predicate Printable(py: Python, w: Json) {
    Clean(py.rule, w) && Fits(py.limits, w, 0) && Within(py.limits.dumpDepth, w, 0)
  }

  lemma LineVerdict(py: Python, codes: set<Str>, w: Json, error: bool, code: int)
    requires Printable(py, w)
    ensures Validate(py, codes, Some(Line(w)), Some(error), Some(code))
      == if |Line(w)| > MAX_STATUS_BYTES then Refused else Check(codes, w.members, error, code)
  {
    LineRoundTrip(py.rule, w);
    ScanTextIs(py.limits, Line(w));
    PrintsAscii(w, [10]);
    PrintedHead(w, [10]);
  }

  /** A dict of texts is flat and has no integers. */
  lemma TextFits(py: Python, keys: seq<Str>, values: seq<Json>)
    requires |keys| == |values| && py.limits.Usable() && forall i :: 0 <= i < |values| ==> values[i].JStr?
    ensures Fits(py.limits, JObj(Zip(keys, values)), 0) && Within(py.limits.dumpDepth, JObj(Zip(keys, values)), 0)
  {
  }

  lemma CountsFit(py: Python, counts: seq<Member>)
    requires py.limits.Usable() && SafeCounts(counts) && FitMembers(py.limits, counts, 2)
    ensures Fits(py.limits, JObj(counts), 1) && Within(py.limits.dumpDepth, JObj(counts), 1)
  {
  }

  lemma SuccessFits(py: Python, counts: seq<Member>, mode: Str, path: Str, durations: seq<Member>)
    requires py.limits.Usable() && SafeCounts(counts) && SafeCounts(durations)
    requires FitMembers(py.limits, counts, 2) && FitMembers(py.limits, durations, 2)
    ensures var w := SuccessDict(counts, mode, path, durations);
      Fits(py.limits, w, 0) && Within(py.limits.dumpDepth, w, 0)
  {
    CountsFit(py, counts);
    CountsFit(py, durations);
    var values := [JObj(counts), JStr(mode), JStr(PROFILE), JStr(path), JStr(SCHEMA), JObj(durations), JStr(SUCCESS)];
    forall i | 0 <= i < |values|
      ensures Fits(py.limits, values[i], 1) && Within(py.limits.dumpDepth, values[i], 1)
    {
    }
  }

  /** An accepted status has return code zero exactly when its error flag is off. */
  lemma AcceptedFlag(py: Python, codes: set<Str>, payload: Option<Bytes>, error: Option<bool>, code: Option<int>)
    requires Validate(py, codes, payload, error, code) == Accepted
    ensures payload.Some? && payload.value != [] && error.Some? && code.Some? && (code.value == 0 <==> !error.value)
  {
  }

  /** What a line is that prints its own value: the value is clean and comes back. */
  lemma OwnLine(py: Python, b: Bytes, w: Json) returns (v: Json)
    requires py.rule.Settles() && ScanText(py.limits, b).Got?
    requires Settle(py.rule, ScanText(py.limits, b).value) == Some(w) && Line(w) == b
    ensures v == w == ScanText(py.limits, b).value && Clean(py.rule, v) == v.JObj? && Fits(py.limits, v, 0)
  {
    ScanTextIs(py.limits, b);
    v := Loads(b).value;
    SettleIsCanonical(py.rule, v);
    LoadsPrinted(w, [10]);
    FuseAllUnpaired(w);
    SettleUnpaired(py.rule, v);
    FuseAllKeeps(w);
  }

  /** The only accepted lines are those of clean dicts. */
  lemma AcceptedLine(py: Python, codes: set<Str>, payload: Bytes, error: bool, code: int) returns (w: Json)
    requires py.rule.Settles() && Validate(py, codes, Some(payload), Some(error), Some(code)) == Accepted
    ensures Clean(py.rule, w) && payload == Line(w) && |payload| <= MAX_STATUS_BYTES && Fits(py.limits, w, 0)
    ensures Check(codes, w.members, error, code) == Accepted
  {
    w := OwnLine(py, payload, Dumped(py, ScanText(py.limits, payload).value).value);
  }

  // ----- Emitted if and only if accepted -----------------------------------------------------

  ghost predicate EmittedSuccess(limits: Limits, payload: Bytes) {
    exists counts, mode, path, durations :: SuccessOutput(limits, counts, mode, path, durations) == Some(payload)
  }

  ghost predicate EmittedAwaiting(payload: Bytes) {
    exists catalog, verification, path :: AwaitingOutput(OFFICIAL, catalog, verification, path) == Some(payload)
  }

  ghost predicate EmittedRejection(codes: set<Str>, payload: Bytes) {
    exists code, failed, marker: Option<Str> ::
      RejectionOutput(codes, code, failed, marker) == Some(payload) && (marker.Some? ==> Normalised(marker.value))
  }

  predicate Codes(codes: set<Str>) {
    UNEXPECTED in codes && forall c :: c in codes ==> Unpaired(c)
  }

  lemma SuccessAccepted(py: Python, codes: set<Str>, counts: seq<Member>, mode: Str, path: ResultRef,
      durations: seq<Member>)
    requires py.limits.Usable() && SuccessOutput(py.limits, counts, mode, path, durations).Some?
    requires |SuccessOutput(py.limits, counts, mode, path, durations).value| <= MAX_STATUS_BYTES
    ensures Validate(py, codes, SuccessOutput(py.limits, counts, mode, path, durations), Some(false), Some(0))
      == Accepted
  {
    var name := path.parts[2];
    var w := SuccessDict(counts, mode, path.text, durations);
    SuccessClean(py.rule, counts, mode, name, durations);
    SuccessFits(py, counts, mode, path.text, durations);
    LineVerdict(py, codes, w, false, 0);
    ResultPathMatches(name);
    SuccessChecks(codes, w, JObj(counts), JStr(mode), JStr(path.text), JObj(durations), false, 0);
  }

  lemma AwaitingAccepted(py: Python, codes: set<Str>, mode: Str, catalog: Str, verification: Str, path: ResultRef)
    requires py.limits.Usable() && AwaitingOutput(mode, catalog, verification, path).Some?
    requires |AwaitingOutput(mode, catalog, verification, path).value| <= MAX_STATUS_BYTES
    ensures Validate(py, codes, AwaitingOutput(mode, catalog, verification, path), Some(false), Some(0)) == Accepted
  {
    var name := path.parts[2];
    AwaitingClean(py.rule, name);
    TextFits(py, AWAITING_KEYS, [JStr(OFFICIAL), JStr(PROFILE), JStr(path.text), JStr(SCHEMA), JStr(AWAITING)]);
    LineVerdict(py, codes, AwaitingDict(path.text), false, 0);
    ResultPathMatches(name);
    AwaitingChecks(codes, AwaitingDict(path.text), JStr(OFFICIAL), JStr(PROFILE), JStr(path.text), false, 0);
  }

  /**
   * A rejection is accepted with its error flag and any non-zero code, exactly when its marker, if any, is
   * normalised.
   */
  lemma RejectionAcceptedIff(py: Python, codes: set<Str>, reason: Str, failed: bool, marker: Option<Str>, code: int)
    requires py.limits.Usable() && Codes(codes) && code != 0
    requires RejectionOutput(codes, reason, failed, marker).Some?
    requires |RejectionOutput(codes, reason, failed, marker).value| <= MAX_STATUS_BYTES
    ensures Validate(py, codes, RejectionOutput(codes, reason, failed, marker), Some(true), Some(code))
      == If(marker.Some? ==> Normalised(marker.value))
  {
    var known := CodeOr(codes, reason);
    match marker
    case None =>
      var status := if failed then FAILURE else REJECTED;
      RejectionClean(py.rule, known, status);
      TextFits(py, REJECTED_KEYS, [JStr(known), JStr(SCHEMA), JStr(status)]);
      LineVerdict(py, codes, RejectionDict(known, status), true, code);
      RejectionChecks(codes, RejectionDict(known, status), known, failed, true, code);
    case Some(path) =>
      MarkerUnpaired(path);
      FailureClean(py.rule, path, known);
      TextFits(py, FAILURE_KEYS, [JStr(path), JStr(known), JStr(SCHEMA), JStr(FAILURE)]);
      LineVerdict(py, codes, FailureDict(path, known), true, code);
      FailureChecks(codes, FailureDict(path, known), path, known, true, code);
      MarkerAgreesIff(path);
  }

  // ----- Only emitted lines are accepted -----------------------------------------------------

  lemma SuccessShape(codes: set<Str>, w: Json, error: bool, code: int)
    requires w.JObj? && Sorted(w.members) && CheckSuccess(w.members, error, code) == Accepted
    requires Get(w.members, K("schema_version")) == Some(JStr(SCHEMA))
      && Get(w.members, K("status")) == Some(JStr(SUCCESS))
    ensures var v := Values(w.members);
      |v| == 7 && SuccessFields(v[0], v[1], v[3], v[5])
      && w == JObj(Zip(SUCCESS_KEYS, [v[0], v[1], JStr(PROFILE), v[3], JStr(SCHEMA), v[5], JStr(SUCCESS)]))
  {
    var m, v := w.members, Values(w.members);
    ZipWhole(m);
    GetAt(m, 4);
    GetAt(m, 6);
    assert m[4].key == Keys(m)[4] && m[6].key == Keys(m)[6];
    assert v == [v[0], v[1], JStr(PROFILE), v[3], JStr(SCHEMA), v[5], JStr(SUCCESS)];
  }

  lemma SortedInside(py: Python, w: Json, i: nat)
    requires w.JObj? && Canonical(py.rule, w) && i < |w.members| && w.members[i].value.JObj?
    ensures Sorted(w.members[i].value.members)
  {
    assert Canonical(py.rule, w.members[i].value);
  }

  lemma AcceptedSuccess(py: Python, codes: set<Str>, w: Json, error: bool, code: int)
    requires Clean(py.rule, w) && Fits(py.limits, w, 0) && CheckSuccess(w.members, error, code) == Accepted
    requires Get(w.members, K("schema_version")) == Some(JStr(SCHEMA))
      && Get(w.members, K("status")) == Some(JStr(SUCCESS))
    ensures EmittedSuccess(py.limits, Line(w))
  {
    SuccessShape(codes, w, error, code);
    var v := Values(w.members);
    SortedInside(py, w, 0);
    SortedInside(py, w, 5);
    var path := v[3].s;
    var ref := ResultRef([OUTPUTS, M6, path[11..]], path);
    assert SuccessOutput(py.limits, v[0].members, v[1].s, ref, v[5].members) == Some(Line(w));
  }

  lemma AcceptedAwaiting(py: Python, w: Json, error: bool, code: int)
    requires Clean(py.rule, w) && CheckAwaiting(w.members, error, code) == Accepted
    requires Get(w.members, K("schema_version")) == Some(JStr(SCHEMA))
      && Get(w.members, K("status")) == Some(JStr(AWAITING))
    ensures EmittedAwaiting(Line(w))
  {
    var m, v := w.members, Values(w.members);
    ZipWhole(m);
    GetAt(m, 3);
    GetAt(m, 4);
    assert m[3].key == Keys(m)[3] && m[4].key == Keys(m)[4];
    assert v == [JStr(OFFICIAL), JStr(PROFILE), v[2], JStr(SCHEMA), JStr(AWAITING)];
    var path := v[2].s;
    var ref := ResultRef([OUTPUTS, M6, path[11..]], path);
    var zeros: Str := seq(64, _ => 48);
    assert AwaitingOutput(OFFICIAL, zeros, zeros, ref) == Some(Line(w));
  }

  lemma AcceptedRejection(py: Python, codes: set<Str>, w: Json, failed: bool, error: bool, code: int)
    requires Clean(py.rule, w) && CheckFailure(codes, w.members, failed, error, code) == Accepted
    requires Get(w.members, K("schema_version")) == Some(JStr(SCHEMA))
    requires Get(w.members, K("status")) == Some(JStr(if failed then FAILURE else REJECTED))
    ensures EmittedRejection(codes, Line(w))
  {
    var m, v := w.members, Values(w.members);
    ZipWhole(m);
    var reason := Get(m, K("reason_code")).value.s;
    if Keys(m) == REJECTED_KEYS {
      GetAt(m, 0);
      GetAt(m, 1);
      GetAt(m, 2);
      assert m[0].key == Keys(m)[0] && m[1].key == Keys(m)[1] && m[2].key == Keys(m)[2];
      assert v == [JStr(reason), JStr(SCHEMA), JStr(if failed then FAILURE else REJECTED)];
      assert RejectionOutput(codes, reason, failed, None) == Some(Line(w));
    } else {
      GetAt(m, 0);
      GetAt(m, 1);
      GetAt(m, 2);
      GetAt(m, 3);
      assert m[0].key == Keys(m)[0] && m[1].key == Keys(m)[1] && m[2].key == Keys(m)[2] && m[3].key == Keys(m)[3];
      var marker := v[0].s;
      assert v == [JStr(marker), JStr(reason), JStr(SCHEMA), JStr(FAILURE)];
      PatternHasParts(marker);
      MarkerAgreesIff(marker);
      assert RejectionOutput(codes, reason, true, Some(marker)) == Some(Line(w));
    }
  }

  /** A line some emitter produces, given with its own error flag and a matching return code. */
  ghost predicate Emitted(limits: Limits, codes: set<Str>, payload: Bytes, error: bool, code: int) {
    if error then code != 0 && EmittedRejection(codes, payload)
    else code == 0 && (EmittedSuccess(limits, payload) || EmittedAwaiting(payload))
  }

  /** The validator accepts exactly what the emitters produce, within the size bound. */
  lemma AcceptedIffEmitted(py: Python, codes: set<Str>, payload: Bytes, error: bool, code: int)
    requires py.rule.Settles() && py.limits.Usable() && Codes(codes)
    ensures Validate(py, codes, Some(payload), Some(error), Some(code)) == Accepted
      <==> |payload| <= MAX_STATUS_BYTES && Emitted(py.limits, codes, payload, error, code)
  {
    if Validate(py, codes, Some(payload), Some(error), Some(code)) == Accepted {
      AcceptedIsEmitted(py, codes, payload, error, code);
    }
    if |payload| <= MAX_STATUS_BYTES && Emitted(py.limits, codes, payload, error, code) {
      EmittedIsAccepted(py, codes, payload, error, code);
    }
  }

  lemma AcceptedIsEmitted(py: Python, codes: set<Str>, payload: Bytes, error: bool, code: int)
    requires py.rule.Settles() && Validate(py, codes, Some(payload), Some(error), Some(code)) == Accepted
    ensures |payload| <= MAX_STATUS_BYTES && Emitted(py.limits, codes, payload, error, code)
  {
    var w := AcceptedLine(py, codes, payload, error, code);
    var status := Get(w.members, K("status"));
    if status == Some(JStr(SUCCESS)) {
      AcceptedSuccess(py, codes, w, error, code);
    } else if status == Some(JStr(AWAITING)) {
      AcceptedAwaiting(py, w, error, code);
    } else {
      AcceptedRejection(py, codes, w, status == Some(JStr(FAILURE)), error, code);
    }
  }

  lemma EmittedIsAccepted(py: Python, codes: set<Str>, payload: Bytes, error: bool, code: int)
    requires py.limits.Usable() && Codes(codes) && |payload| <= MAX_STATUS_BYTES
      && Emitted(py.limits, codes, payload, error, code)
    ensures Validate(py, codes, Some(payload), Some(error), Some(code)) == Accepted
  {
    if error {
      var reason, failed, marker: Option<Str> :|
        RejectionOutput(codes, reason, failed, marker) == Some(payload) && (marker.Some? ==> Normalised(marker.value));
      RejectionAcceptedIff(py, codes, reason, failed, marker, code);
    } else if EmittedSuccess(py.limits, payload) {
      var counts, mode, path, durations :| SuccessOutput(py.limits, counts, mode, path, durations) == Some(payload);
      SuccessAccepted(py, codes, counts, mode, path, durations);
    } else {
      var catalog, verification, path :| AwaitingOutput(OFFICIAL, catalog, verification, path) == Some(payload);
      AwaitingAccepted(py, codes, OFFICIAL, catalog, verification, path);
    }
  }

  // ----- When the validator raises -----------------------------------------------------------

  /** A list or a dict stands where the validator looks a text up in a set, and nothing was refused before. */
  predicate GuardRaises(m: seq<Member>, error: bool, code: int) {
    var status := Get(m, K("status"));
    && Get(m, K("schema_version")) == Some(JStr(SCHEMA))
    && if status == Some(JStr(SUCCESS)) then
         !error && code == 0 && Keys(m) == SUCCESS_KEYS && Unhashable(Get(m, K("mode")))
       else if status == Some(JStr(REJECTED)) || status == Some(JStr(FAILURE)) then
         error && code != 0 && Unhashable(Get(m, K("reason_code")))
       else
         Unhashable(status)
  }

  /**
   * The texts on which the validator raises, for arguments of the right types: it gives up reading, or what
   * it read is a dict that cannot be dumped, or one that dumps as it is but is looked up where it cannot be.
   */
  ghost predicate RaisesOn(py: Python, b: Bytes, error: bool, code: int) {
    && b != [] && |b| <= MAX_STATUS_BYTES && AsciiText(b)
    && match ScanText(py.limits, b)
       case Bad => false
       case Overrun => true
       case Got(v, _) =>
         && v.JObj?
         && (Undumpable(py.rule, py.limits.dumpDepth, v, 0)
             || (Canonical(py.rule, v) && Line(v) == b && GuardRaises(v.members, error, code)))
  }

  lemma CheckRaisesIff(codes: set<Str>, m: seq<Member>, error: bool, code: int)
    requires Sorted(m)
    ensures Check(codes, m, error, code) == Raised <==> GuardRaises(m, error, code)
  {
    StatusWords();
    if Keys(m) == SUCCESS_KEYS {
      assert m[1].key == Keys(m)[1];
      GetAt(m, 1);
    }
  }

  /** The validator raises on these texts and no others. */
  lemma RaisedIff(py: Python, codes: set<Str>, b: Bytes, error: bool, code: int)
    requires py.rule.Settles()
    ensures Validate(py, codes, Some(b), Some(error), Some(code)) == Raised <==> RaisesOn(py, b, error, code)
  {
    if ScanText(py.limits, b).Got? {
      var v := ScanText(py.limits, b).value;
      DumpsIff(py.rule, py.limits.dumpDepth, v, 0);
      if v.JObj? && Dumped(py, v).Some? {
        var w := Dumped(py, v).value;
        SettleIsCanonical(py.rule, v);
        if Canonical(py.rule, v) {
          SettleKeeps(py.rule, v);
        }
        if Line(w) == b {
          var own := OwnLine(py, b, w);
          CheckRaisesIff(codes, v.members, error, code);
        }
      }
    }
  }

  /** `{"a":NaN}`: read, but it cannot be dumped. */
  const NAN_LINE: Bytes := Line(JObj([Member([97], JNonFinite(NaN))]))

  lemma NaNRaises(py: Python, codes: set<Str>, error: bool, code: int)
    requires py.limits.Usable()
    ensures Validate(py, codes, Some(NAN_LINE), Some(error), Some(code)) == Raised
  {
    var members := [Member([97], JNonFinite(NaN))];
    LoadsPrinted(JObj(members), [10]);
    AsciiIsUnpaired([97]);
    FuseUnpaired([97]);
    assert members[1..] == [];
    assert FuseMembers(members) == members;
    ScanTextIs(py.limits, NAN_LINE);
    assert SettleMembers(py.rule, []) == Some([]);
    assert SettleMembers(py.rule, members) == None;
    PrintsAscii(JObj(members), [10]);
    NaNLineIsShort();
  }

  lemma NaNLineIsShort()
    ensures 0 < |NAN_LINE| <= MAX_STATUS_BYTES
  {
    var members := [Member([97], JNonFinite(NaN))];
    var tail := [125] + [10];
    assert PrintMembers(members, tail) == Quote([97], [58] + PrintTo(JNonFinite(NaN), tail));
    assert Units([97]) == [97] by {
      assert [97][1..] == [];
    }
    assert EscapeUnits([97], [34] + ([58] + (Word(NaN) + tail))) == [97] + ([34] + ([58] + (Word(NaN) + tail))) by {
      assert [97][1..] == [];
    }
  }

  lemma {:induction false} DeepScan(lim: Limits, k: nat, open: nat)
    requires open <= lim.depth < open + k
    ensures Scan(lim, seq(k, _ => 91), open) == Overrun
    decreases k
  {
    var b: Bytes := seq(k, _ => 91);
    assert Skip(b) == b;
    if open < lim.depth {
      DeepScan(lim, k - 1, open + 1);
      var tail: Bytes := seq(k - 1, _ => 91);
      assert b[1..] == tail && Skip(tail) == tail && tail[0] == 91;
      assert ScanArray(lim, tail, open + 1) == Overrun;
      assert ScanHere(lim, b, open) == Overrun;
    }
  }

  /** One opening bracket more than the parser recurses: it gives up, although the text is not even JSON. */
  lemma DeepNestingRaises(py: Python, codes: set<Str>, error: bool, code: int)
    requires py.limits.depth < MAX_STATUS_BYTES
    ensures Validate(py, codes, Some(seq(py.limits.depth + 1, _ => 91)), Some(error), Some(code)) == Raised
  {
    DeepScan(py.limits, py.limits.depth + 1, 0);
  }

  function InnerMarker(name: Str): Str {
    M6 + ([47] + (name + ([47] + MARKER)))
  }

  /** `outputs//m6/NAME/TERMINAL_FAILURE`. */
  function DoubledMarker(name: Str): Str {
    OUTPUTS + ([47] + ([] + ([47] + InnerMarker(name))))
  }

  lemma InnerSegments(name: Str)
    requires RunName(name)
    ensures Segments(InnerMarker(name)) == [M6, name, MARKER]
  {
    FixedSegments();
    SegmentsCons(M6, name + ([47] + MARKER));
    SegmentsCons(name, MARKER);
    SegmentsOne(MARKER);
  }

  lemma DoubledAt(head: Str, tail: Str)
    requires Slashless(head)
    ensures Segments(head + ([47] + ([] + ([47] + tail)))) == [head] + ([[]] + Segments(tail))
  {
    SegmentsCons([], tail);
    SegmentsCons(head, [] + ([47] + tail));
  }

  lemma DoubledSegments(name: Str)
    requires RunName(name)
    ensures Segments(DoubledMarker(name)) == [OUTPUTS, [], M6, name, MARKER]
  {
    FixedSegments();
    InnerSegments(name);
    DoubledAt(OUTPUTS, InnerMarker(name));
  }

  /** Such a marker is emitted by one side and refused by the other. */
  lemma DoubledSlashIsRefused(py: Python, codes: set<Str>, name: Str, code: int)
    requires py.limits.Usable() && Codes(codes) && RunName(name) && code != 0
    ensures var line := RejectionOutput(codes, UNEXPECTED, true, Some(DoubledMarker(name)));
      line.Some? && (|line.value| <= MAX_STATUS_BYTES ==> Validate(py, codes, line, Some(true), Some(code)) == Refused)
  {
    var marker := DoubledMarker(name);
    DoubledSegments(name);
    PartsDropOne(name);
    assert Segments(marker)[1] == [];
    var line := RejectionOutput(codes, UNEXPECTED, true, Some(marker));
    if |line.value| <= MAX_STATUS_BYTES {
      RejectionAcceptedIff(py, codes, UNEXPECTED, true, Some(marker), code);
    }
  }

  lemma PartsDropOne(name: Str)
    requires RunName(name)
    ensures Parts([OUTPUTS, [], M6, name, MARKER]) == [OUTPUTS, M6, name, MARKER]
  {
    FixedSegments();
    var rest := [M6, name, MARKER];
    PartsKeepAll(rest);
    var g := [OUTPUTS, [], M6, name, MARKER];
    assert g[1..][1..] == rest && g[1..][0] == [];
    assert Parts(g[1..]) == rest;
  }
}
