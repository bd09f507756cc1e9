/** What a reader finds in an emitted status: each value under its own key. */
module StatusFields {
  import opened Common
  import opened Text
  import opened Json
  import opened JsonLimits
  import opened CanonicalJson
  import opened Dicts
  import opened Dumping
  import opened Status

  lemma ZipFields(rule: Rule, keys: seq<Str>, values: seq<Json>)
    requires |keys| == |values| && KeyOrder(keys) && Clean(rule, JObj(Zip(keys, values)))
    ensures Loads(Line(JObj(Zip(keys, values)))) == Some(JObj(Zip(keys, values)))
    ensures forall i :: 0 <= i < |keys| ==> Get(Zip(keys, values), keys[i]) == Some(values[i])
  {
    LineRoundTrip(rule, JObj(Zip(keys, values)));
    GetsZip(keys, values);
  }

  /** A success has seven fields: counts and durations under their own names, its mode and its path. */
  lemma SuccessSays(rule: Rule, limits: Limits, counts: seq<Member>, mode: Str, path: ResultRef,
                    durations: seq<Member>, line: Bytes)
    requires SuccessOutput(limits, counts, mode, path, durations) == Some(line)
    ensures Size(line) == 7
    ensures Field(line, "aggregate_counts") == Some(JObj(counts))
    ensures Field(line, "stage_durations_ms") == Some(JObj(durations))
    ensures Field(line, "mode") == Some(JStr(mode)) && Field(line, "result_path") == Some(JStr(path.text))
    ensures Field(line, "profile") == Some(JStr(K("official_m6")))
    ensures Field(line, "schema_version") == Some(JStr(K("m6-cli-status-2.0.0")))
    ensures Field(line, "status") == Some(JStr(K("success")))
  {
    SuccessClean(rule, counts, mode, path.parts[2], durations);
    SuccessKeysOrdered();
    ZipFields(rule, SUCCESS_KEYS,
      [JObj(counts), JStr(mode), JStr(PROFILE), JStr(path.text), JStr(SCHEMA), JObj(durations), JStr(SUCCESS)]);
  }

  /** An awaiting-review status has five. */
  lemma AwaitingSays(rule: Rule, mode: Str, catalog: Str, verification: Str, path: ResultRef, line: Bytes)
    requires AwaitingOutput(mode, catalog, verification, path) == Some(line)
    ensures Size(line) == 5
    ensures Field(line, "mode") == Some(JStr(mode)) && Field(line, "result_path") == Some(JStr(path.text))
    ensures Field(line, "profile") == Some(JStr(K("official_m6")))
    ensures Field(line, "schema_version") == Some(JStr(K("m6-cli-status-2.0.0")))
    ensures Field(line, "status") == Some(JStr(K("awaiting_review")))
  {
    AwaitingClean(rule, path.parts[2]);
    AwaitingKeysOrdered();
    ZipFields(rule, AWAITING_KEYS, [JStr(OFFICIAL), JStr(PROFILE), JStr(path.text), JStr(SCHEMA), JStr(AWAITING)]);
  }

  /** The code a reason is reported as. */
  function Known(codes: set<Str>, code: Str): Str {
    if code in codes then code else K("unexpected_failure")
  }

  /** A rejection or failure says which of the two it is, a known reason, and its marker if it was given one. */
  lemma RejectionSays(rule: Rule, codes: set<Str>, code: Str, failed: bool, marker: Option<Str>, line: Bytes)
    requires Codes(codes) && RejectionOutput(codes, code, failed, marker) == Some(line)
    ensures Size(line) == if marker.Some? then 4 else 3
    ensures Field(line, "status") == Some(JStr(if failed then K("failure") else K("rejected")))
    ensures Field(line, "reason_code") == Some(JStr(Known(codes, code)))
    ensures Field(line, "schema_version") == Some(JStr(K("m6-cli-status-2.0.0")))
    ensures Field(line, "failure_marker") == if marker.Some? then Some(JStr(marker.value)) else None
  {
    var known := CodeOr(codes, code);
    match marker
    case None =>
      var status := if failed then FAILURE else REJECTED;
      RejectionClean(rule, known, status);
      RejectedKeysOrdered();
      ZipFields(rule, REJECTED_KEYS, [JStr(known), JStr(SCHEMA), JStr(status)]);
      GetAbsent(RejectionDict(known, status).members, K("failure_marker"));
    case Some(path) =>
      MarkerUnpaired(path);
      FailureClean(rule, path, known);
      FailureKeysOrdered();
      ZipFields(rule, FAILURE_KEYS, [JStr(path), JStr(known), JStr(SCHEMA), JStr(FAILURE)]);
  }

  // ----- What the emitters let through -------------------------------------------------------

  predicate Letter(c: int) { 'a' as int <= c <= 'z' as int }

  predicate Capital(c: int) { 'A' as int <= c <= 'Z' as int }

  predicate Digit(c: int) { '0' as int <= c <= '9' as int }

  /** One to 128 letters, digits, dots, underscores and hyphens, the first a letter or a digit. */
  predicate Slug(s: Str, capitals: bool) {
    && 1 <= |s| <= 128
    && (Letter(s[0]) || Digit(s[0]) || (capitals && Capital(s[0])))
    && forall i :: 0 <= i < |s| ==>
      Letter(s[i]) || Digit(s[i]) || (capitals && Capital(s[i])) || s[i] in {'.' as int, '_' as int, '-' as int}
  }

  /** Names with integers that are not negative, in key order. */
  predicate Totals(counts: seq<Member>) {
    && counts != [] && Sorted(counts)
    && forall i :: 0 <= i < |counts| ==> Slug(counts[i].key, true) && counts[i].value.JInt? && counts[i].value.n >= 0
  }

  predicate ModeText(s: Str) {
    s in {K("eligibility_only"), K("compute_pilot"), K("official")}
  }

  const RESULTS: Str := K("outputs/m6/")

  /** A result directory of some run. */
  ghost predicate ResultAt(path: ResultRef, name: Str) {
    Slug(name, false) && path == ResultRef([K("outputs"), K("m6"), name], RESULTS + name)
  }

  lemma SlugIff(s: Str)
    ensures Slug(s, false) <==> RunName(s)
    ensures Slug(s, true) <==> SafeComponent(s)
  {
  }

  lemma TotalsIff(counts: seq<Member>)
    ensures Totals(counts) <==> SafeCounts(counts)
  {
    forall i | 0 <= i < |counts|
      ensures Slug(counts[i].key, true) <==> SafeComponent(counts[i].key)
    {
      SlugIff(counts[i].key);
    }
  }

  lemma ResultsAre(name: Str)
    ensures ResultPath(name) == RESULTS + name
  {
    var head := OUTPUTS + ([47] + (M6 + [47]));
    assert |RESULTS| == |head| == 11;
    assert RESULTS == head;
  }

  lemma ResultIff(path: ResultRef)
    ensures SafeResult(path) <==> exists name :: ResultAt(path, name)
  {
    if SafeResult(path) {
      var name := path.parts[2];
      SlugIff(name);
      ResultsAre(name);
      assert path.parts == [OUTPUTS, M6, name];
      assert ResultAt(path, name);
    }
    if name :| ResultAt(path, name) {
      SlugIff(name);
      ResultsAre(name);
    }
  }

  /** A success is emitted exactly for a mode, totals that can be printed, and a result directory. */
  lemma SuccessIff(limits: Limits, counts: seq<Member>, mode: Str, path: ResultRef, durations: seq<Member>)
    ensures SuccessOutput(limits, counts, mode, path, durations).Some? <==>
      && ModeText(mode) && Totals(counts) && Totals(durations) && (exists name :: ResultAt(path, name))
      && FitMembers(limits, counts, 2) && FitMembers(limits, durations, 2)
  {
    TotalsIff(counts);
    TotalsIff(durations);
    ResultIff(path);
  }

  /** A SHA-256 digest in lower-case hexadecimal. */
  predicate HexDigest(s: Str) {
    |s| == 64 && forall i :: 0 <= i < |s| ==> Digit(s[i]) || 'a' as int <= s[i] <= 'f' as int
  }

  /** An awaiting-review status, for the official mode, two digests and a result directory. */
  lemma AwaitingIff(mode: Str, catalog: Str, verification: Str, path: ResultRef)
    ensures AwaitingOutput(mode, catalog, verification, path).Some? <==>
      && mode == K("official") && HexDigest(catalog) && HexDigest(verification)
      && exists name :: ResultAt(path, name)
  {
    ResultIff(path);
  }

  /** A marker is let through only with a failure, and only under the directory of a run. */
  lemma MarkerIff(codes: set<Str>, code: Str, failed: bool, name: Str)
    requires Slashless(name)
    ensures RejectionOutput(codes, code, failed, None).Some?
    ensures RejectionOutput(codes, code, failed, Some((RESULTS + name) + K("/TERMINAL_FAILURE"))).Some? <==>
      failed && Slug(name, false)
  {
    var text := (RESULTS + name) + K("/TERMINAL_FAILURE");
    SlugIff(name);
    ResultsAre(name);
    assert K("/TERMINAL_FAILURE") == [47] + MARKER;
    assert text == MarkerPath(name);
    SegmentsOf(name);
    FixedSegments();
    PartsKeepAll([OUTPUTS, M6, name, MARKER]);
    if name == [] || name == [46] {
      FewerParts(name);
    }
  }

  lemma SegmentsOf(name: Str)
    requires Slashless(name)
    ensures Segments(MarkerPath(name)) == [OUTPUTS, M6, name, MARKER]
  {
    FixedSegments();
    SegmentsCons(OUTPUTS, M6 + ([47] + (name + ([47] + MARKER))));
    SegmentsCons(M6, name + ([47] + MARKER));
    SegmentsCons(name, MARKER);
    SegmentsOne(MARKER);
  }

  lemma FewerParts(name: Str)
    requires name == [] || name == [46]
    ensures |Parts([OUTPUTS, M6, name, MARKER])| < 4
  {
    var g := [OUTPUTS, M6, name, MARKER];
    assert g[1..] == [M6, name, MARKER] && g[1..][1..] == [name, MARKER] && g[1..][1..][1..] == [MARKER];
    PartsKeepAll([MARKER]);
    assert Parts([name, MARKER]) == Parts([MARKER]);
    assert |Parts([M6, name, MARKER])| <= 2;
  }

  // ----- What the validator lets through -----------------------------------------------------

  /** What an accepted success or awaiting-review status says. */
  ghost predicate GoodNews(line: Bytes) {
    && Field(line, "schema_version") == Some(JStr(K("m6-cli-status-2.0.0")))
    && Field(line, "profile") == Some(JStr(K("official_m6")))
    && (exists name :: Slug(name, false) && Field(line, "result_path") == Some(JStr(RESULTS + name)))
    && (exists mode :: ModeText(mode) && Field(line, "mode") == Some(JStr(mode)))
    && (if Size(line) == 5
        then Field(line, "status") == Some(JStr(K("awaiting_review")))
        else
          && Size(line) == 7 && Field(line, "status") == Some(JStr(K("success")))
          && (exists counts :: Totals(counts) && Field(line, "aggregate_counts") == Some(JObj(counts)))
          && exists durations :: Totals(durations) && Field(line, "stage_durations_ms") == Some(JObj(durations)))
  }

  /** And what an accepted rejection or failure says: a trusted reason. */
  ghost predicate BadNews(codes: set<Str>, line: Bytes) {
    && Field(line, "schema_version") == Some(JStr(K("m6-cli-status-2.0.0")))
    && Field(line, "status") in {Some(JStr(K("rejected"))), Some(JStr(K("failure")))}
    && exists reason :: reason in codes && Field(line, "reason_code") == Some(JStr(reason))
  }

  /** Whatever is accepted is short, agrees with its flag and its code, and says only what it may. */
  lemma AcceptedSays(py: Python, codes: set<Str>, payload: Bytes, error: bool, code: int)
    requires py.rule.Settles() && py.limits.Usable() && Codes(codes)
    requires Validate(py, codes, Some(payload), Some(error), Some(code)) == Accepted
    ensures |payload| <= 65536 && (error <==> code != 0)
    ensures if error then BadNews(codes, payload) else GoodNews(payload)
  {
    AcceptedIsEmitted(py, codes, payload, error, code);
    if error {
      var reason, failed, marker: Option<Str> :|
        RejectionOutput(codes, reason, failed, marker) == Some(payload) && (marker.Some? ==> Normalised(marker.value));
      RejectionSays(py.rule, codes, reason, failed, marker, payload);
      assert Known(codes, reason) in codes;
    } else if EmittedSuccess(py.limits, payload) {
      var counts, mode, path, durations :| SuccessOutput(py.limits, counts, mode, path, durations) == Some(payload);
      SuccessNews(py, counts, mode, path, durations, payload);
    } else {
      var catalog, verification, path :| AwaitingOutput(OFFICIAL, catalog, verification, path) == Some(payload);
      AwaitingNews(py, catalog, verification, path, payload);
    }
  }

  lemma SuccessNews(py: Python, counts: seq<Member>, mode: Str, path: ResultRef, durations: seq<Member>, line: Bytes)
    requires SuccessOutput(py.limits, counts, mode, path, durations) == Some(line)
    ensures GoodNews(line)
  {
    SuccessSays(py.rule, py.limits, counts, mode, path, durations, line);
    SuccessIff(py.limits, counts, mode, path, durations);
    var name :| ResultAt(path, name);
  }

  lemma AwaitingNews(py: Python, catalog: Str, verification: Str, path: ResultRef, line: Bytes)
    requires AwaitingOutput(OFFICIAL, catalog, verification, path) == Some(line)
    ensures GoodNews(line)
  {
    AwaitingSays(py.rule, OFFICIAL, catalog, verification, path, line);
    AwaitingIff(OFFICIAL, catalog, verification, path);
    var name :| ResultAt(path, name);
    assert ModeText(OFFICIAL);
  }
}
