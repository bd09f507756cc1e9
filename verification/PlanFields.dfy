/**
 * What a reader finds in the dicts and the hashed bytes of a plan: each value under its own key and at its own
 * place.
 */
module PlanFields {
  import opened Common
  import opened Text
  import opened Json
  import opened CanonicalJson
  import opened Dicts
  import opened Framing
  import opened PlanSpec
  import opened Plans = Plan

  /** The dict of a spec. */
  lemma SpecSays(s: Spec)
    ensures var v := SpecDict(s);
      && |v.members| == 8
      && Under(v, "schema_version") == Some(JStr(K("1.0.0")))
      && Under(v, "family") == Some(JStr(s.family)) && Under(v, "version") == Some(JStr(s.version))
      && Under(v, "dose") == Some(JFloat(s.dose)) && Under(v, "duration_s") == Some(JFloat(s.duration))
      && Under(v, "parameters") == Some(JObj(s.parameters)) && Under(v, "access_class") == Some(JStr(s.access))
      && Under(v, "configuration_fingerprint") == Some(JStr(s.fingerprint))
  {
    SpecKeysOrdered();
    var values := [JStr(s.access), JStr(s.fingerprint), JFloat(s.dose), JFloat(s.duration), JStr(s.family),
      JObj(s.parameters), JStr(ONE), JStr(s.version)];
    UnderZip(SPEC_KEYS, values, 0, "access_class");
    UnderZip(SPEC_KEYS, values, 1, "configuration_fingerprint");
    UnderZip(SPEC_KEYS, values, 2, "dose");
    UnderZip(SPEC_KEYS, values, 3, "duration_s");
    UnderZip(SPEC_KEYS, values, 4, "family");
    UnderZip(SPEC_KEYS, values, 5, "parameters");
    UnderZip(SPEC_KEYS, values, 6, "schema_version");
    UnderZip(SPEC_KEYS, values, 7, "version");
  }

  /** The dict whose text is hashed: the same without the fingerprint. */
  lemma HashedSays(s: Spec)
    ensures var v := HashedDictOf(s);
      && |v.members| == 7
      && Under(v, "schema_version") == Some(JStr(K("1.0.0")))
      && Under(v, "family") == Some(JStr(s.family)) && Under(v, "version") == Some(JStr(s.version))
      && Under(v, "dose") == Some(JFloat(s.dose)) && Under(v, "duration_s") == Some(JFloat(s.duration))
      && Under(v, "parameters") == Some(JObj(s.parameters)) && Under(v, "access_class") == Some(JStr(s.access))
  {
    HashedKeysOrdered();
    var values := [JStr(s.access), JFloat(s.dose), JFloat(s.duration), JStr(s.family), JObj(s.parameters), JStr(ONE),
      JStr(s.version)];
    UnderZip(HASHED_KEYS, values, 0, "access_class");
    UnderZip(HASHED_KEYS, values, 1, "dose");
    UnderZip(HASHED_KEYS, values, 2, "duration_s");
    UnderZip(HASHED_KEYS, values, 3, "family");
    UnderZip(HASHED_KEYS, values, 4, "parameters");
    UnderZip(HASHED_KEYS, values, 5, "schema_version");
    UnderZip(HASHED_KEYS, values, 6, "version");
  }

  /** The dict of an audit. */
  lemma AuditSays(a: Audit)
    ensures var v := AuditDict(a);
      && |v.members| == 5
      && Under(v, "schema_version") == Some(JStr(K("1.0.0"))) && Under(v, "passed") == Some(JBool(a.passed))
      && Under(v, "checks") == Some(JObj(a.checks)) && Under(v, "details") == Some(JObj(a.details))
      && Under(v, "failure_reason") == Some(if a.reason.Some? then JStr(a.reason.value) else JNull)
  {
    AuditKeysOrdered();
    var values := [JObj(a.checks), JObj(a.details), ReasonJson(a.reason), JBool(a.passed), JStr(ONE)];
    UnderZip(AUDIT_KEYS, values, 0, "checks");
    UnderZip(AUDIT_KEYS, values, 1, "details");
    UnderZip(AUDIT_KEYS, values, 2, "failure_reason");
    UnderZip(AUDIT_KEYS, values, 3, "passed");
    UnderZip(AUDIT_KEYS, values, 4, "schema_version");
  }

  const DIGITS := "0123456789abcdef"

  /** A text that spells bytes, high digit first. */
  predicate Spells(v: Option<Json>, b: Bytes) {
    && v.Some? && v.value.JStr? && |v.value.s| == 2 * |b|
    && forall i :: 0 <= i < |b| ==>
      v.value.s[2 * i] == DIGITS[b[i] / 16] as int && v.value.s[2 * i + 1] == DIGITS[b[i] % 16] as int
  }

  /** The digits of a byte stand two places for every byte before it. */
  lemma {:induction false} HexAt(b: Bytes, i: nat)
    requires i < |b|
    ensures HexText(b)[2 * i] == HexDigit(b[i] / 16) && HexText(b)[2 * i + 1] == HexDigit(b[i] % 16)
  {
    if i > 0 {
      HexAt(b[1..], i - 1);
      assert b[1..][i - 1] == b[i];
    }
  }

  lemma HexDigits(n: nat)
    requires n < 16
    ensures HexDigit(n) == DIGITS[n] as int
  {
  }

  lemma HexSpells(b: Bytes)
    ensures Spells(Some(JStr(HexText(b))), b)
  {
    forall i | 0 <= i < |b|
      ensures HexText(b)[2 * i] == DIGITS[b[i] / 16] as int && HexText(b)[2 * i + 1] == DIGITS[b[i] % 16] as int
    {
      HexAt(b, i);
      HexDigits(b[i] / 16);
      HexDigits(b[i] % 16);
    }
  }

  /** A text that spells one byte a flag. */
  ghost predicate SpellsMask(v: Option<Json>, mask: seq<bool>) {
    exists b: Bytes :: Spells(v, b) && ReadMask(b) == mask && forall i :: 0 <= i < |b| ==> b[i] <= 1
  }

  /** A text that spells a tensor, double after double. */
  ghost predicate SpellsTensor(v: Option<Json>, t: seq<F64>) {
    exists b: Bytes :: Spells(v, b) && |b| == 8 * |t| && ReadTensor(b, |t|) == t
  }

  lemma MaskSpells(mask: seq<bool>)
    ensures SpellsMask(Some(MaskJson(mask)), mask)
  {
    HexSpells(MaskBytes(mask));
    MaskReads(mask);
  }

  lemma TensorSpells(t: seq<F64>)
    ensures SpellsTensor(Some(TensorJson(t)), t)
  {
    HexSpells(TensorBytes(t));
    TensorReads(t, []);
    assert TensorBytes(t) + [] == TensorBytes(t);
  }

  /** The masks and tensors of a plan in a dict. */
  ghost predicate SaysFrames(v: Json, p: Plan) {
    && SpellsMask(Under(v, "valid_u8_hex"), p.valid) && SpellsMask(Under(v, "applied_u8_hex"), p.applied)
    && SpellsTensor(Under(v, "timestamps_f64le_hex"), p.tensors.timestamps)
    && SpellsTensor(Under(v, "x_f64le_hex"), p.tensors.x) && SpellsTensor(Under(v, "y_f64le_hex"), p.tensors.y)
    && SpellsTensor(Under(v, "heading_f64le_hex"), p.tensors.heading)
    && SpellsTensor(Under(v, "vx_f64le_hex"), p.tensors.vx) && SpellsTensor(Under(v, "vy_f64le_hex"), p.tensors.vy)
  }

  /** The records and fingerprints of an envelope stand under their keys. */
  lemma RecordsSay(e: Envelope)
    ensures var v := EnvelopeDict(e);
      && |v.members| == 16
      && Under(v, "audit_fingerprint") == Some(e.auditFingerprint)
      && Under(v, "feasibility") == Some(e.feasibility)
      && Under(v, "plan_fingerprint") == Some(e.planFingerprint)
      && Under(v, "spec") == Some(e.spec)
  {
    PlanKeysOrdered();
    UnderZip(PLAN_KEYS, e.List(), 1, "audit_fingerprint");
    UnderZip(PLAN_KEYS, e.List(), 2, "feasibility");
    UnderZip(PLAN_KEYS, e.List(), 6, "plan_fingerprint");
    UnderZip(PLAN_KEYS, e.List(), 9, "spec");
  }

  /** So does what identifies it. */
  lemma IdentitySays(e: Envelope)
    ensures var v := EnvelopeDict(e);
      && |v.members| == 16
      && Under(v, "frame_count") == Some(e.frameCount)
      && Under(v, "perturbation_identity") == Some(e.identity)
      && Under(v, "realization_type") == Some(e.realization)
      && Under(v, "schema_version") == Some(e.schema)
  {
    PlanKeysOrdered();
    UnderZip(PLAN_KEYS, e.List(), 3, "frame_count");
    UnderZip(PLAN_KEYS, e.List(), 5, "perturbation_identity");
    UnderZip(PLAN_KEYS, e.List(), 7, "realization_type");
    UnderZip(PLAN_KEYS, e.List(), 8, "schema_version");
  }

  /** And its masks and the tensors over time. */
  lemma FramesSay(e: Envelope)
    ensures var v := EnvelopeDict(e);
      && |v.members| == 16
      && Under(v, "applied_u8_hex") == Some(e.applied)
      && Under(v, "heading_f64le_hex") == Some(e.heading)
      && Under(v, "timestamps_f64le_hex") == Some(e.timestamps)
      && Under(v, "valid_u8_hex") == Some(e.valid)
  {
    PlanKeysOrdered();
    UnderZip(PLAN_KEYS, e.List(), 0, "applied_u8_hex");
    UnderZip(PLAN_KEYS, e.List(), 4, "heading_f64le_hex");
    UnderZip(PLAN_KEYS, e.List(), 10, "timestamps_f64le_hex");
    UnderZip(PLAN_KEYS, e.List(), 11, "valid_u8_hex");
  }

  /** And the others. */
  lemma VectorsSay(e: Envelope)
    ensures var v := EnvelopeDict(e);
      && |v.members| == 16
      && Under(v, "vx_f64le_hex") == Some(e.vx)
      && Under(v, "vy_f64le_hex") == Some(e.vy)
      && Under(v, "x_f64le_hex") == Some(e.x)
      && Under(v, "y_f64le_hex") == Some(e.y)
  {
    PlanKeysOrdered();
    UnderZip(PLAN_KEYS, e.List(), 12, "vx_f64le_hex");
    UnderZip(PLAN_KEYS, e.List(), 13, "vy_f64le_hex");
    UnderZip(PLAN_KEYS, e.List(), 14, "x_f64le_hex");
    UnderZip(PLAN_KEYS, e.List(), 15, "y_f64le_hex");
  }

  /** A plan's dict says of every field what it is, under its own key. */
  lemma PlanSays(p: Plan)
    ensures var v := PlanDict(p);
      && |v.members| == 16 && SaysFrames(v, p)
      && Under(v, "schema_version") == Some(JStr(K("1.0.0"))) && Under(v, "frame_count") == Some(JInt(41))
      && Under(v, "spec") == Some(SpecDict(p.spec)) && Under(v, "feasibility") == Some(AuditDict(p.feasibility))
      && Under(v, "realization_type") == Some(JStr(p.realization))
      && Under(v, "plan_fingerprint") == Some(JStr(p.planFingerprint))
      && Under(v, "audit_fingerprint") == Some(JStr(p.auditFingerprint))
      && Under(v, "perturbation_identity") == Some(JStr(Identity(p)))
  {
    RecordsSay(EnvelopeOf(p));
    IdentitySays(EnvelopeOf(p));
    FramesSpell(p);
  }

  lemma FramesSpell(p: Plan)
    ensures SaysFrames(PlanDict(p), p)
  {
    FramesSay(EnvelopeOf(p));
    VectorsSay(EnvelopeOf(p));
    MaskSpells(p.valid);
    MaskSpells(p.applied);
    TensorSpells(p.tensors.timestamps);
    TensorSpells(p.tensors.x);
    TensorSpells(p.tensors.y);
    TensorSpells(p.tensors.heading);
    TensorSpells(p.tensors.vx);
    TensorSpells(p.tensors.vy);
  }

  const ENVELOPE_DOMAIN: Bytes := EGO + Encoded(K("trajectory-plan-envelope-v1"))

  lemma NoNul(s: string)
    requires forall i :: 0 <= i < |s| ==> 0 < s[i] as int < 0x80
    ensures Ascii(K(s)) && 0 !in Encoded(K(s))
  {
  }

  /** No domain contains a NUL. */
  lemma DomainsHaveNoNul()
    ensures 0 !in CONFIGURATION_DOMAIN && 0 !in PLAN_DOMAIN && 0 !in AUDIT_DOMAIN && 0 !in ENVELOPE_DOMAIN
  {
    NoNul("evalsim-ego-");
    NoNul("intervention-config-v1");
    NoNul("trajectory-plan-v1");
    NoNul("trajectory-plan-audit-v1");
    NoNul("trajectory-plan-envelope-v1");
  }

  lemma TaggedIs(domain: Bytes, text: Bytes)
    ensures (domain + [0]) + text == Tagged(domain, text)
  {
  }

  /** What `serialize` writes: the domain, a NUL and the text of that dict. */
  lemma SerializedSays(p: Plan)
    ensures ReadTagged(Serialize(p)) == Some((ENVELOPE_DOMAIN, Print(PlanDict(p))))
    ensures Loads(Print(PlanDict(p))) == Some(FuseAll(PlanDict(p)))
  {
    var text := Print(PlanDict(p));
    DomainsHaveNoNul();
    TaggedReads(ENVELOPE_DOMAIN, text);
    TaggedIs(ENVELOPE_DOMAIN, text);
    LoadsPrinted(PlanDict(p), []);
  }

  /** And without adjacent surrogates that text says exactly what the dict does. */
  lemma SerializedExactly(env: Env, p: Plan)
    requires env.Sound() && ValidPlan(env, p) && PairFree(p)
    ensures Loads(Print(PlanDict(p))) == Some(PlanDict(p))
  {
    PlanDictUnpaired(env, p);
    SerializedSays(p);
    FuseAllKeeps(PlanDict(p));
  }

  // ----- Fingerprints ------------------------------------------------------------------------

  /** The fingerprint of a spec is the digest of the text that says what it is. */
  lemma ConfigInputSays(env: Env, p: Plan)
    requires ValidPlan(env, p)
    ensures p.spec.fingerprint == env.sha(ConfigInput(p.spec))
    ensures ReadTagged(ConfigInput(p.spec)) == Some((CONFIGURATION_DOMAIN, Print(HashedDictOf(p.spec))))
    ensures Loads(Print(HashedDictOf(p.spec))) == Some(FuseAll(HashedDictOf(p.spec)))
  {
    ValidPlanFields(env, p);
    DomainsHaveNoNul();
    TaggedReads(CONFIGURATION_DOMAIN, Print(HashedDictOf(p.spec)));
    LoadsPrinted(HashedDictOf(p.spec), []);
  }

  /** A domain and the plan behind it. */
  function ReadPlanInput(b: Bytes): Option<(Bytes, PlanParts)> {
    match ReadTagged(b)
    case None => None
    case Some((domain, body)) =>
      match ReadPlan(body)
      case None => None
      case Some(parts) => Some((domain, parts))
  }

  function ReadAuditInput(b: Bytes): Option<(Bytes, Bytes, Json)> {
    match ReadTagged(b)
    case None => None
    case Some((domain, body)) =>
      match ReadAudit(body)
      case None => None
      case Some((fingerprint, audit)) => Some((domain, fingerprint, audit))
  }

  lemma PlanInputReads(domain: Bytes, config: Bytes, realization: Bytes, valid: seq<bool>, applied: seq<bool>,
                       t: Tensors)
    requires 0 !in domain && Fits(|config|) && Fits(|realization|) && |valid| == |applied| == FRAMES && t.Shaped()
    ensures ReadPlanInput(Tagged(domain, PlanBytes(config, realization, valid, applied, t)))
         == Some((domain, PlanParts(config, realization, FRAMES, valid, applied, t)))
  {
    TaggedReads(domain, PlanBytes(config, realization, valid, applied, t));
    PlanReads(config, realization, valid, applied, t);
  }

  /** The fingerprint of a plan is the digest of bytes a reader takes apart into just these fields. */
  lemma PlanInputSays(env: Env, p: Plan)
    requires ValidPlan(env, p)
    ensures p.planFingerprint == env.sha(PlanInput(p))
    ensures ReadPlanInput(PlanInput(p)) == Some((PLAN_DOMAIN,
      PlanParts(Encoded(p.spec.fingerprint), REALIZATION_BYTES, 41, p.valid, p.applied, p.tensors)))
  {
    ValidPlanFields(env, p);
    DomainsHaveNoNul();
    PlanInputReads(PLAN_DOMAIN, Encoded(p.spec.fingerprint), REALIZATION_BYTES, p.valid, p.applied, p.tensors);
  }

  lemma AuditInputReads(domain: Bytes, fingerprint: Bytes, audit: Json)
    requires 0 !in domain && Fits(|fingerprint|) && Fits(|Print(audit)|)
    ensures ReadAuditInput(Tagged(domain, AuditBytes(fingerprint, audit)))
         == Some((domain, fingerprint, FuseAll(audit)))
  {
    TaggedReads(domain, AuditBytes(fingerprint, audit));
    AuditReads(fingerprint, audit);
  }

  /** The audit fingerprint is that of the plan fingerprint and the audit. */
  lemma AuditInputSays(env: Env, p: Plan)
    requires ValidPlan(env, p)
    ensures Fits(|Print(AuditDict(p.feasibility))|) && p.auditFingerprint == env.sha(AuditInput(p))
    ensures ReadAuditInput(AuditInput(p))
         == Some((AUDIT_DOMAIN, Encoded(p.planFingerprint), FuseAll(AuditDict(p.feasibility))))
  {
    ValidPlanFields(env, p);
    DomainsHaveNoNul();
    AuditInputReads(AUDIT_DOMAIN, Encoded(p.planFingerprint), AuditDict(p.feasibility));
  }

  // ----- What the constructors let through -----------------------------------------------------

  predicate Lower(c: int) { 'a' as int <= c <= 'z' as int }

  predicate Digit(c: int) { '0' as int <= c <= '9' as int }

  /** A lower-case letter, then lower-case letters, digits and underscores. */
  predicate Name(s: Str) {
    s != [] && Lower(s[0]) && forall i :: 0 <= i < |s| ==> Lower(s[i]) || Digit(s[i]) || s[i] == '_' as int
  }

  /** A `v` and a decimal number without leading zeros. */
  predicate Version(s: Str) {
    && |s| >= 2 && s[0] == 'v' as int && (forall i :: 1 <= i < |s| ==> Digit(s[i]))
    && (s[1] == '0' as int ==> |s| == 2)
  }

  predicate Float(env: Env, t: FloatTok) {
    env.rule.repr(t) == Some(t) && env.nonNegative(t)
  }

  /** The specs there are: each part is what its field asks for, and the fingerprint is their digest. */
  lemma SpecIff(env: Env, s: Spec)
    requires env.Sound()
    ensures ValidSpec(env, s) <==>
      && Name(s.family) && Version(s.version) && s.access == K("logged_future_privileged")
      && Float(env, s.dose) && Float(env, s.duration) && Canonical(env.rule, JObj(s.parameters))
      && s.fingerprint == env.sha(ConfigInput(s))
  {
    NamesAreStripped(s.family, s.version);
    PrivilegedIsStripped();
    CanonicalIff(env, s.parameters);
    FloatIff(env, s.dose);
    FloatIff(env, s.duration);
  }

  lemma FloatIff(env: Env, t: FloatTok)
    ensures NonNegativeFloat(env, JFloat(t)) == Some(t) <==> Float(env, t)
  {
  }

  lemma NamesAreStripped(family: Str, version: Str)
    ensures Name(family) <==> Snake(family)
    ensures Version(version) <==> VersionText(version)
    ensures Snake(family) ==> TextArgument(JStr(family)) == Some(family)
    ensures VersionText(version) ==> TextArgument(JStr(version)) == Some(version)
  {
    StripIsStripped(family);
    StripIsStripped(version);
  }

  lemma CanonicalIff(env: Env, members: seq<Member>)
    requires env.Sound()
    ensures MappingArgument(env, JObj(members)) == Some(members) <==> Canonical(env.rule, JObj(members))
  {
    if MappingArgument(env, JObj(members)) == Some(members) {
      MappingSettles(env, JObj(members));
    }
    if Canonical(env.rule, JObj(members)) {
      SettleKeepsMembers(env.rule, members);
    }
  }

  /** The audits there are: named checks, passed exactly when all of them did, and a reason exactly when not. */
  lemma AuditIff(env: Env, a: Audit)
    requires env.Sound()
    ensures ValidAudit(env, a) <==>
      && a.checks != [] && Canonical(env.rule, JObj(a.checks)) && Canonical(env.rule, JObj(a.details))
      && (forall i :: 0 <= i < |a.checks| ==> Name(a.checks[i].key) && a.checks[i].value.JBool?)
      && (a.passed <==> forall i :: 0 <= i < |a.checks| ==> a.checks[i].value == JBool(true))
      && (a.reason.None? <==> a.passed) && (a.reason.Some? ==> Name(a.reason.value))
  {
    CanonicalIff(env, a.checks);
    CanonicalIff(env, a.details);
    if a.reason.Some? {
      NamesAreStripped(a.reason.value, []);
      StripIsStripped(a.reason.value);
    }
    forall i | 0 <= i < |a.checks|
      ensures Name(a.checks[i].key) <==> Snake(a.checks[i].key)
    {
      NamesAreStripped(a.checks[i].key, []);
    }
  }

  /** Forty-one frames, all valid, applied from the second on, of finite states in order of time. */
  predicate Executed(env: Env, p: Plan) {
    && |p.valid| == |p.applied| == 41 && p.tensors.Shaped()
    && (forall i :: 0 <= i < 41 ==> p.valid[i] && (p.applied[i] <==> i > 0) && FiniteAt(env, p.tensors, i))
    && (forall i :: 0 <= i < 40 ==> env.before(p.tensors.timestamps[i], p.tensors.timestamps[i + 1]))
  }

  predicate FiniteAt(env: Env, t: Tensors, i: nat)
    requires t.Shaped() && i < FRAMES
  {
    && env.finite(t.timestamps[i]) && env.finite(t.x[i]) && env.finite(t.y[i]) && env.finite(t.heading[i])
    && env.finite(t.vx[i]) && env.finite(t.vy[i]) && env.headingOk(t.heading[i])
  }

  /** The plans there are: two valid records, a passed audit, executable frames and the two fingerprints. */
  lemma PlanIff(env: Env, p: Plan)
    requires env.Sound()
    ensures ValidPlan(env, p) <==>
      && ValidSpec(env, p.spec) && ValidAudit(env, p.feasibility) && p.feasibility.passed
      && p.realization == K("logged_future_privileged") && Executed(env, p)
      && Fits(|Print(AuditDict(p.feasibility))|)
      && p.planFingerprint == env.sha(PlanInput(p)) && p.auditFingerprint == env.sha(AuditInput(p))
  {
    PrivilegedIsStripped();
    StatesIff(env, p);
    if ValidSpec(env, p.spec) {
      SpecIff(env, p.spec);
    }
  }

  lemma StatesIff(env: Env, p: Plan)
    ensures Executed(env, p) <==>
      p.tensors.Shaped() && MasksOk(p.valid, p.applied) && StatesOk(env, p.tensors)
  {
    if p.tensors.Shaped() && |p.valid| == |p.applied| == FRAMES {
      MasksIff(p.valid, p.applied);
      assert StatesOk(env, p.tensors) <==>
        && (forall i :: 0 <= i < 41 ==> FiniteAt(env, p.tensors, i))
        && (forall i :: 0 <= i < 40 ==> env.before(p.tensors.timestamps[i], p.tensors.timestamps[i + 1])) by {
        StatesAre(env, p.tensors);
      }
    }
  }

  lemma MasksIff(valid: seq<bool>, applied: seq<bool>)
    requires |valid| == |applied| == FRAMES
    ensures MasksOk(valid, applied) <==> forall i :: 0 <= i < 41 ==> valid[i] && (applied[i] <==> i > 0)
  {
    if forall i :: 0 <= i < 41 ==> valid[i] && (applied[i] <==> i > 0) {
      assert valid[0] && !applied[0];
    }
  }

  lemma StatesAre(env: Env, t: Tensors)
    requires t.Shaped()
    ensures StatesOk(env, t) <==>
      && (forall i :: 0 <= i < 41 ==> FiniteAt(env, t, i))
      && (forall i :: 0 <= i < 40 ==> env.before(t.timestamps[i], t.timestamps[i + 1]))
  {
    if forall i :: 0 <= i < 41 ==> FiniteAt(env, t, i) {
      forall i | 0 <= i < FRAMES
        ensures env.finite(t.timestamps[i]) && env.finite(t.x[i]) && env.finite(t.y[i]) && env.finite(t.heading[i])
        ensures env.finite(t.vx[i]) && env.finite(t.vy[i]) && env.headingOk(t.heading[i])
      {
        assert FiniteAt(env, t, i);
      }
    }
  }

  /** Whatever bytes were decoded, what came out is such a plan. */
  lemma DecodedSays(env: Env, b: Bytes)
    requires env.Sound() && Deserialize(env, b).Some?
    ensures var p := Deserialize(env, b).value;
      Executed(env, p) && p.feasibility.passed && Name(p.spec.family) && Version(p.spec.version)
      && Float(env, p.spec.dose) && Float(env, p.spec.duration)
      && forall i :: 0 <= i < |p.feasibility.checks| ==> p.feasibility.checks[i].value == JBool(true)
  {
    DecodedPlan(env, b);
    var p := Deserialize(env, b).value;
    PlanIff(env, p);
    SpecIff(env, p.spec);
    AuditIff(env, p.feasibility);
  }
}
