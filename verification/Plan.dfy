/**
 * The envelope of a 41-frame ego plan: masks and tensors in hexadecimal, a canonical JSON dict behind
 * a domain prefix, and a decoder that rebuilds the plan through the same constructors.
 */
module Plan {
  import opened Common
  import opened Text
  import opened Json
  import opened CanonicalJson
  import opened Dicts
  import opened Framing
  import opened PlanSpec
  import Order

  // ----- Hexadecimal -------------------------------------------------------------------------

  function HexText(b: Bytes): (s: Str)
    ensures |s| == 2 * |b| && forall i :: 0 <= i < |s| ==> HexCode(s[i])
  {
    if b == [] then [] else [HexDigit(b[0] / 16), HexDigit(b[0] % 16)] + HexText(b[1..])
  }

  function HexNibble(c: Code): (n: int)
    ensures -1 <= n < 16
    ensures n >= 0 ==> HexDigit(n) == c
  {
    if 48 <= c <= 57 then c - 48 else if 97 <= c <= 102 then c - 87 else -1
  }

  /** Lower-case hexadecimal in pairs; spaces and capitals do not survive the comparison with `hex()`. */
  function FromHex(s: Str): Option<Bytes> {
    if s == [] then Some([])
    else if |s| < 2 || HexNibble(s[0]) < 0 || HexNibble(s[1]) < 0 then None
    else match FromHex(s[2..])
      case None => None
      case Some(rest) => Some([16 * HexNibble(s[0]) + HexNibble(s[1])] + rest)
  }

  lemma {:induction false} FromHexText(b: Bytes)
    ensures FromHex(HexText(b)) == Some(b)
  {
    if b != [] {
      FromHexText(b[1..]);
      assert HexText(b)[2..] == HexText(b[1..]);
      assert b == [b[0]] + b[1..];
    }
  }

  lemma {:induction false} HexTextFrom(s: Str)
    requires FromHex(s).Some?
    ensures HexText(FromHex(s).value) == s
  {
    if s != [] {
      HexTextFrom(s[2..]);
      var b := FromHex(s).value;
      assert b[1..] == FromHex(s[2..]).value;
      assert s == [s[0], s[1]] + s[2..];
    }
  }

  // ----- Masks and tensors -------------------------------------------------------------------

  function ToMask(b: Bytes): Option<seq<bool>> {
    if |b| == FRAMES && (forall i :: 0 <= i < |b| ==> b[i] <= 1)
    then Some(seq(|b|, i requires 0 <= i < |b| => b[i] == 1))
    else None
  }

  function MaskJson(mask: seq<bool>): Json {
    JStr(HexText(MaskBytes(mask)))
  }

  function MaskFrom(v: Json): Option<seq<bool>> {
    if !v.JStr? then None
    else match FromHex(v.s)
      case None => None
      case Some(b) => ToMask(b)
  }

  lemma MaskFromIff(v: Json, mask: seq<bool>)
    requires |mask| == FRAMES
    ensures MaskFrom(v) == Some(mask) <==> v == MaskJson(mask)
  {
    var b := MaskBytes(mask);
    FromHexText(b);
    assert ToMask(b) == Some(mask) by {
      assert seq(|b|, i requires 0 <= i < |b| => b[i] == 1) == mask;
    }
    if MaskFrom(v) == Some(mask) {
      HexTextFrom(v.s);
      assert FromHex(v.s).value == b;
    }
  }

  /** Words of eight bytes. */
  function ToTensor(b: Bytes): (t: seq<F64>)
    requires |b| % 8 == 0
    ensures 8 * |t| == |b|
  {
    if b == [] then [] else [b[..8]] + ToTensor(b[8..])
  }

  lemma {:induction false} ToTensorBytes(t: seq<F64>)
    ensures ToTensor(TensorBytes(t)) == t
  {
    if t != [] {
      ToTensorBytes(t[1..]);
      assert TensorBytes(t)[..8] == t[0] && TensorBytes(t)[8..] == TensorBytes(t[1..]);
      assert t == [t[0]] + t[1..];
    }
  }

  lemma {:induction false} TensorBytesOf(b: Bytes)
    requires |b| % 8 == 0
    ensures TensorBytes(ToTensor(b)) == b
  {
    if b != [] {
      TensorBytesOf(b[8..]);
      assert ToTensor(b)[1..] == ToTensor(b[8..]);
      assert b == b[..8] + b[8..];
    }
  }

  function TensorJson(t: seq<F64>): Json {
    JStr(HexText(TensorBytes(t)))
  }

  function TensorFrom(v: Json): Option<seq<F64>> {
    if !v.JStr? then None
    else match FromHex(v.s)
      case None => None
      case Some(b) => if |b| == 8 * FRAMES then Some(ToTensor(b)) else None
  }

  lemma TensorFromIff(v: Json, t: seq<F64>)
    requires |t| == FRAMES
    ensures TensorFrom(v) == Some(t) <==> v == TensorJson(t)
  {
    FromHexText(TensorBytes(t));
    ToTensorBytes(t);
    if TensorFrom(v) == Some(t) {
      HexTextFrom(v.s);
      TensorBytesOf(FromHex(v.s).value);
    }
  }

  // ----- The plan ----------------------------------------------------------------------------

  datatype Plan = Plan(
    spec: Spec, valid: seq<bool>, applied: seq<bool>, tensors: Tensors,
    realization: Str, feasibility: Audit, planFingerprint: Digest, auditFingerprint: Digest)

  const PLAN_DOMAIN: Bytes := EGO + Encoded(K("trajectory-plan-v1"))
  const AUDIT_DOMAIN: Bytes := EGO + Encoded(K("trajectory-plan-audit-v1"))
  const ENVELOPE_PREFIX: Bytes := (EGO + Encoded(K("trajectory-plan-envelope-v1"))) + [0]
  const REALIZATION_BYTES: Bytes := Encoded(K("logged_future_privileged"))

  predicate StatesOk(env: Env, t: Tensors)
    requires t.Shaped()
  {
    && (forall i :: 0 <= i < FRAMES ==>
         env.finite(t.timestamps[i]) && env.finite(t.x[i]) && env.finite(t.y[i])
         && env.finite(t.heading[i]) && env.finite(t.vx[i]) && env.finite(t.vy[i]))
    && (forall i :: 0 <= i < FRAMES - 1 ==> env.before(t.timestamps[i], t.timestamps[i + 1]))
    && (forall i :: 0 <= i < FRAMES ==> env.headingOk(t.heading[i]))
  }

  /** Valid at every frame; applied at every frame but the current one. */
  predicate MasksOk(valid: seq<bool>, applied: seq<bool>) {
    && |valid| == |applied| == FRAMES
    && (forall i :: 0 <= i < FRAMES ==> valid[i])
    && !applied[0] && forall i :: 1 <= i < FRAMES ==> applied[i]
  }

  function PlanDigest(env: Env, spec: Spec, valid: seq<bool>, applied: seq<bool>, t: Tensors): Digest {
    env.sha(Tagged(PLAN_DOMAIN, PlanBytes(Encoded(spec.fingerprint), REALIZATION_BYTES, valid, applied, t)))
  }

  function AuditDigest(env: Env, fingerprint: Digest, feasibility: Audit): Digest
    requires Fits(|Print(AuditDict(feasibility))|)
  {
    env.sha(Tagged(AUDIT_DOMAIN, AuditBytes(Encoded(fingerprint), AuditDict(feasibility))))
  }

  /** What is checked before the fingerprints are. */
  predicate Executable(env: Env, spec: Spec, valid: seq<bool>, applied: seq<bool>, t: Tensors, realization: Json,
      feasibility: Audit) {
    && spec.fingerprint == ConfigurationDigest(env, spec.family, spec.version, spec.dose, spec.duration,
      spec.parameters, spec.access)
    && TextArgument(realization) == Some(PRIVILEGED) && spec.access == PRIVILEGED
    && t.Shaped() && MasksOk(valid, applied) && StatesOk(env, t)
    && feasibility.passed
    && Fits(|Print(AuditDict(feasibility))|)
  }

  function MakePlan(env: Env, spec: Spec, valid: seq<bool>, applied: seq<bool>, t: Tensors, realization: Json,
                    feasibility: Audit, planFingerprint: Json, auditFingerprint: Json): Option<Plan>
  {
    if !Executable(env, spec, valid, applied, t, realization, feasibility) then None
    else
      var plan := PlanDigest(env, spec, valid, applied, t);
      var audit := AuditDigest(env, plan, feasibility);
      if Supplied(planFingerprint, plan) && Supplied(auditFingerprint, audit)
      then Some(Plan(spec, valid, applied, t, PRIVILEGED, feasibility, plan, audit))
      else None
  }

  /** A plan as the constructors make them. */
  predicate ValidPlan(env: Env, p: Plan) {
    && ValidSpec(env, p.spec) && ValidAudit(env, p.feasibility)
    && MakePlan(env, p.spec, p.valid, p.applied, p.tensors, JStr(p.realization), p.feasibility,
                JStr(p.planFingerprint), JStr(p.auditFingerprint)) == Some(p)
  }

  lemma PrivilegedIsStripped()
    ensures TextArgument(JStr(PRIVILEGED)) == Some(PRIVILEGED)
  {
    StripIsStripped(PRIVILEGED);
  }

  /** Whatever the constructor accepts is a fixed point of it. */
  lemma MadePlanIsValid(env: Env, spec: Spec, valid: seq<bool>, applied: seq<bool>, t: Tensors, realization: Json,
                        feasibility: Audit, planFingerprint: Json, auditFingerprint: Json)
    requires ValidSpec(env, spec) && ValidAudit(env, feasibility)
    requires MakePlan(env, spec, valid, applied, t, realization, feasibility, planFingerprint, auditFingerprint).Some?
    ensures ValidPlan(env,
      MakePlan(env, spec, valid, applied, t, realization, feasibility, planFingerprint, auditFingerprint).value)
  {
    PrivilegedIsStripped();
  }

  /** `family/version@sha256:digest`. */
  function Identity(p: Plan): Str {
    (p.spec.family + [47]) + (p.spec.version + (K("@sha256:") + p.planFingerprint))
  }

  // ----- The dict ----------------------------------------------------------------------------

  const PLAN_KEYS: seq<Str> :=
    [K("applied_u8_hex"), K("audit_fingerprint"), K("feasibility"), K("frame_count"), K("heading_f64le_hex"),
     K("perturbation_identity"), K("plan_fingerprint"), K("realization_type"), K("schema_version"), K("spec"),
     K("timestamps_f64le_hex"), K("valid_u8_hex"), K("vx_f64le_hex"), K("vy_f64le_hex"), K("x_f64le_hex"),
       K("y_f64le_hex")]

  lemma PlanKeysOrdered()
    ensures KeyOrder(PLAN_KEYS)
  {
    TextBefore("applied_u8_hex", "audit_fingerprint", 1);
    TextBefore("audit_fingerprint", "feasibility", 0);
    TextBefore("feasibility", "frame_count", 1);
    TextBefore("frame_count", "heading_f64le_hex", 0);
    TextBefore("heading_f64le_hex", "perturbation_identity", 0);
    TextBefore("perturbation_identity", "plan_fingerprint", 1);
    TextBefore("plan_fingerprint", "realization_type", 0);
    TextBefore("realization_type", "schema_version", 0);
    PlanKeysOrderedTail();
    KeyOrderOf(PLAN_KEYS);
  }

  lemma PlanKeysOrderedTail()
    ensures forall i, j :: 8 <= i && j == i + 1 && j < 16 ==> Order.Less(PLAN_KEYS[i], PLAN_KEYS[j])
  {
    TextBefore("schema_version", "spec", 1);
    TextBefore("spec", "timestamps_f64le_hex", 0);
    TextBefore("timestamps_f64le_hex", "valid_u8_hex", 0);
    TextBefore("valid_u8_hex", "vx_f64le_hex", 1);
    TextBefore("vx_f64le_hex", "vy_f64le_hex", 1);
    TextBefore("vy_f64le_hex", "x_f64le_hex", 0);
    TextBefore("x_f64le_hex", "y_f64le_hex", 0);
  }

  /** The sixteen values of a plan dict, in key order. */
  datatype Envelope = Envelope(
    applied: Json, auditFingerprint: Json, feasibility: Json, frameCount: Json, heading: Json, identity: Json,
    planFingerprint: Json, realization: Json, schema: Json, spec: Json, timestamps: Json, valid: Json,
    vx: Json, vy: Json, x: Json, y: Json)
  {
    function List(): (r: seq<Json>)
      ensures |r| == 16
    {
      [applied, auditFingerprint, feasibility, frameCount, heading, identity, planFingerprint, realization,
       schema, spec, timestamps, valid, vx, vy, x, y]
    }
  }

  function EnvelopeDict(e: Envelope): Json {
    JObj(Zip(PLAN_KEYS, e.List()))
  }

  function OpenEnvelope(w: Json): Option<Envelope> {
    if !w.JObj? || Keys(w.members) != PLAN_KEYS then None
    else
      var v := Values(w.members);
      Some(Envelope(v[0], v[1], v[2], v[3], v[4], v[5], v[6], v[7], v[8], v[9], v[10], v[11], v[12], v[13], v[14],
        v[15]))
  }

  lemma OpenEnvelopeIff(w: Json, e: Envelope)
    ensures OpenEnvelope(w) == Some(e) <==> w == EnvelopeDict(e)
  {
    ZipParts(PLAN_KEYS, e.List());
    if OpenEnvelope(w) == Some(e) {
      ZipWhole(w.members);
      assert Values(w.members) == e.List();
    }
  }

  function EnvelopeOf(p: Plan): Envelope {
    Envelope(
      MaskJson(p.applied), JStr(p.auditFingerprint), AuditDict(p.feasibility), JInt(FRAMES),
        TensorJson(p.tensors.heading),
      JStr(Identity(p)), JStr(p.planFingerprint), JStr(p.realization), JStr(ONE), SpecDict(p.spec),
      TensorJson(p.tensors.timestamps), MaskJson(p.valid), TensorJson(p.tensors.vx), TensorJson(p.tensors.vy),
      TensorJson(p.tensors.x), TensorJson(p.tensors.y))
  }

  function PlanDict(p: Plan): Json {
    EnvelopeDict(EnvelopeOf(p))
  }

  /** 41, or the float 41.0, which Python finds equal to it. */
  predicate CountsFrames(v: Json) {
    v == JInt(FRAMES) || v == JFloat([52, 49, 46, 48])
  }

  function TensorsFrom(e: Envelope): Option<Tensors> {
    match (TensorFrom(e.timestamps), TensorFrom(e.x), TensorFrom(e.y), TensorFrom(e.heading), TensorFrom(e.vx),
      TensorFrom(e.vy))
    case (Some(t), Some(x), Some(y), Some(h), Some(vx), Some(vy)) => Some(Tensors(t, x, y, h, vx, vy))
    case _ => None
  }

  function FromEnvelope(env: Env, e: Envelope): Option<Plan> {
    if e.schema != JStr(ONE) || !CountsFrames(e.frameCount) then None
    else match (MaskFrom(e.valid), MaskFrom(e.applied), TensorsFrom(e), SpecFromDict(env, e.spec),
      AuditFromDict(env, e.feasibility))
      case (Some(valid), Some(applied), Some(t), Some(spec), Some(feasibility)) =>
        (match MakePlan(env, spec, valid, applied, t, e.realization, feasibility, e.planFingerprint, e.auditFingerprint)
         case None => None
         case Some(p) => if e.identity == JStr(Identity(p)) then Some(p) else None)
      case _ => None
  }

  /** The bytes of an envelope: its canonical text behind the prefix. */
  function Wire(e: Envelope): Bytes {
    ENVELOPE_PREFIX + Print(EnvelopeDict(e))
  }

  function ReadEnvelope(env: Env, b: Bytes): Option<Envelope> {
    if !(ENVELOPE_PREFIX <= b) then None
    else match Decode(env.rule, b[|ENVELOPE_PREFIX|..])
      case None => None
      case Some(w) => OpenEnvelope(w)
  }

  function Serialize(p: Plan): Bytes {
    Wire(EnvelopeOf(p))
  }

  function Deserialize(env: Env, b: Bytes): Option<Plan> {
    match ReadEnvelope(env, b)
    case None => None
    case Some(e) => FromEnvelope(env, e)
  }

  // ----- Rebuilding a plan from its own envelope ----------------------------------------------

  predicate TensorTexts(e: Envelope, t: Tensors) {
    && e.timestamps == TensorJson(t.timestamps) && e.x == TensorJson(t.x) && e.y == TensorJson(t.y)
    && e.heading == TensorJson(t.heading) && e.vx == TensorJson(t.vx) && e.vy == TensorJson(t.vy)
  }

  lemma TensorsFromIff(e: Envelope, t: Tensors)
    requires t.Shaped()
    ensures TensorsFrom(e) == Some(t) <==> TensorTexts(e, t)
  {
    TensorFromIff(e.timestamps, t.timestamps);
    TensorFromIff(e.x, t.x);
    TensorFromIff(e.y, t.y);
    TensorFromIff(e.heading, t.heading);
    TensorFromIff(e.vx, t.vx);
    TensorFromIff(e.vy, t.vy);
  }

  lemma OwnEnvelope(env: Env, p: Plan)
    requires ValidPlan(env, p)
    ensures FromEnvelope(env, EnvelopeOf(p)) == Some(p)
  {
    var e := EnvelopeOf(p);
    MaskFromIff(e.valid, p.valid);
    MaskFromIff(e.applied, p.applied);
    TensorsFromIff(e, p.tensors);
    SpecRoundTrip(env, p.spec);
    AuditRoundTrip(env, p.feasibility);
  }

  lemma EnvelopeCanonical(env: Env, p: Plan)
    requires env.Sound() && ValidPlan(env, p)
    ensures Canonical(env.rule, PlanDict(p))
  {
    PlanKeysOrdered();
    ValidSpecSettled(env, p.spec);
    SpecDictCanonical(env.rule, p.spec);
    ValidAuditParts(env, p.feasibility);
    AuditDictCanonical(env.rule, p.feasibility);
    ValuesCanonical(env.rule, EnvelopeOf(p));
    ZipCanonical(env.rule, PLAN_KEYS, EnvelopeOf(p).List());
  }

  predicate LeavesBut(e: Envelope) {
    Leaf(e.applied) && Leaf(e.auditFingerprint) && Leaf(e.frameCount) && Leaf(e.heading) && Leaf(e.identity)
    && Leaf(e.planFingerprint) && Leaf(e.realization) && Leaf(e.schema) && Leaf(e.timestamps) && Leaf(e.valid)
    && Leaf(e.vx) && Leaf(e.vy) && Leaf(e.x) && Leaf(e.y)
  }

  lemma ValuesCanonical(rule: Rule, e: Envelope)
    requires LeavesBut(e) && Canonical(rule, e.feasibility) && Canonical(rule, e.spec)
    ensures forall i :: 0 <= i < 16 ==> Canonical(rule, e.List()[i])
  {
    var values := e.List();
    forall i | 0 <= i < 16
      ensures Canonical(rule, values[i])
    {
      assert Leaf(values[i]) || values[i] == e.feasibility || values[i] == e.spec;
      if Leaf(values[i]) {
        LeafCanonical(rule, values[i]);
      }
    }
  }

  lemma HexIsUnpaired(s: Str)
    requires forall i :: 0 <= i < |s| ==> HexCode(s[i])
    ensures Unpaired(s)
  {
    AsciiIsUnpaired(s);
  }

  lemma IdentityIsUnpaired(p: Plan)
    requires SpecTexts(p.spec)
    ensures Unpaired(Identity(p))
  {
    var tag := K("@sha256:");
    assert forall i :: 0 <= i < |tag| ==> tag[i] < 0x80;
    AsciiIsUnpaired(Identity(p));
  }

  /** The texts of a leaf, joined pairs aside, do not matter to the two dicts inside. */
  lemma ValuesUnpaired(e: Envelope)
    requires LeavesBut(e)
    requires AllUnpaired(e.applied) && AllUnpaired(e.auditFingerprint) && AllUnpaired(e.heading)
      && AllUnpaired(e.identity)
    requires AllUnpaired(e.planFingerprint) && AllUnpaired(e.realization) && AllUnpaired(e.schema)
      && AllUnpaired(e.timestamps)
    requires AllUnpaired(e.valid) && AllUnpaired(e.vx) && AllUnpaired(e.vy) && AllUnpaired(e.x) && AllUnpaired(e.y)
    requires AllUnpaired(e.frameCount)
    ensures (forall i :: 0 <= i < 16 ==> AllUnpaired(e.List()[i]))
      <==> AllUnpaired(e.feasibility) && AllUnpaired(e.spec)
  {
    assert e.List()[2] == e.feasibility && e.List()[9] == e.spec;
  }

  lemma MaskJsonUnpaired(mask: seq<bool>)
    ensures AllUnpaired(MaskJson(mask))
  {
    HexIsUnpaired(HexText(MaskBytes(mask)));
  }

  lemma TensorJsonUnpaired(t: seq<F64>)
    ensures AllUnpaired(TensorJson(t))
  {
    HexIsUnpaired(HexText(TensorBytes(t)));
  }

  /** No adjacent surrogate pair in the only two places that hold free text. */
  predicate PairFree(p: Plan) {
    AllUnpaired(JObj(p.spec.parameters)) && AllUnpaired(JObj(p.feasibility.details))
  }

  lemma PlanDictUnpaired(env: Env, p: Plan)
    requires env.Sound() && ValidPlan(env, p)
    ensures AllUnpaired(PlanDict(p)) <==> PairFree(p)
  {
    ValidSpecTexts(env, p.spec);
    ValidAuditParts(env, p.feasibility);
    EnvelopeUnpaired(p);
  }

  lemma EnvelopeUnpaired(p: Plan)
    requires SpecTexts(p.spec) && AuditTexts(p.feasibility) && p.realization == PRIVILEGED
    ensures AllUnpaired(PlanDict(p)) <==> PairFree(p)
  {
    SpecDictUnpaired(p.spec);
    AuditDictUnpaired(p.feasibility);
    HexIsUnpaired(p.auditFingerprint);
    HexIsUnpaired(p.planFingerprint);
    IdentityIsUnpaired(p);
    MaskJsonUnpaired(p.valid);
    MaskJsonUnpaired(p.applied);
    TensorJsonUnpaired(p.tensors.timestamps);
    TensorJsonUnpaired(p.tensors.x);
    TensorJsonUnpaired(p.tensors.y);
    TensorJsonUnpaired(p.tensors.heading);
    TensorJsonUnpaired(p.tensors.vx);
    TensorJsonUnpaired(p.tensors.vy);
    ValuesUnpaired(EnvelopeOf(p));
    PlanKeysOrdered();
    ZipUnpaired(PLAN_KEYS, EnvelopeOf(p).List());
  }

  // ----- What the decoder accepts ------------------------------------------------------------

  /** The dict prints as it is and reads back as it is. */
  predicate Clean(env: Env, e: Envelope) {
    Canonical(env.rule, EnvelopeDict(e)) && AllUnpaired(EnvelopeDict(e))
  }

  /** The only bytes read as an envelope are its own. */
  lemma ReadEnvelopeIff(env: Env, b: Bytes, e: Envelope)
    requires env.Sound()
    ensures ReadEnvelope(env, b) == Some(e) <==> Clean(env, e) && b == Wire(e)
  {
    var w := EnvelopeDict(e);
    OpenEnvelopeIff(w, e);
    if ENVELOPE_PREFIX <= b {
      var text := b[|ENVELOPE_PREFIX|..];
      assert b == ENVELOPE_PREFIX + text;
      DecodeAccepts(env.rule, text, w);
      if ReadEnvelope(env, b) == Some(e) {
        OpenEnvelopeIff(Decode(env.rule, text).value, e);
      }
      if b == Wire(e) {
        SplitEqual(ENVELOPE_PREFIX, text, ENVELOPE_PREFIX, Print(w));
      }
    }
  }

  /** Accepted bytes are exactly the bytes of a clean envelope from which the constructors make the plan. */
  lemma AcceptedIff(env: Env, b: Bytes, p: Plan)
    requires env.Sound()
    ensures Deserialize(env, b) == Some(p)
      <==> exists e: Envelope :: Clean(env, e) && b == Wire(e) && FromEnvelope(env, e) == Some(p)
  {
    if Deserialize(env, b) == Some(p) {
      ReadEnvelopeIff(env, b, ReadEnvelope(env, b).value);
    }
    if e: Envelope :| Clean(env, e) && b == Wire(e) && FromEnvelope(env, e) == Some(p) {
      ReadEnvelopeIff(env, b, e);
    }
  }

  lemma WireInjective(e: Envelope, f: Envelope)
    requires AllUnpaired(EnvelopeDict(e)) && AllUnpaired(EnvelopeDict(f)) && Wire(e) == Wire(f)
    ensures e == f
  {
    SplitEqual(ENVELOPE_PREFIX, Print(EnvelopeDict(e)), ENVELOPE_PREFIX, Print(EnvelopeDict(f)));
    PrintInjective(EnvelopeDict(e), EnvelopeDict(f));
    OpenEnvelopeIff(EnvelopeDict(e), e);
    OpenEnvelopeIff(EnvelopeDict(e), f);
  }

  lemma InnerDicts(e: Envelope)
    ensures EnvelopeDict(e).members[2].value == e.feasibility && EnvelopeDict(e).members[9].value == e.spec
  {
    assert e.List()[2] == e.feasibility && e.List()[9] == e.spec;
  }

  /** An accepted envelope rebuilds a plan the constructors made, masks and tensors bit for bit. */
  lemma FromEnvelopeParts(env: Env, e: Envelope)
    requires env.Sound() && FromEnvelope(env, e).Some?
    ensures ValidPlan(env, FromEnvelope(env, e).value)
    ensures e.schema == JStr(ONE) && CountsFrames(e.frameCount)
    ensures var p := FromEnvelope(env, e).value;
      && e.valid == MaskJson(p.valid) && e.applied == MaskJson(p.applied) && p.tensors.Shaped()
        && TensorsFrom(e) == Some(p.tensors)
      && e.identity == JStr(Identity(p))
      && SpecFromDict(env, e.spec) == Some(p.spec) && AuditFromDict(env, e.feasibility) == Some(p.feasibility)
      && TextArgument(e.realization) == Some(p.realization) && p.feasibility.passed
      && Supplied(e.planFingerprint, p.planFingerprint) && Supplied(e.auditFingerprint, p.auditFingerprint)
  {
    var p := FromEnvelope(env, e).value;
    MadeSpecIsValid(env, OpenSpec(e.spec).value);
    MadeAuditIsValid(env, OpenAudit(e.feasibility).value);
    MadePlanIsValid(env, p.spec, p.valid, p.applied, p.tensors, e.realization, p.feasibility, e.planFingerprint,
      e.auditFingerprint);
    MaskFromIff(e.valid, p.valid);
    MaskFromIff(e.applied, p.applied);
  }

  // ----- Round trips -------------------------------------------------------------------------

  lemma EnvelopePairFree(env: Env, e: Envelope)
    requires AllUnpaired(e.spec) && AllUnpaired(e.feasibility) && FromEnvelope(env, e).Some?
    ensures PairFree(FromEnvelope(env, e).value)
  {
    SpecPairFree(env, e.spec);
    AuditPairFree(env, e.feasibility);
  }

  /**
   * Whatever bytes a plan was decoded from, it is a constructed plan whose free texts hold no adjacent
   * surrogate pair.
   */
  lemma DecodedPlan(env: Env, b: Bytes)
    requires env.Sound() && Deserialize(env, b).Some?
    ensures ValidPlan(env, Deserialize(env, b).value) && PairFree(Deserialize(env, b).value)
  {
    var e := ReadEnvelope(env, b).value;
    ReadEnvelopeIff(env, b, e);
    FromEnvelopeParts(env, e);
    InnerDicts(e);
    EnvelopePairFree(env, e);
  }

  /**
   * A plan comes back from its own bytes, field for field, exactly when its free texts hold no adjacent
   * surrogate pair.
   */
  lemma SerializeDeserialize(env: Env, p: Plan)
    requires env.Sound() && ValidPlan(env, p)
    ensures Deserialize(env, Serialize(p)) == Some(p) <==> PairFree(p)
  {
    if PairFree(p) {
      EnvelopeCanonical(env, p);
      PlanDictUnpaired(env, p);
      OwnEnvelope(env, p);
      ReadEnvelopeIff(env, Serialize(p), EnvelopeOf(p));
    }
    if Deserialize(env, Serialize(p)) == Some(p) {
      DecodedPlan(env, Serialize(p));
    }
  }

  /** Decoding and encoding again is idempotent on every accepted byte string. */
  lemma Reserialized(env: Env, b: Bytes)
    requires env.Sound() && Deserialize(env, b).Some?
    ensures Deserialize(env, Serialize(Deserialize(env, b).value)) == Deserialize(env, b)
  {
    DecodedPlan(env, b);
    SerializeDeserialize(env, Deserialize(env, b).value);
  }

  /** The texts an encoder would have written: an integer frame count, float doses, stripped texts, all fingerprints. */
  predicate Plain(e: Envelope) {
    && e.frameCount == JInt(FRAMES)
    && e.planFingerprint != JNull && e.auditFingerprint != JNull
    && e.realization.JStr? && Stripped(e.realization.s)
    && OpenSpec(e.spec).Some? && PlainArgs(OpenSpec(e.spec).value)
  }

  lemma PlainEnvelope(env: Env, e: Envelope)
    requires env.Sound() && FromEnvelope(env, e).Some?
    requires Canonical(env.rule, e.spec) && Canonical(env.rule, e.feasibility)
    ensures e == EnvelopeOf(FromEnvelope(env, e).value) <==> Plain(e)
  {
    var p := FromEnvelope(env, e).value;
    FromEnvelopeParts(env, e);
    TensorsFromIff(e, p.tensors);
    SpecDictKept(env, e.spec);
    AuditDictKept(env, e.feasibility);
    TextArgumentSettles(e.realization);
  }

  /**
   * Re-encoding gives the accepted bytes back exactly when they were plain: accepted bytes are not unique to a
   * plan.
   */
  lemma BytesKeptIff(env: Env, b: Bytes)
    requires env.Sound() && Deserialize(env, b).Some?
    ensures Serialize(Deserialize(env, b).value) == b <==> Plain(ReadEnvelope(env, b).value)
  {
    var p, e := Deserialize(env, b).value, ReadEnvelope(env, b).value;
    ReadEnvelopeIff(env, b, e);
    DecodedPlan(env, b);
    PlanDictUnpaired(env, p);
    InnerDicts(e);
    PlainEnvelope(env, e);
    if Serialize(p) == b {
      WireInjective(EnvelopeOf(p), e);
    }
  }

  /** Two plans with the same bytes are the same plan, when neither holds an adjacent surrogate pair. */
  lemma SerializeInjective(env: Env, p: Plan, q: Plan)
    requires env.Sound() && ValidPlan(env, p) && ValidPlan(env, q) && PairFree(p) && PairFree(q)
    requires Serialize(p) == Serialize(q)
    ensures p == q
  {
    SerializeDeserialize(env, p);
    SerializeDeserialize(env, q);
  }

  // ----- What a fingerprint stands for -------------------------------------------------------

  predicate NoCollision(env: Env, a: Bytes, b: Bytes) {
    env.sha(a) == env.sha(b) ==> a == b
  }

  function ConfigInput(s: Spec): Bytes {
    Tagged(CONFIGURATION_DOMAIN, Print(HashedDictOf(s)))
  }

  function PlanInput(p: Plan): Bytes {
    Tagged(PLAN_DOMAIN, PlanBytes(Encoded(p.spec.fingerprint), REALIZATION_BYTES, p.valid, p.applied, p.tensors))
  }

  function AuditInput(p: Plan): Bytes
    requires Fits(|Print(AuditDict(p.feasibility))|)
  {
    Tagged(AUDIT_DOMAIN, AuditBytes(Encoded(p.planFingerprint), AuditDict(p.feasibility)))
  }

  lemma TaggedSame(domain: Bytes, a: Bytes, b: Bytes)
    requires Tagged(domain, a) == Tagged(domain, b)
    ensures a == b
  {
    SplitEqual(domain, [0] + a, domain, [0] + b);
    SplitEqual([0], a, [0], b);
  }

  lemma EncodedInjective(s: Str, t: Str)
    requires Ascii(s) && Ascii(t) && Encoded(s) == Encoded(t)
    ensures s == t
  {
    assert |s| == |Encoded(s)| == |t|;
    forall i | 0 <= i < |s|
      ensures s[i] == t[i]
    {
      assert Encoded(s)[i] == Encoded(t)[i];
    }
  }

  lemma AuditInputInjective(p: Plan, q: Plan)
    requires Fits(|Print(AuditDict(p.feasibility))|) && Fits(|Print(AuditDict(q.feasibility))|)
    requires AllUnpaired(AuditDict(p.feasibility)) && AllUnpaired(AuditDict(q.feasibility))
    requires AuditInput(p) == AuditInput(q)
    ensures p.planFingerprint == q.planFingerprint && AuditDict(p.feasibility) == AuditDict(q.feasibility)
  {
    var a, b := AuditDict(p.feasibility), AuditDict(q.feasibility);
    TaggedSame(AUDIT_DOMAIN, AuditBytes(Encoded(p.planFingerprint), a), AuditBytes(Encoded(q.planFingerprint), b));
    AuditBytesInjective(Encoded(p.planFingerprint), a, Encoded(q.planFingerprint), b);
    EncodedInjective(p.planFingerprint, q.planFingerprint);
  }

  lemma PlanInputInjective(p: Plan, q: Plan)
    requires MasksOk(p.valid, p.applied) && MasksOk(q.valid, q.applied) && p.tensors.Shaped() && q.tensors.Shaped()
    requires PlanInput(p) == PlanInput(q)
    ensures p.spec.fingerprint == q.spec.fingerprint && p.valid == q.valid && p.applied == q.applied
      && p.tensors == q.tensors
  {
    var c, d := Encoded(p.spec.fingerprint), Encoded(q.spec.fingerprint);
    TaggedSame(PLAN_DOMAIN, PlanBytes(c, REALIZATION_BYTES, p.valid, p.applied, p.tensors),
               PlanBytes(d, REALIZATION_BYTES, q.valid, q.applied, q.tensors));
    PlanBytesInjective(c, REALIZATION_BYTES, p.valid, p.applied, p.tensors, d, REALIZATION_BYTES, q.valid, q.applied,
      q.tensors);
    EncodedInjective(p.spec.fingerprint, q.spec.fingerprint);
  }

  lemma ValidPlanFields(env: Env, p: Plan)
    requires ValidPlan(env, p)
    ensures MasksOk(p.valid, p.applied) && p.tensors.Shaped() && p.realization == PRIVILEGED
    ensures Fits(|Print(AuditDict(p.feasibility))|)
    ensures p.spec.fingerprint == env.sha(ConfigInput(p.spec)) && p.planFingerprint == env.sha(PlanInput(p))
    ensures p.auditFingerprint == env.sha(AuditInput(p))
  {
  }

  /** Unless the hash collides on the very bytes of the two plans, an audit fingerprint belongs to one plan only. */
  lemma FingerprintIdentifies(env: Env, p: Plan, q: Plan)
    requires env.Sound() && ValidPlan(env, p) && ValidPlan(env, q) && PairFree(p) && PairFree(q)
    requires Fits(|Print(AuditDict(p.feasibility))|) && Fits(|Print(AuditDict(q.feasibility))|)
    requires NoCollision(env, AuditInput(p), AuditInput(q))
    requires NoCollision(env, PlanInput(p), PlanInput(q))
    requires NoCollision(env, ConfigInput(p.spec), ConfigInput(q.spec))
    requires p.auditFingerprint == q.auditFingerprint
    ensures p == q
  {
    ValidPlanFields(env, p);
    ValidPlanFields(env, q);
    ValidAuditParts(env, p.feasibility);
    ValidAuditParts(env, q.feasibility);
    AuditDictUnpaired(p.feasibility);
    AuditDictUnpaired(q.feasibility);
    AuditInputInjective(p, q);
    AuditRoundTrip(env, p.feasibility);
    AuditRoundTrip(env, q.feasibility);
    PlanInputInjective(p, q);
    ConfigurationInjective(env, p.spec, q.spec);
  }
}
