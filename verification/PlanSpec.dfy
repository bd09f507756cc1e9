/**
 * The two records inside a plan: the intervention it carries out and the audit of its feasibility.
 * Python values are given as JSON values; hashing and the arithmetic of doubles are parameters.
 */
module PlanSpec {
  import opened Common
  import opened Text
  import opened Json
  import opened CanonicalJson
  import opened Dicts
  import opened Framing

  /** What the surrounding Python supplies. */
  datatype Env = Env(
    sha: Bytes -> Digest,
    rule: Rule,
    floatOfInt: int -> Option<FloatTok>,
    floatOfText: Str -> Option<FloatTok>,
    nonNegative: FloatTok -> bool,
    finite: F64 -> bool,
    before: (F64, F64) -> bool,
    headingOk: F64 -> bool)
  {
    /** Floats print as themselves, wherever they come from. */
    ghost predicate Sound() {
      && rule.Settles() && !rule.emptyKeys
      && (forall n :: floatOfInt(n).Some? ==> rule.repr(floatOfInt(n).value) == floatOfInt(n))
      && (forall s :: floatOfText(s).Some? ==> rule.repr(floatOfText(s).value) == floatOfText(s))
    }
  }

  // ----- Texts -------------------------------------------------------------------------------

  predicate Space(c: int) {
    9 <= c <= 13 || 28 <= c <= 32 || c == 0x85 || c == 0xA0 || c == 0x1680 || 0x2000 <= c <= 0x200A
    || c == 0x2028 || c == 0x2029 || c == 0x202F || c == 0x205F || c == 0x3000
  }

  function TrimStart(s: Str): (r: Str)
    ensures r == [] || !Space(r[0])
    ensures s != [] && !Space(s[|s| - 1]) ==> r != [] && r[|r| - 1] == s[|s| - 1]
  {
    if s != [] && Space(s[0]) then TrimStart(s[1..]) else s
  }

  function TrimEnd(s: Str): (r: Str)
    ensures r == [] || (s != [] && !Space(r[|r| - 1]) && r[0] == s[0])
  {
    if s != [] && Space(s[|s| - 1]) then TrimEnd(s[..|s| - 1]) else s
  }

  function Strip(s: Str): Str {
    TrimEnd(TrimStart(s))
  }

  predicate Stripped(s: Str) {
    s == [] || (!Space(s[0]) && !Space(s[|s| - 1]))
  }

  lemma StripIsStripped(s: Str)
    ensures Stripped(Strip(s))
    ensures Stripped(s) <==> Strip(s) == s
  {
  }

  predicate SnakeCode(c: int) { 97 <= c <= 122 || 48 <= c <= 57 || c == 95 }

  predicate Snake(s: Str) {
    s != [] && 97 <= s[0] <= 122 && forall i :: 0 <= i < |s| ==> SnakeCode(s[i])
  }

  predicate VersionText(s: Str) {
    && |s| >= 2 && s[0] == 118
    && (forall i :: 1 <= i < |s| ==> 48 <= s[i] <= 57)
    && (|s| == 2 || s[1] != 48)
  }

  const PRIVILEGED: Str := K("logged_future_privileged")
  const ONE: Str := K("1.0.0")

  /** A required text argument, stripped; it may not be blank. */
  function TextArgument(v: Json): Option<Str> {
    if v.JStr? && Strip(v.s) != [] then Some(Strip(v.s)) else None
  }

  function NonNegativeFloat(env: Env, v: Json): Option<FloatTok> {
    var parsed := match v
      case JInt(n) => env.floatOfInt(n)
      case JFloat(t) => env.rule.repr(t)
      case JStr(s) => env.floatOfText(s)
      case _ => None;
    if parsed.Some? && env.nonNegative(parsed.value) then parsed else None
  }

  function MappingArgument(env: Env, v: Json): Option<seq<Member>> {
    if !v.JObj? then None
    else match SettleMembers(env.rule, v.members)
      case None => None
      case Some(members) => Some(members)
  }

  /** A fingerprint argument is left out or matches. */
  predicate Supplied(v: Json, expected: Digest) {
    v == JNull || v == JStr(expected)
  }

  // ----- The intervention --------------------------------------------------------------------

  datatype Spec = Spec(
    family: Str, version: Str, dose: FloatTok, duration: FloatTok,
    parameters: seq<Member>, access: Str, fingerprint: Digest)

  const HASHED_KEYS: seq<Str> :=
    [K("access_class"), K("dose"), K("duration_s"), K("family"), K("parameters"), K("schema_version"), K("version")]

  const SPEC_KEYS: seq<Str> :=
    [K("access_class"), K("configuration_fingerprint"), K("dose"), K("duration_s"), K("family"), K("parameters"),
     K("schema_version"), K("version")]

  const EGO: Bytes := Encoded(K("evalsim-ego-"))
  const CONFIGURATION_DOMAIN: Bytes := EGO + Encoded(K("intervention-config-v1"))

  /** The dict whose canonical text is hashed. */
  function HashedDict(family: Str, version: Str, dose: FloatTok, duration: FloatTok, parameters: seq<Member>,
      access: Str): Json {
    JObj(Zip(HASHED_KEYS,
      [JStr(access), JFloat(dose), JFloat(duration), JStr(family), JObj(parameters), JStr(ONE), JStr(version)]))
  }

  function ConfigurationDigest(env: Env, family: Str, version: Str, dose: FloatTok, duration: FloatTok,
                               parameters: seq<Member>, access: Str): Digest
  {
    env.sha(Tagged(CONFIGURATION_DOMAIN, Print(HashedDict(family, version, dose, duration, parameters, access))))
  }

  /** The arguments of the constructor, still unchecked. */
  datatype SpecArgs = SpecArgs(access: Json, fingerprint: Json, dose: Json, duration: Json, family: Json,
      parameters: Json, version: Json)

  function MakeSpec(env: Env, a: SpecArgs): Option<Spec> {
    match (TextArgument(a.family), TextArgument(a.version), TextArgument(a.access))
    case (Some(family), Some(version), Some(access)) =>
      (match (NonNegativeFloat(env, a.dose), NonNegativeFloat(env, a.duration), MappingArgument(env, a.parameters))
       case (Some(dose), Some(duration), Some(parameters)) =>
         var expected := ConfigurationDigest(env, family, version, dose, duration, parameters, access);
         if Snake(family) && VersionText(version) && access == PRIVILEGED && Supplied(a.fingerprint, expected)
         then Some(Spec(family, version, dose, duration, parameters, access, expected))
         else None
       case _ => None)
    case _ => None
  }

  function SpecArgsOf(s: Spec): SpecArgs {
    SpecArgs(JStr(s.access), JStr(s.fingerprint), JFloat(s.dose), JFloat(s.duration), JStr(s.family),
      JObj(s.parameters), JStr(s.version))
  }

  /** A spec as the constructor makes them: built again from its own fields it is the same. */
  predicate ValidSpec(env: Env, s: Spec) {
    MakeSpec(env, SpecArgsOf(s)) == Some(s)
  }

  function SpecDict(s: Spec): Json {
    SpecDictOf(SpecArgsOf(s))
  }

  function SpecDictOf(a: SpecArgs): Json {
    JObj(Zip(SPEC_KEYS, [a.access, a.fingerprint, a.dose, a.duration, a.family, a.parameters, JStr(ONE), a.version]))
  }

  function OpenSpec(w: Json): Option<SpecArgs> {
    if !w.JObj? || Keys(w.members) != SPEC_KEYS then None
    else
      var v := Values(w.members);
      if v[6] != JStr(ONE) then None
      else Some(SpecArgs(v[0], v[1], v[2], v[3], v[4], v[5], v[7]))
  }

  function SpecFromDict(env: Env, w: Json): Option<Spec> {
    match OpenSpec(w)
    case None => None
    case Some(a) => MakeSpec(env, a)
  }

  lemma OpenSpecIff(w: Json, a: SpecArgs)
    ensures OpenSpec(w) == Some(a) <==> w == SpecDictOf(a)
  {
    var values := [a.access, a.fingerprint, a.dose, a.duration, a.family, a.parameters, JStr(ONE), a.version];
    ZipParts(SPEC_KEYS, values);
    if OpenSpec(w) == Some(a) {
      ZipWhole(w.members);
      assert Values(w.members) == values;
    }
  }

  lemma TextArgumentSettles(v: Json)
    requires TextArgument(v).Some?
    ensures TextArgument(JStr(TextArgument(v).value)) == TextArgument(v)
    ensures v == JStr(TextArgument(v).value) <==> Stripped(v.s)
  {
    StripIsStripped(v.s);
    StripIsStripped(Strip(v.s));
  }

  lemma FloatSettles(env: Env, v: Json)
    requires env.Sound() && NonNegativeFloat(env, v).Some?
    ensures NonNegativeFloat(env, JFloat(NonNegativeFloat(env, v).value)) == NonNegativeFloat(env, v)
    ensures env.rule.repr(NonNegativeFloat(env, v).value) == NonNegativeFloat(env, v)
  {
  }

  lemma MappingSettles(env: Env, v: Json)
    requires env.Sound() && MappingArgument(env, v).Some?
    ensures MappingArgument(env, JObj(MappingArgument(env, v).value)) == MappingArgument(env, v)
    ensures Canonical(env.rule, JObj(MappingArgument(env, v).value))
  {
    SettleMembersCanonical(env.rule, v.members);
    SettleKeepsMembers(env.rule, MappingArgument(env, v).value);
  }

  /** Whatever the arguments looked like, the spec made from them is a fixed point of the constructor. */
  lemma MadeSpecIsValid(env: Env, a: SpecArgs)
    requires env.Sound() && MakeSpec(env, a).Some?
    ensures ValidSpec(env, MakeSpec(env, a).value)
  {
    TextArgumentSettles(a.family);
    TextArgumentSettles(a.version);
    TextArgumentSettles(a.access);
    FloatSettles(env, a.dose);
    FloatSettles(env, a.duration);
    MappingSettles(env, a.parameters);
  }

  lemma SpecRoundTrip(env: Env, s: Spec)
    requires ValidSpec(env, s)
    ensures SpecFromDict(env, SpecDict(s)) == Some(s)
  {
    OpenSpecIff(SpecDict(s), SpecArgsOf(s));
  }

  lemma HashedKeysOrdered()
    ensures KeyOrder(HASHED_KEYS)
  {
    TextBefore("access_class", "dose", 0);
    TextBefore("dose", "duration_s", 1);
    TextBefore("duration_s", "family", 0);
    TextBefore("family", "parameters", 0);
    TextBefore("parameters", "schema_version", 0);
    TextBefore("schema_version", "version", 0);
    KeyOrderOf(HASHED_KEYS);
  }

  lemma SpecKeysOrdered()
    ensures KeyOrder(SPEC_KEYS)
  {
    TextBefore("access_class", "configuration_fingerprint", 0);
    TextBefore("configuration_fingerprint", "dose", 0);
    TextBefore("dose", "duration_s", 1);
    TextBefore("duration_s", "family", 0);
    TextBefore("family", "parameters", 0);
    TextBefore("parameters", "schema_version", 0);
    TextBefore("schema_version", "version", 0);
    KeyOrderOf(SPEC_KEYS);
  }

  /** A spec's hashed dict, printed canonically. */
  function HashedDictOf(s: Spec): Json {
    HashedDict(s.family, s.version, s.dose, s.duration, s.parameters, s.access)
  }

  lemma SnakeIsUnpaired(s: Str)
    requires Snake(s)
    ensures Unpaired(s)
  {
    AsciiIsUnpaired(s);
  }

  lemma VersionIsUnpaired(s: Str)
    requires VersionText(s)
    ensures Unpaired(s)
  {
    AsciiIsUnpaired(s);
  }

  /** What the constructor guarantees about the texts of a spec. */
  predicate SpecTexts(s: Spec) {
    Snake(s.family) && VersionText(s.version) && s.access == PRIVILEGED
  }

  lemma ValidSpecTexts(env: Env, s: Spec)
    requires ValidSpec(env, s)
    ensures SpecTexts(s)
  {
  }

  lemma HashedDictUnpaired(s: Spec)
    requires SpecTexts(s) && AllUnpaired(JObj(s.parameters))
    ensures AllUnpaired(HashedDictOf(s))
  {
    HashedKeysOrdered();
    SnakeIsUnpaired(s.family);
    VersionIsUnpaired(s.version);
    HashedValuesUnpaired(s, ONE);
    ZipUnpaired(HASHED_KEYS,
      [JStr(s.access), JFloat(s.dose), JFloat(s.duration), JStr(s.family), JObj(s.parameters), JStr(ONE),
        JStr(s.version)]);
  }

  lemma HashedValuesUnpaired(s: Spec, one: Str)
    requires Unpaired(s.access) && Unpaired(s.family) && Unpaired(one) && Unpaired(s.version)
      && AllUnpaired(JObj(s.parameters))
    ensures var values :=
        [JStr(s.access), JFloat(s.dose), JFloat(s.duration), JStr(s.family), JObj(s.parameters), JStr(one),
          JStr(s.version)];
      forall i :: 0 <= i < |values| ==> AllUnpaired(values[i])
  {
  }

  /** The hashed bytes of a configuration determine all its fields. */
  lemma ConfigurationInjective(env: Env, s: Spec, t: Spec)
    requires ValidSpec(env, s) && ValidSpec(env, t)
    requires AllUnpaired(JObj(s.parameters)) && AllUnpaired(JObj(t.parameters))
    requires Tagged(CONFIGURATION_DOMAIN, Print(HashedDictOf(s)))
      == Tagged(CONFIGURATION_DOMAIN, Print(HashedDictOf(t)))
    ensures s == t
  {
    SplitEqual(CONFIGURATION_DOMAIN, [0] + Print(HashedDictOf(s)), CONFIGURATION_DOMAIN, [0] + Print(HashedDictOf(t)));
    SplitEqual([0], Print(HashedDictOf(s)), [0], Print(HashedDictOf(t)));
    ValidSpecTexts(env, s);
    ValidSpecTexts(env, t);
    HashedDictUnpaired(s);
    HashedDictUnpaired(t);
    PrintInjective(HashedDictOf(s), HashedDictOf(t));
    SameFields(s, t);
  }

  lemma SameFields(s: Spec, t: Spec)
    requires HashedDictOf(s) == HashedDictOf(t)
    ensures s.(fingerprint := t.fingerprint) == t
  {
    var v := [JStr(s.access), JFloat(s.dose), JFloat(s.duration), JStr(s.family), JObj(s.parameters), JStr(ONE),
      JStr(s.version)];
    var w := [JStr(t.access), JFloat(t.dose), JFloat(t.duration), JStr(t.family), JObj(t.parameters), JStr(ONE),
      JStr(t.version)];
    ZipParts(HASHED_KEYS, v);
    ZipParts(HASHED_KEYS, w);
    assert v == w;
    assert v[0] == w[0] && v[1] == w[1] && v[2] == w[2] && v[3] == w[3] && v[4] == w[4] && v[6] == w[6];
  }

  // ----- The audit ---------------------------------------------------------------------------

  datatype Audit = Audit(passed: bool, checks: seq<Member>, reason: Option<Str>, details: seq<Member>)

  const AUDIT_KEYS: seq<Str> := [K("checks"), K("details"), K("failure_reason"), K("passed"), K("schema_version")]

  datatype AuditArgs = AuditArgs(checks: Json, details: Json, reason: Json, passed: Json)

  predicate CheckNames(checks: seq<Member>) {
    && checks != []
    && forall i :: 0 <= i < |checks| ==> Snake(checks[i].key) && checks[i].value.JBool?
  }

  predicate AllPass(checks: seq<Member>) {
    forall i :: 0 <= i < |checks| ==> checks[i].value == JBool(true)
  }

  /** The reason of an outcome: none when it passed, a snake-case text when it did not. */
  function ReasonArgument(passed: bool, v: Json): Option<Option<Str>> {
    if passed then (if v == JNull then Some(None) else None)
    else match TextArgument(v)
      case Some(reason) => if Snake(reason) then Some(Some(reason)) else None
      case None => None
  }

  function MakeAudit(env: Env, a: AuditArgs): Option<Audit> {
    if !a.passed.JBool? then None
    else match (MappingArgument(env, a.checks), MappingArgument(env, a.details), ReasonArgument(a.passed.b, a.reason))
      case (Some(checks), Some(details), Some(reason)) =>
        if CheckNames(checks) && (a.passed.b <==> AllPass(checks))
        then Some(Audit(a.passed.b, checks, reason, details))
        else None
      case _ => None
  }

  function ReasonJson(reason: Option<Str>): Json {
    match reason
    case None => JNull
    case Some(s) => JStr(s)
  }

  function AuditArgsOf(a: Audit): AuditArgs {
    AuditArgs(JObj(a.checks), JObj(a.details), ReasonJson(a.reason), JBool(a.passed))
  }

  predicate ValidAudit(env: Env, a: Audit) {
    MakeAudit(env, AuditArgsOf(a)) == Some(a)
  }

  function AuditDictOf(a: AuditArgs): Json {
    JObj(Zip(AUDIT_KEYS, [a.checks, a.details, a.reason, a.passed, JStr(ONE)]))
  }

  function AuditDict(a: Audit): Json {
    AuditDictOf(AuditArgsOf(a))
  }

  function OpenAudit(w: Json): Option<AuditArgs> {
    if !w.JObj? || Keys(w.members) != AUDIT_KEYS then None
    else
      var v := Values(w.members);
      if v[4] != JStr(ONE) then None else Some(AuditArgs(v[0], v[1], v[2], v[3]))
  }

  function AuditFromDict(env: Env, w: Json): Option<Audit> {
    match OpenAudit(w)
    case None => None
    case Some(a) => MakeAudit(env, a)
  }

  lemma OpenAuditIff(w: Json, a: AuditArgs)
    ensures OpenAudit(w) == Some(a) <==> w == AuditDictOf(a)
  {
    var values := [a.checks, a.details, a.reason, a.passed, JStr(ONE)];
    ZipParts(AUDIT_KEYS, values);
    if OpenAudit(w) == Some(a) {
      ZipWhole(w.members);
      assert Values(w.members) == values;
    }
  }

  lemma ReasonSettles(passed: bool, v: Json)
    requires ReasonArgument(passed, v).Some?
    ensures ReasonArgument(passed, ReasonJson(ReasonArgument(passed, v).value)) == ReasonArgument(passed, v)
  {
    if !passed {
      TextArgumentSettles(v);
    }
  }

  lemma MadeAuditIsValid(env: Env, a: AuditArgs)
    requires env.Sound() && MakeAudit(env, a).Some?
    ensures ValidAudit(env, MakeAudit(env, a).value)
  {
    MappingSettles(env, a.checks);
    MappingSettles(env, a.details);
    ReasonSettles(a.passed.b, a.reason);
  }

  lemma AuditRoundTrip(env: Env, a: Audit)
    requires ValidAudit(env, a)
    ensures AuditFromDict(env, AuditDict(a)) == Some(a)
  {
    OpenAuditIff(AuditDict(a), AuditArgsOf(a));
  }

  lemma AuditKeysOrdered()
    ensures KeyOrder(AUDIT_KEYS)
  {
    TextBefore("checks", "details", 0);
    TextBefore("details", "failure_reason", 0);
    TextBefore("failure_reason", "passed", 0);
    TextBefore("passed", "schema_version", 0);
    KeyOrderOf(AUDIT_KEYS);
  }

  // ----- The dicts of valid records ----------------------------------------------------------

  /** The parts of a spec dict the encoder leaves as they are. */
  predicate SpecSettled(rule: Rule, s: Spec) {
    rule.repr(s.dose) == Some(s.dose) && rule.repr(s.duration) == Some(s.duration)
      && Canonical(rule, JObj(s.parameters))
  }

  lemma ValidSpecSettled(env: Env, s: Spec)
    requires env.Sound() && ValidSpec(env, s)
    ensures SpecSettled(env.rule, s)
  {
    FloatSettles(env, JFloat(s.dose));
    FloatSettles(env, JFloat(s.duration));
    MappingSettles(env, JObj(s.parameters));
  }

  lemma SpecValuesCanonical(rule: Rule, a: SpecArgs, one: Json)
    requires Leaf(a.access) && Leaf(a.fingerprint) && Leaf(a.family) && Leaf(one) && Leaf(a.version)
    requires Canonical(rule, a.dose) && Canonical(rule, a.duration) && Canonical(rule, a.parameters)
    ensures var values := [a.access, a.fingerprint, a.dose, a.duration, a.family, a.parameters, one, a.version];
      forall i :: 0 <= i < |values| ==> Canonical(rule, values[i])
  {
    LeafCanonical(rule, a.access);
    LeafCanonical(rule, a.fingerprint);
    LeafCanonical(rule, a.family);
    LeafCanonical(rule, one);
    LeafCanonical(rule, a.version);
  }

  lemma SpecDictCanonical(rule: Rule, s: Spec)
    requires SpecSettled(rule, s)
    ensures Canonical(rule, SpecDict(s))
  {
    SpecKeysOrdered();
    var a := SpecArgsOf(s);
    SpecValuesCanonical(rule, a, JStr(ONE));
    ZipCanonical(rule, SPEC_KEYS,
      [a.access, a.fingerprint, a.dose, a.duration, a.family, a.parameters, JStr(ONE), a.version]);
  }

  lemma SpecValuesUnpaired(a: SpecArgs, one: Json)
    requires AllUnpaired(a.access) && AllUnpaired(a.fingerprint) && AllUnpaired(a.dose) && AllUnpaired(a.duration)
    requires AllUnpaired(a.family) && AllUnpaired(one) && AllUnpaired(a.version)
    ensures var values := [a.access, a.fingerprint, a.dose, a.duration, a.family, a.parameters, one, a.version];
      (forall i :: 0 <= i < |values| ==> AllUnpaired(values[i])) <==> AllUnpaired(a.parameters)
  {
    var values := [a.access, a.fingerprint, a.dose, a.duration, a.family, a.parameters, one, a.version];
    assert values[5] == a.parameters;
  }

  lemma SpecDictUnpaired(s: Spec)
    requires SpecTexts(s)
    ensures AllUnpaired(SpecDict(s)) <==> AllUnpaired(JObj(s.parameters))
  {
    SpecKeysOrdered();
    SnakeIsUnpaired(s.family);
    VersionIsUnpaired(s.version);
    AsciiIsUnpaired(s.fingerprint);
    var a := SpecArgsOf(s);
    SpecValuesUnpaired(a, JStr(ONE));
    ZipUnpaired(SPEC_KEYS, [a.access, a.fingerprint, a.dose, a.duration, a.family, a.parameters, JStr(ONE), a.version]);
  }

  /** The parts of an audit dict the encoder leaves as they are. */
  predicate AuditSettled(rule: Rule, a: Audit) {
    Canonical(rule, JObj(a.checks)) && Canonical(rule, JObj(a.details))
  }

  predicate AuditTexts(a: Audit) {
    CheckNames(a.checks) && (a.reason.Some? ==> Snake(a.reason.value))
  }

  lemma ValidAuditParts(env: Env, a: Audit)
    requires env.Sound() && ValidAudit(env, a)
    ensures AuditSettled(env.rule, a) && AuditTexts(a)
  {
    MappingSettles(env, JObj(a.checks));
    MappingSettles(env, JObj(a.details));
  }

  lemma AuditDictCanonical(rule: Rule, a: Audit)
    requires AuditSettled(rule, a)
    ensures Canonical(rule, AuditDict(a))
  {
    AuditKeysOrdered();
    ZipCanonical(rule, AUDIT_KEYS, [JObj(a.checks), JObj(a.details), ReasonJson(a.reason), JBool(a.passed), JStr(ONE)]);
  }

  lemma ChecksUnpaired(checks: seq<Member>)
    requires CheckNames(checks)
    ensures AllUnpaired(JObj(checks))
  {
    forall i | 0 <= i < |checks|
      ensures Unpaired(checks[i].key) && AllUnpaired(checks[i].value)
    {
      SnakeIsUnpaired(checks[i].key);
    }
  }

  lemma AuditDictUnpaired(a: Audit)
    requires AuditTexts(a)
    ensures AllUnpaired(AuditDict(a)) <==> AllUnpaired(JObj(a.details))
  {
    AuditKeysOrdered();
    ChecksUnpaired(a.checks);
    if a.reason.Some? {
      SnakeIsUnpaired(a.reason.value);
    }
    var values := [JObj(a.checks), JObj(a.details), ReasonJson(a.reason), JBool(a.passed), JStr(ONE)];
    ZipUnpaired(AUDIT_KEYS, values);
    assert values[1] == JObj(a.details);
  }

  // ----- What an accepted dict says about its record ------------------------------------------

  lemma MappingPairFree(env: Env, v: Json)
    requires AllUnpaired(v) && MappingArgument(env, v).Some?
    ensures AllUnpaired(JObj(MappingArgument(env, v).value))
  {
    SettleMembersUnpaired(env.rule, v.members);
  }

  lemma SpecPairFree(env: Env, w: Json)
    requires AllUnpaired(w) && SpecFromDict(env, w).Some?
    ensures AllUnpaired(JObj(SpecFromDict(env, w).value.parameters))
  {
    var a := OpenSpec(w).value;
    assert a.parameters == w.members[5].value;
    MappingPairFree(env, a.parameters);
  }

  lemma AuditPairFree(env: Env, w: Json)
    requires AllUnpaired(w) && AuditFromDict(env, w).Some?
    ensures AllUnpaired(JObj(AuditFromDict(env, w).value.details))
  {
    var a := OpenAudit(w).value;
    assert a.details == w.members[1].value;
    MappingPairFree(env, a.details);
  }

  /** The arguments are already in the form the constructor stores: float doses, stripped texts, a fingerprint. */
  predicate PlainArgs(a: SpecArgs) {
    && a.fingerprint != JNull && a.dose.JFloat? && a.duration.JFloat?
    && a.family.JStr? && Stripped(a.family.s)
    && a.version.JStr? && Stripped(a.version.s)
    && a.access.JStr? && Stripped(a.access.s)
  }

  lemma MappingKept(env: Env, v: Json)
    requires v.JObj? && Canonical(env.rule, v)
    ensures MappingArgument(env, v) == Some(v.members)
  {
    SettleKeepsMembers(env.rule, v.members);
  }

  lemma FloatKept(env: Env, v: Json)
    requires Canonical(env.rule, v) && NonNegativeFloat(env, v).Some?
    ensures v == JFloat(NonNegativeFloat(env, v).value) <==> v.JFloat?
  {
  }

  lemma PlainArgsKept(env: Env, a: SpecArgs)
    requires MakeSpec(env, a).Some?
    requires Canonical(env.rule, a.parameters) && Canonical(env.rule, a.dose) && Canonical(env.rule, a.duration)
    ensures a == SpecArgsOf(MakeSpec(env, a).value) <==> PlainArgs(a)
  {
    TextArgumentSettles(a.family);
    TextArgumentSettles(a.version);
    TextArgumentSettles(a.access);
    FloatKept(env, a.dose);
    FloatKept(env, a.duration);
    MappingKept(env, a.parameters);
  }

  /** A canonical spec dict is the dict of its own spec exactly when its arguments were plain. */
  lemma SpecDictKept(env: Env, w: Json)
    requires Canonical(env.rule, w) && SpecFromDict(env, w).Some?
    ensures w == SpecDict(SpecFromDict(env, w).value) <==> PlainArgs(OpenSpec(w).value)
  {
    var a := OpenSpec(w).value;
    var s := SpecFromDict(env, w).value;
    assert a.parameters == w.members[5].value && a.dose == w.members[2].value && a.duration == w.members[3].value;
    PlainArgsKept(env, a);
    OpenSpecIff(w, a);
    OpenSpecIff(w, SpecArgsOf(s));
  }

  /** A canonical audit dict of a passed audit is the dict of its own audit. */
  lemma AuditDictKept(env: Env, w: Json)
    requires Canonical(env.rule, w) && AuditFromDict(env, w).Some? && AuditFromDict(env, w).value.passed
    ensures w == AuditDict(AuditFromDict(env, w).value)
  {
    var a := OpenAudit(w).value;
    assert a.checks == w.members[0].value && a.details == w.members[1].value;
    MappingKept(env, a.checks);
    MappingKept(env, a.details);
    OpenAuditIff(w, a);
  }
}
