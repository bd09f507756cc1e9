/**
 * What comes back of a plan whose free texts hold adjacent surrogates: reading joins them, so the plan comes
 * back with joined texts, or, when joined keys are no longer in order or not distinct, not at all.
 */
module PlanJoined {
  import opened Common
  import opened Text
  import opened Json
  import opened CanonicalJson
  import opened Dicts
  import opened Framing
  import opened PlanSpec
  import opened Plans = Plan
  import Order

  function JoinedSpec(s: Spec): Spec {
    s.(parameters := FuseMembers(s.parameters))
  }

  function JoinedAudit(a: Audit): Audit {
    a.(details := FuseMembers(a.details))
  }

  /** The plan with every adjacent surrogate pair joined. */
  function JoinedPlan(p: Plan): Plan {
    p.(spec := JoinedSpec(p.spec), feasibility := JoinedAudit(p.feasibility))
  }

  /** The joined texts are still the texts of canonical dicts: keys in order and distinct. */
  predicate JoinsCleanly(rule: Rule, p: Plan) {
    && Canonical(rule, JObj(FuseMembers(p.spec.parameters)))
    && Canonical(rule, JObj(FuseMembers(p.feasibility.details)))
  }

  // ----- Joining the dicts ---------------------------------------------------------------------

  lemma {:induction false} FuseItemsAt(items: seq<Json>, i: nat)
    requires i < |items|
    ensures FuseItems(items)[i] == FuseAll(items[i])
  {
    if i > 0 {
      FuseItemsAt(items[1..], i - 1);
    }
  }

  lemma {:induction false} FuseMembersAt(members: seq<Member>, i: nat)
    requires i < |members|
    ensures FuseMembers(members)[i] == Member(Fuse(members[i].key), FuseAll(members[i].value))
  {
    if i > 0 {
      FuseMembersAt(members[1..], i - 1);
    }
  }

  predicate UnpairedBut(values: seq<Json>, changed: set<nat>) {
    forall i :: 0 <= i < |values| && i !in changed ==> AllUnpaired(values[i])
  }

  /** A dict of fixed keys is joined value by value; a value without adjacent surrogates stays. */
  lemma FuseDict(keys: seq<Str>, values: seq<Json>, joined: seq<Json>, changed: set<nat>)
    requires |keys| == |values| == |joined| && KeyOrder(keys) && UnpairedBut(values, changed)
    requires forall i :: 0 <= i < |values| ==> joined[i] == if i in changed then FuseAll(values[i]) else values[i]
    ensures FuseAll(JObj(Zip(keys, values))) == JObj(Zip(keys, joined))
  {
    var members := Zip(keys, values);
    forall i | 0 <= i < |members|
      ensures FuseMembers(members)[i] == Zip(keys, joined)[i]
    {
      FuseMembersAt(members, i);
      FuseUnpaired(keys[i]);
      if i !in changed {
        FuseAllKeeps(values[i]);
      }
    }
  }

  /** The same for a single value that may change. */
  lemma FuseOne(keys: seq<Str>, values: seq<Json>, k: nat, x: Json)
    requires |keys| == |values| && KeyOrder(keys) && k < |values| && UnpairedBut(values, {k}) && x == FuseAll(values[k])
    ensures FuseAll(JObj(Zip(keys, values))) == JObj(Zip(keys, values[k := x]))
  {
    FuseDict(keys, values, values[k := x], {k});
  }

  lemma FuseTwo(keys: seq<Str>, values: seq<Json>, k: nat, x: Json, n: nat, y: Json)
    requires |keys| == |values| && KeyOrder(keys) && k < n < |values| && UnpairedBut(values, {k, n})
    requires x == FuseAll(values[k]) && y == FuseAll(values[n])
    ensures FuseAll(JObj(Zip(keys, values))) == JObj(Zip(keys, values[k := x][n := y]))
  {
    FuseDict(keys, values, values[k := x][n := y], {k, n});
  }

  function Free(): Json -> bool {
    (v: Json) => AllUnpaired(v)
  }

  lemma AllFree(values: seq<Json>, k: nat)
    requires forall i :: 0 <= i < |values| && i != k ==> Free()(values[i])
    ensures UnpairedBut(values, {k})
  {
    forall i | 0 <= i < |values| && i !in {k}
      ensures AllUnpaired(values[i])
    {
      assert Free()(values[i]);
    }
  }

  lemma SevenBut(v: seq<Json>, holds: Json -> bool)
    requires |v| == 7 && holds(v[0]) && holds(v[1]) && holds(v[2]) && holds(v[3]) && holds(v[5]) && holds(v[6])
    ensures forall i :: 0 <= i < 7 && i != 4 ==> holds(v[i])
  {
  }

  lemma EightBut(v: seq<Json>, holds: Json -> bool)
    requires |v| == 8 && holds(v[0]) && holds(v[1]) && holds(v[2]) && holds(v[3]) && holds(v[4]) && holds(v[6])
    requires holds(v[7])
    ensures forall i :: 0 <= i < 8 && i != 5 ==> holds(v[i])
  {
  }

  function HashedValues(s: Spec): seq<Json> {
    [JStr(s.access), JFloat(s.dose), JFloat(s.duration), JStr(s.family), JObj(s.parameters), JStr(ONE), JStr(s.version)]
  }

  lemma HashedJoined(s: Spec)
    requires SpecTexts(s)
    ensures FuseAll(HashedDictOf(s)) == HashedDictOf(JoinedSpec(s))
  {
    HashedKeysOrdered();
    HashedUnpaired(s);
    HashedChanged(s, FuseMembers(s.parameters));
    FuseOne(HASHED_KEYS, HashedValues(s), 4, JObj(FuseMembers(s.parameters)));
  }

  lemma HashedUnpaired(s: Spec)
    requires SpecTexts(s)
    ensures UnpairedBut(HashedValues(s), {4})
  {
    SnakeIsUnpaired(s.family);
    VersionIsUnpaired(s.version);
    var v := HashedValues(s);
    SevenBut(v, Free());
    AllFree(v, 4);
  }

  lemma HashedChanged(s: Spec, parameters: seq<Member>)
    ensures HashedValues(s)[4] == JObj(s.parameters)
    ensures HashedValues(s.(parameters := parameters)) == HashedValues(s)[4 := JObj(parameters)]
  {
  }

  function SpecValues(s: Spec): seq<Json> {
    [JStr(s.access), JStr(s.fingerprint), JFloat(s.dose), JFloat(s.duration), JStr(s.family), JObj(s.parameters),
     JStr(ONE), JStr(s.version)]
  }

  lemma SpecDictJoined(s: Spec)
    requires SpecTexts(s)
    ensures FuseAll(SpecDict(s)) == SpecDict(JoinedSpec(s))
  {
    SpecKeysOrdered();
    SpecUnpaired(s);
    SpecChanged(s, FuseMembers(s.parameters));
    FuseOne(SPEC_KEYS, SpecValues(s), 5, JObj(FuseMembers(s.parameters)));
  }

  lemma SpecUnpaired(s: Spec)
    requires SpecTexts(s)
    ensures UnpairedBut(SpecValues(s), {5})
  {
    SnakeIsUnpaired(s.family);
    VersionIsUnpaired(s.version);
    AsciiIsUnpaired(s.fingerprint);
    var v := SpecValues(s);
    EightBut(v, Free());
    AllFree(v, 5);
  }

  lemma SpecChanged(s: Spec, parameters: seq<Member>)
    ensures SpecValues(s)[5] == JObj(s.parameters)
    ensures SpecValues(s.(parameters := parameters)) == SpecValues(s)[5 := JObj(parameters)]
  {
  }

  function AuditValues(a: Audit): seq<Json> {
    [JObj(a.checks), JObj(a.details), ReasonJson(a.reason), JBool(a.passed), JStr(ONE)]
  }

  lemma AuditDictJoined(a: Audit)
    requires AuditTexts(a)
    ensures FuseAll(AuditDict(a)) == AuditDict(JoinedAudit(a))
  {
    AuditKeysOrdered();
    AuditUnpaired(a);
    AuditChanged(a, FuseMembers(a.details));
    FuseOne(AUDIT_KEYS, AuditValues(a), 1, JObj(FuseMembers(a.details)));
  }

  lemma AuditUnpaired(a: Audit)
    requires AuditTexts(a)
    ensures UnpairedBut(AuditValues(a), {1})
  {
    ChecksUnpaired(a.checks);
    if a.reason.Some? {
      SnakeIsUnpaired(a.reason.value);
    }
  }

  lemma AuditChanged(a: Audit, details: seq<Member>)
    ensures AuditValues(a)[1] == JObj(a.details)
    ensures AuditValues(a.(details := details)) == AuditValues(a)[1 := JObj(details)]
  {
  }

  /** What holds of the leaves of an envelope holds of its values but the second and the ninth. */
  predicate OnLeaves(e: Envelope, holds: Json -> bool) {
    && holds(e.applied) && holds(e.auditFingerprint) && holds(e.frameCount) && holds(e.heading) && holds(e.identity)
    && holds(e.planFingerprint) && holds(e.realization) && holds(e.schema) && holds(e.timestamps) && holds(e.valid)
    && holds(e.vx) && holds(e.vy) && holds(e.x) && holds(e.y)
  }

  lemma ListOnLeaves(e: Envelope, holds: Json -> bool)
    requires OnLeaves(e, holds)
    ensures forall i :: 0 <= i < 16 && i != 2 && i != 9 ==> holds(e.List()[i])
  {
  }

  predicate LeavesFree(e: Envelope) {
    OnLeaves(e, Free())
  }

  lemma ListUnpaired(e: Envelope)
    requires LeavesFree(e)
    ensures UnpairedBut(e.List(), {2, 9})
  {
    ListOnLeaves(e, Free());
    forall i | 0 <= i < 16 && i !in {2, 9}
      ensures AllUnpaired(e.List()[i])
    {
      assert Free()(e.List()[i]);
    }
  }

  lemma LeavesUnpaired(p: Plan)
    requires SpecTexts(p.spec) && p.realization == PRIVILEGED
    ensures LeavesFree(EnvelopeOf(p))
  {
    HexIsUnpaired(p.auditFingerprint);
    HexIsUnpaired(p.planFingerprint);
    IdentityIsUnpaired(p);
    MaskJsonUnpaired(p.valid);
    MaskJsonUnpaired(p.applied);
    TensorJsonUnpaired(p.tensors.timestamps);
    TensorJsonUnpaired(p.tensors.x);
    TensorJsonUnpaired(p.tensors.y);
    TensorJsonUnpaired(p.tensors.heading);
    TensorJsonUnpaired(p.tensors.vx);
    TensorJsonUnpaired(p.tensors.vy);
  }

  lemma ListJoined(values: seq<Json>, x: Json, y: Json)
    requires |values| == 16 && UnpairedBut(values, {2, 9}) && x == FuseAll(values[2]) && y == FuseAll(values[9])
    ensures FuseAll(JObj(Zip(PLAN_KEYS, values))) == JObj(Zip(PLAN_KEYS, values[2 := x][9 := y]))
  {
    PlanKeysOrdered();
    FuseTwo(PLAN_KEYS, values, 2, x, 9, y);
  }

  lemma ListAt(e: Envelope, i: nat)
    requires i < 16
    ensures e.List()[i] == match i
      case 0 => e.applied case 1 => e.auditFingerprint case 2 => e.feasibility case 3 => e.frameCount
      case 4 => e.heading case 5 => e.identity case 6 => e.planFingerprint case 7 => e.realization
      case 8 => e.schema case 9 => e.spec case 10 => e.timestamps case 11 => e.valid
      case 12 => e.vx case 13 => e.vy case 14 => e.x case _ => e.y
  {
  }

  lemma ListChanged(e: Envelope, feasibility: Json, spec: Json)
    ensures e.List()[2] == e.feasibility && e.List()[9] == e.spec
    ensures e.(feasibility := feasibility, spec := spec).List() == e.List()[2 := feasibility][9 := spec]
  {
    ListAt(e, 2);
    ListAt(e, 9);
    SameLists(e.(feasibility := feasibility, spec := spec).List(), e.List()[2 := feasibility][9 := spec],
      e, feasibility, spec);
  }

  lemma SameLists(a: seq<Json>, b: seq<Json>, e: Envelope, feasibility: Json, spec: Json)
    requires a == e.(feasibility := feasibility, spec := spec).List() && b == e.List()[2 := feasibility][9 := spec]
    ensures a == b
  {
    forall i | 0 <= i < 16
      ensures a[i] == b[i]
    {
      ListAt(e, i);
      ListAt(e.(feasibility := feasibility, spec := spec), i);
    }
  }

  lemma EnvelopeJoined(e: Envelope, feasibility: Json, spec: Json)
    requires LeavesFree(e) && feasibility == FuseAll(e.feasibility) && spec == FuseAll(e.spec)
    ensures FuseAll(EnvelopeDict(e)) == EnvelopeDict(e.(feasibility := feasibility, spec := spec))
  {
    ListUnpaired(e);
    ListChanged(e, feasibility, spec);
    ListJoined(e.List(), feasibility, spec);
  }

  lemma JoinedEnvelope(p: Plan)
    ensures EnvelopeOf(JoinedPlan(p)) ==
      EnvelopeOf(p).(feasibility := AuditDict(JoinedAudit(p.feasibility)), spec := SpecDict(JoinedSpec(p.spec)))
  {
  }

  lemma PlanDictJoined(p: Plan)
    requires SpecTexts(p.spec) && AuditTexts(p.feasibility) && p.realization == PRIVILEGED
    ensures FuseAll(PlanDict(p)) == PlanDict(JoinedPlan(p))
  {
    LeavesUnpaired(p);
    SpecDictJoined(p.spec);
    AuditDictJoined(p.feasibility);
    JoinedEnvelope(p);
    EnvelopeJoined(EnvelopeOf(p), AuditDict(JoinedAudit(p.feasibility)), SpecDict(JoinedSpec(p.spec)));
  }

  // ----- The joined plan -----------------------------------------------------------------------

  lemma JoinedSpecIsValid(env: Env, s: Spec)
    requires env.Sound() && ValidSpec(env, s) && Canonical(env.rule, JObj(FuseMembers(s.parameters)))
    ensures ValidSpec(env, JoinedSpec(s))
  {
    ValidSpecTexts(env, s);
    HashedJoined(s);
    PrintFused(HashedDictOf(s), []);
    MappingKept(env, JObj(FuseMembers(s.parameters)));
  }

  lemma JoinedAuditIsValid(env: Env, a: Audit)
    requires env.Sound() && ValidAudit(env, a) && Canonical(env.rule, JObj(FuseMembers(a.details)))
    ensures ValidAudit(env, JoinedAudit(a)) && Print(AuditDict(JoinedAudit(a))) == Print(AuditDict(a))
  {
    ValidAuditParts(env, a);
    AuditDictJoined(a);
    PrintFused(AuditDict(a), []);
    MappingKept(env, JObj(FuseMembers(a.details)));
  }

  /**
   * Both plans print alike, and the joined one is a constructed plan without adjacent surrogates when it joins
   * cleanly.
   */
  lemma JoinedPlanIsValid(env: Env, p: Plan)
    requires env.Sound() && ValidPlan(env, p) && JoinsCleanly(env.rule, p)
    ensures ValidPlan(env, JoinedPlan(p)) && PairFree(JoinedPlan(p))
  {
    JoinedSpecIsValid(env, p.spec);
    JoinedAuditIsValid(env, p.feasibility);
    FuseMembersUnpaired(p.spec.parameters);
    FuseMembersUnpaired(p.feasibility.details);
  }

  lemma SameWire(env: Env, p: Plan)
    requires env.Sound() && ValidPlan(env, p)
    ensures Serialize(JoinedPlan(p)) == Serialize(p) && FuseAll(PlanDict(p)) == PlanDict(JoinedPlan(p))
  {
    ValidSpecTexts(env, p.spec);
    ValidAuditParts(env, p.feasibility);
    PlanDictJoined(p);
    PrintFused(PlanDict(p), []);
  }

  /** What an accepted envelope dict says about the two dicts inside its records. */
  lemma InnerCanonical(rule: Rule, p: Plan)
    requires Canonical(rule, PlanDict(p))
    ensures Canonical(rule, JObj(p.spec.parameters)) && Canonical(rule, JObj(p.feasibility.details))
  {
    InnerDicts(EnvelopeOf(p));
    assert Canonical(rule, SpecDict(p.spec)) && Canonical(rule, AuditDict(p.feasibility));
    assert SpecDict(p.spec).members[5].value == JObj(p.spec.parameters);
    assert AuditDict(p.feasibility).members[1].value == JObj(p.feasibility.details);
  }

  /** Every constructed plan comes back joined, exactly when it joins cleanly; otherwise its own bytes are refused. */
  lemma WhatComesBack(env: Env, p: Plan)
    requires env.Sound() && ValidPlan(env, p)
    ensures Deserialize(env, Serialize(p)) == if JoinsCleanly(env.rule, p) then Some(JoinedPlan(p)) else None
  {
    SameWire(env, p);
    if JoinsCleanly(env.rule, p) {
      JoinedPlanIsValid(env, p);
      SerializeDeserialize(env, JoinedPlan(p));
    } else if ReadEnvelope(env, Serialize(p)).Some? {
      var e := ReadEnvelope(env, Serialize(p)).value;
      ReadEnvelopeIff(env, Serialize(p), e);
      SplitEqual(ENVELOPE_PREFIX, Print(PlanDict(p)), ENVELOPE_PREFIX, Print(EnvelopeDict(e)));
      PrintInjective(PlanDict(p), EnvelopeDict(e));
      FuseAllKeeps(EnvelopeDict(e));
      InnerCanonical(env.rule, JoinedPlan(p));
    }
  }

  // ----- A plan that does not come back --------------------------------------------------------

  function Zeros(): Digest {
    seq(64, _ => 48)
  }

  /** The token `1.0`. */
  function OneToken(): FloatTok {
    OnePointZero();
    [49, 46, 48]
  }

  function Words(): seq<F64> {
    seq(FRAMES, _ => seq(8, _ => 0))
  }

  /** A Python whose hash is constant, whose floats print as written and whose numbers are all accepted. */
  function Lenient(): Env {
    Env((b: Bytes) => Zeros(), Rule((t: FloatTok) => Some(t), false), (n: int) => None, (s: Str) => None,
        (t: FloatTok) => true, (w: F64) => true, (v: F64, w: F64) => true, (w: F64) => true)
  }

  function WitnessSpec(parameters: seq<Member>): Spec {
    Spec(K("a"), K("v1"), OneToken(), OneToken(), parameters, PRIVILEGED, Zeros())
  }

  function WitnessAudit(): Audit {
    Audit(true, [Member(K("a"), JBool(true))], None, [])
  }

  /** A plan of 41 frames that carries these parameters. */
  function Witness(parameters: seq<Member>): Plan {
    Plan(WitnessSpec(parameters), seq(FRAMES, _ => true), seq(FRAMES, i => i != 0),
         Tensors(Words(), Words(), Words(), Words(), Words(), Words()), PRIVILEGED, WitnessAudit(), Zeros(), Zeros())
  }

  lemma WitnessSpecIsValid(parameters: seq<Member>)
    requires Canonical(Lenient().rule, JObj(parameters))
    ensures ValidSpec(Lenient(), WitnessSpec(parameters))
  {
    MappingKept(Lenient(), JObj(parameters));
    StripIsStripped(K("a"));
    StripIsStripped(K("v1"));
    PrivilegedIsStripped();
  }

  lemma WitnessAuditIsValid()
    ensures ValidAudit(Lenient(), WitnessAudit())
  {
    MappingKept(Lenient(), JObj(WitnessAudit().checks));
    MappingKept(Lenient(), JObj([]));
  }

  // The audit of the witness is far below the limit of a length field.

  /** A bound on the bytes a value prints: a code point takes at most two escaped units. */
  function Size(v: Json): nat
    decreases v, 0
  {
    match v
    case JStr(s) => 12 * |s| + 2
    case JObj(members) => MembersSize(members) + 2
    case _ => 5
  }

  function MembersSize(members: seq<Member>): nat
    decreases members, 1
  {
    if members == [] then 0 else 12 * |members[0].key| + 4 + Size(members[0].value) + MembersSize(members[1..])
  }

  /** Texts, constants and dicts of them. */
  predicate Simple(v: Json) {
    match v
    case JObj(members) => forall i :: 0 <= i < |members| ==> Simple(members[i].value)
    case _ => v.JNull? || v.JBool? || v.JStr?
  }

  lemma {:induction false} UnitsSize(s: Str)
    ensures |Units(s)| <= 2 * |s|
  {
    if s != [] {
      UnitsSize(s[1..]);
    }
  }

  lemma {:induction false} EscapesSize(us: seq<Unit>, rest: Bytes)
    ensures |EscapeUnits(us, rest)| <= 6 * |us| + |rest|
  {
    if us != [] {
      EscapesSize(us[1..], rest);
    }
  }

  lemma QuoteSize(s: Str, rest: Bytes)
    ensures |Quote(s, rest)| <= 12 * |s| + 2 + |rest|
  {
    UnitsSize(s);
    EscapesSize(Units(s), [34] + rest);
  }

  lemma {:induction false} PrintSize(v: Json, rest: Bytes)
    requires Simple(v)
    ensures |PrintTo(v, rest)| <= Size(v) + |rest|
    decreases v, 0
  {
    match v
    case JStr(s) => QuoteSize(s, rest);
    case JObj(members) => PrintMembersSize(members, [125] + rest);
    case _ =>
  }

  lemma {:induction false} PrintMembersSize(members: seq<Member>, rest: Bytes)
    requires Simple(JObj(members))
    ensures |PrintMembers(members, rest)| <= MembersSize(members) + |rest|
    decreases members, 1
  {
    if members != [] {
      var tail := if |members| == 1 then rest else [44] + PrintMembers(members[1..], rest);
      PrintMembersSize(members[1..], rest);
      PrintSize(members[0].value, tail);
      QuoteSize(members[0].key, [58] + PrintTo(members[0].value, tail));
    }
  }

  lemma {:induction false} MembersSizeBound(members: seq<Member>, key: nat, value: nat)
    requires forall i :: 0 <= i < |members| ==> |members[i].key| <= key && Size(members[i].value) <= value
    ensures MembersSize(members) <= |members| * (12 * key + 4 + value)
  {
    if members != [] {
      MembersSizeBound(members[1..], key, value);
      assert |members| * (12 * key + 4 + value) == (12 * key + 4 + value) + (|members| - 1) * (12 * key + 4 + value);
    }
  }

  lemma WitnessValues()
    ensures var values := AuditValues(WitnessAudit());
      forall i :: 0 <= i < 5 ==> Simple(values[i]) && Size(values[i]) <= 100
  {
    MembersSizeBound(WitnessAudit().checks, 1, 5);
  }

  lemma WitnessAuditFits()
    ensures Framing.Fits(|Print(AuditDict(WitnessAudit()))|)
  {
    var values := AuditValues(WitnessAudit());
    WitnessValues();
    MembersSizeBound(Zip(AUDIT_KEYS, values), 14, 100);
    PrintSize(JObj(Zip(AUDIT_KEYS, values)), []);
  }

  lemma WitnessExecutable(parameters: seq<Member>)
    ensures var p := Witness(parameters);
      Executable(Lenient(), p.spec, p.valid, p.applied, p.tensors, JStr(p.realization), p.feasibility)
  {
    PrivilegedIsStripped();
    WitnessAuditFits();
  }

  lemma WitnessIsValid(parameters: seq<Member>)
    requires Canonical(Lenient().rule, JObj(parameters))
    ensures Lenient().Sound() && ValidPlan(Lenient(), Witness(parameters))
  {
    WitnessSpecIsValid(parameters);
    WitnessAuditIsValid();
    WitnessExecutable(parameters);
  }

  lemma JoinedWitness(parameters: seq<Member>, joined: seq<Member>, rule: Rule)
    requires joined == FuseMembers(parameters)
    ensures JoinedPlan(Witness(parameters)) == Witness(joined)
    ensures JoinsCleanly(rule, Witness(parameters)) <==> Canonical(rule, JObj(joined))
  {
  }

  const LONE: seq<Member> := [Member([107], JStr(LONE_PAIR))]
  const JOINED: seq<Member> := [Member([107], JStr([0x1F600]))]

  lemma LoneJoins(rule: Rule)
    ensures Canonical(rule, JObj(LONE)) && Canonical(rule, JObj(JOINED)) && FuseMembers(LONE) == JOINED
      && LONE != JOINED
  {
    LonePairJoins();
    AsciiIsUnpaired([107]);
    FuseUnpaired([107]);
    assert LONE[1..] == [];
    assert LONE[0].value.s[0] != JOINED[0].value.s[0];
  }

  /**
   * A plan whose parameter is two lone surrogates: it is constructed, and comes back with the one character
   * they join to.
   */
  lemma LoneSurrogatesJoin(env: Env, p: Plan, q: Plan)
    requires env == Lenient() && p == Witness(LONE) && q == Witness(JOINED)
    ensures env.Sound() && ValidPlan(env, p) && p != q
    ensures Deserialize(env, Serialize(p)) == Some(q)
  {
    LoneJoins(env.rule);
    WitnessIsValid(LONE);
    JoinedWitness(LONE, JOINED, env.rule);
    WhatComesBack(env, p);
  }

  const KEYS: seq<Member> := [Member(LONE_PAIR, JNull), Member([0xFFFF], JNull)]
  const JOINED_KEYS: seq<Member> := [Member([0x1F600], JNull), Member([0xFFFF], JNull)]

  lemma KeysJoin(rule: Rule)
    ensures Canonical(rule, JObj(KEYS)) && !Canonical(rule, JObj(JOINED_KEYS)) && FuseMembers(KEYS) == JOINED_KEYS
  {
    Order.LessAt(LONE_PAIR, [0xFFFF], 0);
    LonePairJoins();
    FuseUnpaired([0xFFFF]);
    assert KEYS[1..] == [Member([0xFFFF], JNull)] && KEYS[1..][1..] == [];
    assert !Order.Less(JOINED_KEYS[0].key, JOINED_KEYS[1].key);
  }

  /** A plan whose keys change places when they are joined: it is constructed, and its own bytes are refused. */
  lemma JoinedKeysAreRefused(env: Env, p: Plan)
    requires env == Lenient() && p == Witness(KEYS)
    ensures env.Sound() && ValidPlan(env, p)
    ensures Deserialize(env, Serialize(p)) == None
  {
    KeysJoin(env.rule);
    WitnessIsValid(KEYS);
    JoinedWitness(KEYS, JOINED_KEYS, env.rule);
    WhatComesBack(env, p);
  }
}
