/**
 * Length-prefixed framing of what is hashed. The hash itself is a parameter: what is proved is that
 * the bytes handed to it determine the fields they were built from.
 */
module Framing {
  import opened Common
  import opened Json
  import opened CanonicalJson

  // ----- Unsigned 64-bit big-endian lengths --------------------------------------------------

  function Bound(width: nat): (r: nat)
    ensures r > 0
  {
    if width == 0 then 1 else 256 * Bound(width - 1)
  }

  function BigEndian(n: nat, width: nat): (r: Bytes)
    ensures |r| == width
  {
    if width == 0 then [] else BigEndian(n / 256, width - 1) + [n % 256]
  }

  predicate Fits(n: nat) {
    n < 0x1_0000_0000_0000_0000
  }

  function U64(n: nat): (r: Bytes)
    requires Fits(n)
    ensures |r| == 8
  {
    BigEndian(n, 8)
  }

  /** The number big-endian digits stand for: each weighs 256 times the next. */
  function Number(b: Bytes, high: nat): nat {
    if b == [] then high else Number(b[1..], 256 * high + b[0])
  }

  lemma {:induction false} NumberSnoc(b: Bytes, last: Byte, high: nat)
    ensures Number(b + [last], high) == 256 * Number(b, high) + last
  {
    if b == [] {
      assert ([] + [last])[1..] == [];
    } else {
      NumberSnoc(b[1..], last, 256 * high + b[0]);
      assert (b + [last])[1..] == b[1..] + [last];
    }
  }

  lemma {:induction false} NumberOf(n: nat, width: nat)
    requires n < Bound(width)
    ensures Number(BigEndian(n, width), 0) == n
  {
    if width > 0 {
      NumberOf(n / 256, width - 1);
      NumberSnoc(BigEndian(n / 256, width - 1), n % 256, 0);
    }
  }

  lemma BoundOfEight()
    ensures Bound(8) == 0x1_0000_0000_0000_0000
  {
    assert Bound(4) == 0x1_0000_0000;
  }

  /** Equal concatenations with heads of equal length have equal heads and tails. */
  lemma SplitEqual<T>(a: seq<T>, b: seq<T>, c: seq<T>, d: seq<T>)
    requires a + b == c + d && |a| == |c|
    ensures a == c && b == d
  {
    assert a == (a + b)[..|a|] && c == (c + d)[..|a|];
    assert b == (a + b)[|a|..] && d == (c + d)[|a|..];
  }

  /** A part behind its length, followed by `rest`. */
  function Part(p: Bytes, rest: Bytes): Bytes
    requires Fits(|p|)
  {
    U64(|p|) + (p + rest)
  }

  // ----- Reading from the front --------------------------------------------------------------

  /** Eight bytes as a number, and what follows them. */
  function ReadU64(b: Bytes): (r: Option<(nat, Bytes)>)
    ensures r.Some? ==> |r.value.1| + 8 == |b|
  {
    if |b| < 8 then None else Some((Number(b[..8], 0), b[8..]))
  }

  /** A length, that many bytes, and what follows them. */
  function ReadPart(b: Bytes): (r: Option<(Bytes, Bytes)>)
    ensures r.Some? ==> |r.value.0| + |r.value.1| + 8 == |b|
  {
    match ReadU64(b)
    case None => None
    case Some((n, rest)) => if n <= |rest| then Some((rest[..n], rest[n..])) else None
  }

  lemma U64Reads(n: nat, rest: Bytes)
    requires Fits(n)
    ensures ReadU64(U64(n) + rest) == Some((n, rest))
  {
    BoundOfEight();
    NumberOf(n, 8);
    assert (U64(n) + rest)[..8] == U64(n) && (U64(n) + rest)[8..] == rest;
  }

  lemma PartReads(p: Bytes, rest: Bytes)
    requires Fits(|p|)
    ensures ReadPart(Part(p, rest)) == Some((p, rest))
  {
    U64Reads(|p|, p + rest);
    assert (p + rest)[..|p|] == p && (p + rest)[|p|..] == rest;
  }

  // ----- Snapshot digests --------------------------------------------------------------------

  predicate AllFit(parts: seq<Bytes>) {
    forall i :: 0 <= i < |parts| ==> Fits(|parts[i]|)
  }

  function Framed(parts: seq<Bytes>): Bytes
    requires AllFit(parts)
  {
    if parts == [] then [] else Part(parts[0], Framed(parts[1..]))
  }

  /** Part after part until nothing is left. */
  function ReadParts(b: Bytes): Option<seq<Bytes>>
    decreases |b|
  {
    if b == [] then Some([])
    else match ReadPart(b)
      case None => None
      case Some((p, rest)) =>
        match ReadParts(rest)
        case None => None
        case Some(parts) => Some([p] + parts)
  }

  lemma {:induction false} FramedReads(parts: seq<Bytes>)
    requires AllFit(parts)
    ensures ReadParts(Framed(parts)) == Some(parts)
  {
    if parts != [] {
      PartReads(parts[0], Framed(parts[1..]));
      FramedReads(parts[1..]);
      assert parts == [parts[0]] + parts[1..];
    }
  }

  /** The input of a snapshot digest determines the list of its parts. */
  lemma FramedInjective(a: seq<Bytes>, b: seq<Bytes>)
    requires AllFit(a) && AllFit(b) && Framed(a) == Framed(b)
    ensures a == b
  {
    FramedReads(a);
    FramedReads(b);
  }

  /** The input of the hash behind its domain; domains contain no NUL. */
  function Tagged(domain: Bytes, body: Bytes): Bytes {
    domain + ([0] + body)
  }

  /** What stands before the first NUL, and what follows it. */
  function ReadTagged(b: Bytes): Option<(Bytes, Bytes)> {
    if b == [] then None
    else if b[0] == 0 then Some(([], b[1..]))
    else match ReadTagged(b[1..])
      case None => None
      case Some((domain, body)) => Some(([b[0]] + domain, body))
  }

  lemma {:induction false} TaggedReads(domain: Bytes, body: Bytes)
    requires 0 !in domain
    ensures ReadTagged(Tagged(domain, body)) == Some((domain, body))
  {
    if domain == [] {
      assert Tagged(domain, body)[1..] == body;
    } else {
      TaggedReads(domain[1..], body);
      assert Tagged(domain, body)[1..] == Tagged(domain[1..], body);
      assert domain == [domain[0]] + domain[1..];
    }
  }

  /** Domains never run into the bodies behind them. */
  lemma TaggedInjective(d: Bytes, a: Bytes, e: Bytes, b: Bytes)
    requires 0 !in d && 0 !in e && Tagged(d, a) == Tagged(e, b)
    ensures d == e && a == b
  {
    TaggedReads(d, a);
    TaggedReads(e, b);
  }

  /** The digest is fed part by part; a part too long for its length field raises. */
  method SnapshotDigest<D>(parts: seq<Bytes>, domain: Bytes, sha: Bytes -> D) returns (digest: Option<D>)
    ensures digest == if AllFit(parts) then Some(sha(Tagged(domain, Framed(parts)))) else None
  {
    var fed := domain;
    fed := fed + [0];
    var i := 0;
    while i < |parts|
      invariant 0 <= i <= |parts|
      invariant AllFit(parts[..i])
      invariant AllFit(parts) ==> fed + Framed(parts[i..]) == Tagged(domain, Framed(parts))
    {
      assert parts[..i + 1] == parts[..i] + [parts[i]];
      if !Fits(|parts[i]|) {
        return None;
      }
      assert parts[i..][0] == parts[i] && parts[i..][1..] == parts[i + 1..];
      fed := fed + U64(|parts[i]|);
      fed := fed + parts[i];
      i := i + 1;
    }
    assert parts[..i] == parts && parts[i..] == [];
    assert fed + [] == fed;
    return Some(sha(fed));
  }

  // ----- Source fingerprint ------------------------------------------------------------------

  /** A 32-byte digest. */
  type Sha = b: Bytes | |b| == 32 witness seq(32, _ => 0)

  datatype Source = Source(path: Bytes, sha: Sha)

  predicate PathsFit(catalog: seq<Source>) {
    forall i :: 0 <= i < |catalog| ==> Fits(|catalog[i].path|)
  }

  function Catalogued(catalog: seq<Source>): Bytes
    requires PathsFit(catalog)
  {
    if catalog == [] then [] else Part(catalog[0].path, catalog[0].sha + Catalogued(catalog[1..]))
  }

  /** A path and its digest, again and again until nothing is left. */
  function ReadCatalogue(b: Bytes): Option<seq<Source>>
    decreases |b|
  {
    if b == [] then Some([])
    else match ReadPart(b)
      case None => None
      case Some((path, rest)) =>
        if |rest| < 32 then None
        else match ReadCatalogue(rest[32..])
          case None => None
          case Some(catalog) => Some([Source(path, rest[..32])] + catalog)
  }

  lemma {:induction false} CatalogueReads(catalog: seq<Source>)
    requires PathsFit(catalog)
    ensures ReadCatalogue(Catalogued(catalog)) == Some(catalog)
  {
    if catalog != [] {
      var tail := Catalogued(catalog[1..]);
      PartReads(catalog[0].path, catalog[0].sha + tail);
      assert (catalog[0].sha + tail)[..32] == catalog[0].sha && (catalog[0].sha + tail)[32..] == tail;
      CatalogueReads(catalog[1..]);
      assert catalog == [catalog[0]] + catalog[1..];
    }
  }

  /** The input of the source fingerprint determines the ordered (path, digest) pairs, sorted or not. */
  lemma CatalogueInjective(a: seq<Source>, b: seq<Source>)
    requires PathsFit(a) && PathsFit(b) && Catalogued(a) == Catalogued(b)
    ensures a == b
  {
    CatalogueReads(a);
    CatalogueReads(b);
  }

  lemma Regroup(fed: Bytes, length: Bytes, path: Bytes, sha: Bytes)
    ensures forall rest: Bytes :: ((fed + length) + path) + sha + rest == fed + (length + (path + (sha + rest)))
  {
  }

  method SourceFingerprint<D>(catalog: seq<Source>, domain: Bytes, sha: Bytes -> D) returns (digest: Option<D>)
    ensures digest == if PathsFit(catalog) then Some(sha(Tagged(domain, Catalogued(catalog)))) else None
  {
    var fed := domain + [0];
    var i := 0;
    while i < |catalog|
      invariant 0 <= i <= |catalog|
      invariant PathsFit(catalog[..i])
      invariant PathsFit(catalog) ==> fed + Catalogued(catalog[i..]) == Tagged(domain, Catalogued(catalog))
    {
      assert catalog[..i + 1] == catalog[..i] + [catalog[i]];
      if !Fits(|catalog[i].path|) {
        return None;
      }
      assert catalog[i..][0] == catalog[i] && catalog[i..][1..] == catalog[i + 1..];
      Regroup(fed, U64(|catalog[i].path|), catalog[i].path, catalog[i].sha);
      fed := fed + U64(|catalog[i].path|);
      fed := fed + catalog[i].path;
      fed := fed + catalog[i].sha;
      i := i + 1;
    }
    assert catalog[..i] == catalog && catalog[i..] == [];
    assert fed + [] == fed;
    return Some(sha(fed));
  }

  // ----- Plan and audit bytes ----------------------------------------------------------------

  const FRAMES := 41

  /** One little-endian IEEE double. */
  type F64 = b: Bytes | |b| == 8 witness seq(8, _ => 0)

  function MaskBytes(mask: seq<bool>): (r: Bytes)
    ensures |r| == |mask|
  {
    seq(|mask|, i requires 0 <= i < |mask| => if mask[i] then 1 else 0)
  }

  /** One flag a byte. */
  function ReadMask(b: Bytes): seq<bool> {
    seq(|b|, i requires 0 <= i < |b| => b[i] == 1)
  }

  lemma MaskReads(mask: seq<bool>)
    ensures ReadMask(MaskBytes(mask)) == mask
  {
  }

  function TensorBytes(t: seq<F64>): (r: Bytes)
    ensures |r| == 8 * |t|
  {
    if t == [] then [] else t[0] + TensorBytes(t[1..])
  }

  /** Double number `i` starts at byte `8 * i`. */
  function ReadTensor(b: Bytes, n: nat): seq<F64>
    requires 8 * n <= |b|
  {
    seq(n, i requires 0 <= i < n => b[8 * i..8 * i + 8])
  }

  /** One double further in, one double less behind. */
  lemma DoubleBehind(head: F64, b: Bytes, i: nat)
    requires i > 0 && 8 * i <= |b|
    ensures (head + b)[8 * i..8 * i + 8] == b[8 * (i - 1)..8 * (i - 1) + 8]
  {
  }

  lemma {:induction false} TensorReads(t: seq<F64>, rest: Bytes)
    ensures ReadTensor(TensorBytes(t) + rest, |t|) == t
  {
    if t != [] {
      var head: Bytes, tail: Bytes := t[0], TensorBytes(t[1..]) + rest;
      assert TensorBytes(t) + rest == head + tail;
      TensorReads(t[1..], rest);
      forall i | 0 <= i < |t|
        ensures (head + tail)[8 * i..8 * i + 8] == t[i]
      {
        if i > 0 {
          DoubleBehind(t[0], tail, i);
          assert ReadTensor(tail, |t| - 1)[i - 1] == t[i];
        }
      }
    }
  }

  datatype Tensors = Tensors(timestamps: seq<F64>, x: seq<F64>, y: seq<F64>, heading: seq<F64>, vx: seq<F64>,
      vy: seq<F64>) {
    predicate Shaped() {
      |timestamps| == |x| == |y| == |heading| == |vx| == |vy| == FRAMES
    }

    function List(): seq<seq<F64>> {
      [timestamps, x, y, heading, vx, vy]
    }
  }

  function AllTensorBytes(ts: seq<seq<F64>>): Bytes {
    if ts == [] then [] else TensorBytes(ts[0]) + AllTensorBytes(ts[1..])
  }

  /** What `canonical_bytes` of a plan puts behind its domain. */
  function PlanBytes(config: Bytes, realization: Bytes, valid: seq<bool>, applied: seq<bool>, ts: Tensors): Bytes
    requires Fits(|config|) && Fits(|realization|)
  {
    Part(config, Part(realization,
      U64(FRAMES) + (MaskBytes(valid) + (MaskBytes(applied) + AllTensorBytes(ts.List())))))
  }

  /** Everything a reader finds in plan bytes. */
  datatype PlanParts =
    PlanParts(config: Bytes, realization: Bytes, frames: nat, valid: seq<bool>, applied: seq<bool>, tensors: Tensors)

  /**
   * From the front: a configuration digest, a realization, a frame count, one byte a frame for the valid and one
   * for the applied frames, and then the six tensors, timestamps first.
   */
  function ReadPlan(b: Bytes): Option<PlanParts> {
    match ReadPart(b)
    case None => None
    case Some((config, b1)) =>
      match ReadPart(b1)
      case None => None
      case Some((realization, b2)) =>
        match ReadU64(b2)
        case None => None
        case Some((n, b3)) =>
          if |b3| != 2 * n + 6 * (8 * n) then None
          else Some(PlanParts(config, realization, n, ReadMask(b3[..n]), ReadMask(b3[n..2 * n]),
                              ReadTensors(b3[2 * n..], n)))
  }

  function ReadTensors(b: Bytes, n: nat): Tensors
    requires |b| == 6 * (8 * n)
  {
    var w := 8 * n;
    Tensors(ReadTensor(b, n), ReadTensor(b[w..], n), ReadTensor(b[2 * w..], n), ReadTensor(b[3 * w..], n),
            ReadTensor(b[4 * w..], n), ReadTensor(b[5 * w..], n))
  }

  lemma TensorsRead(t: Tensors)
    requires t.Shaped()
    ensures |AllTensorBytes(t.List())| == 6 * (8 * FRAMES) && ReadTensors(AllTensorBytes(t.List()), FRAMES) == t
  {
    var l := t.List();
    assert AllTensorBytes(l)[8 * FRAMES * 0..] == AllTensorBytes(l);
    DropsTensor(l, 0);
    DropsTensor(l, 1);
    DropsTensor(l, 2);
    DropsTensor(l, 3);
    DropsTensor(l, 4);
    DropsTensor(l, 5);
  }

  lemma {:induction false} AllLength(l: seq<seq<F64>>)
    requires forall k :: 0 <= k < |l| ==> |l[k]| == FRAMES
    ensures |AllTensorBytes(l)| == 8 * FRAMES * |l|
  {
    if l != [] {
      AllLength(l[1..]);
    }
  }

  /** Tensor number `i` starts behind those before it. */
  lemma {:induction false} DropsTensor(l: seq<seq<F64>>, i: nat)
    requires i < |l| && forall k :: 0 <= k < |l| ==> |l[k]| == FRAMES
    ensures |AllTensorBytes(l)| == 8 * FRAMES * |l|
    ensures ReadTensor(AllTensorBytes(l)[8 * FRAMES * i..], FRAMES) == l[i]
  {
    AllLength(l);
    if i == 0 {
      TensorReads(l[0], AllTensorBytes(l[1..]));
      assert AllTensorBytes(l)[8 * FRAMES * 0..] == TensorBytes(l[0]) + AllTensorBytes(l[1..]);
    } else {
      DropsTensor(l[1..], i - 1);
      assert AllTensorBytes(l)[8 * FRAMES * i..] == AllTensorBytes(l[1..])[8 * FRAMES * (i - 1)..];
    }
  }

  /** The frame count, the masks and the tensors behind the two parts. */
  lemma FramesRead(valid: seq<bool>, applied: seq<bool>, t: Tensors)
    requires |valid| == |applied| == FRAMES && t.Shaped()
    ensures var b := MaskBytes(valid) + (MaskBytes(applied) + AllTensorBytes(t.List()));
      && |b| == 2 * FRAMES + 6 * (8 * FRAMES)
      && ReadMask(b[..FRAMES]) == valid && ReadMask(b[FRAMES..2 * FRAMES]) == applied
      && ReadTensors(b[2 * FRAMES..], FRAMES) == t
  {
    var ts := AllTensorBytes(t.List());
    var b := MaskBytes(valid) + (MaskBytes(applied) + ts);
    TensorsRead(t);
    MaskReads(valid);
    MaskReads(applied);
    assert b[..FRAMES] == MaskBytes(valid);
    assert b[FRAMES..2 * FRAMES] == MaskBytes(applied);
    assert b[2 * FRAMES..] == ts;
  }

  /** The fields of a plan come back from its bytes, each at its own place. */
  lemma PlanReads(config: Bytes, realization: Bytes, valid: seq<bool>, applied: seq<bool>, t: Tensors)
    requires Fits(|config|) && Fits(|realization|) && |valid| == |applied| == FRAMES && t.Shaped()
    ensures ReadPlan(PlanBytes(config, realization, valid, applied, t))
         == Some(PlanParts(config, realization, FRAMES, valid, applied, t))
  {
    var b3 := MaskBytes(valid) + (MaskBytes(applied) + AllTensorBytes(t.List()));
    FramesRead(valid, applied, t);
    FramesFound(config, realization, b3);
  }

  lemma FramesFound(config: Bytes, realization: Bytes, b3: Bytes)
    requires Fits(|config|) && Fits(|realization|) && |b3| == 2 * FRAMES + 6 * (8 * FRAMES)
    ensures ReadPlan(Part(config, Part(realization, U64(FRAMES) + b3)))
      == Some(PlanParts(config, realization, FRAMES, ReadMask(b3[..FRAMES]), ReadMask(b3[FRAMES..2 * FRAMES]),
                        ReadTensors(b3[2 * FRAMES..], FRAMES)))
  {
    PartReads(config, Part(realization, U64(FRAMES) + b3));
    PartReads(realization, U64(FRAMES) + b3);
    U64Reads(FRAMES, b3);
  }

  /** Plan bytes determine the configuration digest, the realization, both masks and all six tensors. */
  lemma PlanBytesInjective(c: Bytes, r: Bytes, v: seq<bool>, a: seq<bool>, t: Tensors,
                           d: Bytes, s: Bytes, w: seq<bool>, b: seq<bool>, u: Tensors)
    requires Fits(|c|) && Fits(|r|) && Fits(|d|) && Fits(|s|)
    requires |v| == |a| == |w| == |b| == FRAMES && t.Shaped() && u.Shaped()
    requires PlanBytes(c, r, v, a, t) == PlanBytes(d, s, w, b, u)
    ensures c == d && r == s && v == w && a == b && t == u
  {
    PlanReads(c, r, v, a, t);
    PlanReads(d, s, w, b, u);
  }

  /** What `audit_canonical_bytes` puts behind its domain. */
  function AuditBytes(planFingerprint: Bytes, feasibility: Json): Bytes
    requires Fits(|planFingerprint|) && Fits(|Print(feasibility)|)
  {
    Part(planFingerprint, Part(Print(feasibility), []))
  }

  /** A plan fingerprint and a JSON text, and nothing else. */
  function ReadAudit(b: Bytes): Option<(Bytes, Json)> {
    match ReadParts(b)
    case None => None
    case Some(parts) =>
      if |parts| != 2 then None
      else match Loads(parts[1])
        case None => None
        case Some(v) => Some((parts[0], v))
  }

  /** The fingerprint and the audit come back, but for joined surrogate pairs in its texts. */
  lemma AuditReads(planFingerprint: Bytes, feasibility: Json)
    requires Fits(|planFingerprint|) && Fits(|Print(feasibility)|)
    ensures ReadAudit(AuditBytes(planFingerprint, feasibility)) == Some((planFingerprint, FuseAll(feasibility)))
  {
    var text := Print(feasibility);
    PartReads(planFingerprint, Part(text, []));
    PartReads(text, []);
    assert ReadParts(Part(text, [])) == Some([text] + []);
    assert ReadParts(AuditBytes(planFingerprint, feasibility)) == Some([planFingerprint] + ([text] + []));
    LoadsPrinted(feasibility, []);
  }

  /** Audit bytes determine the plan fingerprint and the audit, up to joining surrogate pairs in its texts. */
  lemma AuditBytesInjective(p: Bytes, f: Json, q: Bytes, g: Json)
    requires Fits(|p|) && Fits(|q|) && Fits(|Print(f)|) && Fits(|Print(g)|)
    requires AuditBytes(p, f) == AuditBytes(q, g)
    ensures p == q && FuseAll(f) == FuseAll(g)
    ensures AllUnpaired(f) && AllUnpaired(g) ==> f == g
  {
    AuditReads(p, f);
    AuditReads(q, g);
    if AllUnpaired(f) && AllUnpaired(g) {
      FuseAllKeeps(f);
      FuseAllKeeps(g);
    }
  }
}
