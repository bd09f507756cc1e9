/**
 * Where Python gives up on a JSON text: an integer with more digits than `int` converts and containers
 * nested deeper than the parser or the encoder recurse. Neither is a decoding error, so neither is caught
 * where only decoding errors are.
 */
module JsonLimits {
  import opened Common
  import opened Text
  import opened Json

  /** The digits `int` converts, and the containers that may be open at once when reading and when dumping. */
  datatype Limits = Limits(digits: nat, depth: nat, dumpDepth: nat) {
    /** Wide enough for a dict of dicts. */
    predicate Usable() {
      depth >= 2 && dumpDepth >= 2
    }
  }

  datatype Scanned<+T> = Got(value: T, rest: Bytes) | Bad | Overrun

  function OfRead<T>(r: Option<(T, Bytes)>): Scanned<T> {
    match r
    case None => Bad
    case Some((v, rest)) => Got(v, rest)
  }

  /** A fraction or an exponent begins here: the number is a float and no integer is converted. */
  predicate FloatAhead(b: Bytes) {
    Fraction(b) || (b != [] && b[0] in {69, 101} && DigitAhead(if |b| > 1 && b[1] in {43, 45} then b[2..] else b[1..]))
  }

  predicate DigitAhead(b: Bytes) {
    b != [] && 48 <= b[0] <= 57
  }

  /** An integer of too many digits comes next, whatever follows it. */
  predicate LongInteger(lim: Limits, b: Bytes) {
    var (whole, tail) := TakeDigits(Unsigned(b));
    whole != [] && whole[0] != 48 && |whole| > lim.digits && !FloatAhead(tail)
  }

  /** `Read` with the limits; `open` containers are open already. */
  function Scan(lim: Limits, b: Bytes, open: nat): (r: Scanned<Json>)
    ensures r.Got? ==> |r.rest| < |b|
    decreases |b|, 1
  {
    ScanHere(lim, Skip(b), open)
  }

  function ScanHere(lim: Limits, b: Bytes, open: nat): (r: Scanned<Json>)
    ensures r.Got? ==> |r.rest| < |b|
    decreases |b|, 0
  {
    if b != [] && b[0] == 91 then (if open >= lim.depth then Overrun else ScanArray(lim, b[1..], open + 1))
    else if b != [] && b[0] == 123 then (if open >= lim.depth then Overrun else ScanObject(lim, b[1..], open + 1))
    else if LongInteger(lim, b) then Overrun
    else OfRead(ReadHere(b))
  }

  function ScanArray(lim: Limits, b: Bytes, open: nat): (r: Scanned<Json>)
    ensures r.Got? ==> |r.rest| < |b|
    decreases |b|, 3
  {
    var c := Skip(b);
    if c != [] && c[0] == 93 then Got(JArr([]), c[1..])
    else match ScanItems(lim, b, open)
      case Got(items, rest) => Got(JArr(items), rest)
      case Bad => Bad
      case Overrun => Overrun
  }

  function ScanItems(lim: Limits, b: Bytes, open: nat): (r: Scanned<seq<Json>>)
    ensures r.Got? ==> |r.rest| < |b|
    decreases |b|, 2
  {
    match Scan(lim, b, open)
    case Bad => Bad
    case Overrun => Overrun
    case Got(v, after) =>
      var rest := Skip(after);
      if rest == [] then Bad
      else if rest[0] == 93 then Got([v], rest[1..])
      else if rest[0] != 44 then Bad
      else match ScanItems(lim, rest[1..], open)
        case Got(items, tail) => Got([v] + items, tail)
        case Bad => Bad
        case Overrun => Overrun
  }

  function ScanObject(lim: Limits, b: Bytes, open: nat): (r: Scanned<Json>)
    ensures r.Got? ==> |r.rest| < |b|
    decreases |b|, 3
  {
    var c := Skip(b);
    if c != [] && c[0] == 125 then Got(JObj([]), c[1..])
    else match ScanMembers(lim, b, open)
      case Got(members, rest) => Got(JObj(members), rest)
      case Bad => Bad
      case Overrun => Overrun
  }

  function ScanMember(lim: Limits, b: Bytes, open: nat): (r: Scanned<Member>)
    ensures r.Got? ==> |r.rest| < |b|
    decreases |b|, 1
  {
    var c := Skip(b);
    if c == [] || c[0] != 34 then Bad
    else match ReadUnits(c[1..])
      case None => Bad
      case Some((us, after)) =>
        var rest := Skip(after);
        if rest == [] || rest[0] != 58 then Bad
        else match Scan(lim, rest[1..], open)
          case Got(v, tail) => Got(Member(Joined(us), v), tail)
          case Bad => Bad
          case Overrun => Overrun
  }

  function ScanMembers(lim: Limits, b: Bytes, open: nat): (r: Scanned<seq<Member>>)
    ensures r.Got? ==> |r.rest| < |b|
    decreases |b|, 2
  {
    match ScanMember(lim, b, open)
    case Bad => Bad
    case Overrun => Overrun
    case Got(m, after) =>
      var rest := Skip(after);
      if rest == [] then Bad
      else if rest[0] == 125 then Got([m], rest[1..])
      else if rest[0] != 44 then Bad
      else match ScanMembers(lim, rest[1..], open)
        case Got(members, tail) => Got([m] + members, tail)
        case Bad => Bad
        case Overrun => Overrun
  }

  /** `json.loads` with the limits: giving up comes before noticing what follows the value. */
  function ScanText(lim: Limits, text: Bytes): Scanned<Json> {
    match Scan(lim, text, 0)
    case Bad => Bad
    case Overrun => Overrun
    case Got(v, rest) => if Skip(rest) == [] then Got(v, []) else Bad
  }

  // ----- Which values fit --------------------------------------------------------------------

  function Magnitude(n: int): nat {
    if n < 0 then -n else n
  }

  /** Every integer is short enough and no container too deep. */
  predicate Fits(lim: Limits, v: Json, open: nat)
    decreases v
  {
    match v
    case JInt(n) => |Digits(Magnitude(n))| <= lim.digits || n == 0
    case JArr(items) => open < lim.depth && forall i :: 0 <= i < |items| ==> Fits(lim, items[i], open + 1)
    case JObj(members) => open < lim.depth && forall i :: 0 <= i < |members| ==> Fits(lim, members[i].value, open + 1)
    case _ => true
  }

  predicate FitItems(lim: Limits, items: seq<Json>, open: nat) {
    forall i :: 0 <= i < |items| ==> Fits(lim, items[i], open)
  }

  predicate FitMembers(lim: Limits, members: seq<Member>, open: nat) {
    forall i :: 0 <= i < |members| ==> Fits(lim, members[i].value, open)
  }

  /** Digits without a leading zero are the digits of their value. */
  lemma {:induction false} DigitsOf(t: Bytes, n: nat)
    requires DigitsValue(t) == Some(n) && (|t| == 1 || t[0] != 48)
    ensures Digits(n) == t
  {
    if |t| > 1 {
      var init := t[..|t| - 1];
      var m := DigitsValue(init).value;
      assert init[0] == t[0];
      LeadingDigit(init, m);
      DigitsOf(init, m);
      assert n / 10 == m && n % 10 == t[|t| - 1] - 48;
      assert t == init + [t[|t| - 1]];
    }
  }

  lemma {:induction false} LeadingDigit(t: Bytes, n: nat)
    requires DigitsValue(t) == Some(n)
    ensures forall i :: 0 <= i < |t| ==> 48 <= t[i] <= 57
    ensures t[0] != 48 ==> n > 0
  {
    if |t| > 1 {
      var init := t[..|t| - 1];
      LeadingDigit(init, DigitsValue(init).value);
      assert init[0] == t[0];
      assert forall i :: 0 <= i < |init| ==> init[i] == t[i];
    }
  }

  lemma {:induction false} DigitsRun(t: Bytes, rest: Bytes)
    requires forall i :: 0 <= i < |t| ==> 48 <= t[i] <= 57
    requires rest == [] || !(48 <= rest[0] <= 57)
    ensures TakeDigits(t + rest) == (t, rest)
  {
    if t == [] {
      assert t + rest == rest;
    } else {
      assert (t + rest)[1..] == t[1..] + rest;
      DigitsRun(t[1..], rest);
      assert [t[0]] + t[1..] == t;
    }
  }

  lemma {:induction false} NumberParts(b: Bytes)
    ensures var (t, rest) := TakeNumber(b); b == t + rest && (rest == [] || !NumberByte(rest[0]))
  {
    if b != [] && NumberByte(b[0]) {
      NumberParts(b[1..]);
    }
  }

  lemma UnsignedParts(t: Bytes, rest: Bytes)
    requires t != []
    ensures Unsigned(t + rest) == Unsigned(t) + rest
  {
    assert (t + rest)[0] == t[0];
  }

  /** An integer that was read is long exactly when its digits are too many. */
  lemma IntegerFits(lim: Limits, b: Bytes, n: int, rest: Bytes)
    requires ReadNumber(b) == Some((JInt(n), rest))
    ensures LongInteger(lim, b) <==> !Fits(lim, JInt(n), 0)
  {
    NumberParts(b);
    var t := TakeNumber(b).0;
    var d := Unsigned(t);
    var m := DigitsValue(d).value;
    LeadingDigit(d, m);
    DigitsOf(d, m);
    assert Magnitude(n) == m;
    UnsignedParts(t, rest);
    DigitsRun(d, rest);
  }

  lemma {:induction false} DigitsSplit(b: Bytes)
    ensures var (d, rest) := TakeDigits(b);
      b == d + rest && (rest == [] || !(48 <= rest[0] <= 57)) && forall i :: 0 <= i < |d| ==> 48 <= d[i] <= 57
  {
    if b != [] && 48 <= b[0] <= 57 {
      DigitsSplit(b[1..]);
    }
  }

  /** A float that was read shows its fraction or exponent right behind its whole part. */
  lemma FloatIsAhead(b: Bytes, tok: FloatTok, rest: Bytes)
    requires ReadNumber(b) == Some((JFloat(tok), rest))
    ensures FloatAhead(TakeDigits(Unsigned(b)).1)
  {
    NumberParts(b);
    UnsignedParts(tok, rest);
    FloatTail(Unsigned(tok), rest);
  }

  lemma FloatTail(d: Bytes, rest: Bytes)
    requires Fraction(TakeDigits(d).1) || Exponent(TakeDigits(d).1)
    ensures FloatAhead(TakeDigits(d + rest).1)
  {
    DigitsSplit(d);
    var (whole, tail) := TakeDigits(d);
    assert (tail + rest)[0] == tail[0];
    DigitsRun(whole, tail + rest);
    assert d + rest == whole + (tail + rest);
    AheadStays(tail, rest);
  }

  lemma AheadStays(tail: Bytes, rest: Bytes)
    requires Fraction(tail) || Exponent(tail)
    ensures FloatAhead(tail + rest)
  {
    var b := tail + rest;
    if Fraction(tail) {
      assert tail[1..] != [] && b[1..] == tail[1..] + rest && b[1..][0] == tail[1..][0];
      assert TakeDigits(b[1..]).0 != [];
    } else {
      DigitsSplit(if |tail| > 1 && tail[1] in {43, 45} then tail[2..] else tail[1..]);
    }
  }

  /**
   * The scan is the reading, cut short exactly for a value that does not fit; a text that reads as nothing
   * gives nothing.
   */
  ghost predicate Agrees<T(!new)>(scanned: Scanned<T>, read: Option<(T, Bytes)>, fits: T -> bool) {
    match read
    case Some((v, rest)) => scanned == if fits(v) then Got(v, rest) else Overrun
    case None => !scanned.Got?
  }

  lemma {:induction false} ScanIs(lim: Limits, b: Bytes, open: nat)
    ensures Agrees(Scan(lim, b, open), Read(b), v => Fits(lim, v, open))
    decreases |b|, 1
  {
    ScanHereIs(lim, Skip(b), open);
  }

  lemma {:induction false} ScanHereIs(lim: Limits, b: Bytes, open: nat)
    ensures Agrees(ScanHere(lim, b, open), ReadHere(b), v => Fits(lim, v, open))
    decreases |b|, 0
  {
    if b != [] && b[0] == 91 {
      ScanArrayIs(lim, b[1..], open + 1);
    } else if b != [] && b[0] == 123 {
      ScanObjectIs(lim, b[1..], open + 1);
    } else {
      ScanLeafIs(lim, b, open);
    }
  }

  /** What begins like an integer is read as a number. */
  lemma LongIsNumber(lim: Limits, b: Bytes)
    requires LongInteger(lim, b)
    ensures ReadHere(b) == ReadNumber(b)
    ensures ReadNumber(b).Some? ==> ReadNumber(b).value.0.JInt? || ReadNumber(b).value.0.JFloat?
  {
    LongIsAhead(lim, b);
  }

  lemma LongIsAhead(lim: Limits, b: Bytes)
    requires LongInteger(lim, b)
    ensures NumberAhead(b)
  {
    var d := Unsigned(b);
    assert 48 <= d[0] <= 57;
  }

  lemma ScanLeafIs(lim: Limits, b: Bytes, open: nat)
    requires b == [] || (b[0] != 91 && b[0] != 123)
    ensures Agrees(ScanHere(lim, b, open), ReadHere(b), v => Fits(lim, v, open))
  {
    if ReadHere(b).Some? {
      var (v, rest) := ReadHere(b).value;
      if v.JInt? {
        IntegerFits(lim, b, v.n, rest);
      } else if v.JFloat? {
        FloatIsAhead(b, v.tok, rest);
      } else if LongInteger(lim, b) {
        LongIsNumber(lim, b);
      }
    }
  }

  lemma {:induction false} ScanArrayIs(lim: Limits, b: Bytes, open: nat)
    ensures match ReadArray(b)
      case None => !ScanArray(lim, b, open).Got?
      case Some((v, rest)) => v.JArr? && ScanArray(lim, b, open) == if FitItems(lim, v.items, open) then Got(v, rest)
        else Overrun
    decreases |b|, 3
  {
    ScanItemsIs(lim, b, open);
  }

  lemma {:induction false} ScanItemsIs(lim: Limits, b: Bytes, open: nat)
    ensures Agrees(ScanItems(lim, b, open), ReadItems(b), items => FitItems(lim, items, open))
    decreases |b|, 2
  {
    ScanIs(lim, b, open);
    if Read(b).Some? {
      var (v, after) := Read(b).value;
      var rest := Skip(after);
      if rest != [] && rest[0] == 44 {
        ScanItemsIs(lim, rest[1..], open);
        if ReadItems(rest[1..]).Some? {
          ItemsCons(lim, v, ReadItems(rest[1..]).value.0, open);
        }
      } else {
        ItemsCons(lim, v, [], open);
        assert [v] + [] == [v];
      }
    }
  }

  lemma ItemsCons(lim: Limits, v: Json, items: seq<Json>, open: nat)
    ensures FitItems(lim, [v] + items, open) <==> Fits(lim, v, open) && FitItems(lim, items, open)
  {
    var all := [v] + items;
    if FitItems(lim, all, open) {
      assert Fits(lim, all[0], open);
      forall i | 0 <= i < |items|
        ensures Fits(lim, items[i], open)
      {
        assert all[i + 1] == items[i];
      }
    }
  }

  lemma {:induction false} ScanObjectIs(lim: Limits, b: Bytes, open: nat)
    ensures match ReadObject(b)
      case None => !ScanObject(lim, b, open).Got?
      case Some((v, rest)) =>
        v.JObj? && ScanObject(lim, b, open) == if FitMembers(lim, v.members, open) then Got(v, rest) else Overrun
    decreases |b|, 3
  {
    ScanMembersIs(lim, b, open);
  }

  lemma {:induction false} ScanMemberIs(lim: Limits, b: Bytes, open: nat)
    ensures Agrees(ScanMember(lim, b, open), ReadMember(b), (m: Member) => Fits(lim, m.value, open))
    decreases |b|, 1
  {
    var c := Skip(b);
    if c != [] && c[0] == 34 && ReadUnits(c[1..]).Some? {
      var rest := Skip(ReadUnits(c[1..]).value.1);
      if rest != [] {
        ScanIs(lim, rest[1..], open);
      }
    }
  }

  lemma {:induction false} ScanMembersIs(lim: Limits, b: Bytes, open: nat)
    ensures Agrees(ScanMembers(lim, b, open), ReadMembers(b), members => FitMembers(lim, members, open))
    decreases |b|, 2
  {
    ScanMemberIs(lim, b, open);
    if ReadMember(b).Some? {
      var (m, after) := ReadMember(b).value;
      var rest := Skip(after);
      if rest != [] && rest[0] == 44 {
        ScanMembersIs(lim, rest[1..], open);
        if ReadMembers(rest[1..]).Some? {
          MembersCons(lim, m, ReadMembers(rest[1..]).value.0, open);
        }
      } else {
        MembersCons(lim, m, [], open);
        assert [m] + [] == [m];
      }
    }
  }

  lemma MembersCons(lim: Limits, m: Member, members: seq<Member>, open: nat)
    ensures FitMembers(lim, [m] + members, open) <==> Fits(lim, m.value, open) && FitMembers(lim, members, open)
  {
    var all := [m] + members;
    if FitMembers(lim, all, open) {
      assert Fits(lim, all[0].value, open);
      forall i | 0 <= i < |members|
        ensures Fits(lim, members[i].value, open)
      {
        assert all[i + 1] == members[i];
      }
    }
  }

  /** A text that loads is given up exactly when its value does not fit; any other is given up or refused. */
  lemma ScanTextIs(lim: Limits, text: Bytes)
    ensures match Loads(text)
      case Some(v) => ScanText(lim, text) == if Fits(lim, v, 0) then Got(v, []) else Overrun
      case None => !ScanText(lim, text).Got?
  {
    ScanIs(lim, text, 0);
  }
}
