/**
 * JSON values as the canonical encoder prints them and as the decoder reads them back. A dict is the
 * list of its members in key order; a float is its opaque token.
 */
module Json {
  import opened Common
  import opened Text

  predicate NumberByte(b: int) {
    48 <= b <= 57 || b == 45 || b == 43 || b == 46 || b == 101 || b == 69
  }

  /** A dot or an exponent: what makes a number a float. */
  predicate Marked(t: Bytes) {
    46 in t || 69 in t || 101 in t
  }

  function TakeDigits(b: Bytes): (r: (Bytes, Bytes))
    ensures |r.0| + |r.1| == |b|
  {
    if b == [] || !(48 <= b[0] <= 57) then ([], b)
    else var (d, rest) := TakeDigits(b[1..]); ([b[0]] + d, rest)
  }

  function Unsigned(t: Bytes): Bytes {
    if t != [] && t[0] == 45 then t[1..] else t
  }

  predicate Exponent(b: Bytes) {
    && b != [] && b[0] in {69, 101}
    && (var d := if |b| > 1 && b[1] in {43, 45} then b[2..] else b[1..]; d != [] && TakeDigits(d).1 == [])
  }

  predicate Fraction(b: Bytes) {
    b != [] && b[0] == 46 && TakeDigits(b[1..]).0 != []
  }

  /** The number grammar of section 6 of RFC 8259, with a fraction or an exponent. */
  predicate FloatToken(t: Bytes) {
    var (whole, tail) := TakeDigits(Unsigned(t));
    && (forall i :: 0 <= i < |t| ==> NumberByte(t[i])) && Marked(t)
    && whole != [] && (|whole| == 1 || whole[0] != 48)
    && if Fraction(tail) then (var rest := TakeDigits(tail[1..]).1; rest == [] || Exponent(rest)) else Exponent(tail)
  }

  lemma OnePointZero()
    ensures FloatToken([49, 46, 48])
  {
    assert [49, 46, 48][1..] == [46, 48] && [46, 48][1..] == [48];
  }

  /** The token of a finite float, `1.0` among them. */
  type FloatTok = t: Bytes | FloatToken(t) witness (OnePointZero(); [49, 46, 48])

  /** The three constants Python reads and writes although they are not JSON. */
  datatype NonFinite = NaN | Infinity | MinusInfinity

  function Word(k: NonFinite): Bytes {
    match k
    case NaN => [78, 97, 78]
    case Infinity => [73, 110, 102, 105, 110, 105, 116, 121]
    case MinusInfinity => [45, 73, 110, 102, 105, 110, 105, 116, 121]
  }

  datatype Member = Member(key: Str, value: Json)

  datatype Json =
    | JNull
    | JBool(b: bool)
    | JInt(n: int)
    | JFloat(tok: FloatTok)
    | JNonFinite(kind: NonFinite)
    | JStr(s: Str)
    | JArr(items: seq<Json>)
    | JObj(members: seq<Member>)

  // ----- Printing ----------------------------------------------------------------------------

  function Digits(n: nat): (d: Bytes)
    ensures d != [] && forall i :: 0 <= i < |d| ==> 48 <= d[i] <= 57
    ensures n > 0 ==> d[0] != 48
    ensures n == 0 ==> |d| == 1
    decreases n
  {
    if n < 10 then [48 + n] else Digits(n / 10) + [48 + n % 10]
  }

  function Decimal(n: int): (d: Bytes)
    ensures d != [] && (forall i :: 0 <= i < |d| ==> 48 <= d[i] <= 57 || d[i] == 45)
  {
    if n < 0 then [45] + Digits(-n) else Digits(n)
  }

  function Quote(s: Str, rest: Bytes): Bytes {
    [34] + EscapeUnits(Units(s), [34] + rest)
  }

  /** `json.dumps` with separators `,` and `:` and ASCII output, followed by `rest`. */
  function PrintTo(v: Json, rest: Bytes): Bytes
    decreases v, 0
  {
    match v
    case JNull => [110, 117, 108, 108] + rest
    case JBool(b) => (if b then [116, 114, 117, 101] else [102, 97, 108, 115, 101]) + rest
    case JInt(n) => Decimal(n) + rest
    case JFloat(t) => t + rest
    case JNonFinite(k) => Word(k) + rest
    case JStr(s) => Quote(s, rest)
    case JArr(items) => [91] + PrintItems(items, [93] + rest)
    case JObj(members) => [123] + PrintMembers(members, [125] + rest)
  }

  function PrintItems(items: seq<Json>, rest: Bytes): Bytes
    decreases items, 1
  {
    if items == [] then rest
    else PrintTo(items[0], if |items| == 1 then rest else [44] + PrintItems(items[1..], rest))
  }

  function PrintMembers(members: seq<Member>, rest: Bytes): Bytes
    decreases members, 1
  {
    if members == [] then rest
    else
      Quote(members[0].key, [58] +
        PrintTo(members[0].value, if |members| == 1 then rest else [44] + PrintMembers(members[1..], rest)))
  }

  // ----- Reading -----------------------------------------------------------------------------

  function TakeNumber(b: Bytes): (r: (Bytes, Bytes))
    ensures |r.0| + |r.1| == |b|
    ensures forall i :: 0 <= i < |r.0| ==> NumberByte(r.0[i])
  {
    if b == [] || !NumberByte(b[0]) then ([], b)
    else var (t, rest) := TakeNumber(b[1..]); ([b[0]] + t, rest)
  }

  function DigitsValue(t: Bytes): Option<nat> {
    if t == [] then None
    else if !(48 <= t[|t| - 1] <= 57) then None
    else if |t| == 1 then Some(t[0] - 48)
    else match DigitsValue(t[..|t| - 1])
      case None => None
      case Some(n) => Some(10 * n + (t[|t| - 1] - 48))
  }

  function NumberOf(t: Bytes): Option<Json> {
    if Marked(t) then (if FloatToken(t) then Some(JFloat(t)) else None)
    else
      var d := Unsigned(t);
      match DigitsValue(d)
      case None => None
      case Some(n) => if |d| > 1 && d[0] == 48 then None else Some(JInt(if d == t then n else 0 - n))
  }

  function Literal(b: Bytes, word: Bytes, v: Json): (r: Option<(Json, Bytes)>)
    requires word != []
    ensures r.Some? ==> |r.value.1| < |b|
  {
    if word <= b then Some((v, b[|word|..])) else None
  }

  function ReadNumber(b: Bytes): (r: Option<(Json, Bytes)>)
    ensures r.Some? ==> |r.value.1| < |b|
  {
    var (t, rest) := TakeNumber(b);
    match NumberOf(t)
    case None => None
    case Some(v) => Some((v, rest))
  }

  predicate Blank(b: int) {
    b == 32 || b == 9 || b == 10 || b == 13
  }

  function Skip(b: Bytes): (r: Bytes)
    ensures |r| <= |b|
    ensures b == [] || !Blank(b[0]) ==> r == b
  {
    if b != [] && Blank(b[0]) then Skip(b[1..]) else b
  }

  /** One value, white space allowed before it, and what follows it. */
  function Read(b: Bytes): (r: Option<(Json, Bytes)>)
    ensures r.Some? ==> |r.value.1| < |b|
    decreases |b|, 1
  {
    ReadHere(Skip(b))
  }

  function ReadHere(b: Bytes): (r: Option<(Json, Bytes)>)
    ensures r.Some? ==> |r.value.1| < |b|
    ensures NumberAhead(b) ==> r == ReadNumber(b)
    decreases |b|, 0
  {
    if b == [] then None
    else if b[0] == 110 then Literal(b, [110, 117, 108, 108], JNull)
    else if b[0] == 116 then Literal(b, [116, 114, 117, 101], JBool(true))
    else if b[0] == 102 then Literal(b, [102, 97, 108, 115, 101], JBool(false))
    else if b[0] == 78 then Literal(b, Word(NaN), JNonFinite(NaN))
    else if b[0] == 73 then Literal(b, Word(Infinity), JNonFinite(Infinity))
    else if b[0] == 45 && |b| > 1 && b[1] == 73 then Literal(b, Word(MinusInfinity), JNonFinite(MinusInfinity))
    else if b[0] == 34 then
      match ReadUnits(b[1..])
      case None => None
      case Some((us, rest)) => Some((JStr(Joined(us)), rest))
    else if b[0] == 91 then ReadArray(b[1..])
    else if b[0] == 123 then ReadObject(b[1..])
    else ReadNumber(b)
  }

  /** Behind an opening bracket. */
  function ReadArray(b: Bytes): (r: Option<(Json, Bytes)>)
    ensures r.Some? ==> |r.value.1| < |b|
    decreases |b|, 3
  {
    var c := Skip(b);
    if c != [] && c[0] == 93 then Some((JArr([]), c[1..]))
    else match ReadItems(b)
      case None => None
      case Some((items, rest)) => Some((JArr(items), rest))
  }

  function ReadItems(b: Bytes): (r: Option<(seq<Json>, Bytes)>)
    ensures r.Some? ==> |r.value.1| < |b|
    decreases |b|, 2
  {
    match Read(b)
    case None => None
    case Some((v, after)) =>
      var rest := Skip(after);
      if rest == [] then None
      else if rest[0] == 93 then Some(([v], rest[1..]))
      else if rest[0] != 44 then None
      else match ReadItems(rest[1..])
        case None => None
        case Some((items, tail)) => Some(([v] + items, tail))
  }

  /** Behind an opening brace. */
  function ReadObject(b: Bytes): (r: Option<(Json, Bytes)>)
    ensures r.Some? ==> |r.value.1| < |b|
    decreases |b|, 3
  {
    var c := Skip(b);
    if c != [] && c[0] == 125 then Some((JObj([]), c[1..]))
    else match ReadMembers(b)
      case None => None
      case Some((members, rest)) => Some((JObj(members), rest))
  }

  function ReadMember(b: Bytes): (r: Option<(Member, Bytes)>)
    ensures r.Some? ==> |r.value.1| < |b|
    decreases |b|, 1
  {
    var c := Skip(b);
    if c == [] || c[0] != 34 then None
    else match ReadUnits(c[1..])
      case None => None
      case Some((us, after)) =>
        var rest := Skip(after);
        if rest == [] || rest[0] != 58 then None
        else match Read(rest[1..])
          case None => None
          case Some((v, tail)) => Some((Member(Joined(us), v), tail))
  }

  function ReadMembers(b: Bytes): (r: Option<(seq<Member>, Bytes)>)
    ensures r.Some? ==> |r.value.1| < |b|
    decreases |b|, 2
  {
    match ReadMember(b)
    case None => None
    case Some((m, after)) =>
      var rest := Skip(after);
      if rest == [] then None
      else if rest[0] == 125 then Some(([m], rest[1..]))
      else if rest[0] != 44 then None
      else match ReadMembers(rest[1..])
        case None => None
        case Some((members, tail)) => Some(([m] + members, tail))
  }

  /** `json.loads`: one value and nothing but white space around it. */
  function Loads(text: Bytes): Option<Json> {
    match Read(text)
    case None => None
    case Some((v, rest)) => if Skip(rest) == [] then Some(v) else None
  }

  // ----- Reading what was printed ------------------------------------------------------------

  /** Every text of a value as it is read back. */
  function FuseAll(v: Json): Json
    decreases v, 0
  {
    match v
    case JStr(s) => JStr(Fuse(s))
    case JArr(items) => JArr(FuseItems(items))
    case JObj(members) => JObj(FuseMembers(members))
    case _ => v
  }

  function FuseItems(items: seq<Json>): (r: seq<Json>)
    ensures |r| == |items|
    decreases items, 1
  {
    if items == [] then [] else [FuseAll(items[0])] + FuseItems(items[1..])
  }

  function FuseMembers(members: seq<Member>): (r: seq<Member>)
    ensures |r| == |members|
    decreases members, 1
  {
    if members == [] then []
    else [Member(Fuse(members[0].key), FuseAll(members[0].value))] + FuseMembers(members[1..])
  }

  lemma {:induction false} DigitsRead(n: nat)
    ensures DigitsValue(Digits(n)) == Some(n)
    decreases n
  {
    if n >= 10 {
      DigitsRead(n / 10);
      var t := Digits(n);
      assert t[..|t| - 1] == Digits(n / 10);
    }
  }

  lemma {:induction false} TakeNumberExact(t: Bytes, rest: Bytes)
    requires forall i :: 0 <= i < |t| ==> NumberByte(t[i])
    requires rest == [] || !NumberByte(rest[0])
    ensures TakeNumber(t + rest) == (t, rest)
  {
    if t == [] {
      assert t + rest == rest;
    } else {
      assert (t + rest)[1..] == t[1..] + rest;
      TakeNumberExact(t[1..], rest);
      assert [t[0]] + t[1..] == t;
    }
  }

  lemma PlainIsUnmarked(t: Bytes)
    requires forall i :: 0 <= i < |t| ==> 48 <= t[i] <= 57 || t[i] == 45
    ensures !Marked(t)
  {
  }

  lemma NaturalRead(n: nat)
    ensures NumberOf(Digits(n)) == Some(JInt(n))
  {
    PlainIsUnmarked(Digits(n));
    DigitsRead(n);
  }

  lemma NegativeRead(n: nat)
    ensures NumberOf([45] + Digits(n)) == Some(JInt(0 - n))
  {
    var t := [45] + Digits(n);
    PlainIsUnmarked(t);
    DigitsRead(n);
    assert t[1..] == Digits(n);
  }

  lemma DecimalRead(n: int)
    ensures NumberOf(Decimal(n)) == Some(JInt(n))
  {
    if n < 0 {
      NegativeRead(-n);
    } else {
      NaturalRead(n);
    }
  }

  /** What may follow a value: nothing, a separator, a closing bracket, a newline. */
  predicate Delimited(rest: Bytes) {
    rest == [] || rest[0] in {10, 44, 93, 125}
  }

  /** Where reading goes to the number reader. */
  predicate NumberAhead(b: Bytes) {
    b != [] && NumberByte(b[0]) && (b[0] == 45 && |b| > 1 ==> b[1] != 73)
  }

  lemma NumberRead(t: Bytes, rest: Bytes)
    requires t != [] && Delimited(rest) && forall i :: 0 <= i < |t| ==> NumberByte(t[i])
    ensures ReadHere(t + rest) == match NumberOf(t) { case None => None case Some(v) => Some((v, rest)) }
  {
    TakeNumberExact(t, rest);
    var b := t + rest;
    assert b[0] == t[0];
    assert |b| > 1 ==> b[1] == if |t| > 1 then t[1] else rest[0];
    assert NumberAhead(b);
  }

  lemma QuoteRead(s: Str, rest: Bytes)
    ensures Quote(s, rest)[0] == 34
    ensures ReadUnits(Quote(s, rest)[1..]) == Some((Units(s), rest))
  {
    ReadUnitsEscaped(Units(s), rest);
    assert Quote(s, rest)[1..] == EscapeUnits(Units(s), [34] + rest);
  }

  /** The first byte of a printed value is no blank and never looks like the end of a list. */
  lemma PrintedHead(v: Json, rest: Bytes)
    ensures PrintTo(v, rest) != [] && PrintTo(v, rest)[0] != 93 && !Blank(PrintTo(v, rest)[0])
  {
  }

  /** Reading what was printed gives the value back, with its texts joined. */
  lemma {:induction false} ReadPrinted(v: Json, rest: Bytes)
    requires Delimited(rest)
    ensures Read(PrintTo(v, rest)) == Some((FuseAll(v), rest))
    decreases v, 1
  {
    PrintedHead(v, rest);
    ReadPrintedHere(v, rest);
  }

  lemma {:induction false} ReadPrintedHere(v: Json, rest: Bytes)
    requires Delimited(rest)
    ensures ReadHere(PrintTo(v, rest)) == Some((FuseAll(v), rest))
    decreases v, 0
  {
    match v
    case JNull => WordRead([110, 117, 108, 108], JNull, rest);
    case JBool(b) => WordRead(if b then [116, 114, 117, 101] else [102, 97, 108, 115, 101], v, rest);
    case JInt(n) => IntRead(n, rest);
    case JFloat(t) => NumberRead(t, rest);
    case JNonFinite(k) => NonFiniteRead(k, rest);
    case JStr(s) => QuoteRead(s, rest);
    case JArr(items) => ArrayRead(items, rest);
    case JObj(members) => ObjectRead(members, rest);
  }

  lemma WordRead(word: Bytes, v: Json, rest: Bytes)
    requires word != []
    ensures Literal(word + rest, word, v) == Some((v, rest))
  {
    assert (word + rest)[|word|..] == rest;
  }

  lemma NonFiniteRead(k: NonFinite, rest: Bytes)
    ensures ReadHere(Word(k) + rest) == Some((JNonFinite(k), rest))
  {
    WordRead(Word(k), JNonFinite(k), rest);
  }

  lemma IntRead(n: int, rest: Bytes)
    requires Delimited(rest)
    ensures ReadHere(Decimal(n) + rest) == Some((JInt(n), rest))
  {
    DecimalRead(n);
    NumberRead(Decimal(n), rest);
  }

  lemma {:induction false} ArrayRead(items: seq<Json>, rest: Bytes)
    requires Delimited(rest)
    ensures ReadHere(PrintTo(JArr(items), rest)) == Some((JArr(FuseItems(items)), rest))
    decreases items, 3
  {
    var body := PrintItems(items, [93] + rest);
    assert PrintTo(JArr(items), rest)[1..] == body;
    if items == [] {
      assert body[1..] == rest;
    } else {
      ItemsRead(items, rest);
      PrintedHead(items[0], if |items| == 1 then [93] + rest else [44] + PrintItems(items[1..], [93] + rest));
    }
  }

  lemma {:induction false} ItemsRead(items: seq<Json>, rest: Bytes)
    requires items != []
    ensures ReadItems(PrintItems(items, [93] + rest)) == Some((FuseItems(items), rest))
    decreases items, 2
  {
    if |items| == 1 {
      ReadPrinted(items[0], [93] + rest);
      assert ([93] + rest)[1..] == rest;
      assert FuseItems(items) == [FuseAll(items[0])];
    } else {
      var tail := PrintItems(items[1..], [93] + rest);
      ReadPrinted(items[0], [44] + tail);
      assert ([44] + tail)[1..] == tail;
      ItemsRead(items[1..], rest);
    }
  }

  lemma ReadsAsEmpty(rest: Bytes)
    ensures ReadObject([125] + rest) == Some((JObj([]), rest))
  {
    assert ([125] + rest)[1..] == rest;
  }

  lemma ReadsAsMembers(b: Bytes, members: seq<Member>, rest: Bytes)
    requires b != [] && b[0] == 34 && ReadMembers(b) == Some((members, rest))
    ensures ReadObject(b) == Some((JObj(members), rest))
  {
  }

  lemma ReadsAsObject(b: Bytes, members: seq<Member>, rest: Bytes)
    requires b != []
    requires if members == [] then b == [125] + rest else b[0] == 34 && ReadMembers(b) == Some((members, rest))
    ensures ReadHere([123] + b) == Some((JObj(members), rest))
  {
    assert ([123] + b)[1..] == b;
    if members == [] {
      ReadsAsEmpty(rest);
    } else {
      ReadsAsMembers(b, members, rest);
    }
  }

  lemma {:induction false} ObjectRead(members: seq<Member>, rest: Bytes)
    requires Delimited(rest)
    ensures ReadHere(PrintTo(JObj(members), rest)) == Some((JObj(FuseMembers(members)), rest))
    decreases members, 4
  {
    if members != [] {
      MembersRead(members, rest);
    }
    ReadsAsObject(PrintMembers(members, [125] + rest), FuseMembers(members), rest);
  }

  lemma {:induction false} MemberRead(m: Member, rest: Bytes)
    requires Delimited(rest)
    ensures ReadMember(Quote(m.key, [58] + PrintTo(m.value, rest)))
      == Some((Member(Fuse(m.key), FuseAll(m.value)), rest))
    decreases m, 2
  {
    var tail := PrintTo(m.value, rest);
    QuoteRead(m.key, [58] + tail);
    assert ([58] + tail)[1..] == tail;
    ReadPrinted(m.value, rest);
  }

  lemma LastMember(b: Bytes, m: Member, rest: Bytes)
    requires ReadMember(b) == Some((m, [125] + rest))
    ensures ReadMembers(b) == Some(([m], rest))
  {
    assert ([125] + rest)[1..] == rest;
  }

  lemma NextMember(b: Bytes, m: Member, tail: Bytes)
    requires ReadMember(b) == Some((m, [44] + tail)) && ReadMembers(tail).Some?
    ensures ReadMembers(b) == Some(([m] + ReadMembers(tail).value.0, ReadMembers(tail).value.1))
  {
    assert ([44] + tail)[1..] == tail;
  }

  lemma {:induction false} MembersRead(members: seq<Member>, rest: Bytes)
    requires members != []
    ensures ReadMembers(PrintMembers(members, [125] + rest)) == Some((FuseMembers(members), rest))
    decreases members, 3
  {
    var b := PrintMembers(members, [125] + rest);
    var m := Member(Fuse(members[0].key), FuseAll(members[0].value));
    if |members| == 1 {
      MemberRead(members[0], [125] + rest);
      LastMember(b, m, rest);
      assert FuseMembers(members) == [m];
    } else {
      var tail := PrintMembers(members[1..], [125] + rest);
      MemberRead(members[0], [44] + tail);
      MembersRead(members[1..], rest);
      NextMember(b, m, tail);
    }
  }

  /** A printed text, with or without the newline behind it, loads as the joined value. */
  lemma LoadsPrinted(v: Json, rest: Bytes)
    requires rest == [] || rest == [10]
    ensures Loads(PrintTo(v, rest)) == Some(FuseAll(v))
  {
    ReadPrinted(v, rest);
    if rest == [10] {
      assert rest[1..] == [];
    }
  }

  // ----- Printed texts are no prefixes of each other -----------------------------------------

  lemma QuoteAppend(s: Str, a: Bytes, b: Bytes)
    ensures Quote(s, a + b) == Quote(s, a) + b
  {
    assert [34] + (a + b) == ([34] + a) + b;
    EscapeUnitsAppend(Units(s), [34] + a, b);
    assert [34] + (EscapeUnits(Units(s), [34] + a) + b) == ([34] + EscapeUnits(Units(s), [34] + a)) + b;
  }

  lemma {:induction false} PrintAppend(v: Json, a: Bytes, b: Bytes)
    ensures PrintTo(v, a + b) == PrintTo(v, a) + b
    decreases v, 0
  {
    match v
    case JNull => ConcatThree([110, 117, 108, 108], a, b);
    case JBool(c) => ConcatThree(if c then [116, 114, 117, 101] else [102, 97, 108, 115, 101], a, b);
    case JInt(n) => ConcatThree(Decimal(n), a, b);
    case JFloat(t) => ConcatThree(t, a, b);
    case JNonFinite(k) => ConcatThree(Word(k), a, b);
    case JStr(s) => QuoteAppend(s, a, b);
    case JArr(items) =>
      ConcatThree([93], a, b);
      PrintItemsAppend(items, [93] + a, b);
      ConcatThree([91], PrintItems(items, [93] + a), b);
    case JObj(members) =>
      ConcatThree([125], a, b);
      PrintMembersAppend(members, [125] + a, b);
      ConcatThree([123], PrintMembers(members, [125] + a), b);
  }

  lemma ConcatThree(x: Bytes, a: Bytes, b: Bytes)
    ensures x + (a + b) == (x + a) + b
  {
  }

  lemma {:induction false} PrintItemsAppend(items: seq<Json>, a: Bytes, b: Bytes)
    ensures PrintItems(items, a + b) == PrintItems(items, a) + b
    decreases items, 1
  {
    if |items| == 1 {
      PrintAppend(items[0], a, b);
    } else if items != [] {
      PrintItemsAppend(items[1..], a, b);
      ConcatThree([44], PrintItems(items[1..], a), b);
      PrintAppend(items[0], [44] + PrintItems(items[1..], a), b);
    }
  }

  lemma {:induction false} PrintMembersAppend(members: seq<Member>, a: Bytes, b: Bytes)
    ensures PrintMembers(members, a + b) == PrintMembers(members, a) + b
    decreases members, 1
  {
    if members != [] {
      var tail := if |members| == 1 then a else [44] + PrintMembers(members[1..], a);
      if |members| > 1 {
        PrintMembersAppend(members[1..], a, b);
        ConcatThree([44], PrintMembers(members[1..], a), b);
      }
      PrintAppend(members[0].value, tail, b);
      ConcatThree([58], PrintTo(members[0].value, tail), b);
      QuoteAppend(members[0].key, [58] + PrintTo(members[0].value, tail), b);
    }
  }

  /** A printed line that another printed line begins with is that whole line. */
  lemma LinesPrefixFree(v: Json, w: Json)
    requires PrintTo(v, [10]) <= PrintTo(w, [10])
    ensures PrintTo(v, [10]) == PrintTo(w, [10])
  {
    var short, long := PrintTo(v, [10]), PrintTo(w, [10]);
    var tail := long[|short|..];
    assert long == short + tail;
    PrintAppend(v, [10], tail);
    ReadPrinted(v, [10] + tail);
    ReadPrinted(w, [10]);
    assert [10] + tail == [10];
    assert tail == [];
  }

  /** A value and the value read back from its text print alike. */
  lemma {:induction false} PrintFused(v: Json, rest: Bytes)
    ensures PrintTo(FuseAll(v), rest) == PrintTo(v, rest)
    decreases v, 0
  {
    match v
    case JStr(s) => UnitsJoined(Units(s));
    case JArr(items) => PrintFusedItems(items, [93] + rest);
    case JObj(members) => PrintFusedMembers(members, [125] + rest);
    case _ =>
  }

  lemma {:induction false} PrintFusedItems(items: seq<Json>, rest: Bytes)
    ensures PrintItems(FuseItems(items), rest) == PrintItems(items, rest)
    decreases items, 1
  {
    if items != [] {
      PrintFusedItems(items[1..], rest);
      PrintFused(items[0], if |items| == 1 then rest else [44] + PrintItems(items[1..], rest));
      assert FuseItems(items)[1..] == FuseItems(items[1..]);
    }
  }

  lemma {:induction false} PrintFusedMembers(members: seq<Member>, rest: Bytes)
    ensures PrintMembers(FuseMembers(members), rest) == PrintMembers(members, rest)
    decreases members, 1
  {
    if members != [] {
      PrintFusedMembers(members[1..], rest);
      PrintFused(members[0].value, if |members| == 1 then rest else [44] + PrintMembers(members[1..], rest));
      UnitsJoined(Units(members[0].key));
      assert FuseMembers(members)[1..] == FuseMembers(members[1..]);
    }
  }
}
