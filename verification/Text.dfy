/**
 * Text as Python holds it: code points, lone surrogates included. JSON writes it in UTF-16 units,
 * escaped to ASCII (section 7 of RFC 8259), and reading joins every high/low pair again.
 */
module Text {
  import opened Common

  type Code = n: int | 0 <= n < 0x110000
  type Unit = n: int | 0 <= n < 0x10000
  type Str = seq<Code>

  predicate High(u: int) { 0xD800 <= u < 0xDC00 }

  predicate Low(u: int) { 0xDC00 <= u < 0xE000 }

  function HighOf(c: Code): Unit
    requires c >= 0x10000
  {
    0xD800 + (c - 0x10000) / 0x400
  }

  function LowOf(c: Code): Unit
    requires c >= 0x10000
  {
    0xDC00 + (c - 0x10000) % 0x400
  }

  function Join(h: Unit, l: Unit): Code
    requires High(h) && Low(l)
  {
    0x10000 + (h - 0xD800) * 0x400 + (l - 0xDC00)
  }

  lemma JoinSplit(c: Code)
    requires c >= 0x10000
    ensures High(HighOf(c)) && Low(LowOf(c)) && Join(HighOf(c), LowOf(c)) == c
  {
  }

  /** The UTF-16 units of a text. */
  function Units(s: Str): seq<Unit> {
    if s == [] then []
    else if s[0] < 0x10000 then [s[0]] + Units(s[1..])
    else [HighOf(s[0]), LowOf(s[0])] + Units(s[1..])
  }

  /** Reading units back: a high unit directly followed by a low one is a single code point. */
  function Joined(us: seq<Unit>): Str {
    if us == [] then []
    else if |us| >= 2 && High(us[0]) && Low(us[1]) then [Join(us[0], us[1])] + Joined(us[2..])
    else [us[0]] + Joined(us[1..])
  }

  /** What a text becomes when it is written and read back. */
  function Fuse(s: Str): Str {
    Joined(Units(s))
  }

  /** No high surrogate directly before a low one. */
  predicate Unpaired(s: Str) {
    forall i :: 0 <= i < |s| - 1 ==> !(High(s[i]) && Low(s[i + 1]))
  }

  lemma UnpairedTail(s: Str)
    requires s != [] && Unpaired(s)
    ensures Unpaired(s[1..])
  {
    forall i | 0 <= i < |s[1..]| - 1
      ensures !(High(s[1..][i]) && Low(s[1..][i + 1]))
    {
      assert s[1..][i] == s[i + 1] && s[1..][i + 1] == s[i + 2];
    }
  }

  lemma UnpairedCons(c: Code, s: Str)
    requires Unpaired(s) && (s != [] ==> !(High(c) && Low(s[0])))
    ensures Unpaired([c] + s)
  {
    var t := [c] + s;
    forall i | 0 <= i < |t| - 1
      ensures !(High(t[i]) && Low(t[i + 1]))
    {
      if i > 0 {
        assert t[i] == s[i - 1] && t[i + 1] == s[i];
      }
    }
  }

  /** Reading never produces an adjacent pair: it would have been joined. */
  lemma {:induction false} JoinedIsUnpaired(us: seq<Unit>)
    ensures Unpaired(Joined(us))
    ensures Joined(us) != [] ==> us != [] && (Low(Joined(us)[0]) ==> Joined(us)[0] == us[0])
    decreases |us|
  {
    if us != [] {
      if |us| >= 2 && High(us[0]) && Low(us[1]) {
        JoinedIsUnpaired(us[2..]);
        UnpairedCons(Join(us[0], us[1]), Joined(us[2..]));
      } else {
        JoinedIsUnpaired(us[1..]);
        UnpairedCons(us[0], Joined(us[1..]));
      }
    }
  }

  /** A text survives writing and reading exactly when it has no adjacent surrogate pair. */
  lemma FuseIsIdentityIff(s: Str)
    ensures Fuse(s) == s <==> Unpaired(s)
  {
    JoinedIsUnpaired(Units(s));
    if Unpaired(s) {
      FuseUnpaired(s);
    }
  }

  lemma FuseIsUnpaired(s: Str)
    ensures Unpaired(Fuse(s))
  {
    JoinedIsUnpaired(Units(s));
  }

  lemma {:induction false} FuseUnpaired(s: Str)
    requires Unpaired(s)
    ensures Fuse(s) == s
  {
    if s != [] {
      UnpairedTail(s);
      FuseUnpaired(s[1..]);
      var rest := Units(s[1..]);
      if s[0] < 0x10000 {
        var us := [s[0]] + rest;
        assert us[1..] == rest;
        FirstUnit(s[1..]);
      } else {
        JoinSplit(s[0]);
        var us := [HighOf(s[0]), LowOf(s[0])] + rest;
        assert us[2..] == rest;
      }
      assert s == [s[0]] + s[1..];
    }
  }

  lemma FirstUnit(s: Str)
    ensures Units(s) != [] ==> s != [] && (Low(Units(s)[0]) ==> s[0] == Units(s)[0])
  {
    if s != [] && s[0] >= 0x10000 {
      JoinSplit(s[0]);
    }
  }

  /** Joining loses no unit: written again, a text that was read has the units it was read from. */
  lemma {:induction false} UnitsJoined(us: seq<Unit>)
    ensures Units(Joined(us)) == us
    decreases |us|
  {
    if us != [] {
      var s := Joined(us);
      if |us| >= 2 && High(us[0]) && Low(us[1]) {
        UnitsJoined(us[2..]);
        var c := Join(us[0], us[1]);
        assert HighOf(c) == us[0] && LowOf(c) == us[1];
        assert s[1..] == Joined(us[2..]);
        assert us == [us[0], us[1]] + us[2..];
      } else {
        UnitsJoined(us[1..]);
        assert s[1..] == Joined(us[1..]);
        assert us == [us[0]] + us[1..];
      }
    }
  }

  lemma AsciiIsUnpaired(s: Str)
    requires forall i :: 0 <= i < |s| ==> s[i] < 0x80
    ensures Unpaired(s)
  {
  }

  // ----- Escapes -----------------------------------------------------------------------------

  function HexDigit(n: int): (d: Byte)
    requires 0 <= n < 16
    ensures d != 34 && d != 92
  {
    if n < 10 then 48 + n else 87 + n
  }

  function HexValue(d: Byte): (n: int)
    ensures -1 <= n < 16
  {
    if 48 <= d <= 57 then d - 48 else if 97 <= d <= 102 then d - 87 else if 65 <= d <= 70 then d - 55 else -1
  }

  function Hex4(u: Unit): Bytes {
    [HexDigit(u / 4096), HexDigit(u / 256 % 16), HexDigit(u / 16 % 16), HexDigit(u % 16)]
  }

  function Unhex4(b: Bytes): Option<Unit>
    requires |b| >= 4
  {
    var (x, y, z, w) := (HexValue(b[0]), HexValue(b[1]), HexValue(b[2]), HexValue(b[3]));
    if x < 0 || y < 0 || z < 0 || w < 0 then None else Some(4096 * x + 256 * y + 16 * z + w)
  }

  lemma HexValueDigit(n: int)
    requires 0 <= n < 16
    ensures HexValue(HexDigit(n)) == n
  {
  }

  lemma Nibbles(u: Unit)
    ensures u / 4096 < 16
    ensures u == 4096 * (u / 4096) + 256 * (u / 256 % 16) + 16 * (u / 16 % 16) + u % 16
  {
    var v := u / 16;
    var w := u / 256;
    assert w == v / 16 && u / 4096 == w / 16;
    assert u == 16 * v + u % 16 && v == 16 * w + v % 16 && w == 16 * (w / 16) + w % 16;
  }

  lemma Unhex4Hex4(u: Unit)
    ensures Unhex4(Hex4(u)) == Some(u)
  {
    Nibbles(u);
    HexValueDigit(u / 4096);
    HexValueDigit(u / 256 % 16);
    HexValueDigit(u / 16 % 16);
    HexValueDigit(u % 16);
  }

  /** The letter after a backslash for the units with a short escape, or 0. */
  function ShortEscape(u: Unit): Byte {
    if u == 34 then 34 else if u == 92 then 92 else if u == 10 then 110 else if u == 13 then 114
    else if u == 9 then 116 else if u == 12 then 102 else if u == 8 then 98 else 0
  }

  function Unescape(letter: Byte): Option<Unit> {
    if letter == 34 then Some(34) else if letter == 92 then Some(92) else if letter == 47 then Some(47)
    else if letter == 110 then Some(10) else if letter == 114 then Some(13) else if letter == 116 then Some(9)
    else if letter == 102 then Some(12) else if letter == 98 then Some(8) else None
  }

  /** One unit, followed by `rest`. */
  function EscapeUnit(u: Unit, rest: Bytes): Bytes {
    if ShortEscape(u) != 0 then [92, ShortEscape(u)] + rest
    else if 32 <= u < 127 then [u] + rest
    else [92, 117] + (Hex4(u) + rest)
  }

  function EscapeUnits(us: seq<Unit>, rest: Bytes): Bytes {
    if us == [] then rest else EscapeUnit(us[0], EscapeUnits(us[1..], rest))
  }

  /** The unit at the head of a string body, and what follows it; `None` at a closing quote or an error. */
  function HeadUnit(b: Bytes): (r: Option<(Unit, Bytes)>)
    ensures r.Some? ==> |r.value.1| < |b|
  {
    if b == [] then None
    else if b[0] == 92 then
      if |b| < 2 then None
      else if b[1] == 117 then
        if |b| < 6 then None
        else match Unhex4(b[2..6])
          case None => None
          case Some(u) => Some((u, b[6..]))
      else match Unescape(b[1])
        case None => None
        case Some(u) => Some((u, b[2..]))
    else if 32 <= b[0] < 128 && b[0] != 34 then Some((b[0], b[1..]))
    else None
  }

  /** A string body up to its closing quote. */
  function ReadUnits(b: Bytes): (r: Option<(seq<Unit>, Bytes)>)
    ensures r.Some? ==> |r.value.1| < |b|
    decreases |b|
  {
    if b != [] && b[0] == 34 then Some(([], b[1..]))
    else match HeadUnit(b)
      case None => None
      case Some((u, rest)) =>
        match ReadUnits(rest)
        case None => None
        case Some((us, tail)) => Some(([u] + us, tail))
  }

  lemma HeadUnitEscaped(u: Unit, rest: Bytes)
    ensures HeadUnit(EscapeUnit(u, rest)) == Some((u, rest))
    ensures EscapeUnit(u, rest)[0] != 34
  {
    var b := EscapeUnit(u, rest);
    if ShortEscape(u) != 0 {
      assert b[2..] == rest;
    } else if 32 <= u < 127 {
      assert b[1..] == rest;
    } else {
      Unhex4Hex4(u);
      assert b[2..6] == Hex4(u) && b[6..] == rest;
    }
  }

  /** Units are read back exactly, whatever they are. */
  lemma {:induction false} ReadUnitsEscaped(us: seq<Unit>, rest: Bytes)
    ensures ReadUnits(EscapeUnits(us, [34] + rest)) == Some((us, rest))
  {
    if us == [] {
      assert ([34] + rest)[1..] == rest;
    } else {
      ReadUnitsEscaped(us[1..], rest);
      HeadUnitEscaped(us[0], EscapeUnits(us[1..], [34] + rest));
      assert us == [us[0]] + us[1..];
    }
  }

  lemma {:induction false} EscapeUnitsAppend(us: seq<Unit>, a: Bytes, b: Bytes)
    ensures EscapeUnits(us, a + b) == EscapeUnits(us, a) + b
  {
    if us != [] {
      EscapeUnitsAppend(us[1..], a, b);
      EscapeUnitAppend(us[0], EscapeUnits(us[1..], a), b);
    }
  }

  lemma EscapeUnitAppend(u: Unit, a: Bytes, b: Bytes)
    ensures EscapeUnit(u, a + b) == EscapeUnit(u, a) + b
  {
    if ShortEscape(u) != 0 {
      assert [92, ShortEscape(u)] + (a + b) == ([92, ShortEscape(u)] + a) + b;
    } else if 32 <= u < 127 {
      assert [u] + (a + b) == ([u] + a) + b;
    } else {
      assert [92, 117] + (Hex4(u) + (a + b)) == ([92, 117] + (Hex4(u) + a)) + b;
    }
  }
}
