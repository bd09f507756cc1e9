/** Which values Python can dump, and that what it dumps is ASCII. */
module Dumping {
  import opened Common
  import opened Text
  import opened Json
  import opened JsonLimits
  import opened CanonicalJson
  import Order

  /** The interpreter a status is read and printed by. */
  datatype Python = Python(rule: Rule, limits: Limits)

  /** No container is too deep to dump. */
  predicate Within(max: nat, v: Json, open: nat) {
    match v
    case JArr(items) => open < max && forall i :: 0 <= i < |items| ==> Within(max, items[i], open + 1)
    case JObj(members) => open < max && forall i :: 0 <= i < |members| ==> Within(max, members[i].value, open + 1)
    case _ => true
  }

  /** What `json.dumps` prints of a value, or nothing when it raises. */
  function Dumped(py: Python, v: Json): Option<Json> {
    match Settle(py.rule, v)
    case None => None
    case Some(w) => if Within(py.limits.dumpDepth, w, 0) then Some(w) else None
  }

  /**
   * Dumping raises: somewhere in the value is a constant that is no number, a float that overflows, a key
   * that is not allowed or a container that is too deep. Of members with the same key only the last counts.
   */
  predicate Undumpable(rule: Rule, max: nat, v: Json, open: nat)
    decreases v, 0
  {
    match v
    case JNonFinite(_) => true
    case JFloat(t) => rule.repr(t).None?
    case JArr(items) => open >= max || UndumpableItems(rule, max, items, open + 1)
    case JObj(members) => open >= max || UndumpableMembers(rule, max, members, open + 1)
    case _ => false
  }

  predicate UndumpableItems(rule: Rule, max: nat, items: seq<Json>, open: nat)
    decreases items, 1
  {
    exists i :: 0 <= i < |items| && Undumpable(rule, max, items[i], open)
  }

  predicate UndumpableMembers(rule: Rule, max: nat, members: seq<Member>, open: nat)
    decreases members, 1
  {
    && members != []
    && (UndumpableMembers(rule, max, members[1..], open)
        || (!Has(members[1..], members[0].key)
            && (!rule.KeyAllowed(members[0].key) || Undumpable(rule, max, members[0].value, open))))
  }

  predicate WithinItems(max: nat, items: seq<Json>, open: nat) {
    forall i :: 0 <= i < |items| ==> Within(max, items[i], open)
  }

  predicate WithinMembers(max: nat, members: seq<Member>, open: nat) {
    forall i :: 0 <= i < |members| ==> Within(max, members[i].value, open)
  }

  lemma WithinMember(max: nat, m: Member, rest: seq<Member>, open: nat)
    ensures WithinMembers(max, [m] + rest, open) <==> Within(max, m.value, open) && WithinMembers(max, rest, open)
  {
    var all := [m] + rest;
    if WithinMembers(max, all, open) {
      assert Within(max, all[0].value, open);
      forall i | 0 <= i < |rest|
        ensures Within(max, rest[i].value, open)
      {
        assert all[i + 1] == rest[i];
      }
    }
  }

  lemma {:induction false} PutWithin(max: nat, members: seq<Member>, m: Member, open: nat)
    ensures WithinMembers(max, Put(members, m), open)
      <==> WithinMembers(max, members, open) && Within(max, m.value, open)
  {
    if members == [] || Order.Less(m.key, members[0].key) {
      WithinMember(max, m, members, open);
    } else {
      PutWithin(max, members[1..], m, open);
      WithinMember(max, members[0], members[1..], open);
      WithinMember(max, members[0], Put(members[1..], m), open);
      assert members == [members[0]] + members[1..];
    }
  }

  lemma {:induction false} PutKeys(members: seq<Member>, m: Member, key: Str)
    ensures Has(Put(members, m), key) <==> Has(members, key) || m.key == key
  {
    if members == [] || Order.Less(m.key, members[0].key) {
      HasTail([m] + members, key);
      assert ([m] + members)[1..] == members;
    } else {
      var r := Put(members, m);
      PutKeys(members[1..], m, key);
      HasTail(members, key);
      HasTail(r, key);
      assert r[1..] == Put(members[1..], m);
    }
  }

  lemma HasTail(members: seq<Member>, key: Str)
    requires members != []
    ensures Has(members, key) <==> members[0].key == key || Has(members[1..], key)
  {
    var tail := members[1..];
    if Has(members, key) {
      var i :| 0 <= i < |members| && members[i].key == key;
      assert i > 0 ==> members[i] == tail[i - 1];
    }
    if Has(tail, key) {
      var i :| 0 <= i < |tail| && tail[i].key == key;
      assert members[i + 1] == tail[i];
    }
  }

  /** Freezing and sorting lose no key. */
  lemma {:induction false} SettledKeys(rule: Rule, members: seq<Member>, key: Str)
    requires SettleMembers(rule, members).Some?
    ensures Has(SettleMembers(rule, members).value, key) <==> Has(members, key)
  {
    if members != [] {
      var rest := SettleMembers(rule, members[1..]).value;
      SettledKeys(rule, members[1..], key);
      HasTail(members, key);
      if !Has(rest, members[0].key) {
        PutKeys(rest, Member(members[0].key, Settle(rule, members[0].value).value), key);
      }
    }
  }

  /** A value cannot be dumped exactly when it is undumpable. */
  lemma {:induction false} DumpsIff(rule: Rule, max: nat, v: Json, open: nat)
    ensures Undumpable(rule, max, v, open) <==> Settle(rule, v).None? || !Within(max, Settle(rule, v).value, open)
    decreases v, 0
  {
    match v
    case JArr(items) => ItemsDumpIff(rule, max, items, open + 1);
    case JObj(members) => MembersDumpIff(rule, max, members, open + 1);
    case _ =>
  }

  lemma UndumpableCons(rule: Rule, max: nat, items: seq<Json>, open: nat)
    requires items != []
    ensures UndumpableItems(rule, max, items, open)
      <==> Undumpable(rule, max, items[0], open) || UndumpableItems(rule, max, items[1..], open)
  {
    var tail := items[1..];
    if UndumpableItems(rule, max, items, open) {
      var i :| 0 <= i < |items| && Undumpable(rule, max, items[i], open);
      assert i > 0 ==> items[i] == tail[i - 1];
    }
    if UndumpableItems(rule, max, tail, open) {
      var i :| 0 <= i < |tail| && Undumpable(rule, max, tail[i], open);
      assert items[i + 1] == tail[i];
    }
  }

  lemma WithinCons(max: nat, w: Json, rest: seq<Json>, open: nat)
    ensures WithinItems(max, [w] + rest, open) <==> Within(max, w, open) && WithinItems(max, rest, open)
  {
    var all := [w] + rest;
    if WithinItems(max, all, open) {
      assert Within(max, all[0], open);
      forall i | 0 <= i < |rest|
        ensures Within(max, rest[i], open)
      {
        assert all[i + 1] == rest[i];
      }
    }
  }

  lemma {:induction false} ItemsDumpIff(rule: Rule, max: nat, items: seq<Json>, open: nat)
    ensures UndumpableItems(rule, max, items, open)
      <==> SettleItems(rule, items).None? || !WithinItems(max, SettleItems(rule, items).value, open)
    decreases items, 1
  {
    if items != [] {
      UndumpableCons(rule, max, items, open);
      DumpsIff(rule, max, items[0], open);
      ItemsDumpIff(rule, max, items[1..], open);
      if Settle(rule, items[0]).Some? && SettleItems(rule, items[1..]).Some? {
        WithinCons(max, Settle(rule, items[0]).value, SettleItems(rule, items[1..]).value, open);
      }
    }
  }

  lemma {:induction false} MembersDumpIff(rule: Rule, max: nat, members: seq<Member>, open: nat)
    ensures UndumpableMembers(rule, max, members, open)
      <==> SettleMembers(rule, members).None? || !WithinMembers(max, SettleMembers(rule, members).value, open)
    decreases members, 1
  {
    if members != [] {
      DumpsIff(rule, max, members[0].value, open);
      MembersDumpIff(rule, max, members[1..], open);
      if SettleMembers(rule, members[1..]).Some? {
        var rest := SettleMembers(rule, members[1..]).value;
        SettledKeys(rule, members[1..], members[0].key);
        if !Has(rest, members[0].key) && Settle(rule, members[0].value).Some? {
          PutWithin(max, rest, Member(members[0].key, Settle(rule, members[0].value).value), open);
        }
      }
    }
  }

  // ----- ASCII -------------------------------------------------------------------------------

  predicate AsciiText(b: Bytes) {
    forall i :: 0 <= i < |b| ==> b[i] < 128
  }

  lemma AsciiJoins(a: Bytes, b: Bytes)
    requires AsciiText(a) && AsciiText(b)
    ensures AsciiText(a + b)
  {
  }

  lemma {:induction false} EscapesAscii(us: seq<Unit>, rest: Bytes)
    requires AsciiText(rest)
    ensures AsciiText(EscapeUnits(us, rest))
  {
    if us != [] {
      EscapesAscii(us[1..], rest);
    }
  }

  lemma QuoteAscii(s: Str, rest: Bytes)
    requires AsciiText(rest)
    ensures AsciiText(Quote(s, rest))
  {
    EscapesAscii(Units(s), [34] + rest);
  }

  /** Whatever is printed is ASCII. */
  lemma {:induction false} PrintsAscii(v: Json, rest: Bytes)
    requires AsciiText(rest)
    ensures AsciiText(PrintTo(v, rest))
    decreases v, 0
  {
    match v
    case JStr(s) => QuoteAscii(s, rest);
    case JArr(items) => ItemsAscii(items, [93] + rest);
    case JObj(members) => MembersAscii(members, [125] + rest);
    case JInt(n) => AsciiJoins(Decimal(n), rest);
    case JFloat(t) => AsciiJoins(t, rest);
    case _ =>
  }

  lemma {:induction false} ItemsAscii(items: seq<Json>, rest: Bytes)
    requires AsciiText(rest)
    ensures AsciiText(PrintItems(items, rest))
    decreases items, 1
  {
    if items != [] {
      ItemsAscii(items[1..], rest);
      PrintsAscii(items[0], if |items| == 1 then rest else [44] + PrintItems(items[1..], rest));
    }
  }

  lemma {:induction false} MembersAscii(members: seq<Member>, rest: Bytes)
    requires AsciiText(rest)
    ensures AsciiText(PrintMembers(members, rest))
    decreases members, 1
  {
    if members != [] {
      MembersAscii(members[1..], rest);
      var tail := if |members| == 1 then rest else [44] + PrintMembers(members[1..], rest);
      PrintsAscii(members[0].value, tail);
      QuoteAscii(members[0].key, [58] + PrintTo(members[0].value, tail));
    }
  }
}
