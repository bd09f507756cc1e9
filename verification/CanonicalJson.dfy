/**
 * The canonical JSON rule: freeze, sort the keys, print without spaces in ASCII, and accept a text
 * only when printing what was read gives the same text.
 */
module CanonicalJson {
  import opened Common
  import opened Text
  import opened Json
  import Order

  /**
   * How values are dumped: `repr` prints the float a token reads as, `None` when it overflows to an
   * infinity, which dumping and freezing both refuse; freezing also refuses an empty key.
   */
  datatype Rule = Rule(repr: FloatTok -> Option<FloatTok>, emptyKeys: bool) {
    ghost predicate Settles() {
      forall t: FloatTok :: repr(t).Some? ==> repr(repr(t).value) == repr(t)
    }

    predicate KeyAllowed(key: Str) {
      key != [] || emptyKeys
    }
  }

  predicate Sorted(members: seq<Member>) {
    |members| <= 1 || (Order.Less(members[0].key, members[1].key) && Sorted(members[1..]))
  }

  /** A value the encoder prints unchanged: sorted non-empty keys, finite floats by their own token. */
  predicate Canonical(rule: Rule, v: Json) {
    match v
    case JFloat(t) => rule.repr(t) == Some(t)
    case JNonFinite(_) => false
    case JArr(items) => forall i :: 0 <= i < |items| ==> Canonical(rule, items[i])
    case JObj(members) =>
      && Sorted(members)
      && forall i :: 0 <= i < |members| ==> rule.KeyAllowed(members[i].key) && Canonical(rule, members[i].value)
    case _ => true
  }

  predicate AllUnpaired(v: Json) {
    match v
    case JStr(s) => Unpaired(s)
    case JArr(items) => forall i :: 0 <= i < |items| ==> AllUnpaired(items[i])
    case JObj(members) => forall i :: 0 <= i < |members| ==> Unpaired(members[i].key) && AllUnpaired(members[i].value)
    case _ => true
  }

  predicate Has(members: seq<Member>, key: Str) {
    exists i :: 0 <= i < |members| && members[i].key == key
  }

  /** Insert by key. */
  function Put(members: seq<Member>, m: Member): (r: seq<Member>)
    ensures |r| == |members| + 1
    ensures forall i :: 0 <= i < |r| ==> r[i] == m || r[i] in members
  {
    if members == [] || Order.Less(m.key, members[0].key) then [m] + members
    else [members[0]] + Put(members[1..], m)
  }

  // ----- Freezing a value that was read ------------------------------------------------------

  /** The frozen and key-sorted form of a value; a later member replaces an earlier one of the same key. */
  function Settle(rule: Rule, v: Json): Option<Json>
    decreases v, 0
  {
    match v
    case JNonFinite(_) => None
    case JFloat(t) => (match rule.repr(t) { case None => None case Some(u) => Some(JFloat(u)) })
    case JArr(items) => (match SettleItems(rule, items) { case None => None case Some(r) => Some(JArr(r)) })
    case JObj(members) => (match SettleMembers(rule, members) { case None => None case Some(r) => Some(JObj(r)) })
    case _ => Some(v)
  }

  function SettleItems(rule: Rule, items: seq<Json>): Option<seq<Json>>
    decreases items, 1
  {
    if items == [] then Some([])
    else match (Settle(rule, items[0]), SettleItems(rule, items[1..]))
      case (Some(v), Some(rest)) => Some([v] + rest)
      case _ => None
  }

  function SettleMembers(rule: Rule, members: seq<Member>): Option<seq<Member>>
    decreases members, 1
  {
    if members == [] then Some([])
    else match SettleMembers(rule, members[1..])
      case None => None
      case Some(rest) =>
        if Has(rest, members[0].key) then Some(rest)
        else if !rule.KeyAllowed(members[0].key) then None
        else match Settle(rule, members[0].value)
          case None => None
          case Some(v) => Some(Put(rest, Member(members[0].key, v)))
  }

  lemma {:induction false} PutSorted(members: seq<Member>, m: Member)
    requires Sorted(members) && !Has(members, m.key)
    ensures Sorted(Put(members, m))
  {
    if members != [] && !Order.Less(m.key, members[0].key) {
      var tail := members[1..];
      assert forall i :: 0 <= i < |tail| ==> tail[i] == members[i + 1];
      PutSorted(tail, m);
      Order.Total(m.key, members[0].key);
      assert Put(members, m)[1..] == Put(tail, m);
    } else {
      assert Put(members, m)[1..] == members;
    }
  }

  lemma {:induction false} SettleIsCanonical(rule: Rule, v: Json)
    requires rule.Settles() && Settle(rule, v).Some?
    ensures Canonical(rule, Settle(rule, v).value)
    decreases v, 0
  {
    match v
    case JArr(items) => SettleItemsCanonical(rule, items);
    case JObj(members) => SettleMembersCanonical(rule, members);
    case _ =>
  }

  lemma {:induction false} SettleItemsCanonical(rule: Rule, items: seq<Json>)
    requires rule.Settles() && SettleItems(rule, items).Some?
    ensures Canonical(rule, JArr(SettleItems(rule, items).value))
    decreases items, 1
  {
    if items != [] {
      SettleIsCanonical(rule, items[0]);
      SettleItemsCanonical(rule, items[1..]);
    }
  }

  lemma {:induction false} SettleMembersCanonical(rule: Rule, members: seq<Member>)
    requires rule.Settles() && SettleMembers(rule, members).Some?
    ensures Canonical(rule, JObj(SettleMembers(rule, members).value))
    decreases members, 1
  {
    if members != [] {
      SettleMembersCanonical(rule, members[1..]);
      var rest := SettleMembers(rule, members[1..]).value;
      if !Has(rest, members[0].key) {
        SettleIsCanonical(rule, members[0].value);
        PutSorted(rest, Member(members[0].key, Settle(rule, members[0].value).value));
      }
    }
  }

  // ----- Freezing keeps canonical values -----------------------------------------------------

  lemma {:induction false} HeadIsLeast(members: seq<Member>, key: Str)
    requires Sorted(members) && members != [] && Order.Less(key, members[0].key)
    ensures !Has(members, key)
  {
    Order.Irreflexive(key);
    if |members| > 1 {
      var tail := members[1..];
      Order.Transitive(key, members[0].key, members[1].key);
      HeadIsLeast(tail, key);
      forall i | 0 <= i < |members|
        ensures members[i].key != key
      {
        assert i > 0 ==> members[i] == tail[i - 1];
      }
    }
  }

  lemma {:induction false} SettleKeeps(rule: Rule, v: Json)
    requires Canonical(rule, v)
    ensures Settle(rule, v) == Some(v)
    decreases v, 0
  {
    match v
    case JArr(items) => SettleKeepsItems(rule, items);
    case JObj(members) => SettleKeepsMembers(rule, members);
    case _ =>
  }

  lemma {:induction false} SettleKeepsItems(rule: Rule, items: seq<Json>)
    requires forall i :: 0 <= i < |items| ==> Canonical(rule, items[i])
    ensures SettleItems(rule, items) == Some(items)
    decreases items, 1
  {
    if items != [] {
      SettleKeeps(rule, items[0]);
      SettleKeepsItems(rule, items[1..]);
      assert items == [items[0]] + items[1..];
    }
  }

  lemma {:induction false} SettleKeepsMembers(rule: Rule, members: seq<Member>)
    requires Sorted(members)
    requires forall i :: 0 <= i < |members| ==> rule.KeyAllowed(members[i].key) && Canonical(rule, members[i].value)
    ensures SettleMembers(rule, members) == Some(members)
    decreases members, 1
  {
    if members != [] {
      var tail := members[1..];
      SettleKeeps(rule, members[0].value);
      SettleKeepsMembers(rule, tail);
      if tail != [] {
        HeadIsLeast(tail, members[0].key);
      }
      assert members == [members[0]] + tail;
    }
  }

  // ----- Surrogate pairs ---------------------------------------------------------------------

  lemma {:induction false} SettleUnpaired(rule: Rule, v: Json)
    requires AllUnpaired(v) && Settle(rule, v).Some?
    ensures AllUnpaired(Settle(rule, v).value)
    decreases v, 0
  {
    match v
    case JArr(items) => SettleItemsUnpaired(rule, items);
    case JObj(members) => SettleMembersUnpaired(rule, members);
    case _ =>
  }

  lemma {:induction false} SettleItemsUnpaired(rule: Rule, items: seq<Json>)
    requires AllUnpaired(JArr(items)) && SettleItems(rule, items).Some?
    ensures AllUnpaired(JArr(SettleItems(rule, items).value))
    decreases items, 1
  {
    if items != [] {
      SettleUnpaired(rule, items[0]);
      SettleItemsUnpaired(rule, items[1..]);
    }
  }

  lemma {:induction false} SettleMembersUnpaired(rule: Rule, members: seq<Member>)
    requires AllUnpaired(JObj(members)) && SettleMembers(rule, members).Some?
    ensures AllUnpaired(JObj(SettleMembers(rule, members).value))
    decreases members, 1
  {
    if members != [] {
      SettleMembersUnpaired(rule, members[1..]);
      var rest := SettleMembers(rule, members[1..]).value;
      if !Has(rest, members[0].key) {
        SettleUnpaired(rule, members[0].value);
      }
    }
  }

  lemma {:induction false} FuseAllUnpaired(v: Json)
    ensures AllUnpaired(FuseAll(v))
    decreases v, 0
  {
    match v
    case JStr(s) => FuseIsUnpaired(s);
    case JArr(items) => FuseItemsUnpaired(items);
    case JObj(members) => FuseMembersUnpaired(members);
    case _ =>
  }

  lemma {:induction false} FuseItemsUnpaired(items: seq<Json>)
    ensures AllUnpaired(JArr(FuseItems(items)))
    decreases items, 1
  {
    if items != [] {
      FuseAllUnpaired(items[0]);
      FuseItemsUnpaired(items[1..]);
    }
  }

  lemma {:induction false} FuseMembersUnpaired(members: seq<Member>)
    ensures AllUnpaired(JObj(FuseMembers(members)))
    decreases members, 1
  {
    if members != [] {
      FuseIsUnpaired(members[0].key);
      FuseAllUnpaired(members[0].value);
      FuseMembersUnpaired(members[1..]);
    }
  }

  lemma {:induction false} FuseAllKeeps(v: Json)
    requires AllUnpaired(v)
    ensures FuseAll(v) == v
    decreases v, 0
  {
    match v
    case JStr(s) => FuseUnpaired(s);
    case JArr(items) => FuseItemsKeeps(items);
    case JObj(members) => FuseMembersKeeps(members);
    case _ =>
  }

  lemma {:induction false} FuseItemsKeeps(items: seq<Json>)
    requires AllUnpaired(JArr(items))
    ensures FuseItems(items) == items
    decreases items, 1
  {
    if items != [] {
      FuseAllKeeps(items[0]);
      FuseItemsKeeps(items[1..]);
    }
  }

  lemma {:induction false} FuseMembersKeeps(members: seq<Member>)
    requires AllUnpaired(JObj(members))
    ensures FuseMembers(members) == members
    decreases members, 1
  {
    if members != [] {
      FuseUnpaired(members[0].key);
      FuseAllKeeps(members[0].value);
      FuseMembersKeeps(members[1..]);
    }
  }

  // ----- The text ----------------------------------------------------------------------------

  function Print(v: Json): Bytes {
    PrintTo(v, [])
  }

  /** Read a text, freeze it, print it again and compare. */
  function Decode(rule: Rule, text: Bytes): Option<Json> {
    match Loads(text)
    case None => None
    case Some(v) =>
      if !v.JObj? then None
      else match Settle(rule, v)
        case None => None
        case Some(w) => if Print(w) == text then Some(w) else None
  }

  /** The accepted texts are exactly the printed canonical dicts without an adjacent surrogate pair. */
  lemma DecodeAccepts(rule: Rule, text: Bytes, w: Json)
    requires rule.Settles()
    ensures Decode(rule, text) == Some(w)
      <==> w.JObj? && Canonical(rule, w) && AllUnpaired(w) && text == Print(w)
  {
    if Decode(rule, text) == Some(w) {
      var v := Loads(text).value;
      SettleIsCanonical(rule, v);
      LoadsPrinted(w, []);
      assert v == FuseAll(w);
      FuseAllUnpaired(w);
      SettleUnpaired(rule, v);
    }
    if w.JObj? && Canonical(rule, w) && AllUnpaired(w) && text == Print(w) {
      LoadsPrinted(w, []);
      FuseAllKeeps(w);
      SettleKeeps(rule, w);
    }
  }

  /** No two canonical values are printed alike, unless they differ only by surrogate pairs. */
  lemma PrintInjective(v: Json, w: Json)
    requires Print(v) == Print(w)
    ensures FuseAll(v) == FuseAll(w)
    ensures AllUnpaired(v) && AllUnpaired(w) ==> v == w
  {
    LoadsPrinted(v, []);
    LoadsPrinted(w, []);
    if AllUnpaired(v) && AllUnpaired(w) {
      FuseAllKeeps(v);
      FuseAllKeeps(w);
    }
  }

  /** A dict read back from its own canonical text is the same dict if and only if it has no adjacent surrogate pair. */
  lemma RoundTripIff(rule: Rule, w: Json)
    requires rule.Settles() && w.JObj? && Canonical(rule, w)
    ensures Decode(rule, Print(w)) == Some(w) <==> AllUnpaired(w)
  {
    DecodeAccepts(rule, Print(w), w);
  }

  /** Two lone surrogates next to each other: U+D83D, U+DE00. */
  const LONE_PAIR: Str := [0xD83D, 0xDE00]

  /** Written and read, they are the single character U+1F600. */
  lemma LonePairJoins()
    ensures FuseAll(JStr(LONE_PAIR)) == JStr([0x1F600])
  {
    assert Units(LONE_PAIR) == LONE_PAIR by {
      assert LONE_PAIR[1..] == [0xDE00] && LONE_PAIR[1..][1..] == [];
    }
    assert Joined(LONE_PAIR) == [Join(0xD83D, 0xDE00)] + Joined(LONE_PAIR[2..]);
  }
}
