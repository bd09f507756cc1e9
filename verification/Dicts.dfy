/** Dicts with a fixed list of keys, as every envelope and status is one. */
module Dicts {
  import opened Common
  import opened Text
  import opened Json
  import opened CanonicalJson
  import Order

  /** A name as code points; a Dafny character is never a surrogate. */
  function K(s: string): (r: Str)
    ensures |r| == |s| && Unpaired(r)
  {
    seq(|s|, i requires 0 <= i < |s| => s[i] as int)
  }

  predicate Ascii(s: Str) {
    forall i :: 0 <= i < |s| ==> s[i] < 0x80
  }

  predicate HexCode(c: int) { 48 <= c <= 57 || 97 <= c <= 102 }

  /** A lower-case SHA-256 digest. */
  type Digest = s: Str | |s| == 64 && forall i :: 0 <= i < |s| ==> HexCode(s[i]) witness seq(64, _ => 48)

  function Encoded(s: Str): (b: Bytes)
    requires Ascii(s)
    ensures |b| == |s|
  {
    seq(|s|, i requires 0 <= i < |s| => s[i])
  }

  function Zip(keys: seq<Str>, values: seq<Json>): (r: seq<Member>)
    requires |keys| == |values|
    ensures |r| == |keys|
  {
    seq(|keys|, i requires 0 <= i < |keys| => Member(keys[i], values[i]))
  }

  function Keys(members: seq<Member>): (r: seq<Str>)
    ensures |r| == |members|
  {
    seq(|members|, i requires 0 <= i < |members| => members[i].key)
  }

  function Values(members: seq<Member>): (r: seq<Json>)
    ensures |r| == |members|
  {
    seq(|members|, i requires 0 <= i < |members| => members[i].value)
  }

  lemma ZipParts(keys: seq<Str>, values: seq<Json>)
    requires |keys| == |values|
    ensures Keys(Zip(keys, values)) == keys && Values(Zip(keys, values)) == values
  {
  }

  lemma ZipWhole(members: seq<Member>)
    ensures Zip(Keys(members), Values(members)) == members
  {
  }

  /** Keys in strictly increasing order, none empty, none with an adjacent surrogate pair. */
  predicate KeyOrder(keys: seq<Str>) {
    && (forall i :: 0 <= i < |keys| ==> keys[i] != [] && Unpaired(keys[i]))
    && (|keys| <= 1 || (Order.Less(keys[0], keys[1]) && KeyOrder(keys[1..])))
  }

  lemma {:induction false} ZipSorted(keys: seq<Str>, values: seq<Json>)
    requires |keys| == |values| && KeyOrder(keys)
    ensures Sorted(Zip(keys, values))
  {
    if |keys| > 1 {
      ZipSorted(keys[1..], values[1..]);
      assert Zip(keys, values)[1..] == Zip(keys[1..], values[1..]);
    }
  }

  lemma ZipCanonical(rule: Rule, keys: seq<Str>, values: seq<Json>)
    requires |keys| == |values| && KeyOrder(keys)
    requires forall i :: 0 <= i < |values| ==> Canonical(rule, values[i])
    ensures Canonical(rule, JObj(Zip(keys, values)))
  {
    ZipSorted(keys, values);
  }

  lemma ZipUnpaired(keys: seq<Str>, values: seq<Json>)
    requires |keys| == |values| && KeyOrder(keys)
    ensures AllUnpaired(JObj(Zip(keys, values))) <==> forall i :: 0 <= i < |values| ==> AllUnpaired(values[i])
  {
    var members := Zip(keys, values);
    assert forall i :: 0 <= i < |members| ==> members[i] == Member(keys[i], values[i]);
  }

  lemma TextBefore(a: string, b: string, i: nat)
    requires i < |a| && i < |b| && a[i] < b[i] && forall k :: 0 <= k < i ==> a[k] == b[k]
    ensures Order.Less(K(a), K(b))
  {
    Order.LessAt(K(a), K(b), i);
  }

  lemma {:induction false} KeyOrderOf(keys: seq<Str>)
    requires forall i :: 0 <= i < |keys| ==> keys[i] != [] && Unpaired(keys[i])
    requires forall i, j :: 0 <= i && j == i + 1 && j < |keys| ==> Order.Less(keys[i], keys[j])
    ensures KeyOrder(keys)
  {
    if |keys| > 1 {
      var tail := keys[1..];
      forall i, j | 0 <= i && j == i + 1 && j < |tail|
        ensures Order.Less(tail[i], tail[j])
      {
        assert tail[i] == keys[i + 1] && tail[j] == keys[j + 1];
      }
      KeyOrderOf(tail);
    }
  }

  predicate Leaf(v: Json) {
    v.JStr? || v.JInt?
  }

  lemma LeafCanonical(rule: Rule, v: Json)
    requires Leaf(v)
    ensures Canonical(rule, v)
  {
  }

  // ----- Looking up keys ---------------------------------------------------------------------

  function Get(members: seq<Member>, key: Str): Option<Json> {
    if members == [] then None
    else if members[0].key == key then Some(members[0].value)
    else Get(members[1..], key)
  }

  lemma {:induction false} GetAt(members: seq<Member>, i: nat)
    requires Sorted(members) && i < |members|
    ensures Get(members, members[i].key) == Some(members[i].value)
  {
    if i > 0 {
      HeadIsLeast(members[1..], members[0].key);
      assert members[1..][i - 1] == members[i];
      GetAt(members[1..], i - 1);
    }
  }

  lemma {:induction false} GetAbsent(members: seq<Member>, key: Str)
    requires !Has(members, key)
    ensures Get(members, key) == None
  {
    if members != [] {
      assert members[0].key != key;
      assert forall i :: 0 <= i < |members[1..]| ==> members[1..][i] == members[i + 1];
      GetAbsent(members[1..], key);
    }
  }

  lemma GetZip(keys: seq<Str>, values: seq<Json>, i: nat)
    requires |keys| == |values| && KeyOrder(keys) && i < |keys|
    ensures Get(Zip(keys, values), keys[i]) == Some(values[i])
  {
    ZipSorted(keys, values);
    GetAt(Zip(keys, values), i);
  }

  /** What a dict has under a key. */
  function Under(v: Json, key: string): Option<Json> {
    if v.JObj? then Get(v.members, K(key)) else None
  }

  /** What the text of a dict says under a key. */
  function Field(text: Bytes, key: string): Option<Json> {
    match Loads(text)
    case None => None
    case Some(v) => Under(v, key)
  }

  /** How many keys it has. */
  function Size(text: Bytes): nat {
    match Loads(text)
    case None => 0
    case Some(v) => if v.JObj? then |v.members| else 0
  }

  /** The value of a fixed key. */
  lemma UnderZip(keys: seq<Str>, values: seq<Json>, i: nat, key: string)
    requires |keys| == |values| && KeyOrder(keys) && i < |keys| && keys[i] == K(key)
    ensures Under(JObj(Zip(keys, values)), key) == Some(values[i])
  {
    GetZip(keys, values, i);
  }

  lemma GetsZip(keys: seq<Str>, values: seq<Json>)
    requires |keys| == |values| && KeyOrder(keys)
    ensures forall i :: 0 <= i < |keys| ==> Get(Zip(keys, values), keys[i]) == Some(values[i])
  {
    forall i | 0 <= i < |keys|
      ensures Get(Zip(keys, values), keys[i]) == Some(values[i])
    {
      GetZip(keys, values, i);
    }
  }
}
