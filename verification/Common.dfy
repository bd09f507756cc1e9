/** Values shared by every component: optional results, bytes and byte strings. */
module Common {
  datatype Option<+T> = None | Some(value: T)

  type Byte = x: int | 0 <= x < 256
  type Bytes = seq<Byte>

  function Min(a: int, b: int): int {
    if a <= b then a else b
  }

  function Max(a: int, b: int): int {
    if a >= b then a else b
  }

  /** Concatenation of a list of pieces, in order. */
  function Concat<T>(pieces: seq<seq<T>>): seq<T> {
    if pieces == [] then [] else pieces[0] + Concat(pieces[1..])
  }

  lemma {:induction false} ConcatSnoc<T>(pieces: seq<seq<T>>, last: seq<T>)
    ensures Concat(pieces + [last]) == Concat(pieces) + last
  {
    if pieces == [] {
      assert pieces + [last] == [last];
      assert Concat([last]) == last + Concat([]);
    } else {
      assert (pieces + [last])[1..] == pieces[1..] + [last];
      ConcatSnoc(pieces[1..], last);
    }
  }

  lemma {:induction false} UniformLength<T>(pieces: seq<seq<T>>, w: nat)
    requires forall k :: 0 <= k < |pieces| ==> |pieces[k]| == w
    ensures |Concat(pieces)| == |pieces| * w
  {
    if pieces != [] {
      UniformLength(pieces[1..], w);
      assert |pieces| * w == w + (|pieces| - 1) * w;
    }
  }

  /** Element `j` of piece `i` in a concatenation of pieces of one length. */
  lemma {:induction false} UniformAt<T>(pieces: seq<seq<T>>, w: nat, i: nat, j: nat)
    requires (forall k :: 0 <= k < |pieces| ==> |pieces[k]| == w) && i < |pieces| && j < w
    ensures 0 <= i * w + j < |Concat(pieces)| && Concat(pieces)[i * w + j] == pieces[i][j]
  {
    UniformLength(pieces, w);
    if i > 0 {
      UniformAt(pieces[1..], w, i - 1, j);
      assert i * w == w + (i - 1) * w;
      assert Concat(pieces) == pieces[0] + Concat(pieces[1..]);
    } else {
      assert i * w == 0;
      assert Concat(pieces) == pieces[0] + Concat(pieces[1..]);
    }
  }

  lemma SameElements<T>(a: seq<T>, b: seq<T>)
    requires multiset(a) == multiset(b)
    ensures forall x :: x in a <==> x in b
  {
    assert forall x :: x in a <==> x in multiset(a);
    assert forall x :: x in b <==> x in multiset(b);
  }

  /** No two elements have the same key. */
  predicate DistinctKeys<T>(s: seq<T>, key: T -> nat) {
    forall i, j :: 0 <= i < j < |s| ==> key(s[i]) != key(s[j])
  }

  lemma {:induction false} CountedOnce<T>(s: seq<T>, key: T -> nat, x: T)
    requires DistinctKeys(s, key)
    ensures multiset(s)[x] <= 1
  {
    if s != [] {
      var tail := s[1..];
      assert s == [s[0]] + tail;
      assert forall i :: 0 <= i < |tail| ==> tail[i] == s[i + 1];
      CountedOnce(tail, key, x);
      if s[0] == x {
        assert x !in tail;
        assert multiset(tail)[x] == 0;
      }
    }
  }

  lemma CountedTwice<T>(s: seq<T>, i: nat, j: nat)
    requires i < j < |s| && s[i] == s[j]
    ensures multiset(s)[s[i]] >= 2
  {
    var (a, b) := (s[..j], s[j..]);
    assert s == a + b;
    assert a[i] == s[i] && b[0] == s[j];
  }

  /** Distinct keys do not depend on the order. */
  lemma PermutedKeys<T>(a: seq<T>, b: seq<T>, key: T -> nat)
    requires multiset(a) == multiset(b) && DistinctKeys(a, key)
    ensures DistinctKeys(b, key)
  {
    forall i, j | 0 <= i < j < |b|
      ensures key(b[i]) != key(b[j])
    {
      assert b[i] in multiset(b) && b[j] in multiset(b);
      var k :| 0 <= k < |a| && a[k] == b[i];
      var l :| 0 <= l < |a| && a[l] == b[j];
      if k == l {
        CountedTwice(b, i, j);
        CountedOnce(a, key, b[i]);
      }
    }
  }

  /** `n` numbers that cover those below `n` are just these, each once. */
  lemma {:induction false} CoveredOnce(s: seq<nat>, n: nat)
    requires |s| == n && forall i: nat :: i < n ==> i in s
    ensures forall i :: 0 <= i < n ==> s[i] < n
    ensures forall i, j :: 0 <= i < j < n ==> s[i] != s[j]
  {
    if n > 0 {
      assert n - 1 in s;
      var k :| 0 <= k < n && s[k] == n - 1;
      var rest := s[..k] + s[k + 1..];
      forall i: nat | i < n - 1
        ensures i in rest
      {
        assert i in s;
        var j :| 0 <= j < n && s[j] == i;
        assert rest[if j < k then j else j - 1] == i;
      }
      CoveredOnce(rest, n - 1);
      forall i | 0 <= i < n && i != k
        ensures s[i] < n - 1
      {
        assert rest[if i < k then i else i - 1] == s[i];
      }
      forall i, j | 0 <= i < j < n
        ensures s[i] != s[j]
      {
        if i != k && j != k {
          assert rest[if i < k then i else i - 1] == s[i] && rest[if j < k then j else j - 1] == s[j];
        }
      }
    }
  }

  /** Numbers in ascending order that stay below `n`, `n` of them, are their own indices. */
  lemma {:induction false} AscendingAt(s: seq<nat>, n: nat, i: nat)
    requires |s| == n && i < n && (forall k :: 0 <= k < n ==> s[k] < n) && forall j, k :: 0 <= j < k < n ==> s[j] < s[k]
    ensures s[i] == i
  {
    AtLeast(s, i);
    if s[i] > i {
      AtLeastFrom(s, i, n - 1);
    }
  }

  lemma {:induction false} AtLeast(s: seq<nat>, i: nat)
    requires i < |s| && forall j, k :: 0 <= j < k < |s| ==> s[j] < s[k]
    ensures s[i] >= i
  {
    if i > 0 {
      AtLeast(s, i - 1);
    }
  }

  lemma {:induction false} AtLeastFrom(s: seq<nat>, i: nat, m: nat)
    requires i <= m < |s| && forall j, k :: 0 <= j < k < |s| ==> s[j] < s[k]
    ensures s[m] >= s[i] + (m - i)
  {
    if m > i {
      AtLeastFrom(s, i, m - 1);
    }
  }

  /** The numbers below `n`. */
  function Below(n: nat): (r: set<nat>)
    ensures forall i: nat :: i in r <==> i < n
  {
    if n == 0 then {} else Below(n - 1) + {n - 1}
  }
}
