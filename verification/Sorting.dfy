/** Sorting by a strict order: the arrangement depends on the elements only. */
module Sorting {
  /** `less` is a strict total order on the elements of `dom`. */
  ghost predicate Strict<T(!new)>(less: (T, T) -> bool, dom: set<T>) {
    && (forall a :: a in dom ==> !less(a, a))
    && (forall a, b, c :: a in dom && b in dom && c in dom && less(a, b) && less(b, c) ==> less(a, c))
    && (forall a, b :: a in dom && b in dom ==> a == b || less(a, b) || less(b, a))
  }

  predicate Ascending<T>(less: (T, T) -> bool, s: seq<T>) {
    forall i, j :: 0 <= i < j < |s| ==> less(s[i], s[j])
  }

  function Elements<T>(s: seq<T>): (r: set<T>)
  {
    set x | x in s
  }

  function Insert<T>(less: (T, T) -> bool, s: seq<T>, x: T): (r: seq<T>)
    ensures |r| == |s| + 1
  {
    if s == [] || less(x, s[0]) then [x] + s else [s[0]] + Insert(less, s[1..], x)
  }

  function Sort<T>(less: (T, T) -> bool, s: seq<T>): (r: seq<T>)
    ensures |r| == |s|
  {
    if s == [] then [] else Insert(less, Sort(less, s[1..]), s[0])
  }

  lemma {:induction false} InsertElements<T>(less: (T, T) -> bool, s: seq<T>, x: T)
    ensures forall y :: y in Insert(less, s, x) <==> y == x || y in s
  {
    if s != [] && !less(x, s[0]) {
      InsertElements(less, s[1..], x);
      assert s == [s[0]] + s[1..];
    }
  }

  lemma {:induction false} SortElements<T>(less: (T, T) -> bool, s: seq<T>)
    ensures forall y :: y in Sort(less, s) <==> y in s
  {
    if s != [] {
      SortElements(less, s[1..]);
      InsertElements(less, Sort(less, s[1..]), s[0]);
      assert s == [s[0]] + s[1..];
    }
  }

  lemma {:induction false} InsertAscending<T(!new)>(less: (T, T) -> bool, s: seq<T>, x: T, dom: set<T>)
    requires Strict(less, dom) && Ascending(less, s) && x in dom && x !in s && forall y :: y in s ==> y in dom
    ensures Ascending(less, Insert(less, s, x))
  {
    if s != [] {
      if less(x, s[0]) {
        assert forall j :: 0 < j < |s| ==> less(s[0], s[j]) && s[j] in dom;
      } else {
        var tail := s[1..];
        assert s[0] in s && forall j :: 0 <= j < |tail| ==> tail[j] == s[j + 1];
        InsertAscending(less, tail, x, dom);
        InsertElements(less, tail, x);
        var r := Insert(less, tail, x);
        forall j | 0 <= j < |r|
          ensures less(s[0], r[j])
        {
          assert r[j] in r;
          if r[j] != x {
            var k :| 0 <= k < |tail| && tail[k] == r[j];
          }
        }
      }
    }
  }

  predicate NoDuplicates<T(==)>(s: seq<T>) {
    forall i, j :: 0 <= i < j < |s| ==> s[i] != s[j]
  }

  lemma {:induction false} SortAscending<T(!new)>(less: (T, T) -> bool, s: seq<T>, dom: set<T>)
    requires Strict(less, dom) && NoDuplicates(s) && forall y :: y in s ==> y in dom
    ensures Ascending(less, Sort(less, s))
  {
    if s != [] {
      var tail := s[1..];
      assert s[0] in s && forall j :: 0 <= j < |tail| ==> tail[j] == s[j + 1];
      assert s[0] !in tail;
      SortAscending(less, tail, dom);
      SortElements(less, tail);
      InsertAscending(less, Sort(less, tail), s[0], dom);
    }
  }

  lemma FirstIsIn<T>(s: seq<T>)
    ensures s != [] ==> s[0] in s
  {
  }

  /** There is one ascending arrangement of a set of elements. */
  lemma {:induction false} AscendingUnique<T(!new)>(less: (T, T) -> bool, s: seq<T>, t: seq<T>, dom: set<T>)
    requires Strict(less, dom) && Ascending(less, s) && Ascending(less, t)
    requires forall y :: y in s ==> y in dom
    requires forall y :: y in s <==> y in t
    ensures s == t
  {
    if s == [] {
      FirstIsIn(t);
    } else {
      assert s[0] in s;
      var i :| 0 <= i < |t| && t[i] == s[0];
      assert t[0] in t;
      var j :| 0 <= j < |s| && s[j] == t[0];
      assert i == 0;
      TailSame(less, s, t, dom);
      AscendingUnique(less, s[1..], t[1..], dom);
      assert s == [s[0]] + s[1..] && t == [t[0]] + t[1..];
    }
  }

  lemma TailSame<T(!new)>(less: (T, T) -> bool, s: seq<T>, t: seq<T>, dom: set<T>)
    requires Strict(less, dom) && Ascending(less, s) && Ascending(less, t) && s != [] && t != [] && s[0] == t[0]
    requires (forall y :: y in s ==> y in dom) && forall y :: y in s <==> y in t
    ensures forall y :: y in s[1..] <==> y in t[1..]
  {
    TailIs(less, s, dom);
    TailIs(less, t, dom);
  }

  lemma TailIs<T(!new)>(less: (T, T) -> bool, s: seq<T>, dom: set<T>)
    requires Strict(less, dom) && Ascending(less, s) && s != [] && forall y :: y in s ==> y in dom
    ensures forall y :: y in s[1..] <==> y in s && y != s[0]
  {
    assert s == [s[0]] + s[1..];
    forall y | y in s[1..]
      ensures y != s[0]
    {
      var k :| 0 <= k < |s[1..]| && s[1..][k] == y;
      assert less(s[0], s[k + 1]);
    }
  }

  /** Sorting does not depend on the order of its input. */
  lemma SortOrderFree<T(!new)>(less: (T, T) -> bool, s: seq<T>, t: seq<T>, dom: set<T>)
    requires Strict(less, dom) && NoDuplicates(s) && NoDuplicates(t)
    requires (forall y :: y in s ==> y in dom) && forall y :: y in s <==> y in t
    ensures Sort(less, s) == Sort(less, t)
  {
    SortAscending(less, s, dom);
    SortAscending(less, t, dom);
    SortElements(less, s);
    SortElements(less, t);
    AscendingUnique(less, Sort(less, s), Sort(less, t), dom);
  }

  lemma AscendingNoDuplicates<T(!new)>(less: (T, T) -> bool, s: seq<T>, dom: set<T>)
    requires Strict(less, dom) && Ascending(less, s) && forall y :: y in s ==> y in dom
    ensures NoDuplicates(s)
  {
    forall i, j | 0 <= i < j < |s|
      ensures s[i] != s[j]
    {
      assert less(s[i], s[j]) && s[i] in s;
    }
  }
}
