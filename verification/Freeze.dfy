/**
 * Freezing an arbitrary Python object into JSON form. Objects are a graph of identities, possibly
 * shared, possibly cyclic; a set of the containers on the current path stops the recursion.
 */
module Freeze {
  import opened Common
  import opened Text
  import opened Json

  type Ref = int

  /** A mapping key: text, or anything else. */
  datatype Key = TextKey(s: Str) | OtherKey

  datatype Entry = Entry(key: Key, ref: Ref)

  /** A leaf: a plain scalar, a NumPy scalar and what `item()` makes of it, or a foreign object. */
  datatype Node =
    | Mapping(entries: seq<Entry>)
    | Listing(refs: seq<Ref>)
    | Scalar(v: Json)
    | NumpyScalar(item: Option<Json>)
    | Foreign

  type Graph = map<Ref, Node>

  predicate Container(n: Node) {
    n.Mapping? || n.Listing?
  }

  function Children(n: Node): seq<Ref> {
    match n
    case Mapping(entries) => seq(|entries|, i requires 0 <= i < |entries| => entries[i].ref)
    case Listing(refs) => refs
    case _ => []
  }

  predicate KeyOk(k: Key) {
    k.TextKey? && k.s != []
  }

  predicate KeysOk(n: Node) {
    n.Mapping? ==> forall i :: 0 <= i < |n.entries| ==> KeyOk(n.entries[i].key)
  }

  /** `None`, text, booleans, integers and finite floats. */
  function Admitted(n: Node): Option<Json> {
    var v := match n
      case Scalar(v) => Some(v)
      case NumpyScalar(item) => item
      case _ => None;
    if v.Some? && (v.value.JNull? || v.value.JBool? || v.value.JInt? || v.value.JStr? || v.value.JFloat?) then v
      else None
  }

  predicate Closed(g: Graph) {
    forall r, i :: r in g && 0 <= i < |Children(g[r])| ==> Children(g[r])[i] in g
  }

  function Containers(g: Graph): set<Ref> {
    set r | r in g && Container(g[r])
  }

  // ----- The specification -------------------------------------------------------------------

  datatype Frozen = FrozenMap(entries: seq<FrozenEntry>) | Tuple(items: seq<Frozen>) | Atom(v: Json)

  datatype FrozenEntry = FrozenEntry(key: Str, value: Frozen)

  function Build(n: Node, frozen: seq<Frozen>): Frozen
    requires Container(n) && KeysOk(n) && |frozen| == |Children(n)|
  {
    match n
    case Mapping(entries) =>
      FrozenMap(seq(|entries|, i requires 0 <= i < |entries| => FrozenEntry(entries[i].key.s, frozen[i])))
    case Listing(_) => Tuple(frozen)
  }

  function Freeze(g: Graph, r: Ref, active: set<Ref>): Option<Frozen>
    requires Closed(g) && r in g
    decreases |Containers(g) - active|, 0
  {
    var n := g[r];
    if !Container(n) then
      (match Admitted(n) case None => None case Some(v) => Some(Atom(v)))
    else if r in active || !KeysOk(n) then None
    else
      Shrinks(g, r, active);
      match FreezeAll(g, Children(n), active + {r})
      case None => None
      case Some(frozen) => Some(Build(n, frozen))
  }

  function FreezeAll(g: Graph, refs: seq<Ref>, active: set<Ref>): (r: Option<seq<Frozen>>)
    requires Closed(g) && forall i :: 0 <= i < |refs| ==> refs[i] in g
    ensures r.Some? ==> |r.value| == |refs|
    decreases |Containers(g) - active|, |refs| + 1
  {
    if refs == [] then Some([])
    else match Freeze(g, refs[0], active)
      case None => None
      case Some(f) =>
        match FreezeAll(g, refs[1..], active)
        case None => None
        case Some(rest) => Some([f] + rest)
  }

  lemma Smaller<T>(a: set<T>, b: set<T>)
    requires a < b
    ensures |a| < |b|
  {
    var x :| x in b && x !in a;
    var rest := b - {x};
    assert a <= rest;
    NotLarger(a, rest);
  }

  lemma {:induction false} NotLarger<T>(a: set<T>, b: set<T>)
    requires a <= b
    ensures |a| <= |b|
    decreases a
  {
    if a != {} {
      var x :| x in a;
      NotLarger(a - {x}, b - {x});
    }
  }

  lemma Shrinks(g: Graph, r: Ref, active: set<Ref>)
    requires r in g && Container(g[r]) && r !in active
    ensures |Containers(g) - (active + {r})| < |Containers(g) - active|
  {
    Smaller(Containers(g) - (active + {r}), Containers(g) - active);
  }

  // ----- The method --------------------------------------------------------------------------

  /** The frozen head put before what the rest of a container freezes to. */
  function Before(head: seq<Frozen>, rest: Option<seq<Frozen>>): Option<seq<Frozen>> {
    match rest
    case None => None
    case Some(tail) => Some(head + tail)
  }

  lemma BeforeAll(refs: seq<Ref>, rest: Option<seq<Frozen>>)
    ensures refs[0..] == refs && Before([], rest) == rest
  {
    if rest.Some? {
      assert [] + rest.value == rest.value;
    }
  }

  lemma FreezeAllStep(g: Graph, refs: seq<Ref>, i: nat, head: seq<Frozen>, active: set<Ref>)
    requires Closed(g) && i < |refs| && forall j :: 0 <= j < |refs| ==> refs[j] in g
    ensures Freeze(g, refs[i], active).Some? ==>
      Before(head, FreezeAll(g, refs[i..], active))
      == Before(head + [Freeze(g, refs[i], active).value], FreezeAll(g, refs[i + 1..], active))
    ensures Freeze(g, refs[i], active).None? ==> Before(head, FreezeAll(g, refs[i..], active)).None?
  {
    assert refs[i..][1..] == refs[i + 1..];
    if Freeze(g, refs[i], active).Some? && FreezeAll(g, refs[i + 1..], active).Some? {
      var f, rest := Freeze(g, refs[i], active).value, FreezeAll(g, refs[i + 1..], active).value;
      assert head + ([f] + rest) == (head + [f]) + rest;
    }
  }

  class Freezer {
    var active: set<Ref>

    constructor ()
      ensures active == {}
    {
      active := {};
    }

    /** The recursive copy: it fails exactly where the specification does, and the active set is as it was. */
    method FreezeJson(g: Graph, r: Ref) returns (result: Option<Frozen>)
      requires Closed(g) && r in g
      modifies this
      ensures active == old(active)
      ensures result == Freeze(g, r, old(active))
      decreases |Containers(g) - active|, 1
    {
      if !Container(g[r]) {
        var v := Admitted(g[r]);
        return if v.Some? then Some(Atom(v.value)) else None;
      }
      if r in active {
        return None;
      }
      Shrinks(g, r, active);
      active := active + {r};
      if g[r].Mapping? {
        result := FreezeEntries(g, r);
      } else {
        result := FreezeItems(g, r);
      }
      active := active - {r};
    }

    method FreezeEntries(g: Graph, r: Ref) returns (result: Option<Frozen>)
      requires Closed(g) && r in g && g[r].Mapping?
      modifies this
      ensures active == old(active)
      ensures result == if KeysOk(g[r]) && FreezeAll(g, Children(g[r]), active).Some?
                        then Some(Build(g[r], FreezeAll(g, Children(g[r]), active).value)) else None
      decreases |Containers(g) - active|, 2
    {
      var entries := g[r].entries;
      ghost var refs := Children(g[r]);
      var entered: seq<FrozenEntry> := [];
      ghost var values: seq<Frozen> := [];
      var i := 0;
      BeforeAll(refs, FreezeAll(g, refs, active));
      while i < |entries|
        invariant active == old(active)
        invariant 0 <= i <= |entries| && |entered| == |values| == i
        invariant forall k :: 0 <= k < i ==>
          KeyOk(entries[k].key) && entered[k] == FrozenEntry(entries[k].key.s, values[k])
        invariant FreezeAll(g, refs, active) == Before(values, FreezeAll(g, refs[i..], active))
      {
        if !KeyOk(entries[i].key) {
          return None;
        }
        FreezeAllStep(g, refs, i, values, active);
        var f := FreezeJson(g, entries[i].ref);
        if f.None? {
          return None;
        }
        entered := entered + [FrozenEntry(entries[i].key.s, f.value)];
        values := values + [f.value];
        i := i + 1;
      }
      assert refs[i..] == [] && values + [] == values;
      assert Build(g[r], values).entries == entered;
      return Some(FrozenMap(entered));
    }

    method FreezeItems(g: Graph, r: Ref) returns (result: Option<Frozen>)
      requires Closed(g) && r in g && g[r].Listing?
      modifies this
      ensures active == old(active)
      ensures result == if FreezeAll(g, Children(g[r]), active).Some?
                        then Some(Tuple(FreezeAll(g, Children(g[r]), active).value)) else None
      decreases |Containers(g) - active|, 2
    {
      var refs := Children(g[r]);
      var items: seq<Frozen> := [];
      var i := 0;
      BeforeAll(refs, FreezeAll(g, refs, active));
      while i < |refs|
        invariant active == old(active)
        invariant 0 <= i <= |refs|
        invariant FreezeAll(g, refs, active) == Before(items, FreezeAll(g, refs[i..], active))
      {
        FreezeAllStep(g, refs, i, items, active);
        var f := FreezeJson(g, refs[i]);
        if f.None? {
          return None;
        }
        items := items + [f.value];
        i := i + 1;
      }
      assert refs[i..] == [] && items + [] == items;
      return Some(Tuple(items));
    }
  }

  // ----- When freezing fails -----------------------------------------------------------------

  /** What no path excuses: a leaf outside JSON, or a mapping key that is not a non-empty text. */
  predicate Inadmissible(n: Node) {
    if Container(n) then !KeysOk(n) else Admitted(n).None?
  }

  /** Following child positions from an object. */
  function Follow(g: Graph, r: Ref, path: seq<nat>): Option<Ref>
    requires Closed(g) && r in g
    decreases path
  {
    if path == [] then Some(r)
    else if path[0] >= |Children(g[r])| then None
    else Follow(g, Children(g[r])[path[0]], path[1..])
  }

  /** The path ends, and ends for the first time, at something inadmissible or at a container already active. */
  predicate Fails(g: Graph, r: Ref, active: set<Ref>, path: seq<nat>)
    requires Closed(g) && r in g
    decreases path
  {
    if path == [] then Inadmissible(g[r]) || (Container(g[r]) && r in active)
    else
      && Container(g[r]) && r !in active && path[0] < |Children(g[r])|
      && Fails(g, Children(g[r])[path[0]], active + {r}, path[1..])
  }

  ghost predicate Blocked(g: Graph, r: Ref, active: set<Ref>)
    requires Closed(g) && r in g
  {
    exists path :: Fails(g, r, active, path)
  }

  lemma BlockedChild(g: Graph, r: Ref, active: set<Ref>)
    requires Closed(g) && r in g && Container(g[r]) && r !in active && KeysOk(g[r])
    ensures Blocked(g, r, active)
      <==> exists i :: 0 <= i < |Children(g[r])| && Blocked(g, Children(g[r])[i], active + {r})
  {
    if path :| Fails(g, r, active, path) {
      assert Fails(g, Children(g[r])[path[0]], active + {r}, path[1..]);
    }
    if i :| 0 <= i < |Children(g[r])| && Blocked(g, Children(g[r])[i], active + {r}) {
      var p :| Fails(g, Children(g[r])[i], active + {r}, p);
      Prepend(g, r, active, i, p);
    }
  }

  /** Freezing fails exactly when some path does. */
  lemma {:induction false} FreezeFailsIff(g: Graph, r: Ref, active: set<Ref>)
    requires Closed(g) && r in g
    ensures Freeze(g, r, active).None? <==> Blocked(g, r, active)
    decreases |Containers(g) - active|, 0
  {
    if !Container(g[r]) || r in active || !KeysOk(g[r]) {
      if Freeze(g, r, active).None? {
        assert Fails(g, r, active, []);
      }
    } else {
      Shrinks(g, r, active);
      BlockedChild(g, r, active);
      FreezeAllFailsIff(g, Children(g[r]), active + {r});
    }
  }

  lemma {:induction false} FreezeAllFailsIff(g: Graph, refs: seq<Ref>, active: set<Ref>)
    requires Closed(g) && forall i :: 0 <= i < |refs| ==> refs[i] in g
    ensures FreezeAll(g, refs, active).None? <==> exists i :: 0 <= i < |refs| && Blocked(g, refs[i], active)
    decreases |Containers(g) - active|, |refs| + 1
  {
    if refs != [] {
      FreezeFailsIff(g, refs[0], active);
      FreezeAllFailsIff(g, refs[1..], active);
      assert forall i :: 0 <= i < |refs[1..]| ==> refs[1..][i] == refs[i + 1];
      if i :| 0 < i < |refs| && Blocked(g, refs[i], active) {
        assert refs[1..][i - 1] == refs[i];
      }
    }
  }

  // ----- Reachable cycles --------------------------------------------------------------------

  /** A way back to an object, through at least one step. */
  predicate OnCycle(g: Graph, r: Ref, loop: seq<nat>)
    requires Closed(g) && r in g
  {
    loop != [] && Follow(g, r, loop) == Some(r)
  }

  ghost predicate ReachesInadmissible(g: Graph, r: Ref, path: seq<nat>)
    requires Closed(g) && r in g
  {
    Follow(g, r, path).Some? && Follow(g, r, path).value in g && Inadmissible(g[Follow(g, r, path).value])
  }

  ghost predicate ReachesCycle(g: Graph, r: Ref, path: seq<nat>, loop: seq<nat>)
    requires Closed(g) && r in g
  {
    Follow(g, r, path).Some? && Follow(g, r, path).value in g && OnCycle(g, Follow(g, r, path).value, loop)
  }

  /** A path that meets the active set, or an inadmissible object, has a failing prefix. */
  lemma {:induction false} BlockedPath(g: Graph, r: Ref, active: set<Ref>, path: seq<nat>)
    requires Closed(g) && r in g && ReachesInadmissible(g, r, path)
    ensures Blocked(g, r, active)
    decreases path
  {
    if path == [] || (Container(g[r]) && r in active) || Inadmissible(g[r]) {
      assert Fails(g, r, active, []);
    } else {
      var next := Children(g[r])[path[0]];
      BlockedPath(g, next, active + {r}, path[1..]);
      var p :| Fails(g, next, active + {r}, p);
      Prepend(g, r, active, path[0], p);
    }
  }

  lemma Prepend(g: Graph, r: Ref, active: set<Ref>, i: nat, p: seq<nat>)
    requires Closed(g) && r in g && Container(g[r]) && r !in active && i < |Children(g[r])|
    requires Fails(g, Children(g[r])[i], active + {r}, p)
    ensures Fails(g, r, active, [i] + p)
  {
    assert ([i] + p)[1..] == p;
  }

  /** A path longer than the containers left cannot avoid the active set. */
  lemma {:induction false} LongPathFails(g: Graph, r: Ref, active: set<Ref>, path: seq<nat>)
    requires Closed(g) && r in g && Follow(g, r, path).Some? && |path| > |Containers(g) - active|
    ensures Blocked(g, r, active)
    decreases path
  {
    if r in active {
      assert Fails(g, r, active, []);
    } else {
      Shrinks(g, r, active);
      var next := Children(g[r])[path[0]];
      LongPathFails(g, next, active + {r}, path[1..]);
      var p :| Fails(g, next, active + {r}, p);
      Prepend(g, r, active, path[0], p);
    }
  }

  lemma {:induction false} FollowConcat(g: Graph, r: Ref, p: seq<nat>, q: seq<nat>)
    requires Closed(g) && r in g && Follow(g, r, p).Some? && Follow(g, r, p).value in g
    ensures Follow(g, r, p + q) == Follow(g, Follow(g, r, p).value, q)
    decreases p
  {
    if p == [] {
      assert p + q == q;
    } else {
      assert (p + q)[1..] == p[1..] + q;
      FollowConcat(g, Children(g[r])[p[0]], p[1..], q);
    }
  }

  function Repeat(loop: seq<nat>, n: nat): (r: seq<nat>)
    ensures |r| == n * |loop|
  {
    if n == 0 then [] else loop + Repeat(loop, n - 1)
  }

  lemma {:induction false} RoundAndRound(g: Graph, r: Ref, loop: seq<nat>, n: nat)
    requires Closed(g) && r in g && OnCycle(g, r, loop)
    ensures Follow(g, r, Repeat(loop, n)) == Some(r)
  {
    if n > 0 {
      RoundAndRound(g, r, loop, n - 1);
      FollowConcat(g, r, loop, Repeat(loop, n - 1));
    }
  }

  lemma CycleFails(g: Graph, r: Ref, path: seq<nat>, loop: seq<nat>)
    requires Closed(g) && r in g && ReachesCycle(g, r, path, loop)
    ensures Blocked(g, r, {})
  {
    var x := Follow(g, r, path).value;
    var n := |Containers(g)| + 1;
    var around := Repeat(loop, n);
    RoundAndRound(g, x, loop, n);
    FollowConcat(g, r, path, around);
    LongEnough(n, |loop|);
    assert Containers(g) - {} == Containers(g);
    LongPathFails(g, r, {}, path + around);
  }

  lemma LongEnough(n: nat, m: nat)
    requires m > 0
    ensures n * m >= n
  {
  }

  /**
   * What a failing path proves: it ends at something inadmissible, or back at an object it went through, or in
   * `active`.
   */
  lemma {:induction false} FailingPath(g: Graph, r: Ref, active: set<Ref>, path: seq<nat>)
    requires Closed(g) && r in g && Fails(g, r, active, path)
    ensures Follow(g, r, path).Some? && Follow(g, r, path).value in g
    ensures
      || ReachesInadmissible(g, r, path)
      || Follow(g, r, path).value in active
      || exists k :: 0 <= k < |path| && ReachesCycle(g, r, path[..k], path[k..])
    decreases path
  {
    if path != [] {
      var next := Children(g[r])[path[0]];
      var rest := path[1..];
      FailingPath(g, next, active + {r}, rest);
      if k :| 0 <= k < |rest| && ReachesCycle(g, next, rest[..k], rest[k..]) {
        assert path[..k + 1][1..] == rest[..k] && path[k + 1..] == rest[k..];
        assert ReachesCycle(g, r, path[..k + 1], path[k + 1..]);
      } else if !ReachesInadmissible(g, next, rest) && Follow(g, next, rest).value == r {
        assert path[..0] == [] && path[0..] == path;
        assert ReachesCycle(g, r, path[..0], path[0..]);
      }
    }
  }

  /**
   * Freezing fails exactly when a cycle or something inadmissible can be reached; objects shared by
   * several containers are no obstacle.
   */
  lemma FreezeSucceedsIff(g: Graph, r: Ref)
    requires Closed(g) && r in g
    ensures Freeze(g, r, {}).Some?
      <==> (forall path :: !ReachesInadmissible(g, r, path)) && (forall path, loop :: !ReachesCycle(g, r, path, loop))
  {
    FreezeFailsIff(g, r, {});
    if Freeze(g, r, {}).None? {
      var path :| Fails(g, r, {}, path);
      FailingPath(g, r, {}, path);
    }
    if path :| ReachesInadmissible(g, r, path) {
      BlockedPath(g, r, {}, path);
    }
    if path, loop :| ReachesCycle(g, r, path, loop) {
      CycleFails(g, r, path, loop);
    }
  }

  // ----- Thawing -----------------------------------------------------------------------------

  function Thaw(f: Frozen): Json
    decreases f, 0
  {
    match f
    case Atom(v) => v
    case Tuple(items) => JArr(ThawItems(items))
    case FrozenMap(entries) => JObj(ThawEntries(entries))
  }

  function ThawItems(items: seq<Frozen>): (r: seq<Json>)
    ensures |r| == |items|
    decreases items, 1
  {
    if items == [] then [] else [Thaw(items[0])] + ThawItems(items[1..])
  }

  function ThawEntries(entries: seq<FrozenEntry>): (r: seq<Member>)
    ensures |r| == |entries|
    decreases entries, 1
  {
    if entries == [] then [] else [Member(entries[0].key, Thaw(entries[0].value))] + ThawEntries(entries[1..])
  }

  /** The object stands for this JSON value: an independent reading of the graph, by the shape of the value. */
  predicate Denotes(g: Graph, r: Ref, v: Json)
    requires Closed(g) && r in g
    decreases v
  {
    match g[r]
    case Listing(refs) =>
      && v.JArr? && |v.items| == |refs|
      && forall i :: 0 <= i < |refs| ==> Children(g[r])[i] in g && Denotes(g, Children(g[r])[i], v.items[i])
    case Mapping(entries) =>
      && v.JObj? && |v.members| == |entries|
      && forall i :: 0 <= i < |entries| ==>
           && Children(g[r])[i] in g && KeyOk(entries[i].key) && v.members[i].key == entries[i].key.s
           && Denotes(g, Children(g[r])[i], v.members[i].value)
    case _ => Admitted(g[r]) == Some(v)
  }

  lemma {:induction false} ThawItemsAt(items: seq<Frozen>, i: nat)
    requires i < |items|
    ensures ThawItems(items)[i] == Thaw(items[i])
  {
    if i > 0 {
      ThawItemsAt(items[1..], i - 1);
    }
  }

  lemma {:induction false} ThawEntriesAt(entries: seq<FrozenEntry>, i: nat)
    requires i < |entries|
    ensures ThawEntries(entries)[i] == Member(entries[i].key, Thaw(entries[i].value))
  {
    if i > 0 {
      ThawEntriesAt(entries[1..], i - 1);
    }
  }

  /** Thawing what was frozen gives the JSON value the object stands for. */
  lemma {:induction false} ThawRecovers(g: Graph, r: Ref, active: set<Ref>)
    requires Closed(g) && r in g && Freeze(g, r, active).Some?
    ensures Denotes(g, r, Thaw(Freeze(g, r, active).value))
    decreases |Containers(g) - active|, 0
  {
    if Container(g[r]) {
      Shrinks(g, r, active);
      var refs := Children(g[r]);
      var frozen := FreezeAll(g, refs, active + {r}).value;
      ThawAllRecovers(g, refs, active + {r});
      var f := Build(g[r], frozen);
      forall i | 0 <= i < |refs|
        ensures refs[i] in g && Denotes(g, refs[i], Thaw(frozen[i]))
        ensures f.Tuple? ==> ThawItems(f.items)[i] == Thaw(frozen[i])
        ensures f.FrozenMap? ==> ThawEntries(f.entries)[i] == Member(g[r].entries[i].key.s, Thaw(frozen[i]))
      {
        if f.Tuple? {
          ThawItemsAt(f.items, i);
        } else {
          ThawEntriesAt(f.entries, i);
        }
      }
    }
  }

  lemma {:induction false} ThawAllRecovers(g: Graph, refs: seq<Ref>, active: set<Ref>)
    requires Closed(g) && forall i :: 0 <= i < |refs| ==> refs[i] in g
    requires FreezeAll(g, refs, active).Some?
    ensures forall i :: 0 <= i < |refs| ==> Denotes(g, refs[i], Thaw(FreezeAll(g, refs, active).value[i]))
    decreases |Containers(g) - active|, |refs| + 1
  {
    if refs != [] {
      ThawRecovers(g, refs[0], active);
      ThawAllRecovers(g, refs[1..], active);
      var frozen := FreezeAll(g, refs, active).value;
      assert frozen[1..] == FreezeAll(g, refs[1..], active).value;
      forall i | 0 < i < |refs|
        ensures Denotes(g, refs[i], Thaw(frozen[i]))
      {
        assert refs[i] == refs[1..][i - 1] && frozen[i] == frozen[1..][i - 1];
      }
    }
  }

  /** An object stands for at most one JSON value. */
  lemma {:induction false} DenotesOnce(g: Graph, r: Ref, v: Json, w: Json)
    requires Closed(g) && r in g && Denotes(g, r, v) && Denotes(g, r, w)
    ensures v == w
    decreases v
  {
    if g[r].Listing? {
      forall i | 0 <= i < |v.items|
        ensures v.items[i] == w.items[i]
      {
        DenotesOnce(g, Children(g[r])[i], v.items[i], w.items[i]);
      }
      assert v.items == w.items;
    } else if g[r].Mapping? {
      forall i | 0 <= i < |v.members|
        ensures v.members[i] == w.members[i]
      {
        DenotesOnce(g, Children(g[r])[i], v.members[i].value, w.members[i].value);
      }
      assert v.members == w.members;
    }
  }

  function Depth(v: Json): (d: nat)
    decreases v, 0
  {
    match v
    case JArr(items) => 1 + ItemsDepth(items)
    case JObj(members) => 1 + MembersDepth(members)
    case _ => 0
  }

  function ItemsDepth(items: seq<Json>): nat
    decreases items, 1
  {
    if items == [] then 0 else Max(Depth(items[0]), ItemsDepth(items[1..]))
  }

  function MembersDepth(members: seq<Member>): nat
    decreases members, 1
  {
    if members == [] then 0 else Max(Depth(members[0].value), MembersDepth(members[1..]))
  }

  lemma {:induction false} ItemDepth(items: seq<Json>, i: nat)
    requires i < |items|
    ensures Depth(items[i]) <= ItemsDepth(items)
  {
    if i > 0 {
      ItemDepth(items[1..], i - 1);
    }
  }

  lemma {:induction false} MemberDepth(members: seq<Member>, i: nat)
    requires i < |members|
    ensures Depth(members[i].value) <= MembersDepth(members)
  {
    if i > 0 {
      MemberDepth(members[1..], i - 1);
    }
  }

  lemma DenotesChild(g: Graph, r: Ref, v: Json, i: nat) returns (c: Json)
    requires Closed(g) && r in g && Denotes(g, r, v) && i < |Children(g[r])|
    ensures Children(g[r])[i] in g && Denotes(g, Children(g[r])[i], c) && Depth(c) < Depth(v)
  {
    if v.JArr? {
      ItemDepth(v.items, i);
      c := v.items[i];
    } else {
      MemberDepth(v.members, i);
      c := v.members[i].value;
    }
  }

  /** Every object on a path stands for a value that is shallower by the length of the path. */
  lemma {:induction false} DenotesAlong(g: Graph, r: Ref, v: Json, path: seq<nat>) returns (u: Json)
    requires Closed(g) && r in g && Denotes(g, r, v) && Follow(g, r, path).Some?
    ensures Follow(g, r, path).value in g && Denotes(g, Follow(g, r, path).value, u)
    ensures Depth(u) + |path| <= Depth(v)
    decreases path
  {
    if path == [] {
      u := v;
    } else {
      var c := DenotesChild(g, r, v, path[0]);
      u := DenotesAlong(g, Children(g[r])[path[0]], c, path[1..]);
    }
  }

  lemma DenotedIsAdmissible(g: Graph, r: Ref, v: Json, path: seq<nat>)
    requires Closed(g) && r in g && Denotes(g, r, v)
    ensures !ReachesInadmissible(g, r, path)
  {
    if ReachesInadmissible(g, r, path) {
      var u := DenotesAlong(g, r, v, path);
    }
  }

  lemma DenotedHasNoCycle(g: Graph, r: Ref, v: Json, path: seq<nat>, loop: seq<nat>)
    requires Closed(g) && r in g && Denotes(g, r, v)
    ensures !ReachesCycle(g, r, path, loop)
  {
    if ReachesCycle(g, r, path, loop) {
      var x := Follow(g, r, path).value;
      var u := DenotesAlong(g, r, v, path);
      var n := Depth(u) + 1;
      RoundAndRound(g, x, loop, n);
      LongEnough(n, |loop|);
      var w := DenotesAlong(g, x, u, Repeat(loop, n));
    }
  }

  /** Freezing and thawing computes the JSON value of an object exactly when it has one. */
  lemma ThawFreezeIff(g: Graph, r: Ref, v: Json)
    requires Closed(g) && r in g
    ensures Freeze(g, r, {}).Some? && Thaw(Freeze(g, r, {}).value) == v <==> Denotes(g, r, v)
  {
    if Denotes(g, r, v) {
      forall path
        ensures !ReachesInadmissible(g, r, path)
      {
        DenotedIsAdmissible(g, r, v, path);
      }
      forall path, loop
        ensures !ReachesCycle(g, r, path, loop)
      {
        DenotedHasNoCycle(g, r, v, path, loop);
      }
      FreezeSucceedsIff(g, r);
    }
    if Freeze(g, r, {}).Some? {
      ThawRecovers(g, r, {});
      if Denotes(g, r, v) {
        DenotesOnce(g, r, v, Thaw(Freeze(g, r, {}).value));
      }
    }
  }

  // ----- Every JSON value is frozen ----------------------------------------------------------

  /** No NaN, no infinity, no empty key. */
  predicate Finite(v: Json)
    decreases v
  {
    match v
    case JNonFinite(_) => false
    case JArr(items) => forall i :: 0 <= i < |items| ==> Finite(items[i])
    case JObj(members) => forall i :: 0 <= i < |members| ==> members[i].key != [] && Finite(members[i].value)
    case _ => true
  }

  /** Objects are fresh: their numbers lie between the two bounds. */
  predicate Between(g: Graph, low: int, high: int) {
    forall r :: r in g ==> low <= r < high
  }

  predicate Within(g: Graph, h: Graph) {
    forall r :: r in g ==> r in h && h[r] == g[r]
  }

  lemma {:induction false} DenotesStill(g: Graph, h: Graph, r: Ref, v: Json)
    requires Closed(g) && Closed(h) && Within(g, h) && r in g && Denotes(g, r, v)
    ensures Denotes(h, r, v)
    decreases v
  {
    forall i | 0 <= i < |Children(g[r])| && (v.JArr? || v.JObj?)
      ensures Denotes(h, Children(h[r])[i], if v.JArr? then v.items[i] else v.members[i].value)
    {
      DenotesStill(g, h, Children(g[r])[i], if v.JArr? then v.items[i] else v.members[i].value);
    }
  }

  function Parts(v: Json): seq<Json> {
    match v
    case JArr(items) => items
    case JObj(members) => seq(|members|, i requires 0 <= i < |members| => members[i].value)
    case _ => []
  }

  /** A container of these objects. */
  function Holder(v: Json, refs: seq<Ref>): Node
    requires |refs| == |Parts(v)|
  {
    match v
    case JArr(_) => Listing(refs)
    case JObj(members) =>
      Mapping(seq(|members|, i requires 0 <= i < |members| => Entry(TextKey(members[i].key), refs[i])))
    case _ => Scalar(v)
  }

  /** A value built as Python objects, from number `low` on. */
  lemma {:induction false} Embed(v: Json, low: int) returns (g: Graph, r: Ref)
    requires Finite(v)
    ensures Closed(g) && r in g && Between(g, low, r + 1) && Denotes(g, r, v)
    decreases v, 1
  {
    var h, refs, high := EmbedAll(v, |Parts(v)|, low);
    r := high;
    g := h[r := Holder(v, refs)];
    assert Within(h, g);
    forall q, i | q in g && 0 <= i < |Children(g[q])|
      ensures Children(g[q])[i] in g
    {
      assert q != r ==> Children(h[q])[i] in h;
    }
    forall i | 0 <= i < |refs|
      ensures Children(g[r])[i] == refs[i] && Denotes(g, refs[i], Parts(v)[i])
    {
      DenotesStill(h, g, refs[i], Parts(v)[i]);
    }
  }

  /** Its first `n` parts. */
  lemma {:induction false} EmbedAll(v: Json, n: nat, low: int) returns (g: Graph, refs: seq<Ref>, high: int)
    requires Finite(v) && n <= |Parts(v)|
    ensures Closed(g) && Between(g, low, high) && low <= high && |refs| == n
    ensures forall i :: 0 <= i < n ==> refs[i] in g && Denotes(g, refs[i], Parts(v)[i])
    decreases v, 0, n
  {
    if n == 0 {
      g, refs, high := map[], [], low;
    } else {
      var h, firsts, middle := EmbedAll(v, n - 1, low);
      var part := Parts(v)[n - 1];
      var k, r := Embed(part, middle);
      g, refs, high := h + k, firsts + [r], r + 1;
      assert Within(h, g) && Within(k, g);
      forall q, i | q in g && 0 <= i < |Children(g[q])|
        ensures Children(g[q])[i] in g
      {
        assert q in k ==> Children(k[q])[i] in k;
        assert q !in k ==> Children(h[q])[i] in h;
      }
      forall i | 0 <= i < n
        ensures Denotes(g, refs[i], Parts(v)[i])
      {
        if i < n - 1 {
          DenotesStill(h, g, refs[i], Parts(v)[i]);
        } else {
          DenotesStill(k, g, r, part);
        }
      }
    }
  }

  lemma {:induction false} DenotedIsFinite(g: Graph, r: Ref, v: Json)
    requires Closed(g) && r in g && Denotes(g, r, v)
    ensures Finite(v)
    decreases v
  {
    forall i | 0 <= i < |Children(g[r])| && (v.JArr? || v.JObj?)
      ensures Finite(if v.JArr? then v.items[i] else v.members[i].value)
    {
      DenotedIsFinite(g, Children(g[r])[i], if v.JArr? then v.items[i] else v.members[i].value);
    }
  }

  /** A graph of objects that freezes and thaws to a value. */
  ghost predicate Survives(v: Json) {
    exists g: Graph, r :: Closed(g) && r in g && Freeze(g, r, {}).Some? && Thaw(Freeze(g, r, {}).value) == v
  }

  /** The values that come out are exactly the JSON values without NaN, infinities and empty keys. */
  lemma SurvivesIff(v: Json)
    ensures Survives(v) <==> Finite(v)
  {
    if Finite(v) {
      var g, r := Embed(v, 0);
      ThawFreezeIff(g, r, v);
    }
    if g: Graph, r :| Closed(g) && r in g && Freeze(g, r, {}).Some? && Thaw(Freeze(g, r, {}).value) == v {
      ThawFreezeIff(g, r, v);
      DenotedIsFinite(g, r, v);
    }
  }

  /** A leaf survives, plain or out of NumPy, exactly when it is a JSON leaf. */
  lemma LeafSurvives(g: Graph, r: Ref, v: Json)
    requires Closed(g) && r in g && g[r] in {Scalar(v), NumpyScalar(Some(v))}
    ensures Freeze(g, r, {}) == if Finite(v) && Parts(v) == [] && !v.JArr? && !v.JObj? then Some(Atom(v)) else None
  {
  }
}
