/**
 The display order of a waterfall: depth-first preorder with siblings by start offset, then id.
 The main result identifies that order with the lexicographic order of the root paths; parents
 before children, sorted siblings, contiguous subtrees and ancestor-closed prefixes follow from it.
 */
module WaterfallOrder {
  import opened Common
  import opened ParentWalk
  import opened TraceModel

  /** Every span of `m` climbs to some root, so depths exist. */
  ghost predicate AllRooted(m: map<Id, Span>) {
    forall id {:trigger Rooted(ParentsOf(m), id)} :: id in m ==> Rooted(ParentsOf(m), id)
  }

  ghost function Kids(m: map<Id, Span>, sel: set<Id>, key: Option<Id>): (kids: seq<Id>)
    requires sel <= m.Keys
    ensures forall k :: k in kids <==> k in sel && m[k].parent == key
    ensures SortedSpans(m, kids)
  {
    SortIds(m, set x | x in sel && m[x].parent == key)
  }

  /** Levels still below `key`, so that visiting terminates. */
  ghost function Level(m: map<Id, Span>, key: Option<Id>): nat
    requires AllRooted(m) && (key.Some? ==> key.value in m)
  {
    if key.None? then |m| + 1
    else
      DepthBounded(ParentsOf(m), key.value);
      |m| - Depth(ParentsOf(m), key.value)
  }

  lemma {:induction false} LevelDrops(m: map<Id, Span>, id: Id)
    requires AllRooted(m) && id in m
    ensures m[id].parent.Some? ==> m[id].parent.value in m
    ensures Level(m, Some(id)) < Level(m, m[id].parent)
  {
    ParentDepth(ParentsOf(m), id);
    if m[id].parent.Some? {
      ParentDepth(ParentsOf(m), m[id].parent.value);
    }
  }

  /** `visit(span_id)`: the span and, below it, its selected children in sibling order. */
  ghost function Preorder(m: map<Id, Span>, sel: set<Id>, id: Id): (r: seq<Id>)
    requires AllRooted(m) && sel <= m.Keys && id in m
    decreases Level(m, Some(id)), 1, 0
  {
    [id] + PreorderAll(m, sel, Some(id), Kids(m, sel, Some(id)))
  }

  ghost function PreorderAll(m: map<Id, Span>, sel: set<Id>, key: Option<Id>, kids: seq<Id>): (r: seq<Id>)
    requires AllRooted(m) && sel <= m.Keys && (key.Some? ==> key.value in m)
    requires forall k :: k in kids ==> k in m && m[k].parent == key
    decreases Level(m, key), 0, |kids|
  {
    if kids == [] then []
    else
      LevelDrops(m, kids[0]);
      Preorder(m, sel, kids[0]) + PreorderAll(m, sel, key, kids[1..])
  }

  /** What `_topological_order` returns. */
  ghost function Display(m: map<Id, Span>, sel: set<Id>): seq<Id>
    requires AllRooted(m) && sel <= m.Keys
  {
    PreorderAll(m, sel, None, Kids(m, sel, None))
  }

  // ----- Root paths and their order -----

  ghost function PathOf(m: map<Id, Span>, id: Id): seq<Id>
    requires AllRooted(m) && id in m
  {
    Path(ParentsOf(m), id)
  }

  ghost function KeyPath(m: map<Id, Span>, key: Option<Id>): seq<Id>
    requires AllRooted(m) && (key.Some? ==> key.value in m)
  {
    if key.None? then [] else PathOf(m, key.value)
  }

  ghost predicate InMap(m: map<Id, Span>, a: seq<Id>) {
    forall x :: x in a ==> x in m
  }

  /** Lexicographic order on root paths, comparing spans by the sibling key. */
  ghost predicate PathLess(m: map<Id, Span>, a: seq<Id>, b: seq<Id>)
    requires InMap(m, a) && InMap(m, b)
  {
    if b == [] then false
    else if a == [] then true
    else if a[0] == b[0] then PathLess(m, a[1..], b[1..])
    else SpanLess(m, a[0], b[0])
  }

  lemma {:induction false} PathInMap(m: map<Id, Span>, id: Id)
    requires AllRooted(m) && id in m
    ensures InMap(m, PathOf(m, id))
    ensures forall x :: x in PathOf(m, id) <==> x in Lineage(ParentsOf(m), id)
    ensures PathOf(m, id) == KeyPath(m, m[id].parent) + [id]
  {
    LineageMembers(ParentsOf(m), id);
    ParentDepth(ParentsOf(m), id);
  }

  lemma {:induction false} PathLessIrreflexive(m: map<Id, Span>, a: seq<Id>)
    requires InMap(m, a)
    ensures !PathLess(m, a, a)
  {
    if a != [] {
      PathLessIrreflexive(m, a[1..]);
    }
  }

  lemma {:induction false} PrefixLess(m: map<Id, Span>, a: seq<Id>, b: seq<Id>)
    requires InMap(m, a) && InMap(m, b) && a < b
    ensures PathLess(m, a, b)
  {
    if a != [] {
      PrefixLess(m, a[1..], b[1..]);
    }
  }

  lemma {:induction false} BranchLess(m: map<Id, Span>, q: seq<Id>, a: seq<Id>, b: seq<Id>)
    requires InMap(m, a) && InMap(m, b)
    requires |q| < |a| && |q| < |b| && q == a[..|q|] == b[..|q|]
    requires a[|q|] != b[|q|] && SpanLess(m, a[|q|], b[|q|])
    ensures PathLess(m, a, b)
  {
    if q != [] {
      assert q[0] == a[0] == b[0];
      assert q[1..] == a[1..][..|q| - 1] == b[1..][..|q| - 1];
      BranchLess(m, q[1..], a[1..], b[1..]);
    }
  }

  /** Anything between a path and one of its extensions is itself an extension. */
  lemma {:induction false} BetweenExtensions(m: map<Id, Span>, a: seq<Id>, c: seq<Id>, b: seq<Id>)
    requires InMap(m, a) && InMap(m, b) && InMap(m, c)
    requires a <= b && PathLess(m, a, c) && PathLess(m, c, b)
    ensures a <= c
  {
    if a != [] {
      SpanLessOrder(m, a[0], c[0]);
      assert a[0] == b[0];
      if c[0] != a[0] {
        assert false;
      }
      BetweenExtensions(m, a[1..], c[1..], b[1..]);
      assert a == [a[0]] + a[1..] && c == [c[0]] + c[1..];
    }
  }

  ghost predicate SortedPaths(m: map<Id, Span>, r: seq<Id>)
    requires AllRooted(m)
    requires forall x :: x in r ==> x in m && InMap(m, PathOf(m, x))
  {
    forall i, j :: 0 <= i < j < |r| ==> PathLess(m, PathOf(m, r[i]), PathOf(m, r[j]))
  }

  // ----- The order theorem -----

  /** Ids visited below `id`: those whose path continues `id`'s through selected spans only. */
  ghost predicate Under(m: map<Id, Span>, sel: set<Id>, id: Id, x: Id)
    requires AllRooted(m) && id in m
  {
    && x in m && id in Lineage(ParentsOf(m), x)
    && Lineage(ParentsOf(m), x) - Lineage(ParentsOf(m), id) <= sel
  }

  lemma {:induction false} UnderHasPrefix(m: map<Id, Span>, id: Id, x: Id)
    requires AllRooted(m) && id in m && x in m && id in Lineage(ParentsOf(m), x)
    ensures PathOf(m, id) <= PathOf(m, x)
    decreases Depth(ParentsOf(m), x)
  {
    ParentDepth(ParentsOf(m), x);
    if x != id {
      ParentDepth(ParentsOf(m), m[x].parent.value);
      UnderHasPrefix(m, id, m[x].parent.value);
    }
  }

  lemma {:induction false} PrefixIsUnder(m: map<Id, Span>, id: Id, x: Id)
    requires AllRooted(m) && id in m && x in m && PathOf(m, id) <= PathOf(m, x)
    ensures id in Lineage(ParentsOf(m), x)
  {
    PathInMap(m, x);
    var q := PathOf(m, id);
    assert q[|q| - 1] == id && PathOf(m, x)[|q| - 1] == id;
  }

  /** `x` lies below `id` exactly when it is `id` or lies below one of `id`'s selected children. */
  lemma {:induction false} UnderSplits(m: map<Id, Span>, sel: set<Id>, id: Id, x: Id)
    requires AllRooted(m) && id in m && sel <= m.Keys
    ensures Under(m, sel, id, x) <==>
            x == id || exists k :: k in sel && m[k].parent == Some(id) && Under(m, sel, k, x)
  {
    var p := ParentsOf(m);
    LineageMembers(p, id);
    if k :| k in sel && m[k].parent == Some(id) && Under(m, sel, k, x) {
      LineageMembers(p, x);
      ParentDepth(p, k);
      assert Lineage(p, k) == {k} + Lineage(p, id);
      LineageMembers(p, k);
    }
    if Under(m, sel, id, x) && x != id {
      ChildTowards(m, id, x);
      var k :| k in m && m[k].parent == Some(id) && k in Lineage(p, x) && k !in Lineage(p, id);
      ParentDepth(p, k);
      assert Lineage(p, k) == {k} + Lineage(p, id);
      assert Under(m, sel, k, x);
    }
  }

  lemma {:induction false} ChildTowards(m: map<Id, Span>, id: Id, x: Id)
    requires AllRooted(m) && id in m && x in m && x != id && id in Lineage(ParentsOf(m), x)
    ensures exists k ::
              k in m && m[k].parent == Some(id) && k in Lineage(ParentsOf(m), x) && k !in Lineage(ParentsOf(m), id)
    decreases Depth(ParentsOf(m), x)
  {
    var p := ParentsOf(m);
    ParentDepth(p, x);
    var q := m[x].parent.value;
    LineageMembers(p, x);
    if q == id {
      ShallowLineage(m, id, x);
      assert x in m && m[x].parent == Some(id) && x in Lineage(p, x) && x !in Lineage(p, id);
    } else {
      ParentDepth(p, q);
      ChildTowards(m, id, q);
      assert Lineage(p, x) == {x} + Lineage(p, q);
    }
  }

  lemma {:induction false} ShallowLineage(m: map<Id, Span>, id: Id, x: Id)
    requires AllRooted(m) && id in m && x in m
    requires Depth(ParentsOf(m), id) < Depth(ParentsOf(m), x)
    ensures x !in Lineage(ParentsOf(m), id)
    decreases Depth(ParentsOf(m), id)
  {
    ParentDepth(ParentsOf(m), id);
    if m[id].parent.Some? {
      ParentDepth(ParentsOf(m), m[id].parent.value);
      ShallowLineage(m, m[id].parent.value, x);
    }
  }

  lemma {:induction false} PreorderSpec(m: map<Id, Span>, sel: set<Id>, id: Id)
    requires AllRooted(m) && sel <= m.Keys && id in m
    ensures forall x :: x in Preorder(m, sel, id) <==> Under(m, sel, id, x)
    ensures forall x :: x in Preorder(m, sel, id) ==> x in m && InMap(m, PathOf(m, x)) && PathOf(m, id) <= PathOf(m, x)
    ensures SortedPaths(m, Preorder(m, sel, id))
    decreases Level(m, Some(id)), 1, 0
  {
    var kids := Kids(m, sel, Some(id));
    PreorderAllSpec(m, sel, Some(id), kids);
    RootOfSubtree(m, sel, id, PreorderAll(m, sel, Some(id), kids));
  }

  /** Putting a span in front of the display of its children gives the display of its subtree. */
  lemma {:induction false} RootOfSubtree(m: map<Id, Span>, sel: set<Id>, id: Id, below: seq<Id>)
    requires AllRooted(m) && sel <= m.Keys && id in m
    requires forall x :: x in below <==> exists k :: k in Kids(m, sel, Some(id)) && Under(m, sel, k, x)
    requires forall x :: x in below ==> x in m && InMap(m, PathOf(m, x)) && PathOf(m, id) < PathOf(m, x)
    requires SortedPaths(m, below)
    ensures forall x :: x in [id] + below <==> Under(m, sel, id, x)
    ensures forall x :: x in [id] + below ==> x in m && InMap(m, PathOf(m, x)) && PathOf(m, id) <= PathOf(m, x)
    ensures SortedPaths(m, [id] + below)
  {
    hide Under, PathLess, Path, Lineage, SortIds, Depth, EndsAt;
    var r := [id] + below;
    PathInMap(m, id);
    forall x
      ensures x in r <==> Under(m, sel, id, x)
    {
      UnderSplits(m, sel, id, x);
    }
    forall i, j | 0 <= i < j < |r|
      ensures PathLess(m, PathOf(m, r[i]), PathOf(m, r[j]))
    {
      assert r[j] == below[j - 1];
      if i == 0 {
        PrefixLess(m, PathOf(m, id), PathOf(m, r[j]));
      } else {
        assert r[i] == below[i - 1];
      }
    }
  }

  lemma {:induction false} PreorderAllSpec(m: map<Id, Span>, sel: set<Id>, key: Option<Id>, kids: seq<Id>)
    requires AllRooted(m) && sel <= m.Keys && (key.Some? ==> key.value in m)
    requires forall k :: k in kids ==> k in m && m[k].parent == key
    requires SortedSpans(m, kids)
    ensures forall x :: x in PreorderAll(m, sel, key, kids) <==> exists k :: k in kids && Under(m, sel, k, x)
    ensures forall x :: x in PreorderAll(m, sel, key, kids) ==>
              x in m && InMap(m, PathOf(m, x)) && KeyPath(m, key) < PathOf(m, x)
                && PathOf(m, x)[|KeyPath(m, key)|] in kids
    ensures SortedPaths(m, PreorderAll(m, sel, key, kids))
    decreases Level(m, key), 0, |kids|
  {
    hide Under, PathLess, Path, PathOf, KeyPath, InMap, Lineage, SortIds, Depth, EndsAt, SpanLess, Level, Kids,
         AllRooted;
    if kids != [] {
      hide SortedPaths;
      var head, tail := kids[0], kids[1..];
      LevelDrops(m, head);
      PreorderSpec(m, sel, head);
      PreorderAllSpec(m, sel, key, tail);
      JoinSiblings(m, sel, key, head, tail, Preorder(m, sel, head), PreorderAll(m, sel, key, tail));
      assert kids == [head] + tail;
    }
  }

  /** A subtree followed by the subtrees of later siblings is sorted by root path. */
  lemma {:induction false} JoinSiblings(m: map<Id, Span>, sel: set<Id>, key: Option<Id>, head: Id, tail: seq<Id>,
                                        a: seq<Id>, b: seq<Id>)
    requires AllRooted(m) && sel <= m.Keys && (key.Some? ==> key.value in m)
    requires head in m && m[head].parent == key && (forall k :: k in tail ==> k in m) && SortedSpans(m, [head] + tail)
    requires forall x :: x in a ==> x in m && InMap(m, PathOf(m, x)) && PathOf(m, head) <= PathOf(m, x)
    requires forall x :: x in b ==>
               && x in m && InMap(m, PathOf(m, x)) && KeyPath(m, key) < PathOf(m, x)
               && PathOf(m, x)[|KeyPath(m, key)|] in tail
    requires SortedPaths(m, a) && SortedPaths(m, b)
    ensures forall x :: x in a + b ==>
              && x in m && InMap(m, PathOf(m, x)) && KeyPath(m, key) < PathOf(m, x)
              && PathOf(m, x)[|KeyPath(m, key)|] in [head] + tail
    ensures SortedPaths(m, a + b)
  {
    var r := a + b;
    PathInMap(m, head);
    var q := KeyPath(m, key);
    forall x | x in a
      ensures q < PathOf(m, x) && PathOf(m, x)[|q|] == head
    {
      assert PathOf(m, head) == q + [head] <= PathOf(m, x);
      assert PathOf(m, x)[|q|] == (q + [head])[|q|];
    }
    forall i, j | 0 <= i < j < |r|
      ensures PathLess(m, PathOf(m, r[i]), PathOf(m, r[j]))
    {
      if i < |a| <= j {
        assert r[i] in a && r[j] in b;
        AcrossSiblings(m, q, head, tail, r[i], r[j]);
      }
    }
  }

  lemma {:induction false} AcrossSiblings(m: map<Id, Span>, q: seq<Id>, head: Id, tail: seq<Id>, x: Id, y: Id)
    requires AllRooted(m) && x in m && y in m && InMap(m, PathOf(m, x)) && InMap(m, PathOf(m, y))
    requires q < PathOf(m, x) && q < PathOf(m, y)
    requires head in m && (forall k :: k in tail ==> k in m) && SortedSpans(m, [head] + tail)
    requires PathOf(m, x)[|q|] == head && PathOf(m, y)[|q|] in tail
    ensures PathLess(m, PathOf(m, x), PathOf(m, y))
  {
    var other := PathOf(m, y)[|q|];
    var t :| 0 <= t < |tail| && tail[t] == other;
    assert ([head] + tail)[0] == head && ([head] + tail)[t + 1] == other;
    SpanLessOrder(m, head, other);
    BranchLess(m, q, PathOf(m, x), PathOf(m, y));
  }

  /**
   The order theorem. For any selection the display order lists exactly the ids whose whole lineage
   is selected, strictly increasing by root path. These two facts determine the list.
   */
  lemma {:induction false} DisplaySortsRootPaths(m: map<Id, Span>, sel: set<Id>)
    requires AllRooted(m) && sel <= m.Keys
    ensures forall x :: x in Display(m, sel) <==> x in m && Lineage(ParentsOf(m), x) <= sel
    ensures forall x :: x in Display(m, sel) ==> x in m && InMap(m, PathOf(m, x))
    ensures SortedPaths(m, Display(m, sel))
  {
    var kids := Kids(m, sel, None);
    PreorderAllSpec(m, sel, None, kids);
    var p := ParentsOf(m);
    forall x
      ensures x in Display(m, sel) <==> x in m && Lineage(p, x) <= sel
    {
      if k :| k in kids && Under(m, sel, k, x) {
        ParentDepth(p, k);
        assert Lineage(p, k) == {k};
      }
      if x in m && Lineage(p, x) <= sel {
        LineageMembers(p, x);
        PathInMap(m, x);
        PathStarts(p, x);
        var k := PathOf(m, x)[0];
        assert k in PathOf(m, x);
        ParentDepth(p, k);
        assert k in kids && Under(m, sel, k, x);
      }
    }
  }

  /** Two lists that sort the same ids by root path are the same list. */
  lemma {:induction false} OrderDetermined(m: map<Id, Span>, r: seq<Id>, s: seq<Id>)
    requires AllRooted(m)
    requires forall x :: x in r ==> x in m && InMap(m, PathOf(m, x))
    requires forall x :: x in r <==> x in s
    requires SortedPaths(m, r) && SortedPaths(m, s)
    ensures r == s
  {
    if s != [] {
      assert s[0] in r;
    }
    if r != [] {
      assert r[0] in s;
      var j :| 0 <= j < |s| && s[j] == r[0];
      assert s[0] in r;
      var i :| 0 <= i < |r| && r[i] == s[0];
      if i != 0 && j != 0 {
        assert PathLess(m, PathOf(m, r[0]), PathOf(m, r[i]));
        assert PathLess(m, PathOf(m, s[0]), PathOf(m, s[j]));
        PathLessAsymmetric(m, PathOf(m, r[0]), PathOf(m, r[i]));
        assert false;
      }
      assert r[0] == s[0];
      SortedTails(m, r, s);
      OrderDetermined(m, r[1..], s[1..]);
      assert r == [r[0]] + r[1..] && s == [s[0]] + s[1..];
    }
  }

  lemma {:induction false} SortedTails(m: map<Id, Span>, r: seq<Id>, s: seq<Id>)
    requires AllRooted(m) && r != [] && s != [] && r[0] == s[0]
    requires forall x :: x in r ==> x in m && InMap(m, PathOf(m, x))
    requires forall x :: x in r <==> x in s
    requires SortedPaths(m, r) && SortedPaths(m, s)
    ensures forall x :: x in r[1..] <==> x in s[1..]
    ensures SortedPaths(m, r[1..]) && SortedPaths(m, s[1..])
  {
    PathLessIrreflexive(m, PathOf(m, r[0]));
    forall x
      ensures x in r[1..] <==> x in r && x != r[0]
    {
      if x in r[1..] {
        var i :| 0 < i < |r| && r[i] == x;
        assert PathLess(m, PathOf(m, r[0]), PathOf(m, r[i]));
      }
    }
    forall x
      ensures x in s[1..] <==> x in s && x != s[0]
    {
      if x in s[1..] {
        var i :| 0 < i < |s| && s[i] == x;
        assert PathLess(m, PathOf(m, s[0]), PathOf(m, s[i]));
      }
    }
  }

  lemma {:induction false} PathLessAsymmetric(m: map<Id, Span>, a: seq<Id>, b: seq<Id>)
    requires InMap(m, a) && InMap(m, b) && PathLess(m, a, b)
    ensures !PathLess(m, b, a)
  {
    if a != [] {
      if a[0] == b[0] {
        PathLessAsymmetric(m, a[1..], b[1..]);
      } else {
        SpanLessOrder(m, a[0], b[0]);
      }
    }
  }

  // ----- What the order theorem gives a reader -----

  /** An ancestor-closed selection is displayed in full and without repetition. */
  lemma {:induction false} DisplayIsPermutation(m: map<Id, Span>, sel: set<Id>)
    requires AllRooted(m) && sel <= m.Keys
    ensures (set x | x in Display(m, sel)) == sel <==> AncestorClosed(ParentsOf(m), sel)
    ensures forall i, j :: 0 <= i < j < |Display(m, sel)| ==> Display(m, sel)[i] != Display(m, sel)[j]
    ensures AncestorClosed(ParentsOf(m), sel) ==>
            |Display(m, sel)| == |sel| && multiset(Display(m, sel)) == multiset(sel)
  {
    hide Display;
    var p := ParentsOf(m);
    var d := Display(m, sel);
    DisplaySortsRootPaths(m, sel);
    forall i, j | 0 <= i < j < |d|
      ensures d[i] != d[j]
    {
      assert PathLess(m, PathOf(m, d[i]), PathOf(m, d[j]));
      PathLessIrreflexive(m, PathOf(m, d[i]));
    }
    forall x | x in sel
      ensures AncestorClosed(p, sel) ==> x in d
    {
      if AncestorClosed(p, sel) {
        ClosedHasLineage(p, sel, x);
      }
    }
    forall x | x in d
      ensures x in sel && (m[x].parent.Some? ==> m[x].parent.value in d)
    {
      LineageMembers(p, x);
    }
    if AncestorClosed(p, sel) {
      DistinctCount(d, sel);
    }
  }

  lemma {:induction false} DistinctCount(d: seq<Id>, s: set<Id>)
    requires forall i, j :: 0 <= i < j < |d| ==> d[i] != d[j]
    requires forall x :: x in d <==> x in s
    ensures |d| == |s| && multiset(d) == multiset(s)
  {
    if d == [] {
      assert s == {};
    } else {
      var n := |d| - 1;
      var x := d[n];
      assert d == d[..n] + [x];
      assert x in d;
      forall y
        ensures y in d[..n] <==> y in s - {x}
      {
        if y in s - {x} {
          assert y in d;
        }
      }
      DistinctCount(d[..n], s - {x});
      assert multiset(s) == multiset(s - {x}) + multiset{x};
    }
  }

  /** Of two siblings the one with the smaller root path starts first. */
  lemma SiblingsByPath(m: map<Id, Span>, x: Id, y: Id)
    requires AllRooted(m) && x in m && y in m && m[x].parent == m[y].parent
    requires InMap(m, PathOf(m, x)) && InMap(m, PathOf(m, y)) && PathLess(m, PathOf(m, x), PathOf(m, y))
    ensures SpanLess(m, x, y)
  {
    hide PathLess, SpanLess, AllRooted;
    SpanLessOrder(m, x, y);
    PathLessIrreflexive(m, PathOf(m, x));
    PathInMap(m, x);
    PathInMap(m, y);
    if SpanLess(m, y, x) {
      BranchLess(m, KeyPath(m, m[x].parent), PathOf(m, y), PathOf(m, x));
      PathLessAsymmetric(m, PathOf(m, y), PathOf(m, x));
    }
  }

  /** A parent's root path comes before those of its children. */
  lemma ParentByPath(m: map<Id, Span>, x: Id, y: Id)
    requires AllRooted(m) && x in m && y in m && m[y].parent == Some(x)
    requires InMap(m, PathOf(m, x)) && InMap(m, PathOf(m, y))
    ensures x != y && !PathLess(m, PathOf(m, y), PathOf(m, x))
  {
    hide PathLess, AllRooted;
    PathInMap(m, x);
    PathInMap(m, y);
    PrefixLess(m, PathOf(m, x), PathOf(m, y));
    PathLessIrreflexive(m, PathOf(m, x));
    PathLessAsymmetric(m, PathOf(m, x), PathOf(m, y));
  }

  /** Each parent precedes its children, and siblings appear by start offset, then id. */
  lemma {:induction false} ParentsFirstSiblingsSorted(m: map<Id, Span>, sel: set<Id>, i: nat, j: nat)
    requires AllRooted(m) && sel <= m.Keys
    requires i < |Display(m, sel)| && j < |Display(m, sel)|
    ensures forall x :: x in Display(m, sel) ==> x in m
    ensures m[Display(m, sel)[j]].parent == Some(Display(m, sel)[i]) ==> i < j
    ensures m[Display(m, sel)[j]].parent == m[Display(m, sel)[i]].parent && i < j ==>
              var a, b := Display(m, sel)[i], Display(m, sel)[j];
              m[a].start <= m[b].start && (m[a].start == m[b].start ==> StringLess(a, b))
  {
    hide Display, PathLess, PathOf, InMap, AllRooted;
    var d := Display(m, sel);
    DisplaySortsRootPaths(m, sel);
    var x, y := d[i], d[j];
    if m[y].parent == Some(x) {
      ParentByPath(m, x, y);
    }
    if m[y].parent == m[x].parent && i < j {
      SiblingsByPath(m, x, y);
    }
  }

  /** A subtree occupies consecutive positions. */
  lemma {:induction false} SubtreesContiguous(m: map<Id, Span>, sel: set<Id>, i: nat, k: nat, j: nat)
    requires AllRooted(m) && sel <= m.Keys
    requires i < k < j < |Display(m, sel)|
    ensures forall x :: x in Display(m, sel) ==> x in m
    ensures Display(m, sel)[i] in Lineage(ParentsOf(m), Display(m, sel)[j]) ==>
              Display(m, sel)[i] in Lineage(ParentsOf(m), Display(m, sel)[k])
  {
    hide Display;
    var d := Display(m, sel);
    DisplaySortsRootPaths(m, sel);
    if d[i] in Lineage(ParentsOf(m), d[j]) {
      UnderHasPrefix(m, d[i], d[j]);
      BetweenExtensions(m, PathOf(m, d[i]), PathOf(m, d[k]), PathOf(m, d[j]));
      PrefixIsUnder(m, d[i], d[k]);
    }
  }

  /** Cutting the display anywhere leaves an ancestor-closed set. */
  lemma {:induction false} PrefixesClosed(m: map<Id, Span>, sel: set<Id>, n: nat)
    requires AllRooted(m) && sel <= m.Keys && n <= |Display(m, sel)|
    ensures AncestorClosed(ParentsOf(m), set x | x in Display(m, sel)[..n])
    ensures |set x | x in Display(m, sel)[..n]| == n
  {
    hide Display;
    var p := ParentsOf(m);
    var d := Display(m, sel);
    var cut := set x | x in d[..n];
    DisplaySortsRootPaths(m, sel);
    DisplayIsPermutation(m, sel);
    DistinctCount(d[..n], cut);
    forall id | id in cut && id in p && p[id].Some?
      ensures p[id].value in cut
    {
      var j :| 0 <= j < n && d[..n][j] == id;
      assert d[j] == id;
      LineageMembers(p, id);
      var parent := p[id].value;
      assert Lineage(p, parent) <= Lineage(p, id);
      assert parent in d;
      var i :| 0 <= i < |d| && d[i] == parent;
      ParentsFirstSiblingsSorted(m, sel, i, j);
      assert d[..n][i] == parent;
    }
  }
}
