/**
 Walks along parent links. A parent table maps every span id to its parent id, or to `None` for a
 root; a parent id may be missing from the table. Both the worker's normaliser and the backend's
 reader walk such a table upwards while remembering the ids they have seen.
 */
module ParentWalk {
  import opened Common

  type Parents = map<Id, Option<Id>>

  function Up(p: Parents, id: Id): Option<Id> {
    if id in p then p[id] else None
  }

  /** Where `k` steps upwards from `id` lead. */
  ghost function Climb(p: Parents, id: Id, k: nat): Option<Id> {
    if k == 0 then Some(id)
    else
      var below := Climb(p, id, k - 1);
      if below.None? then None else Up(p, below.value)
  }

  ghost predicate EndsAt(p: Parents, id: Id, k: nat) {
    var at := Climb(p, id, k);
    at.Some? && at.value in p && p[at.value] == None
  }

  ghost predicate FallsAt(p: Parents, id: Id, k: nat) {
    var at := Climb(p, id, k);
    at.Some? && at.value !in p
  }

  /** The walk from `id` reaches a root. */
  ghost predicate Rooted(p: Parents, id: Id) {
    exists k: nat :: EndsAt(p, id, k)
  }

  /** The walk from `id` meets an id that the table does not have. */
  ghost predicate Dangling(p: Parents, id: Id) {
    exists k: nat :: FallsAt(p, id, k)
  }

  ghost predicate Repeats(p: Parents, id: Id, i: nat, j: nat) {
    i < j && Climb(p, id, i).Some? && Climb(p, id, i) == Climb(p, id, j)
  }

  /** The walk from `id` comes back to a place it has already been. */
  ghost predicate Looping(p: Parents, id: Id) {
    exists i: nat, j: nat :: Repeats(p, id, i, j)
  }

  ghost predicate ReturnsAfter(p: Parents, id: Id, k: nat) {
    k > 0 && Climb(p, id, k) == Some(id)
  }

  ghost predicate Cyclic(p: Parents) {
    exists id: Id, k: nat :: id in p && ReturnsAfter(p, id, k)
  }

  ghost predicate Closed(p: Parents) {
    forall id {:trigger p[id].value} :: id in p && p[id].Some? ==> p[id].value in p
  }

  lemma {:induction false} ClimbAdds(p: Parents, id: Id, a: nat, b: nat)
    ensures Climb(p, id, a).Some? ==> Climb(p, id, a + b) == Climb(p, Climb(p, id, a).value, b)
    ensures Climb(p, id, a).None? ==> Climb(p, id, a + b).None?
  {
    if b > 0 {
      ClimbAdds(p, id, a, b - 1);
    }
  }

  /** A walk that repeats never ends. */
  lemma {:induction false} LoopNeverEnds(p: Parents, id: Id, i: nat, j: nat, k: nat)
    requires Repeats(p, id, i, j)
    ensures Climb(p, id, k).Some?
    decreases k
  {
    if k > j {
      ClimbAdds(p, id, j, k - j);
      ClimbAdds(p, id, i, k - j);
      LoopNeverEnds(p, id, i, j, k - (j - i));
    } else {
      ClimbAdds(p, id, k, j - k);
    }
  }

  /** The three ways a walk can go exclude each other, and an ending walk ends in one place. */
  lemma {:induction false} EndingsExclude(p: Parents, id: Id)
    ensures !(Rooted(p, id) && Dangling(p, id))
    ensures !(Rooted(p, id) && Looping(p, id))
    ensures !(Dangling(p, id) && Looping(p, id))
  {
    if Rooted(p, id) {
      var k :| EndsAt(p, id, k);
      StopsAfter(p, id, k);
    }
    if Dangling(p, id) {
      var k :| FallsAt(p, id, k);
      StopsAfter(p, id, k);
    }
  }

  lemma {:induction false} StopsAfter(p: Parents, id: Id, k: nat)
    requires EndsAt(p, id, k) || FallsAt(p, id, k)
    ensures forall j: nat :: Climb(p, id, j).Some? <==> j <= k
    ensures !Looping(p, id)
    ensures forall j: nat :: EndsAt(p, id, j) || FallsAt(p, id, j) ==> j == k
  {
    forall j: nat
      ensures Climb(p, id, j).Some? <==> j <= k
    {
      if j <= k {
        ClimbAdds(p, id, j, k - j);
      } else {
        assert Climb(p, id, k + 1).None?;
        ClimbAdds(p, id, k + 1, j - k - 1);
      }
    }
    if Looping(p, id) {
      var i: nat, j: nat :| Repeats(p, id, i, j);
      LoopNeverEnds(p, id, i, j, k + 1);
    }
    forall j: nat | EndsAt(p, id, j) || FallsAt(p, id, j)
      ensures j == k
    {
      assert Climb(p, id, j + 1).None?;
    }
  }

  lemma {:induction false} CycleLoops(p: Parents, id: Id, k: nat)
    requires ReturnsAfter(p, id, k)
    ensures Looping(p, id)
  {
    assert Climb(p, id, 0) == Some(id);
    assert Repeats(p, id, 0, k);
  }

  lemma {:induction false} LoopHasCycle(p: Parents, id: Id, i: nat, j: nat)
    requires Repeats(p, id, i, j)
    ensures Cyclic(p)
  {
    var x := Climb(p, id, i).value;
    ClimbAdds(p, id, i, j - i);
    assert ReturnsAfter(p, x, j - i);
    ClimbAdds(p, id, i, 1);
    LoopNeverEnds(p, id, i, j, i + 1);
    assert Climb(p, id, i + 1) == Up(p, x);
    assert x in p;
  }

  ghost function VisitedUpTo(p: Parents, id: Id, k: nat): (s: set<Id>)
    requires forall i: nat :: i < k ==> Climb(p, id, i).Some?
  {
    if k == 0 then {} else VisitedUpTo(p, id, k - 1) + {Climb(p, id, k - 1).value}
  }

  lemma {:induction false} VisitedClimbs(p: Parents, id: Id, k: nat, x: Id) returns (i: nat)
    requires forall i: nat :: i < k ==> Climb(p, id, i).Some?
    requires x in VisitedUpTo(p, id, k)
    ensures i < k && Climb(p, id, i) == Some(x)
  {
    if x == Climb(p, id, k - 1).value {
      i := k - 1;
    } else {
      i := VisitedClimbs(p, id, k - 1, x);
    }
  }

  lemma {:induction false} ClimbIsVisited(p: Parents, id: Id, k: nat, i: nat)
    requires i < k && forall j: nat :: j < k ==> Climb(p, id, j).Some?
    ensures Climb(p, id, i).value in VisitedUpTo(p, id, k)
  {
    if i < k - 1 {
      ClimbIsVisited(p, id, k - 1, i);
    }
  }

  /** The seen set after `k` steps holds the places of those steps. */
  lemma VisitedAt(p: Parents, id: Id, k: nat, x: Id)
    requires forall i: nat :: i < k ==> Climb(p, id, i).Some?
    ensures x in VisitedUpTo(p, id, k) <==> exists i: nat :: i < k && Climb(p, id, i) == Some(x)
  {
    if x in VisitedUpTo(p, id, k) {
      var i := VisitedClimbs(p, id, k, x);
      assert i < k && Climb(p, id, i) == Some(x);
    }
    if i: nat :| i < k && Climb(p, id, i) == Some(x) {
      ClimbIsVisited(p, id, k, i);
    }
  }

  datatype WalkEnd = AtRoot | AtMissing | Revisit

  lemma {:induction false} SeenMeansLooping(p: Parents, id: Id, n: nat, x: Id)
    requires forall i: nat :: i < n ==> Climb(p, id, i).Some?
    requires Climb(p, id, n) == Some(x) && x in VisitedUpTo(p, id, n)
    ensures Looping(p, id)
  {
    VisitedAt(p, id, n, x);
    var i: nat :| i < n && Climb(p, id, i) == Some(x);
    assert Repeats(p, id, i, n);
  }

  lemma WalkStarts(p: Parents, id: Id)
    ensures Climb(p, id, 0) == Some(id) && VisitedUpTo(p, id, 0) == {}
  {
  }

  lemma WalkGoesOn(p: Parents, id: Id, n: nat, at: Id)
    requires Climb(p, id, n) == Some(at) && at in p && forall i: nat :: i < n ==> Climb(p, id, i).Some?
    ensures Climb(p, id, n + 1) == p[at] && VisitedUpTo(p, id, n + 1) == VisitedUpTo(p, id, n) + {at}
  {
  }

  lemma FallsIsDangling(p: Parents, id: Id, n: nat)
    requires Climb(p, id, n).Some? && Climb(p, id, n).value !in p
    ensures Dangling(p, id)
  {
    assert FallsAt(p, id, n);
  }

  lemma EndsIsRooted(p: Parents, id: Id, n: nat)
    requires Climb(p, id, n).Some? && Climb(p, id, n).value in p && p[Climb(p, id, n).value] == None
    ensures Rooted(p, id)
  {
    assert EndsAt(p, id, n);
  }

  /**
   The `while current_id is not None` walk with its `seen` set: it stops at the first id seen twice,
   at the first id the table does not have, or above a root.
   */
  method Walk(p: Parents, id: Id) returns (end: WalkEnd)
    ensures end == AtRoot <==> Rooted(p, id)
    ensures end == AtMissing <==> Dangling(p, id)
    ensures end == Revisit <==> Looping(p, id)
  {
    hide Looping, Rooted, Dangling, Climb, VisitedUpTo;
    EndingsExclude(p, id);
    WalkStarts(p, id);
    var seen: set<Id> := {};
    var current := Some(id);
    ghost var n: nat := 0;
    while current.Some?
      invariant current == Climb(p, id, n)
      invariant forall i: nat :: i < n ==> Climb(p, id, i).Some? && Climb(p, id, i).value in p
      invariant seen == VisitedUpTo(p, id, n) && |seen| == n && seen <= p.Keys
      invariant n > 0 || current.Some?
      invariant n > 0 ==> p[Climb(p, id, n - 1).value] == current
      decreases |p| - n
    {
      if current.value in seen {
        SeenMeansLooping(p, id, n, current.value);
        return Revisit;
      }
      seen := seen + {current.value};
      if current.value !in p {
        FallsIsDangling(p, id, n);
        return AtMissing;
      }
      WalkGoesOn(p, id, n, current.value);
      SubsetSize(seen, p.Keys);
      current := p[current.value];
      n := n + 1;
    }
    EndsIsRooted(p, id, n - 1);
    return AtRoot;
  }

  // ----- Depth, lineage and the path from the root -----

  ghost function Depth(p: Parents, id: Id): (k: nat)
    requires Rooted(p, id)
    ensures EndsAt(p, id, k)
  {
    var k: nat :| EndsAt(p, id, k);
    k
  }

  lemma {:induction false} DepthIs(p: Parents, id: Id, k: nat)
    requires EndsAt(p, id, k)
    ensures Rooted(p, id) && Depth(p, id) == k
  {
    StopsAfter(p, id, k);
  }

  /** A span below a parent is rooted exactly when its parent is, one level deeper. */
  lemma {:induction false} ParentDepth(p: Parents, id: Id)
    requires Rooted(p, id)
    ensures id in p
    ensures p[id].None? ==> Depth(p, id) == 0
    ensures p[id].Some? ==> Rooted(p, p[id].value) && Depth(p, id) == Depth(p, p[id].value) + 1
  {
    var k := Depth(p, id);
    if k == 0 {
      assert Climb(p, id, 0) == Some(id);
    } else {
      ClimbAdds(p, id, 1, k - 1);
      StopsAfter(p, id, k);
      assert Climb(p, id, 1) == Up(p, id);
      DepthIs(p, p[id].value, k - 1);
    }
    if p[id].None? {
      DepthIs(p, id, 0);
    }
  }

  lemma {:induction false} VisitedSize(p: Parents, id: Id, k: nat)
    requires forall i: nat :: i < k ==> Climb(p, id, i).Some? && Climb(p, id, i).value in p
    requires !Looping(p, id)
    ensures |VisitedUpTo(p, id, k)| == k
    ensures VisitedUpTo(p, id, k) <= p.Keys
  {
    if k > 0 {
      VisitedSize(p, id, k - 1);
      var x := Climb(p, id, k - 1).value;
      VisitedAt(p, id, k - 1, x);
      forall i: nat | i < k - 1
        ensures Climb(p, id, i) != Some(x)
      {
        assert !Repeats(p, id, i, k - 1);
      }
    }
  }

  /** A walk that ends visits distinct ids, so it is shorter than the table. */
  lemma {:induction false} DepthBounded(p: Parents, id: Id)
    requires Rooted(p, id)
    ensures Depth(p, id) < |p|
  {
    var k := Depth(p, id);
    StopsAfter(p, id, k);
    forall i: nat | i <= k
      ensures Climb(p, id, i).Some? && Climb(p, id, i).value in p
    {
      if i < k {
        assert Climb(p, id, i + 1).Some?;
      }
    }
    VisitedSize(p, id, k + 1);
    SubsetSize(VisitedUpTo(p, id, k + 1), p.Keys);
  }

  /** `id` and all its ancestors. */
  ghost function Lineage(p: Parents, id: Id): (s: set<Id>)
    requires Rooted(p, id)
    decreases Depth(p, id)
  {
    ParentDepth(p, id);
    if p[id].None? then {id} else {id} + Lineage(p, p[id].value)
  }

  /** The ids from the root down to `id`. */
  ghost function Path(p: Parents, id: Id): (s: seq<Id>)
    requires Rooted(p, id)
    ensures |s| > 0 && s[|s| - 1] == id
    decreases Depth(p, id)
  {
    ParentDepth(p, id);
    if p[id].None? then [id] else Path(p, p[id].value) + [id]
  }

  lemma {:induction false} ClimbStaysInLineage(p: Parents, id: Id, k: nat)
    requires Rooted(p, id) && Climb(p, id, k).Some?
    ensures Climb(p, id, k).value in Lineage(p, id)
    decreases k
  {
    ParentDepth(p, id);
    if k > 0 {
      ClimbAdds(p, id, 1, k - 1);
      assert Climb(p, id, 1) == p[id];
      ClimbStaysInLineage(p, p[id].value, k - 1);
    }
  }

  lemma {:induction false} LineageClimbs(p: Parents, id: Id, x: Id) returns (k: nat)
    requires Rooted(p, id) && x in Lineage(p, id)
    ensures Climb(p, id, k) == Some(x)
    decreases Depth(p, id)
  {
    ParentDepth(p, id);
    if x == id {
      k := 0;
    } else {
      var below := LineageClimbs(p, p[id].value, x);
      ClimbAdds(p, id, 1, below);
      assert Climb(p, id, 1) == p[id];
      k := below + 1;
    }
  }

  /** The lineage is the set of places the walk visits. */
  lemma LineageIsClimb(p: Parents, id: Id, x: Id)
    requires Rooted(p, id)
    ensures x in Lineage(p, id) <==> exists k: nat :: Climb(p, id, k) == Some(x)
  {
    if x in Lineage(p, id) {
      var k := LineageClimbs(p, id, x);
      assert Climb(p, id, k) == Some(x);
    }
    if k: nat :| Climb(p, id, k) == Some(x) {
      ClimbStaysInLineage(p, id, k);
    }
  }

  lemma {:induction false} LineageMembers(p: Parents, id: Id)
    requires Rooted(p, id)
    ensures id in Lineage(p, id) && Lineage(p, id) <= p.Keys
    ensures forall x :: x in Lineage(p, id) ==> Rooted(p, x) && Lineage(p, x) <= Lineage(p, id)
    ensures forall x {:trigger p[x].value} :: x in Lineage(p, id) && p[x].Some? ==> p[x].value in Lineage(p, id)
    ensures forall x :: x in Lineage(p, id) <==> x in Path(p, id)
    decreases Depth(p, id)
  {
    ParentDepth(p, id);
    if p[id].Some? {
      LineageMembers(p, p[id].value);
    }
  }

  /** `sel` holds every parent of its members. */
  ghost predicate AncestorClosed(p: Parents, sel: set<Id>) {
    forall id {:trigger p[id].value} :: id in sel && id in p && p[id].Some? ==> p[id].value in sel
  }

  lemma {:induction false} ClosedHasLineage(p: Parents, sel: set<Id>, id: Id)
    requires AncestorClosed(p, sel) && id in sel && Rooted(p, id)
    ensures Lineage(p, id) <= sel
    decreases Depth(p, id)
  {
    ParentDepth(p, id);
    if p[id].Some? {
      ClosedHasLineage(p, sel, p[id].value);
    }
  }

  // ----- Rooted trees -----

  ghost predicate Reaches(p: Parents, id: Id, root: Id) {
    exists k: nat :: Climb(p, id, k) == Some(root)
  }

  /** A parent table in which every id climbs to one and the same root. */
  ghost predicate TreeAt(p: Parents, root: Id) {
    && root in p && p[root].None?
    && forall id {:trigger Reaches(p, id, root)} :: id in p ==> Reaches(p, id, root)
  }

  lemma {:induction false} TreeIsRooted(p: Parents, root: Id)
    requires TreeAt(p, root)
    ensures Closed(p)
    ensures forall id {:trigger Rooted(p, id)} :: id in p ==> Rooted(p, id)
    ensures forall id :: id in p && p[id].None? ==> id == root
  {
    forall id | id in p
      ensures Rooted(p, id)
      ensures p[id].Some? ==> p[id].value in p
      ensures p[id].None? ==> id == root
    {
      assert Reaches(p, id, root);
      var k: nat :| Climb(p, id, k) == Some(root);
      assert EndsAt(p, id, k);
      ParentDepth(p, id);
      StopsAfter(p, id, k);
      if p[id].None? {
        assert EndsAt(p, id, 0);
      } else {
        ParentDepth(p, p[id].value);
      }
    }
  }

  lemma {:induction false} TreeLineage(p: Parents, root: Id, id: Id)
    requires TreeAt(p, root) && id in p
    ensures Rooted(p, id) && root in Lineage(p, id)
  {
    TreeIsRooted(p, root);
    assert Reaches(p, id, root) && Rooted(p, id);
    var k: nat :| Climb(p, id, k) == Some(root);
    LineageIsClimb(p, id, root);
    assert exists j: nat :: Climb(p, id, j) == Some(root);
  }

  lemma {:induction false} PathStarts(p: Parents, id: Id)
    requires Rooted(p, id)
    ensures Path(p, id)[0] in p && p[Path(p, id)[0]].None?
    ensures Climb(p, id, Depth(p, id)) == Some(Path(p, id)[0])
    decreases Depth(p, id)
  {
    ParentDepth(p, id);
    if p[id].Some? {
      PathStarts(p, p[id].value);
      ClimbAdds(p, id, 1, Depth(p, p[id].value));
      assert Climb(p, id, 1) == p[id];
    }
  }

  /** The acceptance tests (one root, no missing parent, no cycle) describe rooted trees exactly. */
  lemma {:induction false} TreeCharacterised(p: Parents, root: Id)
    requires root in p && p[root].None?
    ensures TreeAt(p, root) <==>
            Closed(p) && !Cyclic(p) && forall id :: id in p && p[id].None? ==> id == root
  {
    if TreeAt(p, root) {
      TreeIsRooted(p, root);
      if Cyclic(p) {
        var id: Id, k: nat :| id in p && ReturnsAfter(p, id, k);
        CycleLoops(p, id, k);
        EndingsExclude(p, id);
      }
    }
    if Closed(p) && !Cyclic(p) && forall id :: id in p && p[id].None? ==> id == root {
      forall id | id in p
        ensures Reaches(p, id, root)
      {
        NoLoopEnds(p, id);
        var k: nat :| EndsAt(p, id, k);
        assert Climb(p, id, k) == Some(root);
      }
    }
  }

  /** In a closed table without cycles every walk reaches a root. */
  lemma {:induction false} NoLoopEnds(p: Parents, id: Id)
    requires Closed(p) && !Cyclic(p) && id in p
    ensures Rooted(p, id)
  {
    if Looping(p, id) {
      var i: nat, j: nat :| Repeats(p, id, i, j);
      LoopHasCycle(p, id, i, j);
    }
    if !Rooted(p, id) {
      NeverEnding(p, id, |p| + 1);
      VisitedSize(p, id, |p| + 1);
      SubsetSize(VisitedUpTo(p, id, |p| + 1), p.Keys);
    }
  }

  lemma {:induction false} NeverEnding(p: Parents, id: Id, k: nat)
    requires Closed(p) && id in p && !Rooted(p, id)
    ensures forall i: nat :: i < k ==> Climb(p, id, i).Some? && Climb(p, id, i).value in p
  {
    if k > 0 {
      NeverEnding(p, id, k - 1);
      if k > 1 {
        assert !EndsAt(p, id, k - 2);
      }
    }
  }
}
