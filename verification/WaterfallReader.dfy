/** The backend's own check of a stored waterfall, written without reference to the worker. */
module WaterfallReader {
  import opened Common
  import opened ParentWalk
  import opened TraceModel

  /** `has_valid_tree` answers, or raises `KeyError` on indexing a span the document lacks. */
  datatype Verdict = Valid | Invalid | KeyError

  /** The tests made before any span is walked. */
  ghost predicate SummaryAgrees(w: Waterfall) {
    && UniqueIds(w.spans)
    && (exists k :: OnlyRootAt(w, k))
    && w.spanCount >= |w.spans| && (w.truncated <==> w.spanCount > |w.spans|)
    && forall i :: 0 <= i < |w.spans| ==> SpanEnd(w.spans[i]) <= w.duration + 1.0
  }

  ghost predicate OnlyRootAt(w: Waterfall, k: int) {
    && 0 <= k < |w.spans|
    && (forall i :: 0 <= i < |w.spans| ==> (w.spans[i].parent.None? <==> i == k))
    && w.spans[k].service == w.rootService
    && w.spans[k].operation == w.rootOperation
  }

  /** The walk from span `i` reaches a root of the document. */
  ghost predicate WalkEnds(w: Waterfall, i: int) {
    0 <= i < |w.spans| && Rooted(ParentsOf(ById(w.spans)), w.spans[i].id)
  }

  /**
   Span `i` is the first whose walk does not reach a root; its own parent is present, but an ancestor
   further up names a missing span.
   */
  ghost predicate FallsFirstAt(w: Waterfall, i: int) {
    && 0 <= i < |w.spans|
    && (forall j :: 0 <= j < i ==> WalkEnds(w, j))
    && w.spans[i].parent.Some? && w.spans[i].parent.value in ById(w.spans)
    && Dangling(ParentsOf(ById(w.spans)), w.spans[i].id)
  }

  function RootIndexes(spans: seq<Span>): (r: seq<nat>)
    ensures forall k :: k in r <==> 0 <= k < |spans| && spans[k].parent.None?
    ensures forall a, b :: 0 <= a < b < |r| ==> r[a] < r[b]
  {
    if spans == [] then []
    else
      var n := |spans| - 1;
      var before := RootIndexes(spans[..n]);
      assert forall a :: 0 <= a < |before| ==> before[a] in before;
      if spans[n].parent.None? then before + [n] else before
  }

  ghost predicate RootTest(w: Waterfall, r: seq<nat>)
    requires forall k :: k in r ==> k < |w.spans|
  {
    && |r| == 1
    && (r[0] in r ==> w.spans[r[0]].service == w.rootService && w.spans[r[0]].operation == w.rootOperation)
  }

  lemma {:induction false} OneRoot(w: Waterfall)
    ensures (exists k :: OnlyRootAt(w, k)) <==> RootTest(w, RootIndexes(w.spans))
  {
    var r := RootIndexes(w.spans);
    assert forall a :: 0 <= a < |r| ==> r[a] in r;
    if |r| >= 2 {
      assert r[0] < r[1] && r[0] in r && r[1] in r;
    }
    if k :| OnlyRootAt(w, k) {
      assert k in r;
    }
    if RootTest(w, r) {
      assert OnlyRootAt(w, r[0]);
    }
  }

  /** A valid document passes every test: its one root is the summary's root and all walks end. */
  lemma {:induction false} ValidImpliesTests(w: Waterfall)
    requires ValidTree(w)
    ensures SummaryAgrees(w) && forall i :: 0 <= i < |w.spans| ==> WalkEnds(w, i)
  {
    var m := ById(w.spans);
    var p := ParentsOf(m);
    var root :| RootedAt(w, root);
    ByIdUnique(w.spans);
    ByIdKeys(w.spans);
    TreeIsRooted(p, root);
    var k :| 0 <= k < |w.spans| && w.spans[k].id == root;
    forall i | 0 <= i < |w.spans|
      ensures WalkEnds(w, i) && (w.spans[i].parent.None? <==> i == k)
    {
      assert p[w.spans[i].id] == w.spans[i].parent;
      assert Rooted(p, w.spans[i].id);
    }
    assert OnlyRootAt(w, k);
  }

  lemma {:induction false} TestsImplyValid(w: Waterfall)
    requires SummaryAgrees(w) && forall i :: 0 <= i < |w.spans| ==> WalkEnds(w, i)
    ensures ValidTree(w)
  {
    var m := ById(w.spans);
    var p := ParentsOf(m);
    var k :| OnlyRootAt(w, k);
    var root := w.spans[k].id;
    ByIdUnique(w.spans);
    ByIdKeys(w.spans);
    forall id | id in p
      ensures Reaches(p, id, root)
    {
      var i :| 0 <= i < |w.spans| && w.spans[i].id == id;
      assert WalkEnds(w, i);
      var n: nat :| EndsAt(p, id, n);
      var top := Climb(p, id, n).value;
      var t :| 0 <= t < |w.spans| && w.spans[t].id == top;
      assert m[top] == w.spans[t];
      assert t == k;
      assert Climb(p, id, n) == Some(root);
    }
    assert m[root] == w.spans[k];
    assert TreeAt(p, root);
    assert RootedAt(w, root);
  }

  /**
   `StoredTraceWaterfall.has_valid_tree`: it answers `True` exactly on valid documents, but instead of
   answering `False` it raises when the first span that fails does so above a parent that is present.
   */
  method HasValidTree(w: Waterfall) returns (verdict: Verdict)
    ensures verdict == Valid <==> ValidTree(w)
    ensures verdict == KeyError <==> SummaryAgrees(w) && exists i :: FallsFirstAt(w, i)
  {
    hide ValidTree, UniqueIds, OnlyRootAt;
    if ValidTree(w) {
      ValidImpliesTests(w);
    }
    SummaryDecided(w);
    var index := IndexSpans(w.spans);
    if index.None? {
      return Invalid;
    }
    var m := index.value;
    var roots := RootIndexes(w.spans);
    if |roots| != 1 {
      return Invalid;
    }
    assert roots[0] in roots;
    var root := w.spans[roots[0]];
    if root.service != w.rootService || root.operation != w.rootOperation {
      return Invalid;
    }
    if w.spanCount < |w.spans| || w.truncated != (w.spanCount > |w.spans|) {
      return Invalid;
    }
    if exists i :: 0 <= i < |w.spans| && SpanEnd(w.spans[i]) > w.duration + 1.0 {
      return Invalid;
    }
    verdict := WalkSpans(w, m);
    if verdict == Valid {
      TestsImplyValid(w);
    }
  }

  lemma {:induction false} SummaryDecided(w: Waterfall)
    ensures SummaryAgrees(w) <==>
            && UniqueIds(w.spans) && RootTest(w, RootIndexes(w.spans))
            && w.spanCount >= |w.spans| && (w.truncated <==> w.spanCount > |w.spans|)
            && !exists i :: 0 <= i < |w.spans| && SpanEnd(w.spans[i]) > w.duration + 1.0
  {
    OneRoot(w);
  }

  /** The first failing span decides: it raises when its parent is present and an ancestor's is not. */
  ghost predicate Decides(w: Waterfall, n: int, verdict: Verdict) {
    && 0 <= n < |w.spans|
    && (forall i :: 0 <= i < n ==> WalkEnds(w, i)) && !WalkEnds(w, n)
    && verdict != Valid && (verdict == KeyError <==> FallsFirstAt(w, n))
  }

  lemma {:induction false} DecidedBy(w: Waterfall, n: int, verdict: Verdict)
    requires Decides(w, n, verdict)
    ensures verdict == KeyError <==> exists i :: FallsFirstAt(w, i)
  {
    forall i | FallsFirstAt(w, i)
      ensures i == n
    {
      EndingsExclude(ParentsOf(ById(w.spans)), w.spans[i].id);
      assert !WalkEnds(w, i);
    }
  }

  lemma {:induction false} AllEndNoneFalls(w: Waterfall)
    requires forall i :: 0 <= i < |w.spans| ==> WalkEnds(w, i)
    ensures forall i :: !FallsFirstAt(w, i)
  {
    forall i | 0 <= i < |w.spans|
      ensures !FallsFirstAt(w, i)
    {
      assert WalkEnds(w, i);
      EndingsExclude(ParentsOf(ById(w.spans)), w.spans[i].id);
    }
  }

  /** One round of the final loop: test the span's own parent, then walk up from it. */
  method WalkSpan(w: Waterfall, m: map<Id, Span>, n: nat) returns (verdict: Verdict)
    requires n < |w.spans| && UniqueIds(w.spans) && m == ById(w.spans)
    requires forall i :: 0 <= i < n ==> WalkEnds(w, i)
    ensures verdict == Valid <==> WalkEnds(w, n)
    ensures verdict != Valid ==> Decides(w, n, verdict)
  {
    hide Looping, Rooted, Dangling, UniqueIds;
    var p := ParentsOf(m);
    ByIdUnique(w.spans);
    var s := w.spans[n];
    EndingsExclude(p, s.id);
    if s.parent.Some? && s.parent.value !in m {
      MissingParentDangles(p, s.id);
      return Invalid;
    }
    if s.parent.None? {
      RootWalkEnds(p, s.id);
    }
    var end := Walk(p, s.id);
    verdict := match end case AtRoot => Valid case AtMissing => KeyError case Revisit => Invalid;
  }

  /** The final loop. */
  method WalkSpans(w: Waterfall, m: map<Id, Span>) returns (verdict: Verdict)
    requires UniqueIds(w.spans) && m == ById(w.spans)
    ensures verdict == Valid <==> forall i :: 0 <= i < |w.spans| ==> WalkEnds(w, i)
    ensures verdict == KeyError <==> exists i :: FallsFirstAt(w, i)
  {
    hide UniqueIds, FallsFirstAt, WalkEnds;
    for n := 0 to |w.spans|
      invariant forall i :: 0 <= i < n ==> WalkEnds(w, i)
    {
      verdict := WalkSpan(w, m, n);
      if verdict != Valid {
        DecidedBy(w, n, verdict);
        return;
      }
    }
    AllEndNoneFalls(w);
    return Valid;
  }

  lemma {:induction false} MissingParentDangles(p: Parents, id: Id)
    requires id in p && p[id].Some? && p[id].value !in p
    ensures Dangling(p, id)
  {
    assert Climb(p, id, 0) == Some(id);
    assert Climb(p, id, 1) == p[id];
    assert FallsAt(p, id, 1);
  }

  lemma {:induction false} RootWalkEnds(p: Parents, id: Id)
    requires id in p && p[id].None?
    ensures Rooted(p, id)
  {
    assert EndsAt(p, id, 0);
  }

  lemma {:induction false} ByIdOfThree(a: Span, b: Span, c: Span)
    ensures ById([a, b, c]) == map[a.id := a, b.id := b, c.id := c]
  {
    assert [a, b, c][..2] == [a, b] && [a, b][..1] == [a] && [a][..0] == [];
    assert ById([a]) == ById([])[a.id := a];
    assert ById([a, b]) == ById([a])[b.id := b];
  }

  lemma {:induction false} FallsAfterTwo(p: Parents, id: Id, mid: Id, gone: Id)
    requires id in p && p[id] == Some(mid) && mid in p && p[mid] == Some(gone) && gone !in p
    ensures Dangling(p, id)
  {
    assert Climb(p, id, 0) == Some(id);
    assert Climb(p, id, 1) == Some(mid);
    assert Climb(p, id, 2) == Some(gone);
    assert FallsAt(p, id, 2);
  }

  /** The check raises on a document whose span `a` hangs from `b`, whose parent is missing. */
  lemma {:induction false} DeepDanglingFalls(w: Waterfall, r: Span, a: Span, b: Span)
    requires w.spans == [r, a, b] && w.spanCount == 3 && !w.truncated && SummaryAgrees(w)
    requires r.parent == None && a.parent == Some(b.id) && b.parent.Some?
    requires b.parent.value !in {r.id, a.id, b.id}
    ensures FallsFirstAt(w, 1) && !ValidTree(w)
  {
    hide Climb, SummaryAgrees, ValidTree;
    ByIdOfThree(r, a, b);
    var p := ParentsOf(ById(w.spans));
    assert UniqueIds(w.spans) by {
      Distinct(w);
    }
    assert w.spans[0] == r && w.spans[1] == a && w.spans[2] == b;
    assert r.id != a.id && r.id != b.id && a.id != b.id;
    RootWalkEnds(p, r.id);
    assert WalkEnds(w, 0);
    FallsAfterTwo(p, a.id, b.id, b.parent.value);
    EndingsExclude(p, a.id);
    assert !WalkEnds(w, 1);
    if ValidTree(w) {
      ValidImpliesTests(w);
    }
  }

  lemma Distinct(w: Waterfall)
    requires SummaryAgrees(w)
    ensures UniqueIds(w.spans)
  {
  }

  /** A document with well-formed fields: `a` hangs from `b`, and `b` from a span that is not there. */
  function DeepDangling(): Waterfall {
    Waterfall(1, "t1", "api", "checkout", 0, 10.0, 3, 0.0, false,
              [Span("r", None, "api", "checkout", 0.0, 10.0, OK, false),
               Span("a", Some("b"), "api", "query", 1.0, 2.0, OK, false),
               Span("b", Some("gone"), "db", "query", 1.0, 2.0, OK, false)])
  }

  /** It passes the field validation that precedes the check, and then the check raises. */
  lemma {:induction false} DeepDanglingRaises()
    ensures FieldsValid(DeepDangling()) && !ValidTree(DeepDangling())
    ensures SummaryAgrees(DeepDangling()) && FallsFirstAt(DeepDangling(), 1)
  {
    var w := DeepDangling();
    assert w.spans[0].id == "r" && w.spans[1].id == "a" && w.spans[2].id == "b";
    assert OnlyRootAt(w, 0);
    hide FallsFirstAt, ValidTree;
    DeepDanglingFalls(w, w.spans[0], w.spans[1], w.spans[2]);
  }
}
