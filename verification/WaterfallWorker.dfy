/**
 The worker's normaliser: accept rooted traces, pick the representative one, select an
 ancestor-closed subset under the span budget and emit it in display order.
 */
module WaterfallWorker {
  import opened Common
  import opened ParentWalk
  import opened TraceModel
  import opened WaterfallOrder

  datatype InputTrace = InputTrace(
    traceId: string,
    startedAt: int,
    anomaly: real,
    duration: Option<real>,
    spans: seq<Span>)

  datatype Candidate = Candidate(
    traceId: string,
    startedAt: int,
    anomaly: real,
    duration: real,
    rootId: Id,
    spans: seq<Span>)
  {
    function SpanById(): map<Id, Span> {
      ById(spans)
    }
  }

  datatype Selected = Selected(candidate: Candidate, ids: seq<Id>, score: real, truncated: bool)

  const MAX_RESPONSE_SPANS := 100

  // ----- Acceptance -----

  predicate InputFieldsValid(t: InputTrace) {
    && t.traceId != "" && t.anomaly >= 0.0
    && (t.duration.Some? ==> t.duration.value >= 0.0)
    && t.spans != []
    && forall i :: 0 <= i < |t.spans| ==> SpanFieldsValid(t.spans[i])
  }

  function LatestEnd(spans: seq<Span>): (r: real)
    requires spans != []
    ensures forall i :: 0 <= i < |spans| ==> spans[i].start + spans[i].duration <= r
    ensures exists i :: 0 <= i < |spans| && spans[i].start + spans[i].duration == r
  {
    var last := SpanEnd(spans[|spans| - 1]);
    if |spans| == 1 then last
    else
      var before := LatestEnd(spans[..|spans| - 1]);
      if before <= last then last else before
  }

  /** The declared duration, or the latest span end when the trace declares none. */
  function TraceDuration(t: InputTrace): (r: real)
    requires t.spans != []
    ensures t.duration.Some? ==> r == t.duration.value
    ensures t.duration.None? ==> forall i :: 0 <= i < |t.spans| ==> t.spans[i].start + t.spans[i].duration <= r
    ensures t.duration.None? ==> exists i :: 0 <= i < |t.spans| && t.spans[i].start + t.spans[i].duration == r
  {
    if t.duration.Some? then t.duration.value else LatestEnd(t.spans)
  }

  /** A trace the worker may show: distinct spans forming one rooted tree within its duration. */
  ghost predicate Acceptable(t: InputTrace) {
    && InputFieldsValid(t)
    && UniqueIds(t.spans)
    && (exists root :: TreeAt(ParentsOf(ById(t.spans)), root))
    && forall i :: 0 <= i < |t.spans| ==> t.spans[i].start + t.spans[i].duration <= TraceDuration(t) + 1.0
  }

  ghost predicate ValidCandidate(c: Candidate) {
    && c.traceId != "" && c.anomaly >= 0.0 && c.duration >= 0.0
    && c.spans != [] && UniqueIds(c.spans)
    && TreeAt(ParentsOf(c.SpanById()), c.rootId)
    && (forall i :: 0 <= i < |c.spans| ==> SpanFieldsValid(c.spans[i]))
    && forall i :: 0 <= i < |c.spans| ==> SpanEnd(c.spans[i]) <= c.duration + 1.0
  }

  /** `_has_cycle`: walk up from every span, remembering the ids of that walk. */
  method HasCycle(m: map<Id, Span>) returns (cyclic: bool)
    requires Closed(ParentsOf(m))
    ensures cyclic <==> Cyclic(ParentsOf(m))
  {
    var p := ParentsOf(m);
    var todo := m.Keys;
    while todo != {}
      invariant todo <= m.Keys
      invariant forall id :: id in m.Keys - todo ==> !Looping(p, id)
      decreases |todo|
    {
      var id :| id in todo;
      var end := Walk(p, id);
      if end == Revisit {
        ghost var i: nat, j: nat :| Repeats(p, id, i, j);
        LoopHasCycle(p, id, i, j);
        return true;
      }
      todo := todo - {id};
    }
    if Cyclic(p) {
      ghost var id: Id, k: nat :| id in p && ReturnsAfter(p, id, k);
      CycleLoops(p, id, k);
    }
    return false;
  }

  /** `[span for span in trace.spans if span.parent_span_id is None]` */
  function RootIds(spans: seq<Span>): (r: seq<Id>)
    ensures forall x :: x in r <==> exists i :: 0 <= i < |spans| && spans[i].id == x && spans[i].parent.None?
    ensures UniqueIds(spans) ==> forall a, b :: 0 <= a < b < |r| ==> r[a] != r[b]
  {
    if spans == [] then []
    else
      var n := |spans| - 1;
      var before := RootIds(spans[..n]);
      assert forall i :: 0 <= i < n ==> spans[..n][i] == spans[i];
      assert UniqueIds(spans) ==> UniqueIds(spans[..n]) && spans[n].id !in before;
      if spans[n].parent.None? then before + [spans[n].id] else before
  }

  /** The candidate that an acceptable trace becomes; its root is the trace's only one. */
  ghost function CandidateOf(t: InputTrace): Candidate
    requires Acceptable(t)
  {
    AcceptanceTests(t.spans);
    Candidate(t.traceId, t.startedAt, t.anomaly, TraceDuration(t), RootIds(t.spans)[0], t.spans)
  }

  /** `_validated_candidate` */
  method ValidatedCandidate(t: InputTrace) returns (r: Option<Candidate>)
    requires InputFieldsValid(t)
    ensures r.Some? <==> Acceptable(t)
    ensures r.Some? ==>
              ValidCandidate(r.value) && r.value == CandidateOf(t)
  {
    var index := IndexSpans(t.spans);
    if index.None? {
      return None;
    }
    var m := index.value;
    var roots := RootIds(t.spans);
    AcceptanceTests(t.spans);
    if |roots| != 1 {
      return None;
    }
    if exists i :: 0 <= i < |t.spans| && t.spans[i].parent.Some? && t.spans[i].parent.value !in m {
      return None;
    }
    var cyclic := HasCycle(m);
    if cyclic {
      return None;
    }
    var duration := TraceDuration(t);
    if exists i :: 0 <= i < |t.spans| && SpanEnd(t.spans[i]) > duration + 1.0 {
      return None;
    }
    assert SpanFieldsValid(t.spans[0]);
    return Some(Candidate(t.traceId, t.startedAt, t.anomaly, duration, roots[0], t.spans));
  }

  /** One root, known parents and no cycle: together, exactly a rooted tree. */
  lemma {:induction false} AcceptanceTests(spans: seq<Span>)
    requires UniqueIds(spans)
    ensures Closed(ParentsOf(ById(spans))) <==>
            !exists i :: 0 <= i < |spans| && spans[i].parent.Some? && spans[i].parent.value !in ById(spans)
    ensures (exists root :: TreeAt(ParentsOf(ById(spans)), root)) <==>
            |RootIds(spans)| == 1 && Closed(ParentsOf(ById(spans))) && !Cyclic(ParentsOf(ById(spans)))
    ensures (exists root :: TreeAt(ParentsOf(ById(spans)), root)) ==> TreeAt(ParentsOf(ById(spans)), RootIds(spans)[0])
  {
    var p := ParentsOf(ById(spans));
    var roots := RootIds(spans);
    ClosedTest(spans);
    RootIdsAreRoots(spans, roots);
    if root :| TreeAt(p, root) {
      TreeIsRooted(p, root);
      TreeCharacterised(p, root);
      OnlyRoot(roots, root);
    }
    if |roots| == 1 && Closed(p) && !Cyclic(p) {
      assert roots[0] in roots;
      TreeCharacterised(p, roots[0]);
    }
  }

  lemma {:induction false} ClosedTest(spans: seq<Span>)
    requires UniqueIds(spans)
    ensures Closed(ParentsOf(ById(spans))) <==>
            !exists i :: 0 <= i < |spans| && spans[i].parent.Some? && spans[i].parent.value !in ById(spans)
  {
    var m := ById(spans);
    ByIdUnique(spans);
    ByIdKeys(spans);
    forall i | 0 <= i < |spans| && spans[i].parent.Some? && spans[i].parent.value !in m
      ensures !Closed(ParentsOf(m))
    {
      assert ParentsOf(m)[spans[i].id] == spans[i].parent;
    }
    if !Closed(ParentsOf(m)) {
      var id :| id in m && m[id].parent.Some? && m[id].parent.value !in m;
      var i :| 0 <= i < |spans| && spans[i].id == id;
    }
  }

  lemma {:induction false} OnlyRoot(roots: seq<Id>, root: Id)
    requires root in roots && forall x :: x in roots ==> x == root
    requires forall a, b :: 0 <= a < b < |roots| ==> roots[a] != roots[b]
    ensures roots == [root]
  {
    assert forall i :: 0 <= i < |roots| ==> roots[i] in roots;
    DistinctCount(roots, {root});
  }

  lemma {:induction false} RootIdsAreRoots(spans: seq<Span>, rootIds: seq<Id>)
    requires UniqueIds(spans)
    requires forall x :: x in rootIds <==> exists i :: 0 <= i < |spans| && spans[i].id == x && spans[i].parent.None?
    ensures forall x :: x in rootIds <==> x in ParentsOf(ById(spans)) && ParentsOf(ById(spans))[x].None?
  {
    ByIdUnique(spans);
    ByIdKeys(spans);
    forall x
      ensures x in rootIds <==> x in ParentsOf(ById(spans)) && ParentsOf(ById(spans))[x].None?
    {
      if x in ParentsOf(ById(spans)) {
        var i :| 0 <= i < |spans| && spans[i].id == x;
        assert ById(spans)[x] == spans[i];
      }
    }
  }

  function CriticalIds(c: Candidate): set<Id> {
    set i | 0 <= i < |c.spans| && c.spans[i].critical :: c.spans[i].id
  }

  function ErrorIds(c: Candidate): set<Id> {
    set i | 0 <= i < |c.spans| && c.spans[i].status == ERROR :: c.spans[i].id
  }

  lemma {:induction false} CandidateFacts(c: Candidate)
    requires ValidCandidate(c)
    ensures AllRooted(c.SpanById()) && |c.SpanById()| == |c.spans| && c.rootId in c.SpanById()
    ensures TreeAt(ParentsOf(c.SpanById()), c.rootId) && c.SpanById()[c.rootId].parent.None?
    ensures CriticalIds(c) <= CriticalIds(c) + ErrorIds(c) <= c.SpanById().Keys
  {
    ByIdUnique(c.spans);
    TreeIsRooted(ParentsOf(c.SpanById()), c.rootId);
  }

  // ----- The representative trace -----

  predicate HasError(c: Candidate)
    requires c.rootId in c.SpanById()
  {
    || c.SpanById()[c.rootId].status == ERROR
    || exists i :: 0 <= i < |c.spans| && c.spans[i].status == ERROR && c.spans[i].critical
  }

  /** The sort key of a candidate; `issue` counts alert terms found in the trace. */
  datatype Rank = Rank(error: bool, anomaly: real, issue: int, duration: real, traceId: string)

  function RankOf(c: Candidate, issue: Candidate -> int): Rank
    requires c.rootId in c.SpanById()
  {
    Rank(HasError(c), c.anomaly, issue(c), c.duration, c.traceId)
  }

  predicate RankLess(a: Rank, b: Rank) {
    if a.error != b.error then b.error
    else if a.anomaly != b.anomaly then a.anomaly < b.anomaly
    else if a.issue != b.issue then a.issue < b.issue
    else if a.duration != b.duration then a.duration < b.duration
    else StringLess(a.traceId, b.traceId)
  }

  /** `sorted(..., reverse=True)[0]`: the first position of highest rank. */
  function TopRank(ranks: seq<Rank>): (r: nat)
    requires ranks != []
    ensures r < |ranks|
    ensures forall i :: 0 <= i < |ranks| ==> !RankLess(ranks[r], ranks[i])
    ensures forall i :: 0 <= i < r ==> RankLess(ranks[i], ranks[r])
  {
    var n := |ranks| - 1;
    StringLessIrreflexive(ranks[n].traceId);
    if n == 0 then 0
    else
      var best := TopRank(ranks[..n]);
      if RankLess(ranks[best], ranks[n]) then
        RankedBelow(ranks, best);
        n
      else best
  }

  lemma {:induction false} RankedBelow(ranks: seq<Rank>, best: nat)
    requires best < |ranks| - 1
    requires forall i :: 0 <= i < |ranks| - 1 ==> !RankLess(ranks[best], ranks[i])
    requires RankLess(ranks[best], ranks[|ranks| - 1])
    ensures forall i :: 0 <= i < |ranks| - 1 ==>
            RankLess(ranks[i], ranks[|ranks| - 1]) && !RankLess(ranks[|ranks| - 1], ranks[i])
  {
    forall i | 0 <= i < |ranks| - 1
      ensures RankLess(ranks[i], ranks[|ranks| - 1]) && !RankLess(ranks[|ranks| - 1], ranks[i])
    {
      RankDominates(ranks[i], ranks[best], ranks[|ranks| - 1]);
    }
  }

  /** The candidate shown: none ranks above it, and all earlier ones rank below. */
  function Representative(cs: seq<Candidate>, issue: Candidate -> int): (r: nat)
    requires cs != [] && forall i :: 0 <= i < |cs| ==> cs[i].rootId in cs[i].SpanById()
    ensures r < |cs|
    ensures forall i :: 0 <= i < |cs| ==> !RankLess(RankOf(cs[r], issue), RankOf(cs[i], issue))
    ensures forall i :: 0 <= i < r ==> RankLess(RankOf(cs[i], issue), RankOf(cs[r], issue))
  {
    var ranks := seq(|cs|, i requires 0 <= i < |cs| => RankOf(cs[i], issue));
    assert forall i :: 0 <= i < |cs| ==> ranks[i] == RankOf(cs[i], issue);
    TopRank(ranks)
  }

  lemma {:induction false} RankDominates(a: Rank, b: Rank, c: Rank)
    requires !RankLess(b, a) && RankLess(b, c)
    ensures RankLess(a, c) && !RankLess(c, a)
  {
    if a.traceId != b.traceId {
      StringLessTotal(a.traceId, b.traceId);
    }
    if StringLess(a.traceId, b.traceId) && StringLess(b.traceId, c.traceId) {
      StringLessTransitive(a.traceId, b.traceId, c.traceId);
    }
    if StringLess(b.traceId, c.traceId) && StringLess(c.traceId, a.traceId) {
      StringLessTransitive(b.traceId, c.traceId, a.traceId);
    }
    StringLessIrreflexive(a.traceId);
    if StringLess(a.traceId, c.traceId) && StringLess(c.traceId, a.traceId) {
      StringLessTransitive(a.traceId, c.traceId, a.traceId);
    }
  }

  // ----- Selection under the span budget -----

  ghost function ClosureOf(m: map<Id, Span>, ids: set<Id>): set<Id>
    requires AllRooted(m) && ids <= m.Keys
  {
    set i, x | i in ids && x in Lineage(ParentsOf(m), i) :: x
  }

  lemma {:induction false} ClosureIsClosed(m: map<Id, Span>, ids: set<Id>)
    requires AllRooted(m) && ids <= m.Keys
    ensures ids <= ClosureOf(m, ids) <= m.Keys
    ensures AncestorClosed(ParentsOf(m), ClosureOf(m, ids))
  {
    var p := ParentsOf(m);
    forall i | i in ids
      ensures i in ClosureOf(m, ids)
    {
      LineageContainsSelf(m, i);
    }
    forall x | x in ClosureOf(m, ids)
      ensures x in m && (p[x].Some? ==> p[x].value in ClosureOf(m, ids))
    {
      var i :| i in ids && x in Lineage(p, i);
      LineageMembers(p, i);
      if p[x].Some? {
        assert p[x].value in Lineage(p, i);
      }
    }
  }

  /** `_ancestor_closure`: from every id climb to the root, collecting the ids met. */
  method AncestorClosure(m: map<Id, Span>, ids: set<Id>) returns (closure: set<Id>)
    requires AllRooted(m) && ids <= m.Keys
    ensures closure == ClosureOf(m, ids)
  {
    closure := {};
    var todo := ids;
    while todo != {}
      invariant todo <= ids
      invariant closure == ClosureOf(m, ids - todo)
      decreases |todo|
    {
      var id :| id in todo;
      var chain := Climbed(m, id);
      closure := closure + chain;
      assert ids - (todo - {id}) == (ids - todo) + {id};
      todo := todo - {id};
    }
    assert ids - todo == ids;
  }

  /** The inner `while current_id is not None` climb. */
  method Climbed(m: map<Id, Span>, id: Id) returns (chain: set<Id>)
    requires AllRooted(m) && id in m
    ensures chain == Lineage(ParentsOf(m), id)
  {
    chain := {};
    var current := Some(id);
    while current.Some?
      invariant current.Some? ==>
                current.value in m && chain + Lineage(ParentsOf(m), current.value) == Lineage(ParentsOf(m), id)
      invariant current.None? ==> chain == Lineage(ParentsOf(m), id)
      decreases if current.Some? then Level(m, Some(id)) + Depth(ParentsOf(m), current.value) + 1 else 0
    {
      ParentDepth(ParentsOf(m), current.value);
      ghost var before := current.value;
      chain := chain + {current.value};
      current := m[current.value].parent;
      if current.Some? {
        ParentDepth(ParentsOf(m), current.value);
        assert Lineage(ParentsOf(m), before) == {before} + Lineage(ParentsOf(m), current.value);
      }
    }
  }

  /** The marked spans with all their ancestors, and the root. */
  ghost function WithAncestors(m: map<Id, Span>, root: Id, ids: set<Id>): set<Id>
    requires AllRooted(m) && ids <= m.Keys
  {
    ClosureOf(m, ids) + {root}
  }

  lemma {:induction false} WithAncestorsClosed(m: map<Id, Span>, root: Id, ids: set<Id>, more: set<Id>)
    requires AllRooted(m) && ids <= more <= m.Keys && root in m && m[root].parent.None?
    ensures WithAncestors(m, root, more) <= m.Keys
    ensures AncestorClosed(ParentsOf(m), WithAncestors(m, root, more))
    ensures WithAncestors(m, root, ids) <= WithAncestors(m, root, more)
  {
    ClosureIsClosed(m, more);
  }

  ghost function Required(c: Candidate): (r: set<Id>)
    requires ValidCandidate(c)
  {
    CandidateFacts(c);
    WithAncestors(c.SpanById(), c.rootId, CriticalIds(c) + ErrorIds(c))
  }

  ghost function CriticalClosure(c: Candidate): (r: set<Id>)
    requires ValidCandidate(c)
  {
    CandidateFacts(c);
    WithAncestors(c.SpanById(), c.rootId, CriticalIds(c))
  }

  /** `_add_with_ancestors`: take a span with its whole lineage, or leave it. */
  ghost function Adding(m: map<Id, Span>, sel: set<Id>, id: Id, budget: int): (r: set<Id>)
    requires AllRooted(m) && id in m
    ensures sel <= r
  {
    var chain := Lineage(ParentsOf(m), id);
    if |sel + chain| <= budget then sel + chain else sel
  }

  ghost function AddingAll(m: map<Id, Span>, sel: set<Id>, ids: seq<Id>, budget: int): (r: set<Id>)
    requires AllRooted(m) && forall id :: id in ids ==> id in m
    ensures sel <= r
  {
    if ids == [] then sel
    else Adding(m, AddingAll(m, sel, ids[..|ids| - 1], budget), ids[|ids| - 1], budget)
  }

  /** The ids `_truncate` keeps, given the required set and the critical closure. */
  ghost function Select(m: map<Id, Span>, required: set<Id>, critical: set<Id>, budget: nat): set<Id>
    requires AllRooted(m) && critical <= m.Keys
  {
    if |required| > budget then
      var shown := Display(m, critical);
      set x | x in shown[..Min(budget, |shown|)]
    else
      AddingAll(m, required, SortIds(m, m.Keys), budget)
  }

  ghost function Selection(c: Candidate, budget: nat): set<Id>
    requires ValidCandidate(c) && budget >= 1
  {
    CandidateFacts(c);
    WithAncestorsClosed(c.SpanById(), c.rootId, CriticalIds(c), CriticalIds(c) + ErrorIds(c));
    Select(c.SpanById(), Required(c), CriticalClosure(c), budget)
  }

  lemma {:induction false} AddingAllClosed(m: map<Id, Span>, sel: set<Id>, ids: seq<Id>, budget: int)
    requires AllRooted(m) && forall id :: id in ids ==> id in m
    requires sel <= m.Keys && AncestorClosed(ParentsOf(m), sel) && |sel| <= budget
    ensures AddingAll(m, sel, ids, budget) <= m.Keys
    ensures AncestorClosed(ParentsOf(m), AddingAll(m, sel, ids, budget))
    ensures |AddingAll(m, sel, ids, budget)| <= budget
  {
    if ids != [] {
      AddingAllClosed(m, sel, ids[..|ids| - 1], budget);
      LineageMembers(ParentsOf(m), ids[|ids| - 1]);
    }
  }

  lemma {:induction false} LineageContainsSelf(m: map<Id, Span>, id: Id)
    requires AllRooted(m) && id in m
    ensures id in Lineage(ParentsOf(m), id)
  {
    LineageMembers(ParentsOf(m), id);
  }

  /** Every id offered and left out still does not fit at the end. */
  lemma {:induction false} LeftOutDoesNotFit(m: map<Id, Span>, sel: set<Id>, ids: seq<Id>, budget: int, id: Id)
    requires AllRooted(m) && forall x :: x in ids ==> x in m
    requires id in ids && id !in AddingAll(m, sel, ids, budget)
    ensures |AddingAll(m, sel, ids, budget) + Lineage(ParentsOf(m), id)| > budget
  {
    var n := |ids| - 1;
    var before := AddingAll(m, sel, ids[..n], budget);
    var after := AddingAll(m, sel, ids, budget);
    var chain := Lineage(ParentsOf(m), id);
    assert after == Adding(m, before, ids[n], budget);
    if id in ids[..n] {
      LeftOutDoesNotFit(m, sel, ids[..n], budget, id);
    } else {
      assert id == ids[n];
      LineageContainsSelf(m, id);
    }
    SubsetSize(before + chain, after + chain);
  }

  /** Climbing from an id outside a closed set towards the root in it meets a child of the set. */
  lemma {:induction false} AddableChild(m: map<Id, Span>, sel: set<Id>, root: Id, id: Id) returns (child: Id)
    requires AllRooted(m) && root in sel && id in m && id !in sel
    requires root in Lineage(ParentsOf(m), id)
    ensures child in m && child !in sel && m[child].parent.Some? && m[child].parent.value in sel
    decreases Depth(ParentsOf(m), id)
  {
    ParentDepth(ParentsOf(m), id);
    ParentDepth(ParentsOf(m), m[id].parent.value);
    if m[id].parent.value in sel {
      child := id;
    } else {
      child := AddableChild(m, sel, root, m[id].parent.value);
    }
  }

  lemma {:induction false} ChildFits(m: map<Id, Span>, sel: set<Id>, child: Id)
    requires AllRooted(m) && sel <= m.Keys && AncestorClosed(ParentsOf(m), sel)
    requires child in m && child !in sel && m[child].parent.Some? && m[child].parent.value in sel
    ensures |sel + Lineage(ParentsOf(m), child)| == |sel| + 1
  {
    var p := ParentsOf(m);
    ParentDepth(p, child);
    ClosedHasLineage(p, sel, m[child].parent.value);
    assert sel + Lineage(p, child) == sel + {child};
  }

  /** Whenever a span is left out, the budget is used up: else a child of the selection would fit. */
  lemma {:induction false} LeftOutMeansFull(m: map<Id, Span>, root: Id, required: set<Id>, budget: nat,
                                            sel: set<Id>, id: Id)
    requires AllRooted(m) && TreeAt(ParentsOf(m), root)
    requires sel == AddingAll(m, required, SortIds(m, m.Keys), budget)
    requires root in sel && sel <= m.Keys && AncestorClosed(ParentsOf(m), sel)
    requires id in m && id !in sel
    ensures |sel| >= budget
  {
    TreeLineage(ParentsOf(m), root, id);
    var child := AddableChild(m, sel, root, id);
    LeftOutDoesNotFit(m, required, SortIds(m, m.Keys), budget, child);
    ChildFits(m, sel, child);
  }

  lemma {:induction false} GreedyFillsBudget(m: map<Id, Span>, root: Id, required: set<Id>, budget: nat)
    requires AllRooted(m) && TreeAt(ParentsOf(m), root)
    requires root in required && required <= m.Keys && AncestorClosed(ParentsOf(m), required) && |required| <= budget
    ensures var sel := AddingAll(m, required, SortIds(m, m.Keys), budget);
            && required <= sel <= m.Keys && AncestorClosed(ParentsOf(m), sel)
            && |sel| == Min(budget, |m|)
  {
    var sel := AddingAll(m, required, SortIds(m, m.Keys), budget);
    AddingAllClosed(m, required, SortIds(m, m.Keys), budget);
    SubsetSize(sel, m.Keys);
    if id :| id in m && id !in sel {
      LeftOutMeansFull(m, root, required, budget, sel, id);
    } else {
      assert sel == m.Keys;
    }
  }

  /** The required spans and the lineages of the kept ones among the first `k` in the order. */
  ghost function TakenBefore(m: map<Id, Span>, required: set<Id>, kept: set<Id>, order: seq<Id>, k: nat): set<Id>
    requires AllRooted(m) && k <= |order| && forall id :: id in order ==> id in m
  {
    if k == 0 then required
    else
      assert order[k - 1] in order;
      TakenBefore(m, required, kept, order, k - 1) +
      if order[k - 1] in kept then Lineage(ParentsOf(m), order[k - 1]) else {}
  }

  /** A span is kept if and only if it fits with its ancestors when its turn comes. */
  lemma {:induction false} KeptWhenFits(m: map<Id, Span>, required: set<Id>, order: seq<Id>, budget: nat, k: nat)
    requires AllRooted(m) && k < |order| && forall id :: id in order ==> id in m
    requires required <= m.Keys && AncestorClosed(ParentsOf(m), required) && |required| <= budget
    ensures order[k] in order && order[k] in m
    ensures order[k] in AddingAll(m, required, order, budget) <==>
            |AddingAll(m, required, order[..k], budget) + Lineage(ParentsOf(m), order[k])| <= budget
  {
    var id := order[k];
    assert id in order;
    hide AllRooted, Lineage, AddingAll, AncestorClosed;
    var kept, before := AddingAll(m, required, order, budget), AddingAll(m, required, order[..k], budget);
    AddingOneMore(m, required, order, k, budget);
    AddingAllClosed(m, required, order, budget);
    PrefixAdds(m, required, order, budget, k);
    PrefixAdds(m, required, order, budget, k + 1);
    RootedAmong(m, id);
    LineageContainsSelf(m, id);
    if id in kept {
      ClosedHasLineage(ParentsOf(m), kept, id);
      SubsetSize(before + Lineage(ParentsOf(m), id), kept);
    }
  }

  lemma {:induction false} TakenInOrder(m: map<Id, Span>, required: set<Id>, order: seq<Id>, budget: nat, k: nat)
    requires AllRooted(m) && k <= |order| && forall id :: id in order ==> id in m
    requires required <= m.Keys && AncestorClosed(ParentsOf(m), required) && |required| <= budget
    ensures AddingAll(m, required, order[..k], budget)
            == TakenBefore(m, required, AddingAll(m, required, order, budget), order, k)
  {
    hide AllRooted, Lineage, AncestorClosed, AddingAll;
    if k == 0 {
      AddingNone(m, required, budget);
      assert order[..0] == [];
    } else {
      TakenInOrder(m, required, order, budget, k - 1);
      AddingOneMore(m, required, order, k - 1, budget);
      KeptWhenFits(m, required, order, budget, k - 1);
    }
  }

  lemma {:induction false} PrefixAdds(m: map<Id, Span>, required: set<Id>, order: seq<Id>, budget: nat, k: nat)
    requires AllRooted(m) && k <= |order| && forall id :: id in order ==> id in m
    ensures AddingAll(m, required, order[..k], budget) <= AddingAll(m, required, order, budget)
    decreases |order| - k
  {
    hide Adding;
    if k == |order| {
      assert order[..k] == order;
    } else {
      PrefixAdds(m, required, order, budget, k + 1);
      AddingOneMore(m, required, order, k, budget);
    }
  }

  /**
   Which spans fill the rest of the budget: going through all spans by start and id, a span is kept if and
   only if it and its ancestors still fit beside the required spans and the kept ones before it.
   */
  lemma {:induction false} GreedyTakesExactly(m: map<Id, Span>, required: set<Id>, budget: nat, k: nat)
    requires AllRooted(m) && k < |m|
    requires required <= m.Keys && AncestorClosed(ParentsOf(m), required) && |required| <= budget
    ensures var order := SortIds(m, m.Keys);
            var kept := AddingAll(m, required, order, budget);
            && order[k] in order && order[k] in m
            && (order[k] in kept <==>
                |TakenBefore(m, required, kept, order, k) + Lineage(ParentsOf(m), order[k])| <= budget)
  {
    hide AllRooted, Lineage, SortIds, AncestorClosed, AddingAll, TakenBefore;
    var order := SortIds(m, m.Keys);
    assert |order| == |m.Keys| == |m|;
    TakenInOrder(m, required, order, budget, k);
    KeptWhenFits(m, required, order, budget, k);
  }

  /** Over the budget, what is kept is a display prefix of the critical closure, root first. */
  lemma {:induction false} OverflowKeepsPrefix(m: map<Id, Span>, root: Id, critical: set<Id>, budget: nat)
    requires AllRooted(m) && TreeAt(ParentsOf(m), root) && budget >= 1
    requires root in critical && critical <= m.Keys && AncestorClosed(ParentsOf(m), critical)
    ensures var shown := Display(m, critical);
            var sel := set x | x in shown[..Min(budget, |shown|)];
            && root in sel && sel <= critical && AncestorClosed(ParentsOf(m), sel)
            && |sel| == Min(budget, |critical|)
  {
    var shown := Display(m, critical);
    DisplayIsPermutation(m, critical);
    var n := Min(budget, |shown|);
    PrefixesClosed(m, critical, n);
    var sel := set x | x in shown[..n];
    assert root in shown;
    assert shown[..n][0] == shown[0] && shown[0] in critical;
    var first := shown[0];
    assert first in sel;
    TreeLineage(ParentsOf(m), root, first);
    ClosedHasLineage(ParentsOf(m), sel, first);
  }

  /**
   The selection theorem: whatever the budget, the selection is an ancestor-closed set holding the
   root. It keeps every error and critical span with all ancestors exactly when they fit, and then it
   also uses the budget in full; otherwise it is a display prefix of the critical closure. Spans are
   reported as truncated exactly when the trace has more spans than the budget.
   */
  lemma {:induction false} SelectionTheorem(c: Candidate, budget: nat)
    requires ValidCandidate(c) && budget >= 1
    ensures c.rootId in Selection(c, budget) && Selection(c, budget) <= c.SpanById().Keys
    ensures AncestorClosed(ParentsOf(c.SpanById()), Selection(c, budget))
    ensures 1 <= |Selection(c, budget)| <= budget
    ensures Required(c) <= Selection(c, budget) <==> |Required(c)| <= budget
    ensures |Required(c)| <= budget ==> |Selection(c, budget)| == Min(budget, |c.spans|)
    ensures |Required(c)| > budget ==> Selection(c, budget) <= CriticalClosure(c)
    ensures |Required(c)| > budget ==> |Selection(c, budget)| == Min(budget, |CriticalClosure(c)|)
    ensures |Selection(c, budget)| < |c.spans| <==> |c.spans| > budget
  {
    CandidateFacts(c);
    var m := c.SpanById();
    var required, critical, sel := Required(c), CriticalClosure(c), Selection(c, budget);
    WithAncestorsClosed(m, c.rootId, CriticalIds(c), CriticalIds(c) + ErrorIds(c));
    WithAncestorsClosed(m, c.rootId, CriticalIds(c), CriticalIds(c));
    SubsetSize(required, m.Keys);
    if |required| <= budget {
      GreedyFillsBudget(m, c.rootId, required, budget);
    } else {
      OverflowKeepsPrefix(m, c.rootId, critical, budget);
      if required <= sel {
        SubsetSize(required, sel);
      }
    }
    SubsetSize({c.rootId}, sel);
  }

  // ----- What is kept, in terms of the spans -----

  /** `x` is a critical span, or with `errorsToo` an error span, or an ancestor of one. */
  ghost predicate AboveMarked(c: Candidate, x: Id, errorsToo: bool) {
    exists i: nat, k: nat ::
      i < |c.spans| && (c.spans[i].critical || (errorsToo && c.spans[i].status == ERROR))
      && Climb(ParentsOf(c.SpanById()), c.spans[i].id, k) == Some(x)
  }

  ghost function Needed(c: Candidate, errorsToo: bool): set<Id> {
    set x | x in c.SpanById() && (x == c.rootId || AboveMarked(c, x, errorsToo))
  }

  lemma {:induction false} MarkedClosure(c: Candidate, ids: set<Id>, errorsToo: bool)
    requires ValidCandidate(c)
    requires forall x :: x in ids <==>
               exists i :: 0 <= i < |c.spans| && (c.spans[i].critical || (errorsToo && c.spans[i].status == ERROR))
                 && c.spans[i].id == x
    ensures AllRooted(c.SpanById()) && ids <= c.SpanById().Keys
    ensures WithAncestors(c.SpanById(), c.rootId, ids) == Needed(c, errorsToo)
  {
    CandidateFacts(c);
    ByIdUnique(c.spans);
    var m := c.SpanById();
    var p := ParentsOf(m);
    hide ValidCandidate, Climb, Lineage, AllRooted;
    forall x
      ensures x in ClosureOf(m, ids) <==> AboveMarked(c, x, errorsToo)
      ensures x in ClosureOf(m, ids) ==> x in m
    {
      if x in ClosureOf(m, ids) {
        var id :| id in ids && x in Lineage(p, id);
        RootedAmong(m, id);
        LineageMembers(p, id);
        var k := LineageClimbs(p, id, x);
        var i :| 0 <= i < |c.spans| && (c.spans[i].critical || (errorsToo && c.spans[i].status == ERROR))
          && c.spans[i].id == id;
        assert Climb(p, c.spans[i].id, k) == Some(x);
      }
      if AboveMarked(c, x, errorsToo) {
        var i: nat, k: nat :| i < |c.spans| && (c.spans[i].critical || (errorsToo && c.spans[i].status == ERROR))
          && Climb(p, c.spans[i].id, k) == Some(x);
        RootedAmong(m, c.spans[i].id);
        ClimbStaysInLineage(p, c.spans[i].id, k);
        assert c.spans[i].id in ids;
      }
    }
  }

  lemma RootedAmong(m: map<Id, Span>, id: Id)
    requires AllRooted(m) && id in m
    ensures Rooted(ParentsOf(m), id)
  {
  }

  lemma {:induction false} RequiredIsNeeded(c: Candidate)
    requires ValidCandidate(c)
    ensures Required(c) == Needed(c, true) && CriticalClosure(c) == Needed(c, false)
  {
    CandidateFacts(c);
    hide ValidCandidate, WithAncestors, AboveMarked;
    MarkedClosure(c, CriticalIds(c) + ErrorIds(c), true);
    MarkedClosure(c, CriticalIds(c), false);
  }

  /**
   What a reader sees of a trace: if the error and critical spans, all their ancestors and the root fit
   the budget, they are all shown; if not, only the root, critical spans and ancestors of those are.
   */
  lemma {:induction false} ImportantSpansShown(c: Candidate, budget: nat)
    requires ValidCandidate(c) && budget >= 1
    ensures |Needed(c, true)| <= budget ==>
              Needed(c, true) <= Selection(c, budget) && |Selection(c, budget)| == Min(budget, |c.spans|)
    ensures |Needed(c, true)| > budget ==>
              Selection(c, budget) <= Needed(c, false) && |Selection(c, budget)| == Min(budget, |Needed(c, false)|)
  {
    hide ValidCandidate, Needed, Required, CriticalClosure, Selection;
    SelectionTheorem(c, budget);
    RequiredIsNeeded(c);
  }

  // ----- The methods -----

  method AddWithAncestors(m: map<Id, Span>, sel: set<Id>, id: Id, budget: int) returns (r: set<Id>)
    requires AllRooted(m) && id in m
    ensures r == Adding(m, sel, id, budget)
  {
    var chain := AncestorClosure(m, {id});
    assert chain == Lineage(ParentsOf(m), id);
    r := sel;
    if |sel + chain| <= budget {
      r := sel + chain;
    }
  }

  /** Every key with selected children has them in sibling order, and no other key is there. */
  ghost predicate SortedKids(m: map<Id, Span>, sel: set<Id>, children: map<Option<Id>, seq<Id>>)
    requires sel <= m.Keys
  {
    && (forall k :: k in children <==> Kids(m, sel, k) != [])
    && forall k :: k in children ==> children[k] == Kids(m, sel, k)
  }

  lemma KidsAt(m: map<Id, Span>, sel: set<Id>, children: map<Option<Id>, seq<Id>>, id: Id)
    requires AllRooted(m) && sel <= m.Keys && id in m && SortedKids(m, sel, children)
    ensures Some(id) in children ==> children[Some(id)] == Kids(m, sel, Some(id))
    ensures Some(id) !in children ==> PreorderAll(m, sel, Some(id), Kids(m, sel, Some(id))) == []
  {
    hide Kids, AllRooted;
  }

  /** `visit`: append the span, then visit its children in order. */
  method Visit(m: map<Id, Span>, ghost sel: set<Id>, children: map<Option<Id>, seq<Id>>, ordered: seq<Id>, id: Id)
    returns (r: seq<Id>)
    requires AllRooted(m) && sel <= m.Keys && id in m && SortedKids(m, sel, children)
    ensures r == ordered + Preorder(m, sel, id)
    decreases Level(m, Some(id)), 1, 0
  {
    hide SortedKids, Kids, AllRooted, PreorderAll, Level;
    KidsAt(m, sel, children, id);
    r := ordered + [id];
    if Some(id) in children {
      r := VisitAll(m, sel, children, r, Some(id), children[Some(id)]);
    }
    assert ordered + [id] + PreorderAll(m, sel, Some(id), Kids(m, sel, Some(id)))
        == ordered + ([id] + PreorderAll(m, sel, Some(id), Kids(m, sel, Some(id))));
  }

  /** `for child_id in children.get(span_id, []): visit(child_id)` */
  method VisitAll(m: map<Id, Span>, ghost sel: set<Id>, children: map<Option<Id>, seq<Id>>, ordered: seq<Id>,
                  ghost key: Option<Id>, kids: seq<Id>)
    returns (r: seq<Id>)
    requires AllRooted(m) && sel <= m.Keys && (key.Some? ==> key.value in m) && SortedKids(m, sel, children)
    requires forall k :: k in kids ==> k in m && m[k].parent == key
    ensures r == ordered + PreorderAll(m, sel, key, kids)
    decreases Level(m, key), 0, |kids|
  {
    hide SortedKids, AllRooted, Preorder, Level;
    r := ordered;
    assert kids[0..] == kids;
    for n := 0 to |kids|
      invariant r + PreorderAll(m, sel, key, kids[n..]) == ordered + PreorderAll(m, sel, key, kids)
    {
      LevelDrops(m, kids[n]);
      ghost var rest := kids[n..];
      assert rest[0] == kids[n] && rest[1..] == kids[n + 1..];
      ghost var before := r;
      r := Visit(m, sel, children, r, kids[n]);
      assert r + PreorderAll(m, sel, key, kids[n + 1..])
          == before + (Preorder(m, sel, kids[n]) + PreorderAll(m, sel, key, kids[n + 1..]));
    }
    assert kids[|kids|..] == [];
  }

  ghost predicate GroupsByParent(m: map<Id, Span>, ids: set<Id>, groups: map<Option<Id>, set<Id>>)
    requires ids <= m.Keys
  {
    && (forall x :: x in ids ==> m[x].parent in groups && x in groups[m[x].parent])
    && forall k :: k in groups ==> groups[k] != {} && forall x :: x in groups[k] ==> x in ids && m[x].parent == k
  }

  /** `children.setdefault(parent_id, []).append(span_id)` for every selected span. */
  method GroupByParent(m: map<Id, Span>, selected: set<Id>) returns (children: map<Option<Id>, set<Id>>)
    requires selected <= m.Keys
    ensures GroupsByParent(m, selected, children)
  {
    children := map[];
    var todo := selected;
    while todo != {}
      invariant todo <= selected
      invariant GroupsByParent(m, selected - todo, children)
      decreases |todo|
    {
      var id :| id in todo;
      var key := m[id].parent;
      todo := todo - {id};
      children := children[key := (if key in children then children[key] else {}) + {id}];
    }
    assert selected - todo == selected;
  }

  lemma {:induction false} SortedGroupIsKids(m: map<Id, Span>, sel: set<Id>, groups: map<Option<Id>, set<Id>>,
                                             k: Option<Id>)
    requires sel <= m.Keys && GroupsByParent(m, sel, groups)
    ensures k in groups <==> Kids(m, sel, k) != []
    ensures k in groups ==> groups[k] <= m.Keys && SortIds(m, groups[k]) == Kids(m, sel, k)
  {
    var group := set x | x in sel && m[x].parent == k;
    if Kids(m, sel, k) != [] {
      var x := Kids(m, sel, k)[0];
      assert x in Kids(m, sel, k);
    }
    if k in groups {
      assert group == groups[k];
      var x :| x in group;
      assert x in Kids(m, sel, k);
    }
  }

  lemma {:induction false} GroupsSortIntoKids(m: map<Id, Span>, sel: set<Id>, groups: map<Option<Id>, set<Id>>)
    requires sel <= m.Keys && GroupsByParent(m, sel, groups)
    ensures forall k :: k in groups ==> groups[k] <= m.Keys
    ensures SortedKids(m, sel, map k | k in groups :: SortIds(m, groups[k]))
  {
    hide GroupsByParent, Kids;
    forall k
      ensures k in groups <==> Kids(m, sel, k) != []
      ensures k in groups ==> groups[k] <= m.Keys && SortIds(m, groups[k]) == Kids(m, sel, k)
    {
      SortedGroupIsKids(m, sel, groups, k);
    }
  }

  lemma DisplayStartsAtNone(m: map<Id, Span>, sel: set<Id>, children: map<Option<Id>, seq<Id>>)
    requires AllRooted(m) && sel <= m.Keys && SortedKids(m, sel, children)
    ensures None in children ==>
              && (forall k :: k in children[None] ==> k in m && m[k].parent == None)
              && Display(m, sel) == PreorderAll(m, sel, None, children[None])
    ensures None !in children ==> Display(m, sel) == []
  {
    hide AllRooted;
  }

  /** `_topological_order` */
  method TopologicalOrder(c: Candidate, selected: set<Id>) returns (ordered: seq<Id>)
    requires ValidCandidate(c) && selected <= c.SpanById().Keys
    ensures AllRooted(c.SpanById())
    ensures ordered == Display(c.SpanById(), selected)
  {
    CandidateFacts(c);
    hide ValidCandidate, AllRooted, SortedKids, GroupsByParent, Display;
    var m := c.SpanById();
    var children := GroupByParent(m, selected);
    GroupsSortIntoKids(m, selected, children);
    var sorted := map k | k in children :: SortIds(m, children[k]);
    DisplayStartsAtNone(m, selected, sorted);
    ordered := [];
    if None in sorted {
      ordered := VisitAll(m, selected, sorted, ordered, None, sorted[None]);
    }
  }

  function RepresentativeScore(c: Candidate): real
    requires c.rootId in c.SpanById()
  {
    (if HasError(c) then 1.0 else 0.0) + c.anomaly + c.duration / 1000000000.0
  }

  lemma AddingNone(m: map<Id, Span>, sel: set<Id>, budget: int)
    requires AllRooted(m)
    ensures AddingAll(m, sel, [], budget) == sel
  {
  }

  lemma AddingOneMore(m: map<Id, Span>, sel: set<Id>, ids: seq<Id>, n: nat, budget: int)
    requires AllRooted(m) && n < |ids| && forall id :: id in ids ==> id in m
    ensures ids[n] in m
    ensures AddingAll(m, sel, ids[..n + 1], budget) == Adding(m, AddingAll(m, sel, ids[..n], budget), ids[n], budget)
  {
    hide Adding;
    assert ids[..n + 1][..n] == ids[..n];
  }

  /** `for span_id in _stable_span_ids(...): _add_with_ancestors(...)` */
  method FillBudget(m: map<Id, Span>, required: set<Id>, budget: nat) returns (selected: set<Id>)
    requires AllRooted(m)
    ensures selected == AddingAll(m, required, SortIds(m, m.Keys), budget)
  {
    hide Adding, AddingAll;
    selected := required;
    var order := SortIds(m, m.Keys);
    AddingNone(m, required, budget);
    for n := 0 to |order|
      invariant selected == AddingAll(m, required, order[..n], budget)
    {
      AddingOneMore(m, required, order, n, budget);
      selected := AddWithAncestors(m, selected, order[n], budget);
    }
    assert order[..|order|] == order;
  }

  method SelectSpans(c: Candidate, budget: nat) returns (selected: set<Id>)
    requires ValidCandidate(c) && budget >= 1
    ensures selected == Selection(c, budget)
  {
    CandidateFacts(c);
    var m := c.SpanById();
    WithAncestorsClosed(m, c.rootId, CriticalIds(c), CriticalIds(c));
    var required := AncestorClosure(m, CriticalIds(c) + ErrorIds(c));
    required := required + {c.rootId};
    if |required| > budget {
      var closure := AncestorClosure(m, CriticalIds(c));
      closure := closure + {c.rootId};
      var shown := TopologicalOrder(c, closure);
      selected := set x | x in shown[..Min(budget, |shown|)];
    } else {
      selected := FillBudget(m, required, budget);
    }
  }

  /** What `_truncate` returns: the selection in display order, with its score and truncation flag. */
  ghost function SelectedFor(c: Candidate, budget: nat): (r: Selected)
    requires ValidCandidate(c) && budget >= 1
  {
    CandidateFacts(c);
    SelectionTheorem(c, budget);
    Selected(c, Display(c.SpanById(), Selection(c, budget)), RepresentativeScore(c), |c.spans| > budget)
  }

  /** `_truncate` */
  method Truncate(c: Candidate, budget: nat) returns (r: Selected)
    requires ValidCandidate(c) && budget >= 1
    ensures r == SelectedFor(c, budget)
    ensures r.candidate == c && (r.truncated <==> |c.spans| > budget)
    ensures |Needed(c, true)| <= budget ==>
              (forall x :: x in Needed(c, true) ==> x in r.ids) && |r.ids| == Min(budget, |c.spans|)
    ensures |Needed(c, true)| > budget ==> forall x :: x in r.ids ==> x in Needed(c, false)
  {
    CandidateFacts(c);
    SelectionTheorem(c, budget);
    ImportantSpansShown(c, budget);
    hide ValidCandidate, Needed, Display;
    var selected := SelectSpans(c, budget);
    DisplayIsPermutation(c.SpanById(), selected);
    var ids := TopologicalOrder(c, selected);
    r := Selected(c, ids, RepresentativeScore(c), |ids| < |c.spans|);
  }

  // ----- The stored document -----

  /** `_SelectedTrace.to_storage_dict` */
  function ToStorage(sel: Selected): Waterfall
    requires sel.candidate.rootId in sel.candidate.SpanById()
    requires forall id :: id in sel.ids ==> id in sel.candidate.SpanById()
  {
    var c := sel.candidate;
    var root := c.SpanById()[c.rootId];
    Waterfall(1, c.traceId, root.service, root.operation, c.startedAt, c.duration, |c.spans|, sel.score,
              sel.truncated, seq(|sel.ids|, i requires 0 <= i < |sel.ids| => c.SpanById()[sel.ids[i]]))
  }

  /** Climbing inside an ancestor-closed part of a tree is climbing in the tree. */
  lemma {:induction false} ClimbInPart(p: Parents, part: Parents, id: Id, k: nat)
    requires part.Keys <= p.Keys && AncestorClosed(p, part.Keys) && id in part
    requires forall x :: x in part ==> part[x] == p[x]
    ensures Climb(part, id, k) == Climb(p, id, k)
    ensures Climb(p, id, k).Some? ==> Climb(p, id, k).value in part || Climb(p, id, k).value !in p
  {
    if k > 0 {
      ClimbInPart(p, part, id, k - 1);
      var below := Climb(p, id, k - 1);
      if below.Some? && below.value in part && p[below.value].Some? {
        assert p[below.value].value in part;
      }
    }
  }

  lemma {:induction false} PartIsTree(p: Parents, part: Parents, root: Id)
    requires TreeAt(p, root) && part.Keys <= p.Keys && AncestorClosed(p, part.Keys) && root in part
    requires forall x :: x in part ==> part[x] == p[x]
    ensures TreeAt(part, root)
  {
    forall id | id in part
      ensures Reaches(part, id, root)
    {
      assert Reaches(p, id, root);
      var k: nat :| Climb(p, id, k) == Some(root);
      ClimbInPart(p, part, id, k);
      assert Climb(part, id, k) == Some(root);
    }
  }

  ghost predicate Picked(m: map<Id, Span>, ids: seq<Id>, spans: seq<Span>) {
    && |spans| == |ids|
    && (forall i :: 0 <= i < |ids| ==> ids[i] in m && spans[i] == m[ids[i]] && spans[i].id == ids[i])
    && forall i, j :: 0 <= i < j < |ids| ==> ids[i] != ids[j]
  }

  lemma {:induction false} PickedSpans(m: map<Id, Span>, ids: seq<Id>, spans: seq<Span>)
    requires Picked(m, ids, spans)
    ensures UniqueIds(spans)
    ensures ById(spans).Keys == (set x | x in ids) <= m.Keys
    ensures forall x :: x in ById(spans) ==> ById(spans)[x] == m[x]
  {
    ByIdKeys(spans);
    ByIdUnique(spans);
    forall x
      ensures x in ById(spans) <==> x in ids
      ensures x in ById(spans) ==> x in m && ById(spans)[x] == m[x]
    {
      if x in ById(spans) {
        var i :| 0 <= i < |spans| && spans[i].id == x;
        assert ById(spans)[spans[i].id] == spans[i];
      }
      if x in ids {
        var i :| 0 <= i < |ids| && ids[i] == x;
        assert spans[i].id == x;
      }
    }
  }

  lemma {:induction false} SpansOfCandidate(c: Candidate)
    requires ValidCandidate(c)
    ensures forall x :: x in c.SpanById() ==>
              c.SpanById()[x].id == x && SpanFieldsValid(c.SpanById()[x])
                && SpanEnd(c.SpanById()[x]) <= c.duration + 1.0
  {
    ByIdKeys(c.spans);
  }

  /** A displayed selection, stored, is a rooted tree of distinct spans. */
  lemma {:induction false} PickedIsTree(m: map<Id, Span>, root: Id, sel: set<Id>, spans: seq<Span>)
    requires AllRooted(m) && TreeAt(ParentsOf(m), root)
    requires root in sel && sel <= m.Keys && AncestorClosed(ParentsOf(m), sel)
    requires Picked(m, Display(m, sel), spans)
    ensures |spans| == |sel| && UniqueIds(spans)
    ensures TreeAt(ParentsOf(ById(spans)), root) && root in ById(spans) && ById(spans)[root] == m[root]
  {
    DisplayIsPermutation(m, sel);
    PickedSpans(m, Display(m, sel), spans);
    assert ParentsOf(ById(spans)).Keys == sel;
    PartIsTree(ParentsOf(m), ParentsOf(ById(spans)), root);
  }

  lemma {:induction false} DocumentIsValid(w: Waterfall, m: map<Id, Span>, root: Id, sel: set<Id>)
    requires AllRooted(m) && TreeAt(ParentsOf(m), root)
    requires root in sel && sel <= m.Keys && AncestorClosed(ParentsOf(m), sel) && |sel| <= 100
    requires Picked(m, Display(m, sel), w.spans)
    requires forall x :: x in m ==> SpanFieldsValid(m[x]) && SpanEnd(m[x]) <= w.duration + 1.0
    requires w.rootService == m[root].service && w.rootOperation == m[root].operation
    requires w.spanCount == |m| && (w.truncated <==> |sel| < |m|)
    requires w.schemaVersion == 1 && w.traceId != "" && w.duration >= 0.0 && w.score >= 0.0
    ensures FieldsValid(w) && ValidTree(w)
  {
    hide Display, TreeAt, AncestorClosed, ById;
    PickedIsTree(m, root, sel, w.spans);
    assert RootedAt(w, root);
    SubsetSize(sel, m.Keys);
    SubsetSize({root}, sel);
  }

  lemma {:induction false} StorageIsPicked(c: Candidate, m: map<Id, Span>, sel: Selected)
    requires m == c.SpanById() && c.rootId in m && sel.candidate == c
    requires forall i :: 0 <= i < |sel.ids| ==> sel.ids[i] in m && m[sel.ids[i]].id == sel.ids[i]
    requires forall i, j :: 0 <= i < j < |sel.ids| ==> sel.ids[i] != sel.ids[j]
    ensures Picked(m, sel.ids, ToStorage(sel).spans)
  {
  }

  lemma {:induction false} DisplayFacts(m: map<Id, Span>, sel: set<Id>, ids: seq<Id>)
    requires AllRooted(m) && sel <= m.Keys && AncestorClosed(ParentsOf(m), sel) && ids == Display(m, sel)
    ensures |ids| == |sel| && forall x :: x in ids <==> x in sel
    ensures forall i, j :: 0 <= i < j < |ids| ==> ids[i] != ids[j]
  {
    DisplayIsPermutation(m, sel);
    assert forall x :: x in ids <==> x in set y | y in ids;
  }

  lemma {:induction false} StoredFromParts(s: Selected, m: map<Id, Span>, sel: set<Id>)
    requires ValidCandidate(s.candidate) && m == s.candidate.SpanById() && |m| == |s.candidate.spans|
    requires AllRooted(m) && TreeAt(ParentsOf(m), s.candidate.rootId)
    requires s.candidate.rootId in sel && sel <= m.Keys && AncestorClosed(ParentsOf(m), sel) && |sel| <= 100
    requires s.ids == Display(m, sel) && s.score >= 0.0 && (s.truncated <==> |sel| < |m|)
    ensures s.candidate.rootId in m && forall id :: id in s.ids ==> id in m
    ensures FieldsValid(ToStorage(s)) && ValidTree(ToStorage(s))
    ensures |ToStorage(s).spans| == |sel|
  {
    DisplayFacts(m, sel, s.ids);
    SpansOfCandidate(s.candidate);
    StorageIsPicked(s.candidate, m, s);
    DocumentIsValid(ToStorage(s), m, s.candidate.rootId, sel);
  }

  /** Agreement: whatever the worker selects, the backend's independent check accepts. */
  lemma {:induction false} StoredIsValid(c: Candidate, budget: nat)
    requires ValidCandidate(c) && 1 <= budget <= MAX_RESPONSE_SPANS
    ensures c.rootId in c.SpanById() && forall id :: id in SelectedFor(c, budget).ids ==> id in c.SpanById()
    ensures FieldsValid(ToStorage(SelectedFor(c, budget))) && ValidTree(ToStorage(SelectedFor(c, budget)))
    ensures |ToStorage(SelectedFor(c, budget)).spans| == |Selection(c, budget)|
  {
    CandidateFacts(c);
    SelectionTheorem(c, budget);
    ScoreNotNegative(c);
    StoredFromParts(SelectedFor(c, budget), c.SpanById(), Selection(c, budget));
  }

  lemma {:induction false} ScoreNotNegative(c: Candidate)
    requires c.rootId in c.SpanById() && c.anomaly >= 0.0 && c.duration >= 0.0
    ensures RepresentativeScore(c) >= 0.0
  {
    assert c.duration / 1000000000.0 >= 0.0;
  }

  ghost predicate NoneAcceptable(traces: seq<InputTrace>) {
    forall i :: 0 <= i < |traces| ==> !Acceptable(traces[i])
  }

  /** `_parse_candidate`: field validation, then acceptance. */
  method ParseCandidate(t: InputTrace) returns (r: Option<Candidate>)
    ensures r.Some? <==> Acceptable(t)
    ensures r.Some? ==> ValidCandidate(r.value) && r.value == CandidateOf(t)
  {
    if t.traceId == "" || t.anomaly < 0.0 || (t.duration.Some? && t.duration.value < 0.0) || t.spans == [] {
      return None;
    }
    if exists i :: 0 <= i < |t.spans| && (t.spans[i].id == "" || t.spans[i].service == "" || t.spans[i].operation == ""
                                          || t.spans[i].start < 0.0 || t.spans[i].duration < 0.0) {
      return None;
    }
    r := ValidatedCandidate(t);
  }

  /** `at` lists the positions of the acceptable traces, in order, and `cs` their candidates. */
  ghost predicate AcceptedAt(traces: seq<InputTrace>, cs: seq<Candidate>, at: seq<nat>) {
    && |at| == |cs|
    && (forall i :: 0 <= i < |at| ==>
        at[i] < |traces| && Acceptable(traces[at[i]]) && cs[i] == CandidateOf(traces[at[i]]))
    && (forall i, j :: 0 <= i < j < |at| ==> at[i] < at[j])
    && forall k :: 0 <= k < |traces| && Acceptable(traces[k]) ==> k in at
  }

  /** `_parse_candidates`: the traces that survive acceptance, in order. */
  method ParseCandidates(traces: seq<InputTrace>) returns (cs: seq<Candidate>, ghost at: seq<nat>)
    ensures forall i :: 0 <= i < |cs| ==> ValidCandidate(cs[i])
    ensures cs == [] <==> NoneAcceptable(traces)
    ensures AcceptedAt(traces, cs, at)
  {
    hide Acceptable, ValidCandidate, CandidateOf, AcceptedAt, NoneAcceptable;
    cs, at := [], [];
    NoneAcceptedYet();
    assert traces[..0] == [];
    for n := 0 to |traces|
      invariant forall i :: 0 <= i < |cs| ==> ValidCandidate(cs[i])
      invariant cs == [] <==> NoneAcceptable(traces[..n])
      invariant AcceptedAt(traces[..n], cs, at)
    {
      var c := ParseCandidate(traces[n]);
      assert traces[..n + 1] == traces[..n] + [traces[n]];
      AcceptedNext(traces[..n], cs, at, traces[n]);
      if c.Some? {
        cs, at := cs + [c.value], at + [n];
      }
    }
    assert traces[..|traces|] == traces;
  }

  lemma NoneAcceptedYet()
    ensures AcceptedAt([], [], []) && NoneAcceptable([])
  {
  }

  lemma AcceptedNext(traces: seq<InputTrace>, cs: seq<Candidate>, at: seq<nat>, t: InputTrace)
    requires AcceptedAt(traces, cs, at)
    ensures NoneAcceptable(traces + [t]) <==> NoneAcceptable(traces) && !Acceptable(t)
    ensures Acceptable(t) ==> AcceptedAt(traces + [t], cs + [CandidateOf(t)], at + [|traces|])
    ensures !Acceptable(t) ==> AcceptedAt(traces + [t], cs, at)
  {
    hide Acceptable, CandidateOf;
    assert (traces + [t])[|traces|] == t;
    assert forall i :: 0 <= i < |traces| ==> (traces + [t])[i] == traces[i];
  }

  method PickRepresentative(cs: seq<Candidate>, issue: Candidate -> int) returns (c: Candidate)
    requires cs != [] && forall i :: 0 <= i < |cs| ==> ValidCandidate(cs[i])
    ensures c in cs && ValidCandidate(c)
    ensures forall i :: 0 <= i < |cs| ==> cs[i].rootId in cs[i].SpanById()
    ensures c == cs[Representative(cs, issue)]
  {
    forall i | 0 <= i < |cs|
      ensures cs[i].rootId in cs[i].SpanById()
    {
      CandidateFacts(cs[i]);
    }
    c := cs[Representative(cs, issue)];
  }

  ghost function RankOfTrace(t: InputTrace, issue: Candidate -> int): Rank
    requires Acceptable(t)
  {
    AcceptedIsValid(t);
    CandidateFacts(CandidateOf(t));
    RankOf(CandidateOf(t), issue)
  }

  lemma AcceptedIsValid(t: InputTrace)
    requires Acceptable(t)
    ensures ValidCandidate(CandidateOf(t))
  {
    AcceptanceTests(t.spans);
    assert SpanFieldsValid(t.spans[0]);
  }

  /** The trace at `k` is the first acceptable one of highest rank. */
  ghost predicate Shown(traces: seq<InputTrace>, issue: Candidate -> int, k: nat) {
    && k < |traces| && Acceptable(traces[k])
    && forall i :: 0 <= i < |traces| && Acceptable(traces[i]) ==>
         && !RankLess(RankOfTrace(traces[k], issue), RankOfTrace(traces[i], issue))
         && (i < k ==> RankLess(RankOfTrace(traces[i], issue), RankOfTrace(traces[k], issue)))
  }

  lemma {:induction false} RepresentativeIsShown(traces: seq<InputTrace>, cs: seq<Candidate>, at: seq<nat>,
                                                 issue: Candidate -> int)
    requires AcceptedAt(traces, cs, at) && cs != []
    requires forall i :: 0 <= i < |cs| ==> cs[i].rootId in cs[i].SpanById()
    ensures Shown(traces, issue, at[Representative(cs, issue)])
  {
    hide Acceptable, CandidateOf, RankOf, RankLess;
    var r := Representative(cs, issue);
    forall i | 0 <= i < |traces| && Acceptable(traces[i])
      ensures !RankLess(RankOfTrace(traces[at[r]], issue), RankOfTrace(traces[i], issue))
      ensures i < at[r] ==> RankLess(RankOfTrace(traces[i], issue), RankOfTrace(traces[at[r]], issue))
    {
      var j :| 0 <= j < |at| && at[j] == i;
    }
  }

  /** Some span of the trace failed, and it is the root or on the critical path. */
  predicate Failing(t: InputTrace) {
    exists i :: 0 <= i < |t.spans| && t.spans[i].status == ERROR && (t.spans[i].critical || t.spans[i].parent.None?)
  }

  lemma {:induction false} ErrorMeansFailing(t: InputTrace)
    requires Acceptable(t)
    ensures CandidateOf(t).rootId in CandidateOf(t).SpanById()
    ensures HasError(CandidateOf(t)) <==> Failing(t)
  {
    AcceptedIsValid(t);
    var c := CandidateOf(t);
    assert c.spans == t.spans;
    hide ValidCandidate, Acceptable, CandidateOf, ById, HasError;
    CandidateFacts(c);
    ByIdUnique(c.spans);
    ByIdKeys(c.spans);
    OnlyRootHasNoParent(c);
    ErrorOverSpans(c);
  }

  lemma ErrorOverSpans(c: Candidate)
    requires c.rootId in ById(c.spans) && exists r :: 0 <= r < |c.spans| && c.spans[r].id == c.rootId
    requires forall i :: 0 <= i < |c.spans| ==>
             c.spans[i].id in ById(c.spans) && ById(c.spans)[c.spans[i].id] == c.spans[i]
    requires forall i :: 0 <= i < |c.spans| ==> (c.spans[i].parent.None? <==> c.spans[i].id == c.rootId)
    ensures HasError(c) <==>
            exists i :: 0 <= i < |c.spans| && c.spans[i].status == ERROR
              && (c.spans[i].critical || c.spans[i].parent.None?)
  {
    hide ById;
    var r :| 0 <= r < |c.spans| && c.spans[r].id == c.rootId;
    assert c.SpanById()[c.rootId] == c.spans[r] && c.spans[r].parent.None?;
  }

  lemma {:induction false} OnlyRootHasNoParent(c: Candidate)
    requires ValidCandidate(c)
    ensures forall i :: 0 <= i < |c.spans| ==> (c.spans[i].parent.None? <==> c.spans[i].id == c.rootId)
  {
    CandidateFacts(c);
    ByIdUnique(c.spans);
    TreeIsRooted(ParentsOf(c.SpanById()), c.rootId);
    forall i | 0 <= i < |c.spans|
      ensures c.spans[i].parent.None? <==> c.spans[i].id == c.rootId
    {
      assert ParentsOf(c.SpanById())[c.spans[i].id] == c.spans[i].parent;
    }
  }

  /**
   What highest rank means: no acceptable trace beats the one shown by failing, then by anomaly, by matches
   with the alert, by duration and by id, each deciding where the earlier ones are equal; of traces equal
   in all five the first is shown.
   */
  lemma {:induction false} ShownMeans(traces: seq<InputTrace>, issue: Candidate -> int, k: nat, i: nat)
    requires Shown(traces, issue, k) && i < |traces| && Acceptable(traces[i])
    ensures var a, b := traces[k], traces[i];
            var sameIssue := issue(CandidateOf(a)) == issue(CandidateOf(b));
            && (Failing(b) ==> Failing(a))
            && ((Failing(a) <==> Failing(b)) ==>
                  && a.anomaly >= b.anomaly
                  && (a.anomaly == b.anomaly ==>
                        && issue(CandidateOf(a)) >= issue(CandidateOf(b))
                        && (sameIssue ==>
                              && TraceDuration(a) >= TraceDuration(b)
                              && (TraceDuration(a) == TraceDuration(b) ==>
                                    !StringLess(a.traceId, b.traceId) && (a.traceId == b.traceId ==> k <= i)))))
  {
    hide Acceptable, HasError, Failing;
    ErrorMeansFailing(traces[k]);
    ErrorMeansFailing(traces[i]);
    StringLessIrreflexive(traces[k].traceId);
    assert !RankLess(RankOfTrace(traces[k], issue), RankOfTrace(traces[i], issue));
    assert i < k ==> RankLess(RankOfTrace(traces[i], issue), RankOfTrace(traces[k], issue));
  }

  /** The score of a trace: one for failing, the anomaly, and its duration as the last digits. */
  lemma {:induction false} ScoreMeans(t: InputTrace)
    requires Acceptable(t)
    ensures CandidateOf(t).rootId in CandidateOf(t).SpanById()
    ensures RepresentativeScore(CandidateOf(t)) ==
            (if Failing(t) then 1.0 else 0.0) + t.anomaly + TraceDuration(t) / 1000000000.0
  {
    hide Acceptable, HasError, Failing;
    ErrorMeansFailing(t);
  }

  /** The document stored for a candidate. */
  ghost function DocumentOf(c: Candidate, budget: nat): Waterfall
    requires ValidCandidate(c) && 1 <= budget <= MAX_RESPONSE_SPANS
  {
    StoredIsValid(c, budget);
    ToStorage(SelectedFor(c, budget))
  }

  lemma StorageTells(s: Selected)
    requires s.candidate.rootId in s.candidate.SpanById() && forall id :: id in s.ids ==> id in s.candidate.SpanById()
    ensures var c, w := s.candidate, ToStorage(s);
            && w.traceId == c.traceId && w.startedAt == c.startedAt && w.duration == c.duration
            && w.spanCount == |c.spans| && w.truncated == s.truncated && w.score == s.score
            && forall i :: 0 <= i < |w.spans| ==> w.spans[i] in c.spans
  {
    ByIdKeys(s.candidate.spans);
  }

  lemma SelectedTells(c: Candidate, budget: nat)
    requires ValidCandidate(c) && budget >= 1
    ensures c.rootId in c.SpanById()
    ensures var s := SelectedFor(c, budget);
            s.candidate == c && s.score == RepresentativeScore(c) && (s.truncated <==> |c.spans| > budget)
  {
    hide ValidCandidate, Display, Selection, RepresentativeScore;
    CandidateFacts(c);
  }

  /** The document names its trace, counts all its spans, and shows the selected ones of them. */
  lemma {:induction false} DocumentTells(c: Candidate, budget: nat)
    requires ValidCandidate(c) && 1 <= budget <= MAX_RESPONSE_SPANS
    ensures c.rootId in c.SpanById()
    ensures var w := DocumentOf(c, budget);
            && FieldsValid(w) && ValidTree(w)
            && w.traceId == c.traceId && w.startedAt == c.startedAt && w.duration == c.duration
            && w.score == RepresentativeScore(c) && w.spanCount == |c.spans|
            && (w.truncated <==> |c.spans| > budget) && |w.spans| == |Selection(c, budget)| <= budget
            && forall i :: 0 <= i < |w.spans| ==> w.spans[i] in c.spans
  {
    hide ValidCandidate, FieldsValid, ValidTree, SelectedFor, ToStorage, RepresentativeScore, Selection;
    StoredIsValid(c, budget);
    SelectedTells(c, budget);
    StorageTells(SelectedFor(c, budget));
    SelectionTheorem(c, budget);
  }

  method StoreTruncated(c: Candidate, budget: nat) returns (w: Waterfall)
    requires ValidCandidate(c) && 1 <= budget <= MAX_RESPONSE_SPANS
    ensures w == DocumentOf(c, budget)
  {
    var sel := Truncate(c, budget);
    StoredIsValid(c, budget);
    SelectionTheorem(c, budget);
    w := ToStorage(sel);
  }

  /** The document is the one stored for the trace at `k`, which is the one to show. */
  ghost predicate DocumentFor(traces: seq<InputTrace>, issue: Candidate -> int, maxSpans: int, w: Waterfall, k: nat)
    requires maxSpans >= 1
  {
    && Shown(traces, issue, k) && ValidCandidate(CandidateOf(traces[k]))
    && w == DocumentOf(CandidateOf(traces[k]), Min(maxSpans, 100))
  }

  /**
   `normalize_trace_evidence` on decoded traces: a document comes back exactly when the limit is
   positive and some trace is acceptable; it is the document of the first acceptable trace of highest
   rank, and it passes the backend's check.
   */
  method NormalizeTraceEvidence(traces: seq<InputTrace>, issue: Candidate -> int,
                                maxSpans: int) returns (r: Option<Waterfall>)
    ensures r.Some? <==> maxSpans >= 1 && !NoneAcceptable(traces)
    ensures r.Some? ==> FieldsValid(r.value) && ValidTree(r.value) && |r.value.spans| <= Min(maxSpans, 100)
    ensures r.Some? ==> exists k :: DocumentFor(traces, issue, maxSpans, r.value, k)
  {
    hide Acceptable, ValidCandidate, ValidTree, FieldsValid, DocumentOf, CandidateOf, Shown;
    if maxSpans < 1 {
      return None;
    }
    var cs;
    ghost var at;
    cs, at := ParseCandidates(traces);
    if cs == [] {
      return None;
    }
    var c := PickRepresentative(cs, issue);
    var w := StoreTruncated(c, Min(maxSpans, MAX_RESPONSE_SPANS));
    ghost var k := at[Representative(cs, issue)];
    RepresentativeIsShown(traces, cs, at, issue);
    DocumentTells(c, Min(maxSpans, MAX_RESPONSE_SPANS));
    assert DocumentFor(traces, issue, maxSpans, w, k);
    return Some(w);
  }
}
