/** Spans, traces and the waterfall document that the worker stores and the backend reads. */
module TraceModel {
  import opened Common
  import opened ParentWalk
  import Ordering

  datatype Status = OK | ERROR | UNSET

  datatype Span = Span(
    id: Id,
    parent: Option<Id>,
    service: string,
    operation: string,
    start: real,
    duration: real,
    status: Status,
    critical: bool)

  /** The stored JSON document, `schemaVersion` 1. */
  datatype Waterfall = Waterfall(
    schemaVersion: int,
    traceId: string,
    rootService: string,
    rootOperation: string,
    startedAt: int,
    duration: real,
    spanCount: int,
    score: real,
    truncated: bool,
    spans: seq<Span>)

  ghost predicate UniqueIds(spans: seq<Span>) {
    forall i, j :: 0 <= i < j < |spans| ==> spans[i].id != spans[j].id
  }

  /** `{span.span_id: span for span in spans}` */
  function ById(spans: seq<Span>): map<Id, Span> {
    if spans == [] then map[]
    else ById(spans[..|spans| - 1])[spans[|spans| - 1].id := spans[|spans| - 1]]
  }

  function ParentsOf(m: map<Id, Span>): (p: Parents)
    ensures p.Keys == m.Keys && |p| == |m|
  {
    var p: Parents := map id | id in m :: m[id].parent;
    assert p.Keys == m.Keys;
    p
  }

  lemma {:induction false} ByIdKeys(spans: seq<Span>)
    ensures forall id :: id in ById(spans) <==> exists i :: 0 <= i < |spans| && spans[i].id == id
    ensures forall id :: id in ById(spans) ==> ById(spans)[id] in spans && ById(spans)[id].id == id
  {
    if spans != [] {
      var n := |spans| - 1;
      ByIdKeys(spans[..n]);
      forall id
        ensures id in ById(spans) <==> exists i :: 0 <= i < |spans| && spans[i].id == id
      {
        if i :| 0 <= i < |spans| && spans[i].id == id {
          assert i == n || spans[..n][i].id == id;
        }
        if id in ById(spans) && id != spans[n].id {
          assert id in ById(spans[..n]);
          var i :| 0 <= i < |spans[..n]| && spans[..n][i].id == id;
          assert spans[i].id == id;
        }
      }
    }
  }

  lemma {:induction false} ByIdUnique(spans: seq<Span>)
    requires UniqueIds(spans)
    ensures forall i :: 0 <= i < |spans| ==> spans[i].id in ById(spans) && ById(spans)[spans[i].id] == spans[i]
    ensures |ById(spans)| == |spans|
  {
    if spans != [] {
      hide ById;
      var n := |spans| - 1;
      ByIdUnique(spans[..n]);
      LastIsNew(spans);
      ByIdLast(spans);
      forall i | 0 <= i < |spans|
        ensures spans[i].id in ById(spans) && ById(spans)[spans[i].id] == spans[i]
      {
        if i < n {
          assert spans[..n][i] == spans[i] && spans[i].id != spans[n].id;
        }
      }
    }
  }

  lemma ByIdLast(spans: seq<Span>)
    requires spans != []
    ensures ById(spans) == ById(spans[..|spans| - 1])[spans[|spans| - 1].id := spans[|spans| - 1]]
  {
  }

  lemma {:induction false} LastIsNew(spans: seq<Span>)
    requires spans != [] && UniqueIds(spans)
    ensures UniqueIds(spans[..|spans| - 1]) && spans[|spans| - 1].id !in ById(spans[..|spans| - 1])
  {
    hide ById;
    var before := spans[..|spans| - 1];
    ByIdKeys(before);
    assert forall i :: 0 <= i < |before| ==> before[i] == spans[i];
  }

  /** Build the id table, or give up on a repeated id. */
  method IndexSpans(spans: seq<Span>) returns (r: Option<map<Id, Span>>)
    ensures r.Some? <==> UniqueIds(spans)
    ensures r.Some? ==> r.value == ById(spans)
  {
    var m: map<Id, Span> := map[];
    for n := 0 to |spans|
      invariant m == ById(spans[..n]) && UniqueIds(spans[..n])
    {
      var s := spans[n];
      ByIdKeys(spans[..n]);
      if s.id in m {
        ghost var i :| 0 <= i < |spans[..n]| && spans[..n][i].id == s.id;
        assert spans[i].id == spans[n].id;
        return None;
      }
      forall i | 0 <= i < n
        ensures spans[i].id != s.id
      {
        assert spans[..n][i].id in m;
      }
      assert spans[..n + 1][..n] == spans[..n];
      m := m[s.id := s];
    }
    assert spans[..|spans|] == spans;
    return Some(m);
  }

  // ----- The sibling order -----

  /** The sort key `(start_offset_ms, span_id)`. */
  predicate SpanLess(m: map<Id, Span>, a: Id, b: Id)
    requires a in m && b in m
  {
    m[a].start < m[b].start || (m[a].start == m[b].start && StringLess(a, b))
  }

  lemma SpanLessOrder(m: map<Id, Span>, a: Id, b: Id)
    requires a in m && b in m
    ensures !SpanLess(m, a, a)
    ensures a != b ==> SpanLess(m, a, b) || SpanLess(m, b, a)
    ensures !(SpanLess(m, a, b) && SpanLess(m, b, a))
  {
    StringLessIrreflexive(a);
    if a != b {
      StringLessTotal(a, b);
    }
    if StringLess(a, b) && StringLess(b, a) {
      StringLessTransitive(a, b, a);
    }
  }

  lemma SpanLessTransitive(m: map<Id, Span>, a: Id, b: Id, c: Id)
    requires a in m && b in m && c in m
    requires SpanLess(m, a, b) && SpanLess(m, b, c)
    ensures SpanLess(m, a, c)
  {
    if StringLess(a, b) && StringLess(b, c) {
      StringLessTransitive(a, b, c);
    }
  }

  function SpanOrder(m: map<Id, Span>): (Id, Id) -> bool {
    (a: Id, b: Id) => a in m && b in m && SpanLess(m, a, b)
  }

  lemma {:induction false} SpanOrderIsTotal(m: map<Id, Span>, s: set<Id>)
    requires s <= m.Keys
    ensures Ordering.StrictTotal(SpanOrder(m), s)
  {
    hide SpanLess;
    forall x, y | x in s && y in s
      ensures !SpanLess(m, x, x) && (x != y ==> SpanLess(m, x, y) != SpanLess(m, y, x))
    {
      SpanLessOrder(m, x, y);
    }
    forall x, y, z | x in s && y in s && z in s && SpanLess(m, x, y) && SpanLess(m, y, z)
      ensures SpanLess(m, x, z)
    {
      SpanLessTransitive(m, x, y, z);
    }
  }

  ghost predicate SortedSpans(m: map<Id, Span>, r: seq<Id>)
    requires forall x :: x in r ==> x in m
  {
    forall i, j :: 0 <= i < j < |r| ==> SpanLess(m, r[i], r[j])
  }

  /** `sorted(ids, key=(start_offset_ms, span_id))` on a set of distinct ids. */
  function SortIds(m: map<Id, Span>, s: set<Id>): (r: seq<Id>)
    requires s <= m.Keys
    ensures |r| == |s|
    ensures forall x :: x in r <==> x in s
    ensures SortedSpans(m, r)
  {
    SpanOrderIsTotal(m, s);
    var r := Ordering.Sorted(SpanOrder(m), s);
    assert forall i, j :: 0 <= i < j < |r| ==> SpanOrder(m)(r[i], r[j]);
    r
  }

  // ----- What the backend accepts -----

  function SpanEnd(s: Span): real {
    s.start + s.duration
  }

  predicate SpanFieldsValid(s: Span) {
    s.id != "" && s.service != "" && s.operation != "" && s.start >= 0.0 && s.duration >= 0.0
  }

  /** The field constraints of the stored document, apart from its identifier patterns. */
  ghost predicate FieldsValid(w: Waterfall) {
    && w.schemaVersion == 1
    && w.traceId != "" && w.rootService != "" && w.rootOperation != ""
    && w.duration >= 0.0 && w.score >= 0.0
    && w.spanCount >= 1
    && 1 <= |w.spans| <= 100
    && forall i :: 0 <= i < |w.spans| ==> SpanFieldsValid(w.spans[i])
  }

  ghost predicate RootedAt(w: Waterfall, root: Id) {
    && TreeAt(ParentsOf(ById(w.spans)), root)
    && ById(w.spans)[root].service == w.rootService
    && ById(w.spans)[root].operation == w.rootOperation
  }

  /** One rooted tree of distinct spans that agrees with the document's own summary fields. */
  ghost predicate ValidTree(w: Waterfall) {
    && UniqueIds(w.spans)
    && (exists root :: RootedAt(w, root))
    && w.spanCount >= |w.spans|
    && (w.truncated <==> w.spanCount > |w.spans|)
    && forall i :: 0 <= i < |w.spans| ==> SpanEnd(w.spans[i]) <= w.duration + 1.0
  }
}
