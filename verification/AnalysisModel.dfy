/** Specialist analyses, their bundles and the report: validation, normalisation and downgrading. */
module AnalysisModel {
  import opened Common
  import opened Chunking
  import opened EvidenceSession
  import L = LeaseTables

  datatype Relation = SUPPORTS | CONTRADICTS | MISSING

  datatype Observation = Observation(statement: string, relation: Relation, evidence: seq<Id>)

  datatype Status = COMPLETE | PARTIAL | FAILED

  datatype Analysis = Analysis(specialist: SpecialistKind, status: Status, observations: seq<Observation>,
                               missing: seq<Code>)

  datatype Result = Result(analysis: Analysis, known: seq<Id>)

  datatype Failure = Failure(specialist: SpecialistKind, code: Code)

  datatype Bundle = Bundle(results: seq<Result>, failures: seq<Failure>)

  // ----- Validation -----

  /** What `SpecialistAnalysisDraft` accepts. */
  predicate SchemaValid(a: Analysis) {
    && |a.observations| <= 20
    && (forall i :: 0 <= i < |a.observations| ==>
          a.observations[i].statement != ""
            && (a.observations[i].relation != MISSING ==> a.observations[i].evidence != []))
    && (a.status == COMPLETE ==> a.observations != [] && a.missing == [])
    && (a.status == PARTIAL ==> a.observations != [] || a.missing != [])
    && (a.status == FAILED ==> a.observations == [])
  }

  function Cited(a: Analysis): set<Id> {
    set i, e | 0 <= i < |a.observations| && e in a.observations[i].evidence :: e
  }

  /** The downgrade of `validate`: truncated input is reported, and `COMPLETE` becomes `PARTIAL`. */
  function Downgrade(a: Analysis): Analysis {
    a.(status := if a.status == COMPLETE then PARTIAL else a.status, missing := a.missing + [ANALYSIS_INPUT_TRUNCATED])
  }

  /** `SpecialistAnalysisValidator.validate` */
  function Validate(a: Analysis, expected: SpecialistKind, owned: seq<Id>, truncated: bool,
                    maxObservations: nat): Outcome<Analysis> {
    if !SchemaValid(a) || a.specialist != expected || |a.observations| > maxObservations
    then Outcome.Failed(ANALYSIS_SCHEMA_INVALID)
    else if exists e :: e in Cited(a) && e !in owned then Outcome.Failed(ANALYSIS_UNKNOWN_EVIDENCE)
    else if truncated && ANALYSIS_INPUT_TRUNCATED !in a.missing then Got(Downgrade(a))
    else Got(a)
  }

  /**
   Whatever draft the model returns: an accepted analysis is the expected specialist's, obeys the
   schema, cites owned evidence only, and is never `COMPLETE` on truncated input; on whole input it is
   the draft itself.
   */
  lemma {:induction false} ValidatedIsOwned(a: Analysis, expected: SpecialistKind, owned: seq<Id>, truncated: bool,
                                            maxObservations: nat)
    requires Validate(a, expected, owned, truncated, maxObservations).Got?
    ensures var v := Validate(a, expected, owned, truncated, maxObservations).value;
            && v.specialist == expected && SchemaValid(v) && |v.observations| <= maxObservations
            && v.observations == a.observations && (forall e :: e in Cited(v) ==> e in owned)
            && (truncated ==> v.status != COMPLETE && ANALYSIS_INPUT_TRUNCATED in v.missing)
            && (!truncated ==> v == a)
  {
    var v := Validate(a, expected, owned, truncated, maxObservations).value;
    assert Cited(v) == Cited(a);
    if truncated && ANALYSIS_INPUT_TRUNCATED !in a.missing {
      assert v.missing[|a.missing|] == ANALYSIS_INPUT_TRUNCATED;
    }
  }

  /** A draft of the expected specialist whose observations rest on evidence and whose status fits them. */
  predicate Fits(a: Analysis, expected: SpecialistKind, most: nat) {
    && a.specialist == expected && |a.observations| <= most
    && (forall o :: o in a.observations ==> o.statement != "" && (o.relation == MISSING || o.evidence != []))
    && match a.status
       case COMPLETE => a.observations != [] && a.missing == []
       case PARTIAL => a.observations != [] || a.missing != []
       case FAILED => a.observations == []
  }

  predicate CitesOwned(a: Analysis, owned: seq<Id>) {
    forall o, e :: o in a.observations && e in o.evidence ==> e in owned
  }

  /** Which drafts are accepted, which code refuses the others, and what becomes of an accepted one. */
  lemma {:induction false} AcceptedExactlyWhen(a: Analysis, expected: SpecialistKind, owned: seq<Id>, truncated: bool,
                                               maxObservations: nat)
    ensures var r := Validate(a, expected, owned, truncated, maxObservations);
            if !Fits(a, expected, Min(20, maxObservations)) then r == Outcome.Failed(ANALYSIS_SCHEMA_INVALID)
            else if !CitesOwned(a, owned) then r == Outcome.Failed(ANALYSIS_UNKNOWN_EVIDENCE)
            else if !truncated || ANALYSIS_INPUT_TRUNCATED in a.missing then r == Got(a)
            else r == Got(Analysis(expected, if a.status == COMPLETE then PARTIAL else a.status, a.observations,
                                   a.missing + [ANALYSIS_INPUT_TRUNCATED]))
  {
    assert Fits(a, expected, Min(20, maxObservations)) <==>
           SchemaValid(a) && a.specialist == expected && |a.observations| <= maxObservations;
    assert CitesOwned(a, owned) <==> !exists e :: e in Cited(a) && e !in owned by {
      forall o, e | o in a.observations && e in o.evidence
        ensures e in Cited(a)
      {
        var i :| 0 <= i < |a.observations| && a.observations[i] == o;
        assert e in a.observations[i].evidence;
      }
    }
  }

  /**
   Nothing makes the model read on: with a record that fits the budget but not one chunk, the receipt
   shows one chunk of several and is not truncated, and a complete analysis citing it is accepted as is.
   */
  lemma {:induction false} CompleteWithUnreadChunks(id: Id, record: Record, kind: SpecialistKind, l: Limits)
    requires LimitsValid(l) && l.chunkChars < |record.text| <= l.maxTotalChars
    ensures var receipt := ReceiptOf(kind, map[id := record], [id], l);
            var a := Analysis(kind, COMPLETE, [Observation("seen", SUPPORTS, [id])], []);
            && receipt.references == [id] && !receipt.truncated && |receipt.firstChunks| < receipt.totalChunks
            && Validate(a, kind, receipt.references, receipt.truncated, 20) == Got(a)
  {
    hide ReceiptOf, Validate;
    OneRecordReceipt(id, record, kind, l);
    CompleteIsAccepted(id, kind);
  }

  lemma OneRecordReceipt(id: Id, record: Record, kind: SpecialistKind, l: Limits)
    requires LimitsValid(l) && l.chunkChars < |record.text| <= l.maxTotalChars
    ensures var receipt := ReceiptOf(kind, map[id := record], [id], l);
            receipt.references == [id] && !receipt.truncated && |receipt.firstChunks| < receipt.totalChunks
  {
    hide ReceiptOf;
    var records := map[id := record];
    ReceiptNames(kind, records, [id], l);
    ReceiptTruncation(kind, records, [id], l);
    ReceiptShowsAll(kind, records, [id], l);
    assert records[[id][0]] == record;
  }

  lemma CompleteIsAccepted(id: Id, kind: SpecialistKind)
    ensures var a := Analysis(kind, COMPLETE, [Observation("seen", SUPPORTS, [id])], []);
            Validate(a, kind, [id], false, 20) == Got(a)
  {
    var a := Analysis(kind, COMPLETE, [Observation("seen", SUPPORTS, [id])], []);
    assert a.observations[0].evidence == [id];
    forall e | e in Cited(a)
      ensures e in [id]
    {
      var i :| 0 <= i < |a.observations| && e in a.observations[i].evidence;
      assert a.observations[i].evidence == [id];
    }
  }

  // ----- The stored outcome of a specialist run -----

  datatype SpecialistStatus = SPECIALIST_RUNNING | SPECIALIST_SUCCEEDED | SPECIALIST_PARTIAL | SPECIALIST_FAILED

  /** A row of `specialist_runs`. */
  datatype SpecialistRun = SpecialistRun(run: Id, kind: SpecialistKind, status: SpecialistStatus, failure: Option<Code>,
                                         analysis: Option<Analysis>)

  function StoredStatus(a: Analysis): SpecialistStatus {
    if a.observations == [] then SPECIALIST_FAILED
    else
      match a.status
      case COMPLETE => SPECIALIST_SUCCEEDED
      case PARTIAL => SPECIALIST_PARTIAL
      case FAILED => SPECIALIST_FAILED
  }

  function StoredFailure(a: Analysis): Option<Code> {
    if a.missing != [] then Some(a.missing[0])
    else if StoredStatus(a) == SPECIALIST_FAILED then Some(ANALYSIS_FAILED) else None
  }

  /** The row that `upsert_specialist_analysis` writes. */
  function AnalysisRow(run: Id, a: Analysis): SpecialistRun {
    SpecialistRun(run, a.specialist, StoredStatus(a), StoredFailure(a), Some(a))
  }

  /** The row that `_persist_analysis_failures` writes. */
  function FailureRow(run: Id, f: Failure): SpecialistRun {
    SpecialistRun(run, f.specialist, SPECIALIST_FAILED, Some(f.code), None)
  }

  /**
   What the stored row of a schema-valid analysis tells: it succeeded exactly when the analysis is
   complete, and then without a code; it failed exactly when normalising the analysis makes it a
   failure, and then with the same code.
   */
  lemma {:induction false} AnalysisRowTells(run: Id, a: Analysis, known: seq<Id>)
    requires SchemaValid(a)
    ensures var row := AnalysisRow(run, a);
            && (row.status == SPECIALIST_SUCCEEDED <==> a.status == COMPLETE)
            && (row.status == SPECIALIST_SUCCEEDED ==> row.failure == None)
            && (row.status == SPECIALIST_FAILED <==> !Usable(Result(a, known)))
            && (row.status == SPECIALIST_FAILED ==> row.failure == Some(FailureOf(a).code))
            && (row.status == SPECIALIST_PARTIAL ==>
                  row.failure == if a.missing != [] then Some(a.missing[0]) else None)
  {
  }

  // ----- Bundles by specialist -----

  /** `tuple(m[kind] for kind in _ORDER if kind in m)` */
  function InOrder<T>(m: map<SpecialistKind, T>): seq<T> {
    (if METRICS in m then [m[METRICS]] else [])
    + (if TRACE in m then [m[TRACE]] else [])
    + (if LOG in m then [m[LOG]] else [])
  }

  /** `{result.analysis.specialist: result for result in results}` */
  function ResultsBy(results: seq<Result>): map<SpecialistKind, Result> {
    if results == [] then map[]
    else
      var last := results[|results| - 1];
      ResultsBy(results[..|results| - 1])[last.analysis.specialist := last]
  }

  function FailuresBy(failures: seq<Failure>): map<SpecialistKind, Failure> {
    if failures == [] then map[]
    else
      var last := failures[|failures| - 1];
      FailuresBy(failures[..|failures| - 1])[last.specialist := last]
  }

  predicate Usable(r: Result) {
    r.analysis.status != FAILED && r.analysis.observations != []
  }

  /** `_returned_analysis_failure_code`: every code of an analysis is a stable one. */
  function ReturnedCode(a: Analysis): Code {
    if a.missing != [] then a.missing[0] else ANALYSIS_FAILED
  }

  function FailureOf(a: Analysis): Failure {
    Failure(a.specialist, ReturnedCode(a))
  }

  /** The dictionaries of `normalize_specialist_analysis_bundle` after its loop. */
  function KeepUsable(results: seq<Result>): map<SpecialistKind, Result> {
    if results == [] then map[]
    else
      var last := results[|results| - 1];
      var before := KeepUsable(results[..|results| - 1]);
      if Usable(last) then before[last.analysis.specialist := last] else before
  }

  function AddUnusable(results: seq<Result>, failures: map<SpecialistKind, Failure>): map<SpecialistKind, Failure> {
    if results == [] then failures
    else
      var last := results[|results| - 1];
      var before := AddUnusable(results[..|results| - 1], failures);
      if Usable(last) then before else before[last.analysis.specialist := FailureOf(last.analysis)]
  }

  function Normalize(b: Bundle): Bundle {
    Bundle(InOrder(KeepUsable(b.results)), InOrder(AddUnusable(b.results, FailuresBy(b.failures))))
  }

  /** `_ordered_analysis_bundle` */
  function Ordered(b: Bundle): Bundle {
    Bundle(InOrder(ResultsBy(b.results)), InOrder(FailuresBy(b.failures)))
  }

  function Rank(k: SpecialistKind): nat {
    match k
    case METRICS => 0
    case TRACE => 1
    case LOG => 2
  }

  /** At most one entry per specialist, in the order metrics, traces, logs. */
  predicate CanonicalResults(rs: seq<Result>) {
    forall i, j :: 0 <= i < j < |rs| ==> Rank(rs[i].analysis.specialist) < Rank(rs[j].analysis.specialist)
  }

  predicate CanonicalFailures(fs: seq<Failure>) {
    forall i, j :: 0 <= i < j < |fs| ==> Rank(fs[i].specialist) < Rank(fs[j].specialist)
  }

  predicate Canonical(b: Bundle) {
    CanonicalResults(b.results) && CanonicalFailures(b.failures)
  }

  function ResultKinds(rs: seq<Result>): set<SpecialistKind> {
    set i | 0 <= i < |rs| :: rs[i].analysis.specialist
  }

  function FailureKinds(fs: seq<Failure>): set<SpecialistKind> {
    set i | 0 <= i < |fs| :: fs[i].specialist
  }

  predicate DisjointKinds(b: Bundle) {
    ResultKinds(b.results) !! FailureKinds(b.failures)
  }

  predicate KeyedResults(m: map<SpecialistKind, Result>) {
    forall k :: k in m ==> m[k].analysis.specialist == k
  }

  predicate KeyedFailures(m: map<SpecialistKind, Failure>) {
    forall k :: k in m ==> m[k].specialist == k
  }

  function OrderOf(keys: set<SpecialistKind>): seq<SpecialistKind> {
    (if METRICS in keys then [METRICS] else [])
    + (if TRACE in keys then [TRACE] else [])
    + (if LOG in keys then [LOG] else [])
  }

  lemma OrderOfFacts(keys: set<SpecialistKind>)
    ensures forall i, j :: 0 <= i < j < |OrderOf(keys)| ==> Rank(OrderOf(keys)[i]) < Rank(OrderOf(keys)[j])
    ensures forall k :: k in OrderOf(keys) <==> k in keys
  {
    forall k
      ensures k in OrderOf(keys) <==> k in keys
    {
      match k case METRICS => case TRACE => case LOG =>
    }
  }

  lemma InOrderIs<T>(m: map<SpecialistKind, T>)
    ensures |InOrder(m)| == |OrderOf(m.Keys)|
    ensures forall i :: 0 <= i < |InOrder(m)| ==> OrderOf(m.Keys)[i] in m && InOrder(m)[i] == m[OrderOf(m.Keys)[i]]
  {
  }

  lemma {:induction false} InOrderResults(m: map<SpecialistKind, Result>)
    requires KeyedResults(m)
    ensures CanonicalResults(InOrder(m)) && ResultKinds(InOrder(m)) == m.Keys
    ensures forall r :: r in InOrder(m) ==> exists k :: k in m && m[k] == r
  {
    hide InOrder, OrderOf;
    OrderOfFacts(m.Keys);
    InOrderIs(m);
    forall k | k in m
      ensures k in ResultKinds(InOrder(m))
    {
      var i :| 0 <= i < |OrderOf(m.Keys)| && OrderOf(m.Keys)[i] == k;
      assert InOrder(m)[i] == m[k];
    }
    assert ResultKinds(InOrder(m)) == m.Keys;
  }

  lemma {:induction false} InOrderFailures(m: map<SpecialistKind, Failure>)
    requires KeyedFailures(m)
    ensures CanonicalFailures(InOrder(m)) && FailureKinds(InOrder(m)) == m.Keys
    ensures forall f :: f in InOrder(m) ==> exists k :: k in m && m[k] == f
  {
    hide InOrder, OrderOf;
    OrderOfFacts(m.Keys);
    InOrderIs(m);
    forall k | k in m
      ensures k in FailureKinds(InOrder(m))
    {
      var i :| 0 <= i < |OrderOf(m.Keys)| && OrderOf(m.Keys)[i] == k;
      assert InOrder(m)[i] == m[k];
    }
    assert FailureKinds(InOrder(m)) == m.Keys;
  }

  lemma {:induction false} ResultsByKeys(rs: seq<Result>)
    ensures KeyedResults(ResultsBy(rs)) && ResultsBy(rs).Keys == ResultKinds(rs)
    ensures forall k :: k in ResultsBy(rs) ==> ResultsBy(rs)[k] in rs
  {
    if rs != [] {
      var n := |rs| - 1;
      ResultsByKeys(rs[..n]);
      assert ResultKinds(rs) == ResultKinds(rs[..n]) + {rs[n].analysis.specialist} by {
        assert forall i :: 0 <= i < n ==> rs[..n][i] == rs[i];
      }
    }
  }

  lemma {:induction false} FailuresByKeys(fs: seq<Failure>)
    ensures KeyedFailures(FailuresBy(fs)) && FailuresBy(fs).Keys == FailureKinds(fs)
  {
    if fs != [] {
      var n := |fs| - 1;
      FailuresByKeys(fs[..n]);
      assert FailureKinds(fs) == FailureKinds(fs[..n]) + {fs[n].specialist} by {
        assert forall i :: 0 <= i < n ==> fs[..n][i] == fs[i];
      }
    }
  }

  function UsableKinds(rs: seq<Result>): set<SpecialistKind> {
    set i | 0 <= i < |rs| && Usable(rs[i]) :: rs[i].analysis.specialist
  }

  function UnusableKinds(rs: seq<Result>): set<SpecialistKind> {
    set i | 0 <= i < |rs| && !Usable(rs[i]) :: rs[i].analysis.specialist
  }

  lemma {:induction false} KeepUsableKeys(rs: seq<Result>)
    ensures KeyedResults(KeepUsable(rs)) && KeepUsable(rs).Keys == UsableKinds(rs)
    ensures forall k :: k in KeepUsable(rs) ==> KeepUsable(rs)[k] in rs && Usable(KeepUsable(rs)[k])
  {
    if rs != [] {
      var n := |rs| - 1;
      KeepUsableKeys(rs[..n]);
      assert UsableKinds(rs) == UsableKinds(rs[..n]) + if Usable(rs[n]) then {rs[n].analysis.specialist} else {} by {
        assert forall i :: 0 <= i < n ==> rs[..n][i] == rs[i];
      }
    }
  }

  /** A failure that was there before, or the first code that an unusable analysis names. */
  ghost predicate Explained(rs: seq<Result>, failures: set<Failure>, f: Failure) {
    f in failures || exists r :: r in rs && (r.analysis.status == FAILED || r.analysis.observations == [])
                       && f == Failure(r.analysis.specialist, if r.analysis.missing != [] then r.analysis.missing[0]
                                                              else ANALYSIS_FAILED)
  }

  lemma {:induction false} AddUnusableKeys(rs: seq<Result>, failures: map<SpecialistKind, Failure>)
    requires KeyedFailures(failures)
    ensures KeyedFailures(AddUnusable(rs, failures))
            && AddUnusable(rs, failures).Keys == failures.Keys + UnusableKinds(rs)
    ensures forall k :: k in AddUnusable(rs, failures) ==> Explained(rs, failures.Values, AddUnusable(rs, failures)[k])
  {
    if rs != [] {
      var n := |rs| - 1;
      AddUnusableKeys(rs[..n], failures);
      assert UnusableKinds(rs) ==
             UnusableKinds(rs[..n]) + if Usable(rs[n]) then {} else {rs[n].analysis.specialist} by {
        assert forall i :: 0 <= i < n ==> rs[..n][i] == rs[i];
      }
    }
  }

  /** Normalising any bundle: canonical order, usable results only, and no specialist gained or lost. */
  lemma {:induction false} NormalizeFacts(b: Bundle)
    ensures var n := Normalize(b);
            && Canonical(n)
            && (forall r :: r in n.results ==>
                  r in b.results && r.analysis.status != FAILED && r.analysis.observations != [])
            && ResultKinds(n.results)
               == (set r | r in b.results && r.analysis.status != FAILED && r.analysis.observations != []
                       :: r.analysis.specialist)
               == UsableKinds(b.results)
            && FailureKinds(n.failures) == FailureKinds(b.failures) + UnusableKinds(b.results)
            && forall f :: f in n.failures ==> Explained(b.results, FailuresBy(b.failures).Values, f)
  {
    KeepUsableKeys(b.results);
    FailuresByKeys(b.failures);
    AddUnusableKeys(b.results, FailuresBy(b.failures));
    InOrderResults(KeepUsable(b.results));
    InOrderFailures(AddUnusable(b.results, FailuresBy(b.failures)));
  }

  predicate OnePerKind(rs: seq<Result>) {
    forall i, j :: 0 <= i < j < |rs| ==> rs[i].analysis.specialist != rs[j].analysis.specialist
  }

  /** A specialist with one result and no failure ends in exactly one of the two after normalising. */
  lemma {:induction false} NormalizeKeepsDisjoint(b: Bundle)
    requires OnePerKind(b.results) && DisjointKinds(b)
    ensures DisjointKinds(Normalize(b))
    ensures ResultKinds(Normalize(b).results) + FailureKinds(Normalize(b).failures)
            == ResultKinds(b.results) + FailureKinds(b.failures)
  {
    hide Normalize;
    NormalizeFacts(b);
    assert UsableKinds(b.results) + UnusableKinds(b.results) == ResultKinds(b.results);
    forall i, j | 0 <= i < |b.results| && 0 <= j < |b.results| && Usable(b.results[i]) && !Usable(b.results[j])
      ensures b.results[i].analysis.specialist != b.results[j].analysis.specialist
    {
      assert i != j;
    }
    assert UsableKinds(b.results) !! UnusableKinds(b.results);
  }

  /** Canonical lists are their own dictionaries in order. */
  lemma {:induction false} CanonicalResultsFixed(rs: seq<Result>)
    requires CanonicalResults(rs)
    ensures InOrder(ResultsBy(rs)) == rs
  {
    hide InOrder;
    if rs == [] {
      NothingInOrder();
    } else {
      var n := |rs| - 1;
      var before := rs[..n];
      assert rs == before + [rs[n]];
      CanonicalResultsFixed(before);
      ResultsByKeys(before);
      var m := ResultsBy(before);
      var k := rs[n].analysis.specialist;
      forall x | x in m
        ensures Rank(x) < Rank(k)
      {
        var i :| 0 <= i < |before| && before[i].analysis.specialist == x;
        assert rs[i] == before[i];
      }
      SnocInOrder(m, k, rs[n]);
    }
  }

  lemma NothingInOrder()
    ensures InOrder<Result>(map[]) == [] && InOrder<Failure>(map[]) == []
  {
  }

  /** Results that are all usable are all kept. */
  lemma {:induction false} UsableAreKept(rs: seq<Result>, failures: map<SpecialistKind, Failure>)
    requires forall r :: r in rs ==> Usable(r)
    ensures KeepUsable(rs) == ResultsBy(rs) && AddUnusable(rs, failures) == failures
  {
    if rs != [] {
      UsableAreKept(rs[..|rs| - 1], failures);
      assert rs[|rs| - 1] in rs;
    }
  }

  lemma SnocInOrder<T>(m: map<SpecialistKind, T>, k: SpecialistKind, v: T)
    requires forall x :: x in m ==> Rank(x) < Rank(k)
    ensures InOrder(m[k := v]) == InOrder(m) + [v]
  {
    assert METRICS in m ==> Rank(METRICS) < Rank(k);
    assert TRACE in m ==> Rank(TRACE) < Rank(k);
    assert LOG !in m by {
      assert LOG in m ==> Rank(LOG) < Rank(k);
    }
  }

  lemma {:induction false} CanonicalFailuresFixed(fs: seq<Failure>)
    requires CanonicalFailures(fs)
    ensures InOrder(FailuresBy(fs)) == fs
  {
    if fs != [] {
      var n := |fs| - 1;
      var before := fs[..n];
      assert fs == before + [fs[n]];
      CanonicalFailuresFixed(before);
      FailuresByKeys(before);
      var m := FailuresBy(before);
      forall x | x in m
        ensures Rank(x) < Rank(fs[n].specialist)
      {
        var i :| 0 <= i < |before| && before[i].specialist == x;
        assert fs[i] == before[i];
      }
      SnocInOrder(m, fs[n].specialist, fs[n]);
    }
  }

  /** Normalising twice is normalising once, for every bundle. */
  lemma {:induction false} NormalizeIdempotent(b: Bundle)
    ensures Normalize(Normalize(b)) == Normalize(b)
    ensures Ordered(Normalize(b)) == Normalize(b)
  {
    hide KeepUsable, AddUnusable, ResultsBy, FailuresBy, InOrder;
    var n := Normalize(b);
    NormalizeFacts(b);
    CanonicalResultsFixed(n.results);
    UsableAreKept(n.results, FailuresBy(n.failures));
    CanonicalFailuresFixed(n.failures);
  }

  // ----- What normalising makes of each specialist -----

  lemma InOrderHas<T>(m: map<SpecialistKind, T>, k: SpecialistKind)
    requires k in m
    ensures m[k] in InOrder(m)
  {
    match k case METRICS => case TRACE => case LOG =>
  }

  lemma {:induction false} UsableFound(rs: seq<Result>, i: nat)
    requires OnePerKind(rs) && i < |rs| && Usable(rs[i])
    ensures rs[i].analysis.specialist in KeepUsable(rs) && KeepUsable(rs)[rs[i].analysis.specialist] == rs[i]
  {
    var n := |rs| - 1;
    if i < n {
      UsableFound(rs[..n], i);
    }
  }

  lemma {:induction false} UnusableFound(rs: seq<Result>, failures: map<SpecialistKind, Failure>, i: nat)
    requires OnePerKind(rs) && i < |rs| && !Usable(rs[i])
    ensures var k := rs[i].analysis.specialist;
            k in AddUnusable(rs, failures) && AddUnusable(rs, failures)[k] == FailureOf(rs[i].analysis)
  {
    var n := |rs| - 1;
    if i < n {
      UnusableFound(rs[..n], failures, i);
    }
  }

  lemma {:induction false} OthersKept(rs: seq<Result>, failures: map<SpecialistKind, Failure>, k: SpecialistKind)
    requires k in failures && forall i :: 0 <= i < |rs| ==> rs[i].analysis.specialist != k
    ensures k in AddUnusable(rs, failures) && AddUnusable(rs, failures)[k] == failures[k]
  {
    if rs != [] {
      OthersKept(rs[..|rs| - 1], failures, k);
    }
  }

  lemma {:induction false} FailureFound(fs: seq<Failure>, i: nat)
    requires CanonicalFailures(fs) && i < |fs|
    ensures fs[i].specialist in FailuresBy(fs) && FailuresBy(fs)[fs[i].specialist] == fs[i]
  {
    var n := |fs| - 1;
    if i < n {
      FailureFound(fs[..n], i);
      assert Rank(fs[i].specialist) < Rank(fs[n].specialist);
    }
  }

  /** A usable result stays, an unusable one becomes the failure that its analysis names, and a failure stays. */
  lemma {:induction false} NormalizeKeepsEach(results: map<SpecialistKind, Result>,
                                              failures: map<SpecialistKind, Failure>, k: SpecialistKind)
    requires KeyedResults(results) && KeyedFailures(failures) && results.Keys !! failures.Keys
    ensures var n := Normalize(Bundle(InOrder(results), InOrder(failures)));
            && (k in results && Usable(results[k]) ==> results[k] in n.results)
            && (k in results && !Usable(results[k]) ==> FailureOf(results[k].analysis) in n.failures)
            && (k in failures ==> failures[k] in n.failures)
  {
    hide InOrder, Usable, KeepUsable, AddUnusable, FailuresBy;
    var rs, fs := InOrder(results), InOrder(failures);
    InOrderResults(results);
    InOrderFailures(failures);
    CanonicalIsOnePerKind(rs);
    var kept, failed := KeepUsable(rs), AddUnusable(rs, FailuresBy(fs));
    if k in results {
      InOrderHas(results, k);
      var i :| 0 <= i < |rs| && rs[i] == results[k];
      if Usable(results[k]) {
        UsableFound(rs, i);
        InOrderHas(kept, k);
      } else {
        UnusableFound(rs, FailuresBy(fs), i);
        InOrderHas(failed, k);
      }
    }
    if k in failures {
      InOrderHas(failures, k);
      var i :| 0 <= i < |fs| && fs[i] == failures[k];
      FailureFound(fs, i);
      assert forall j :: 0 <= j < |rs| ==> rs[j].analysis.specialist in ResultKinds(rs);
      OthersKept(rs, FailuresBy(fs), k);
      InOrderHas(failed, k);
    }
  }

  lemma CanonicalIsOnePerKind(rs: seq<Result>)
    requires CanonicalResults(rs)
    ensures OnePerKind(rs)
  {
  }

  // ----- The report -----

  datatype Claim = Claim(relation: Relation, evidence: seq<Id>)

  datatype Hypothesis = Hypothesis(statement: string, claims: seq<Claim>)

  datatype Report = Report(status: Status, hypotheses: seq<Hypothesis>, missing: seq<string>)

  /** What `RcaReportDraft` accepts. */
  predicate ReportSchema(r: Report) {
    && (forall i :: 0 <= i < |r.hypotheses| ==>
          r.hypotheses[i].claims != [] &&
          forall j :: 0 <= j < |r.hypotheses[i].claims| ==> r.hypotheses[i].claims[j].evidence != [])
    && (r.status == COMPLETE ==> r.hypotheses != [] && r.missing == [])
    && (r.status == FAILED ==> r.hypotheses == [])
  }

  function Cites(r: Report): set<Id> {
    set i, j, e | 0 <= i < |r.hypotheses| && 0 <= j < |r.hypotheses[i].claims|
      && e in r.hypotheses[i].claims[j].evidence :: e
  }

  /** `with_specialist_failures` */
  function WithSpecialistFailures(r: Report): Report {
    if r.status != COMPLETE then r else r.(status := PARTIAL, missing := r.missing + ["SPECIALIST_FAILURE"])
  }

  predicate AllComplete(analyses: seq<Analysis>) {
    forall i :: 0 <= i < |analyses| ==> analyses[i].status == COMPLETE
  }

  /** `with_incomplete_specialist_analyses` */
  function WithIncompleteAnalyses(r: Report, analyses: seq<Analysis>): Report {
    if AllComplete(analyses) then r else WithSpecialistFailures(r)
  }

  /** Downgrading keeps the schema and every citation, and leaves no `COMPLETE` report. */
  lemma DowngradedReport(r: Report)
    requires ReportSchema(r)
    ensures ReportSchema(WithSpecialistFailures(r)) && Cites(WithSpecialistFailures(r)) == Cites(r)
    ensures WithSpecialistFailures(r).status != COMPLETE
  {
  }

  function FailedAnalysis(): Report {
    Report(FAILED, [], ["NO_USABLE_SPECIALIST_EVIDENCE"])
  }

  function InsufficientEvidence(): Report {
    Report(PARTIAL, [], ["NO_SAFE_MCP_EVIDENCE"])
  }

  /** A complete report cites evidence, and a failed one none. */
  lemma CitationsFollowStatus(r: Report)
    requires ReportSchema(r)
    ensures r.status == COMPLETE ==> Cites(r) != {} && r.missing == []
    ensures r.status == FAILED ==> Cites(r) == {}
  {
    if r.status == COMPLETE {
      var e := r.hypotheses[0].claims[0].evidence[0];
      assert e in r.hypotheses[0].claims[0].evidence;
      assert e in Cites(r);
    }
  }

  // ----- The code of a failed run -----

  /** `_ANALYSIS_FAILURE_CODES`: a specialist's code under the same name among the codes of runs. */
  function LifecycleCode(c: Code): L.FailureCode {
    match c
    case MCP_TIMEOUT => L.MCP_TIMEOUT
    case MCP_TRANSPORT => L.MCP_TRANSPORT
    case MCP_PAYLOAD_TOO_LARGE => L.MCP_PAYLOAD_TOO_LARGE
    case MCP_RESULT_INVALID => L.MCP_RESULT_INVALID
    case ANALYSIS_TIMEOUT => L.ANALYSIS_TIMEOUT
    case ANALYSIS_SCHEMA_INVALID => L.ANALYSIS_SCHEMA_INVALID
    case ANALYSIS_UNKNOWN_EVIDENCE => L.ANALYSIS_UNKNOWN_EVIDENCE
    case ANALYSIS_INPUT_TRUNCATED => L.ANALYSIS_INPUT_TRUNCATED
    case ANALYSIS_FAILED => L.ANALYSIS_FAILED
    case NO_SAFE_MCP_CAPABILITY => L.NO_SAFE_MCP_CAPABILITY
  }

  /** The two codes have the same name. */
  predicate SameName(c: Code, code: L.FailureCode) {
    && (c == MCP_TIMEOUT <==> code == L.MCP_TIMEOUT) && (c == MCP_TRANSPORT <==> code == L.MCP_TRANSPORT)
    && (c == MCP_PAYLOAD_TOO_LARGE <==> code == L.MCP_PAYLOAD_TOO_LARGE)
    && (c == MCP_RESULT_INVALID <==> code == L.MCP_RESULT_INVALID)
    && (c == ANALYSIS_TIMEOUT <==> code == L.ANALYSIS_TIMEOUT)
    && (c == ANALYSIS_SCHEMA_INVALID <==> code == L.ANALYSIS_SCHEMA_INVALID)
    && (c == ANALYSIS_UNKNOWN_EVIDENCE <==> code == L.ANALYSIS_UNKNOWN_EVIDENCE)
    && (c == ANALYSIS_INPUT_TRUNCATED <==> code == L.ANALYSIS_INPUT_TRUNCATED)
    && (c == ANALYSIS_FAILED <==> code == L.ANALYSIS_FAILED)
    && (c == NO_SAFE_MCP_CAPABILITY <==> code == L.NO_SAFE_MCP_CAPABILITY)
  }

  /** The first failure of the specialist that comes first in the order metrics, traces, logs. */
  predicate Leads(failures: seq<Failure>, i: nat) {
    && i < |failures|
    && forall j :: 0 <= j < |failures| ==>
         && Rank(failures[i].specialist) <= Rank(failures[j].specialist)
         && (failures[j].specialist == failures[i].specialist ==> i <= j)
  }

  /** `_terminal_failure_code`: by specialist in their order, the first failure that is found. */
  method TerminalFailureCode(failures: seq<Failure>) returns (code: Option<L.FailureCode>)
    ensures code.Some? <==> failures != []
    ensures forall i: nat :: Leads(failures, i) && code.Some? ==> SameName(failures[i].code, code.value)
    ensures failures != [] ==> exists i: nat :: Leads(failures, i)
  {
    if failures == [] {
      return None;
    }
    var order := [METRICS, TRACE, LOG];
    for m := 0 to 3
      invariant m <= Rank(failures[0].specialist) <= 2
      invariant forall j :: 0 <= j < |failures| ==> m <= Rank(failures[j].specialist)
    {
      for n := 0 to |failures|
        invariant forall j :: 0 <= j < n ==> m < Rank(failures[j].specialist)
      {
        if failures[n].specialist == order[m] {
          assert Leads(failures, n);
          return Some(LifecycleCode(failures[n].code));
        }
      }
    }
    return Some(L.INTERNAL_ERROR);
  }

  // ----- The root model's answers -----

  /** The exceptions of a call of the root model; a typed one carries its own code. */
  datatype RootFault = OutOfTime | Typed(code: L.FailureCode) | Untyped

  /** What a call of the root model gives: an exception, or text, which may not parse as a report. */
  datatype Answer = ModelFault(fault: RootFault) | Wrote(draft: Option<Report>)

  /** A report of the schema that cites known evidence only. */
  predicate Acceptable(a: Answer, known: set<Id>) {
    a.Wrote? && a.draft.Some? && ReportSchema(a.draft.value) && Cites(a.draft.value) <= known
  }

  /** The `i`-th answer is the first acceptable one, and the model did not fail before. */
  predicate DecidedBy(answers: seq<Answer>, known: set<Id>, i: nat) {
    && i < |answers| && Acceptable(answers[i], known)
    && forall j :: 0 <= j < i ==> answers[j].Wrote? && !Acceptable(answers[j], known)
  }

  predicate AllRefused(answers: seq<Answer>, known: set<Id>, n: nat) {
    n <= |answers| && forall j :: 0 <= j < n ==> answers[j].Wrote? && !Acceptable(answers[j], known)
  }

  /** The code with which the root model's synthesis fails: that of its first exception, or of its last refusal. */
  predicate RootFails(answers: seq<Answer>, known: set<Id>, code: L.FailureCode) {
    || (AllRefused(answers, known, |answers|) && code == L.VALIDATION_FAILED)
    || exists i :: 0 <= i < |answers| && AllRefused(answers, known, i) && answers[i].ModelFault?
                   && match answers[i].fault
                      case OutOfTime => code == L.DEADLINE_EXCEEDED
                      case Typed(c) => code == c
                      case Untyped => code == L.INTERNAL_ERROR
  }

  /** The draft itself, or when something is missing, a complete draft marked as partial. */
  predicate ReportsDraft(report: Report, draft: Report, incomplete: bool) {
    if incomplete && draft.status == COMPLETE
    then report == Report(PARTIAL, draft.hypotheses, draft.missing + ["SPECIALIST_FAILURE"])
    else report == draft
  }

  function KnownTo(rs: seq<Result>): set<Id> {
    set i, e | 0 <= i < |rs| && e in rs[i].known :: e
  }

  function AnalysesOf(rs: seq<Result>): seq<Analysis> {
    seq(|rs|, i requires 0 <= i < |rs| => rs[i].analysis)
  }

  lemma CompleteResults(rs: seq<Result>)
    ensures AllComplete(AnalysesOf(rs)) <==> forall i :: 0 <= i < |rs| ==> rs[i].analysis.status == COMPLETE
  {
    assert forall i :: 0 <= i < |rs| ==> AnalysesOf(rs)[i] == rs[i].analysis;
  }
}
