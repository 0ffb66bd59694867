/**
 The specialist-analysis path of `ProductionRcaProcessor`: branches with their tool sessions, the
 two-attempt workflow, the audit of analyses, and the report. The model and MCP answer anything.
 */
module AnalysisPipeline {
  import opened Common
  import opened EvidenceSession
  import opened AnalysisModel
  import opened BranchModel
  import opened Ordering
  import Chunking
  import L = LeaseTables

  datatype Mode = SHADOW | ACTIVE

  datatype RootEnd = Drafted(report: Report) | RootFailed(code: L.FailureCode)

  /** `Interrupted` is any other exception, or the cancellation at the claim's deadline. */
  datatype RunEnd =
    | Reported(report: Report, failure: Option<L.FailureCode>) | RetryTransport | RootFailure(code: L.FailureCode)
    | Interrupted

  datatype StoredReport = StoredReport(run: Id, report: Report)

  /** What discovery found: tools and failures by specialist. */
  datatype Capabilities = Capabilities(tools: map<SpecialistKind, seq<Tool>>, failures: seq<Failure>)

  function ToolsFor(c: Capabilities, k: SpecialistKind): seq<Tool> {
    if k in c.tools then c.tools[k] else []
  }

  /** What one endpoint's discovery gave: tools, or a failure with no tools. */
  datatype Discovery = Found(tools: seq<Tool>) | Missed(code: Code)

  /** `discover_capabilities` on the answers of the endpoints. */
  function Discover(answers: map<SpecialistKind, Discovery>): Capabilities {
    Capabilities(
      map k | k in answers :: if answers[k].Found? then answers[k].tools else [],
      InOrder(map k | k in answers && answers[k].Missed? :: Failure(k, answers[k].code)))
  }

  /** A specialist whose discovery failed has no tools. */
  ghost predicate FailuresHaveNoTools(c: Capabilities) {
    forall k :: k in FailureKinds(c.failures) ==> ToolsFor(c, k) == []
  }

  lemma {:induction false} DiscoveryFailuresHaveNoTools(answers: map<SpecialistKind, Discovery>)
    ensures FailuresHaveNoTools(Discover(answers)) && CanonicalFailures(Discover(answers).failures)
    ensures FailureKinds(Discover(answers).failures) == set k | k in answers && answers[k].Missed?
    ensures forall k :: k in answers && answers[k].Found? ==> ToolsFor(Discover(answers), k) == answers[k].tools
    ensures forall f :: f in Discover(answers).failures ==>
            f.specialist in answers && answers[f.specialist] == Missed(f.code)
  {
    hide InOrder;
    var missed := map k | k in answers && answers[k].Missed? :: Failure(k, answers[k].code);
    InOrderFailures(missed);
  }

  /** `RuleRouter.route`: nothing without a usable scope, else the specialists that have tools. */
  function Routed(scope: Option<Scope>, c: Capabilities): set<SpecialistKind> {
    if scope.Some? && scope.value.provider == "GCP" && scope.value.safe
    then set k | k in {METRICS, TRACE, LOG} && ToolsFor(c, k) != [] else {}
  }

  /** A bundle's specialists: those that discovery failed for, and for a safe GCP scope those that have tools. */
  ghost predicate Accounts(scope: Option<Scope>, c: Capabilities, b: Bundle) {
    forall k :: k in ResultKinds(b.results) + FailureKinds(b.failures) <==>
      k in FailureKinds(c.failures) || (scope.Some? && scope.value.provider == "GCP" && scope.value.safe
                                        && k in c.tools && c.tools[k] != [])
  }

  lemma RoutedMeans(scope: Option<Scope>, c: Capabilities)
    ensures forall k :: k in Routed(scope, c) <==>
            scope.Some? && scope.value.provider == "GCP" && scope.value.safe && k in c.tools && c.tools[k] != []
  {
    forall k
      ensures k in Routed(scope, c) <==>
              scope.Some? && scope.value.provider == "GCP" && scope.value.safe && k in c.tools && c.tools[k] != []
    {
      match k case METRICS => case TRACE => case LOG =>
    }
  }

  lemma AccountsForAll(scope: Option<Scope>, c: Capabilities, b: Bundle)
    requires ResultKinds(b.results) + FailureKinds(b.failures) == Routed(scope, c) + FailureKinds(c.failures)
    ensures Accounts(scope, c, b)
  {
    hide ResultKinds, FailureKinds, Routed;
    RoutedMeans(scope, c);
  }

  /**
   A result whose citations are known to its session, all of it evidence of one specialist run. A
   complete analysis has no record that is longer than the session's budget.
   */
  ghost predicate ResultGrounded(limits: Chunking.Limits, records: map<Id, Record>, run: Id, specialistRun: Id,
                                 r: Result) {
    && SchemaValid(r.analysis)
    && (forall e :: e in Cited(r.analysis) ==> e in r.known)
    && (forall e :: e in r.known ==> e in records && Belongs(records[e], run, specialistRun))
    && (r.analysis.status == COMPLETE ==> WithinBudget(limits, records, r.known))
  }

  /** No record is longer than the session's budget, so no receipt or chunk of it is marked truncated. */
  predicate WithinBudget(limits: Chunking.Limits, records: map<Id, Record>, known: seq<Id>) {
    forall e :: e in known ==> e in records && |records[e].text| <= limits.maxTotalChars
  }

  lemma GroundedStays(limits: Chunking.Limits, before: map<Id, Record>, after: map<Id, Record>, run: Id,
                      writer: Option<Id>,
                      specialistRun: Id, r: Result)
    requires Adds(before, after, run, writer) && ResultGrounded(limits, before, run, specialistRun, r)
    ensures ResultGrounded(limits, after, run, specialistRun, r)
  {
  }

  /** The specialist runs of one RCA run, one per specialist. */
  datatype RunIds = RunIds(metrics: Id, trace: Id, log: Id) {
    function Of(k: SpecialistKind): Id {
      match k
      case METRICS => metrics
      case TRACE => trace
      case LOG => log
    }

    predicate Distinct() {
      metrics != trace && metrics != log && trace != log
    }
  }

  ghost predicate AllGrounded(limits: Chunking.Limits, records: map<Id, Record>, run: Id, ids: RunIds,
                              rs: seq<Result>) {
    forall i :: 0 <= i < |rs| ==> ResultGrounded(limits, records, run, ids.Of(rs[i].analysis.specialist), rs[i])
  }

  function ReportsEvidence(r: Report, run: Id, records: map<Id, Record>): bool {
    forall e :: e in Cites(r) ==> e in records && records[e].run == run
  }

  /** Each of the run's specialist runs has evidence from at most one transaction. */
  ghost predicate ReservedIn(records: map<Id, Record>, batches: map<Id, nat>, run: Id, ids: RunIds) {
    forall k :: OneBatchIn(records, batches, run, ids.Of(k))
  }

  /** A write for one specialist run leaves the other two reserved. */
  lemma ReservedStays(run: Id, ids: RunIds, kind: SpecialistKind,
                      before: map<Id, Record>, after: map<Id, Record>, batches: map<Id, nat>, counted: map<Id, nat>)
    requires ids.Distinct() && Adds(before, after, run, Some(ids.Of(kind)))
             && BatchesKept(batches, counted, ids.Of(kind))
    requires ReservedIn(before, batches, run, ids) && OneBatchIn(after, counted, run, ids.Of(kind))
    ensures ReservedIn(after, counted, run, ids)
  {
    hide OwnIds, Adds;
    forall k
      ensures OneBatchIn(after, counted, run, ids.Of(k))
    {
      if k != kind {
        assert OneBatchIn(before, batches, run, ids.Of(k));
        assert ids.Of(k) != ids.Of(kind);
        AddsNothingElsewhere(before, after, run, Some(ids.Of(kind)), ids.Of(k));
      }
    }
  }

  lemma ReservedAt(records: map<Id, Record>, batches: map<Id, nat>, run: Id, ids: RunIds, kind: SpecialistKind)
    requires ReservedIn(records, batches, run, ids)
    ensures OneBatchIn(records, batches, run, ids.Of(kind))
  {
  }

  /** The workflow's dictionaries: each specialist handled so far is in exactly one of them. */
  ghost predicate Settling(c: Capabilities, handled: set<SpecialistKind>, results: map<SpecialistKind, Result>,
                           failures: map<SpecialistKind, Failure>) {
    && KeyedResults(results) && KeyedFailures(failures)
    && results.Keys + failures.Keys == handled + FailureKinds(c.failures) && results.Keys !! failures.Keys
  }

  ghost predicate GroundedMap(limits: Chunking.Limits, records: map<Id, Record>, run: Id, ids: RunIds,
                              m: map<SpecialistKind, Result>) {
    forall k :: k in m ==> ResultGrounded(limits, records, run, ids.Of(k), m[k])
  }

  /** Every reference of the analysis is a record of this RCA run and this specialist run. */
  predicate CitesOwn(records: map<Id, Record>, run: Id, specialistRun: Id, a: Analysis) {
    forall e :: e in Cited(a) ==> e in records && Belongs(records[e], run, specialistRun)
  }

  // ----- The table of specialist runs -----

  /** The ids name this RCA run's specialist runs, where they exist. */
  ghost predicate RunsFit(runs: map<Id, SpecialistRun>, run: Id, ids: RunIds) {
    forall k :: ids.Of(k) in runs ==> RowFits(runs, run, ids.Of(k), k)
  }

  predicate RowFits(runs: map<Id, SpecialistRun>, run: Id, specialistRun: Id, kind: SpecialistKind) {
    specialistRun in runs && runs[specialistRun].run == run && runs[specialistRun].kind == kind
  }

  /** `_get_or_create_specialist_run`: a row that exists is set to running and keeps its last analysis. */
  function Started(runs: map<Id, SpecialistRun>, r: Request): map<Id, SpecialistRun> {
    runs[r.specialistRun :=
      if r.specialistRun in runs
      then runs[r.specialistRun].(status := SPECIALIST_RUNNING, failure := None)
      else SpecialistRun(r.run, r.kind, SPECIALIST_RUNNING, None, None)]
  }

  /** Branches start rows; they leave every stored analysis as it is. */
  ghost predicate Starts(before: map<Id, SpecialistRun>, after: map<Id, SpecialistRun>) {
    && (forall s :: s in before ==> s in after && after[s].run == before[s].run && after[s].kind == before[s].kind
                                    && after[s].analysis == before[s].analysis)
    && forall s :: s in after && s !in before ==> after[s].analysis == None
  }

  /** Whatever is stored rests on evidence of its own run. */
  ghost predicate Sound(reports: seq<StoredReport>, runs: map<Id, SpecialistRun>, records: map<Id, Record>) {
    && (forall i :: 0 <= i < |reports| ==> ReportsEvidence(reports[i].report, reports[i].run, records))
    && forall s :: s in runs && runs[s].analysis.Some? ==> CitesOwn(records, runs[s].run, s, runs[s].analysis.value)
  }

  lemma {:induction false} SoundStays(reports: seq<StoredReport>, runs: map<Id, SpecialistRun>,
                                      after: map<Id, SpecialistRun>,
                                      records: map<Id, Record>, grown: map<Id, Record>, run: Id, writer: Option<Id>)
    requires Sound(reports, runs, records) && Starts(runs, after) && Adds(records, grown, run, writer)
    ensures Sound(reports, after, grown)
  {
    forall i | 0 <= i < |reports|
      ensures ReportsEvidence(reports[i].report, reports[i].run, grown)
    {
      assert ReportsEvidence(reports[i].report, reports[i].run, records);
    }
    forall s | s in after && after[s].analysis.Some?
      ensures CitesOwn(grown, after[s].run, s, after[s].analysis.value)
    {
      assert CitesOwn(records, runs[s].run, s, runs[s].analysis.value);
    }
  }

  lemma StartedStarts(runs: map<Id, SpecialistRun>, run: Id, ids: RunIds, r: Request)
    requires RunsFit(runs, run, ids) && ids.Distinct() && r.run == run && r.specialistRun == ids.Of(r.kind)
    ensures Starts(runs, Started(runs, r)) && RunsFit(Started(runs, r), run, ids)
    ensures Started(Started(runs, r), r) == Started(runs, r)
  {
  }

  /** The table agrees with a bundle: each result's analysis, and each failure's code, is what is stored. */
  ghost predicate TableTells(runs: map<Id, SpecialistRun>, run: Id, ids: RunIds, b: Bundle) {
    && TellsResults(runs, run, ids, b.results)
    && forall i :: 0 <= i < |b.failures| ==>
       StoredIn(runs, ids.Of(b.failures[i].specialist),
                SpecialistRun(run, b.failures[i].specialist, SPECIALIST_FAILED, Some(b.failures[i].code), None))
  }

  ghost predicate TellsResults(runs: map<Id, SpecialistRun>, run: Id, ids: RunIds, rs: seq<Result>) {
    forall i :: 0 <= i < |rs| ==> StoredIn(runs, ids.Of(rs[i].analysis.specialist), AnalysisRow(run, rs[i].analysis))
  }

  predicate StoredIn(runs: map<Id, SpecialistRun>, specialistRun: Id, row: SpecialistRun) {
    specialistRun in runs && runs[specialistRun] == row
  }

  /** Every result's specialist run has its row. */
  ghost predicate RowsExist(runs: map<Id, SpecialistRun>, run: Id, ids: RunIds, kinds: set<SpecialistKind>) {
    forall k :: k in kinds ==> RowFits(runs, run, ids.Of(k), k)
  }

  class ProductionRcaProcessor {
    const store: EvidenceStore
    const limits: Chunking.Limits
    const maxToolCalls: nat
    const maxObservations: nat
    const correctiveRetries: nat
    var specialistRuns: map<Id, SpecialistRun>
    var reports: seq<StoredReport>

    predicate Configured() {
      Chunking.LimitsValid(limits) && 1 <= maxToolCalls <= 5 && 1 <= maxObservations <= 20 && correctiveRetries <= 1
    }

    ghost predicate Valid()
      reads this, store
    {
      && Configured()
      && Sound(reports, specialistRuns, store.records)
    }

    ghost predicate Reserved(run: Id, ids: RunIds)
      reads store
    {
      ReservedIn(store.records, store.batches, run, ids)
    }

    constructor (store: EvidenceStore, limits: Chunking.Limits, maxToolCalls: nat, maxObservations: nat,
                 correctiveRetries: nat)
      requires Chunking.LimitsValid(limits) && 1 <= maxToolCalls <= 5 && 1 <= maxObservations <= 20
               && correctiveRetries <= 1
      ensures Valid() && this.store == store && reports == [] && specialistRuns == map[]
    {
      this.store, this.limits, this.maxToolCalls := store, limits, maxToolCalls;
      this.maxObservations, this.correctiveRetries := maxObservations, correctiveRetries;
      specialistRuns, reports := map[], [];
    }

    /** The model calls the two tools as often and with whatever arguments it likes. */
    method UseTools(session: EvidenceToolSession)
      requires session.Valid() && session.store == store
      modifies session, store
      ensures session.Valid()
      ensures Adds(old(store.records), store.records, session.request.run, Some(session.request.specialistRun))
      ensures BatchesKept(old(store.batches), store.batches, session.request.specialistRun)
    {
      var calls: nat := *;
      while calls > 0
        invariant session.Valid()
        invariant Adds(old(store.records), store.records, session.request.run, Some(session.request.specialistRun))
        invariant BatchesKept(old(store.batches), store.batches, session.request.specialistRun)
      {
        ghost var before := store.records;
        var collects: bool := *;
        if collects {
          var conditions: Conditions := *;
          var denied, receipt := session.CollectEvidence(conditions);
        } else {
          var id: Id := *;
          var index: int := *;
          var inTime: bool := *;
          var fault: Fault := *;
          var chunk := session.ReadEvidenceChunk(id, index, inTime, fault);
        }
        AddsTransitive(old(store.records), before, store.records, session.request.run,
                       Some(session.request.specialistRun));
        calls := calls - 1;
      }
    }

    /** The validation of one answer of the model; `None` is an answer that is no analysis. */
    method CheckDraft(session: EvidenceToolSession, draft: Option<Analysis>) returns (r: Outcome<Analysis>)
      requires Configured() && session.Valid() && session.store == store && session.limits == limits
      ensures r.Got? ==>
                && ResultGrounded(limits, store.records, session.request.run, session.request.specialistRun,
                                  Result(r.value, session.KnownEvidence()))
                && r.value.specialist == session.request.kind
      ensures r == if draft.None? then Outcome.Failed(ANALYSIS_SCHEMA_INVALID)
                   else Validate(draft.value, session.request.kind, session.KnownEvidence(),
                                 session.receipt.Some? && session.receipt.value.truncated, maxObservations)
    {
      hide Validate, SchemaValid, Cited, OneBatchIn, ReceiptTells, ServedAgrees;
      if draft.None? {
        return Outcome.Failed(ANALYSIS_SCHEMA_INVALID);
      }
      r := Validate(draft.value, session.request.kind, session.KnownEvidence(), session.InputTruncated(),
                    maxObservations);
      if r.Got? {
        ValidatedIsOwned(draft.value, session.request.kind, session.KnownEvidence(), session.InputTruncated(),
                         maxObservations);
      }
    }

    lemma SessionAddsNothing(session: EvidenceToolSession)
      ensures Adds(store.records, store.records, session.request.run, Some(session.request.specialistRun))
      ensures BatchesKept(store.batches, store.batches, session.request.specialistRun)
    {
    }

    /** `AdkSpecialistAgent.analyze` with its corrective retries. */
    method Analyze(session: EvidenceToolSession, turns: seq<Turn>) returns (r: AnalyzeEnd, ghost seen: seq<Seen>)
      requires Configured() && session.Valid() && session.store == store && session.limits == limits
               && |turns| == correctiveRetries + 1
      modifies session, store
      ensures session.Valid()
      ensures TurnsGive(turns, seen, session.request.kind, maxObservations, r)
      ensures r.Analyzed? ==> seen[|seen| - 1].known == session.KnownEvidence()
      ensures Adds(old(store.records), store.records, session.request.run, Some(session.request.specialistRun))
      ensures BatchesKept(old(store.batches), store.batches, session.request.specialistRun)
      ensures r.Analyzed? ==>
                && ResultGrounded(limits, store.records, session.request.run, session.request.specialistRun,
                                  Result(r.analysis, session.KnownEvidence()))
                && r.analysis.specialist == session.request.kind
    {
      hide ResultGrounded, Adds, BatchesKept, OneBatchIn, ReceiptTells, ServedAgrees, Validate;
      SessionAddsNothing(session);
      seen := [];
      for attempt := 0 to correctiveRetries + 1
        invariant session.Valid() && |seen| == attempt
        invariant attempt <= correctiveRetries
        invariant forall i :: 0 <= i < attempt ==> Refused(turns[i], seen[i], session.request.kind, maxObservations)
        invariant Adds(old(store.records), store.records, session.request.run, Some(session.request.specialistRun))
        invariant BatchesKept(old(store.batches), store.batches, session.request.specialistRun)
      {
        ghost var before, batches := store.records, store.batches;
        UseTools(session);
        AddsTransitive(old(store.records), before, store.records, session.request.run,
                       Some(session.request.specialistRun));
        BatchesKeptTransitive(old(store.batches), batches, store.batches, session.request.specialistRun);
        seen := seen + [Seen(session.KnownEvidence(), session.InputTruncated())];
        var turn := turns[attempt];
        if turn.Faults? {
          return Gave(turn.error), seen;
        }
        var checked := CheckDraft(session, turn.draft);
        if checked.Got? {
          return Analyzed(checked.value), seen;
        }
        if attempt == correctiveRetries {
          return Gave(Rejected(checked.code)), seen;
        }
      }
    }

    /** `_invoke_specialist_branch`: a fresh session under the reservation of its specialist run. */
    method InvokeBranch(request: Request, visit: Visit) returns (r: Branch, ghost seen: seq<Seen>)
      requires Valid() && store.OneBatch(request.run, request.specialistRun)
               && |visit.turns| == correctiveRetries + 1
      modifies this`specialistRuns, store
      ensures VisitGives(visit, seen, request.kind, maxObservations, r)
      ensures store.OneBatch(request.run, request.specialistRun)
      ensures Adds(old(store.records), store.records, request.run, Some(request.specialistRun))
      ensures BatchesKept(old(store.batches), store.batches, request.specialistRun)
      ensures specialistRuns == Started(old(specialistRuns), request)
              || (r.Raised? && specialistRuns == old(specialistRuns) && store.records == old(store.records))
      ensures r.Done? ==> r.result.analysis.specialist == request.kind
                          && ResultGrounded(limits, store.records, request.run, request.specialistRun, r.result)
      ensures r.Done? ==> request.specialistRun in specialistRuns
                          && specialistRuns[request.specialistRun].status == SPECIALIST_RUNNING
                          && specialistRuns[request.specialistRun].failure == None
    {
      hide Sound, TurnsGive;
      seen := [];
      if visit.noRow.Some? {
        return Raised(visit.noRow.value), seen;
      }
      specialistRuns := Started(specialistRuns, request);
      if visit.lockTimeout {
        return Raised(TimedOut), seen;
      }
      var session := new EvidenceToolSession(request, limits, maxToolCalls, store);
      var end;
      end, seen := Analyze(session, visit.turns);
      match end {
        case Analyzed(analysis) => return Done(Result(analysis, session.KnownEvidence())), seen;
        case Gave(error) => return Raised(error), seen;
      }
    }

    /**
     `invoke(kind)` of the workflow: one result or one failure after at most two branch invocations. A
     second one follows exactly a transport error in time; any other error ends the branch with its code.
     */
    method InvokeKind(request: Request, visits: seq<Visit>)
      returns (result: Option<Result>, failure: Option<Failure>, ghost branches: seq<Branch>,
               ghost seen: seq<seq<Seen>>)
      requires Valid() && store.OneBatch(request.run, request.specialistRun)
      requires |visits| == 2 && forall i :: 0 <= i < 2 ==> |visits[i].turns| == correctiveRetries + 1
      requires Starts(specialistRuns, Started(specialistRuns, request))
      requires Started(Started(specialistRuns, request), request) == Started(specialistRuns, request)
      modifies this`specialistRuns, store
      ensures Valid() && store.OneBatch(request.run, request.specialistRun)
      ensures Adds(old(store.records), store.records, request.run, Some(request.specialistRun))
      ensures BatchesKept(old(store.batches), store.batches, request.specialistRun)
      ensures specialistRuns == Started(old(specialistRuns), request)
              || (failure.Some? && specialistRuns == old(specialistRuns))
      ensures result.Some? <==> failure.None?
      ensures result.Some? ==> result.value.analysis.specialist == request.kind
                               && ResultGrounded(limits, store.records, request.run, request.specialistRun,
                                                 result.value)
      ensures failure.Some? ==> failure.value.specialist == request.kind
      ensures Visited(visits, request.kind, maxObservations, branches, seen)
              && VisitsEnd(visits, request.kind, branches, result, failure)
    {
      hide ResultGrounded, Sound, Starts, Started, OneBatchIn, Adds, BatchesKept, VisitGives;
      ghost var runs := specialistRuns;
      branches, seen := [], [];
      StartsItself(runs);
      AddsItself(store.records, request.run, Some(request.specialistRun));
      BatchesKeptItself(store.batches, request.specialistRun);
      for attempt := 0 to 2
        invariant Valid() && store.OneBatch(request.run, request.specialistRun) && |branches| == attempt <= 1
        invariant Visited(visits, request.kind, maxObservations, branches, seen)
        invariant forall i :: 0 <= i < |branches| ==> LostConnection(branches[i])
        invariant Adds(old(store.records), store.records, request.run, Some(request.specialistRun))
        invariant BatchesKept(old(store.batches), store.batches, request.specialistRun)
        invariant specialistRuns == runs || specialistRuns == Started(runs, request)
      {
        if visits[attempt].late {
          return None, Some(Failure(request.kind, ANALYSIS_TIMEOUT)), branches, seen;
        }
        ghost var before, batches := store.records, store.batches;
        ghost var started := specialistRuns;
        var branch;
        ghost var shown;
        branch, shown := InvokeBranch(request, visits[attempt]);
        branches, seen := branches + [branch], seen + [shown];
        StartsItself(specialistRuns);
        SoundStays(reports, started, specialistRuns, before, store.records, request.run, Some(request.specialistRun));
        AddsTransitive(old(store.records), before, store.records, request.run, Some(request.specialistRun));
        BatchesKeptTransitive(old(store.batches), batches, store.batches, request.specialistRun);
        if branch.Done? {
          // The workflow's own check of the specialist: the validator has made it before.
          var other := branch.result.analysis.specialist != request.kind;
          result := if other then None else Some(branch.result);
          failure := if other then Some(Failure(request.kind, ANALYSIS_SCHEMA_INVALID)) else None;
          return result, failure, branches, seen;
        }
        if attempt == 1 || !Retryable(branch.error) {
          return None, Some(Failure(request.kind, FailureCode(branch.error))), branches, seen;
        }
      }
    }

    /** One branch of the task group files its result or its failure. */
    method RunOne(run: Id, ids: RunIds, scope: Option<Scope>, c: Capabilities, ghost handled: set<SpecialistKind>,
                  kind: SpecialistKind, visits: SpecialistKind -> seq<Visit>, results: map<SpecialistKind, Result>,
                    failures: map<SpecialistKind, Failure>)
      returns (results': map<SpecialistKind, Result>, failures': map<SpecialistKind, Failure>)
      requires Valid() && ids.Distinct() && Reserved(run, ids) && RunsFit(specialistRuns, run, ids)
      requires Settling(c, handled, results, failures) && GroundedMap(limits, store.records, run, ids, results)
      requires RowsExist(specialistRuns, run, ids, results.Keys)
      requires kind !in handled && kind !in FailureKinds(c.failures)
      requires Scripted(visits, correctiveRetries + 1) && AllPlay(visits, maxObservations, handled, results, failures)
      modifies this`specialistRuns, store
      ensures Valid() && Reserved(run, ids) && RunsFit(specialistRuns, run, ids)
      ensures Settling(c, handled + {kind}, results', failures')
              && GroundedMap(limits, store.records, run, ids, results')
      ensures RowsExist(specialistRuns, run, ids, results'.Keys)
      ensures AllPlay(visits, maxObservations, handled + {kind}, results', failures')
    {
      hide ResultGrounded, Sound, ReservedIn, OneBatchIn, Adds, BatchesKept, GroundedMap, Settling, FailureKinds,
        RunsFit, Starts, Started, RowsExist, Plays, Visited, VisitsEnd, AllPlay;
      ghost var before, batches, runs := store.records, store.batches, specialistRuns;
      ReservedAt(before, batches, run, ids, kind);
      var request := Request(run, ids.Of(kind), kind, scope, ToolsFor(c, kind));
      StartedStarts(runs, run, ids, request);
      var result, failure;
      ghost var branches, seen;
      result, failure, branches, seen := InvokeKind(request, visits(kind));
      PlaysAs(visits(kind), kind, maxObservations, branches, seen, result, failure);
      NotSettledYet(c, handled, results, failures, kind);
      PlaysToo(visits, maxObservations, handled, results, failures, kind, result, failure);
      ReservedStays(run, ids, kind, before, store.records, batches, store.batches);
      GroundedMapStays(limits, before, store.records, run, ids, kind, results);
      SettlingStep(c, handled, results, failures, kind, result, failure);
      RowsStay(runs, specialistRuns, run, ids, request, results.Keys);
      if result.Some? {
        GroundedMapGrows(limits, store.records, run, ids, results, kind, result.value);
        assert results[kind := result.value].Keys == results.Keys + {kind};
        return results[kind := result.value], failures;
      }
      return results, failures[kind := failure.value];
    }

    /** The workflow's task group; the branches write different dictionary entries. */
    method RunBranches(run: Id, ids: RunIds, scope: Option<Scope>, c: Capabilities, selected: set<SpecialistKind>,
                       visits: SpecialistKind -> seq<Visit>, calm: bool)
      returns (results: map<SpecialistKind, Result>, failures: map<SpecialistKind, Failure>, cancelled: bool)
      requires Valid() && ids.Distinct() && Reserved(run, ids) && RunsFit(specialistRuns, run, ids)
      requires selected !! FailureKinds(c.failures) && Scripted(visits, correctiveRetries + 1)
      modifies this`specialistRuns, store
      ensures Valid() && Reserved(run, ids) && RunsFit(specialistRuns, run, ids)
      ensures (!cancelled ==> Settling(c, selected, results, failures)) && (calm ==> !cancelled)
      ensures GroundedMap(limits, store.records, run, ids, results)
      ensures RowsExist(specialistRuns, run, ids, results.Keys)
      ensures !cancelled ==> AllPlay(visits, maxObservations, selected, results, failures)
    {
      hide Sound, ReservedIn, GroundedMap, Settling, FailureKinds, FailuresBy, RunsFit, Plays;
      results, failures, cancelled := map[], FailuresBy(c.failures), false;
      NothingSettled(c);
      NothingGrounded(limits, store.records, run, ids);
      var todo := selected;
      ghost var handled := {};
      while todo != {}
        invariant !cancelled
        invariant todo + handled == selected && todo !! handled && Valid() && Reserved(run, ids)
        invariant RunsFit(specialistRuns, run, ids) && RowsExist(specialistRuns, run, ids, results.Keys)
        invariant Settling(c, handled, results, failures) && GroundedMap(limits, store.records, run, ids, results)
        invariant AllPlay(visits, maxObservations, handled, results, failures)
        decreases |todo|
      {
        var kind :| kind in todo;
        results, failures := RunOne(run, ids, scope, c, handled, kind, visits, results, failures);
        todo := todo - {kind};
        handled := handled + {kind};
        var stop: bool := *;
        if stop && !calm {
          return results, failures, true;
        }
      }
      assert handled == selected;
    }

    /**
     `SpecialistAnalysisWorkflow.run`. Every routed specialist ends in exactly one of results and
     failures; the bundle is canonical and its results are grounded in the run's own evidence.
     */
    method RunWorkflow(run: Id, ids: RunIds, scope: Option<Scope>, c: Capabilities,
                       visits: SpecialistKind -> seq<Visit>, calm: bool)
      returns (b: Bundle, cancelled: bool)
      requires Valid() && ids.Distinct() && Reserved(run, ids) && RunsFit(specialistRuns, run, ids)
               && FailuresHaveNoTools(c) && Scripted(visits, correctiveRetries + 1)
      modifies this`specialistRuns, store
      ensures Valid() && Reserved(run, ids) && RunsFit(specialistRuns, run, ids)
      ensures calm ==> !cancelled
      ensures !cancelled ==> RowsExist(specialistRuns, run, ids, ResultKinds(b.results))
      ensures !cancelled ==>
                Canonical(b) && DisjointKinds(b) && AllGrounded(limits, store.records, run, ids, b.results)
      ensures !cancelled ==> forall r :: r in b.results ==> Usable(r)
      ensures !cancelled ==> Accounts(scope, c, b) && AllEnd(scope, c, visits, b)
    {
      hide ResultGrounded, InOrder, Usable, Sound, Normalize, ReservedIn, RunsFit, Accounts, EndsIn, AllPlay;
      var selected := Routed(scope, c);
      RoutedMeans(scope, c);
      if selected == {} {
        FailuresByKeys(c.failures);
        InOrderFailures(FailuresBy(c.failures));
        b := Bundle([], InOrder(FailuresBy(c.failures)));
        AccountsForAll(scope, c, b);
        return b, false;
      }
      var results, failures;
      results, failures, cancelled := RunBranches(run, ids, scope, c, selected, visits, calm);
      if cancelled {
        return Bundle([], []), true;
      }
      InOrderResults(results);
      InOrderFailures(failures);
      var collected := Bundle(InOrder(results), InOrder(failures));
      NormalizeFacts(collected);
      NormalizeKeepsDisjoint(collected);
      b := Normalize(collected);
      NormalizedEnds(visits, maxObservations, selected, results, failures);
      AccountsForAll(scope, c, b);
      GroundedInOrder(limits, store.records, run, ids, results, b.results);
    }

    /** Each specialist that has tools ends in the bundle as its visits did. */
    ghost predicate AllEnd(scope: Option<Scope>, c: Capabilities, visits: SpecialistKind -> seq<Visit>, b: Bundle)
      requires forall k :: |visits(k)| == 2
    {
      scope.Some? && scope.value.provider == "GCP" && scope.value.safe ==>
        forall k :: k in c.tools && c.tools[k] != [] ==> EndsIn(b, visits(k), k, maxObservations)
    }

    /** `SELECT EXISTS(...)` for one reference after the other, up to the first that is not owned. */
    method OwnsReferences(run: Id, specialistRun: Id, references: seq<Id>) returns (owned: bool)
      ensures owned <==> forall e :: e in references ==>
              e in store.records && Belongs(store.records[e], run, specialistRun)
    {
      for n := 0 to |references|
        invariant forall e :: e in references[..n] ==>
                  e in store.records && Belongs(store.records[e], run, specialistRun)
      {
        var e := references[n];
        if e !in store.records || !Belongs(store.records[e], run, specialistRun) {
          assert e in references;
          return false;
        }
        assert references[..n + 1] == references[..n] + [e];
      }
      assert references[..|references|] == references;
      return true;
    }

    /**
     `upsert_specialist_analysis`: the analysis is stored if and only if its specialist run exists and
     every reference of every observation is evidence of that run; otherwise no row changes.
     */
    method UpsertAnalysis(run: Id, specialistRun: Id, kind: SpecialistKind, a: Analysis) returns (owned: bool)
      requires Valid()
      modifies this`specialistRuns
      ensures Valid()
      ensures owned <==> a.specialist == kind && RowFits(specialistRuns, run, specialistRun, kind)
                         && CitesOwn(store.records, run, specialistRun, a)
      ensures specialistRuns == if owned then old(specialistRuns)[specialistRun := AnalysisRow(run, a)]
              else old(specialistRuns)
    {
      if a.specialist != kind || !RowFits(specialistRuns, run, specialistRun, kind) {
        return false;
      }
      for i := 0 to |a.observations|
        invariant specialistRuns == old(specialistRuns)
        invariant forall m, e :: 0 <= m < i && e in a.observations[m].evidence ==>
                    e in store.records && Belongs(store.records[e], run, specialistRun)
      {
        var all := OwnsReferences(run, specialistRun, a.observations[i].evidence);
        if !all {
          ghost var e :| e in a.observations[i].evidence
            && !(e in store.records && Belongs(store.records[e], run, specialistRun));
          assert e in Cited(a);
          return false;
        }
      }
      var status := SPECIALIST_FAILED;
      if a.observations != [] {
        match a.status {
          case COMPLETE => status := SPECIALIST_SUCCEEDED;
          case PARTIAL => status := SPECIALIST_PARTIAL;
          case FAILED => status := SPECIALIST_FAILED;
        }
      }
      var failure := None;
      if a.missing != [] {
        failure := Some(a.missing[0]);
      } else if status == SPECIALIST_FAILED {
        failure := Some(ANALYSIS_FAILED);
      }
      specialistRuns := specialistRuns[specialistRun := SpecialistRun(run, kind, status, failure, Some(a))];
      return true;
    }

    /**
     `_persist_specialist_analyses`: exactly the results whose citations their specialist runs own are
     kept and stored, the others become failures. Of grounded results none is lost. Any other exception
     leaves what was stored before it.
     */
    method PersistAnalyses(run: Id, ids: RunIds, rs: seq<Result>, calm: bool)
      returns (persisted: seq<Result>, audit: seq<Failure>, broken: bool)
      requires Valid() && CanonicalResults(rs) && ids.Distinct() && RunsFit(specialistRuns, run, ids)
      requires RowsExist(specialistRuns, run, ids, ResultKinds(rs))
      modifies this`specialistRuns
      ensures Valid() && RunsFit(specialistRuns, run, ids) && (calm ==> !broken)
      ensures !broken ==> forall r :: r in persisted <==>
                r in rs && CitesOwn(store.records, run, ids.Of(r.analysis.specialist), r.analysis)
      ensures !broken ==>
                && ResultKinds(persisted) + FailureKinds(audit) == ResultKinds(rs)
                && ResultKinds(persisted) !! FailureKinds(audit)
      ensures forall f :: f in audit ==> f.code == ANALYSIS_UNKNOWN_EVIDENCE
      ensures TellsResults(specialistRuns, run, ids, persisted)
      ensures !broken && AllGrounded(limits, store.records, run, ids, rs) ==> persisted == rs && audit == []
    {
      hide CitesOwn, Sound, RunsFit, ResultGrounded, AnalysisRow, ResultKinds, FailureKinds, CanonicalResults,
        TellsResults, AllGrounded;
      persisted, audit, broken := [], [], false;
      NothingPersisted(specialistRuns, run, ids);
      assert rs[..0] == [];
      for n := 0 to |rs|
        invariant !broken
        invariant Valid() && RunsFit(specialistRuns, run, ids) && RowsExist(specialistRuns, run, ids, ResultKinds(rs))
        invariant forall r :: r in persisted <==>
                  r in rs[..n] && CitesOwn(store.records, run, ids.Of(r.analysis.specialist), r.analysis)
        invariant ResultKinds(persisted) + FailureKinds(audit) == ResultKinds(rs[..n])
                  && ResultKinds(persisted) !! FailureKinds(audit)
        invariant forall f :: f in audit ==> f.code == ANALYSIS_UNKNOWN_EVIDENCE
        invariant TellsResults(specialistRuns, run, ids, persisted)
        invariant AllGrounded(limits, store.records, run, ids, rs) ==> persisted == rs[..n] && audit == []
      {
        var fault: bool := *;
        if fault && !calm {
          return persisted, audit, true;
        }
        var kind := rs[n].analysis.specialist;
        ghost var runs := specialistRuns;
        KindAt(rs, n);
        var owned := UpsertAnalysis(run, ids.Of(kind), kind, rs[n].analysis);
        KindsGrow(rs[..n], rs[n]);
        assert rs[..n + 1] == rs[..n] + [rs[n]];
        KindIsNew(rs, n);
        GroundedIsOwned(limits, store.records, run, ids, rs, n);
        if owned {
          AnalysisStored(runs, run, ids, rs[n].analysis, persisted);
          TellsMore(specialistRuns, run, ids, persisted, rs[n]);
          KindsGrow(persisted, rs[n]);
          persisted := persisted + [rs[n]];
        } else {
          FailuresGrow(audit, Failure(kind, ANALYSIS_UNKNOWN_EVIDENCE));
          audit := audit + [Failure(kind, ANALYSIS_UNKNOWN_EVIDENCE)];
        }
      }
      assert rs[..|rs|] == rs;
    }

    /** `_persist_analysis_failures`: in one transaction, a failed specialist run loses any analysis stored for it. */
    method PersistFailures(run: Id, ids: RunIds, rs: seq<Result>, failures: seq<Failure>, calm: bool)
      returns (broken: bool)
      requires Valid() && ids.Distinct() && RunsFit(specialistRuns, run, ids)
      requires Canonical(Bundle(rs, failures)) && DisjointKinds(Bundle(rs, failures))
               && TellsResults(specialistRuns, run, ids, rs)
      modifies this`specialistRuns
      ensures Valid() && RunsFit(specialistRuns, run, ids)
      ensures !broken ==> TableTells(specialistRuns, run, ids, Bundle(rs, failures))
      ensures (broken ==> specialistRuns == old(specialistRuns)) && (calm ==> !broken)
    {
      hide Sound, RunsFit;
      var rows := specialistRuns;
      for n := 0 to |failures|
        invariant specialistRuns == old(specialistRuns) && Sound(reports, rows, store.records)
        invariant RunsFit(rows, run, ids) && TableTells(rows, run, ids, Bundle(rs, failures[..n]))
      {
        var fault: bool := *;
        if fault && !calm {
          return true;
        }
        var f := failures[n];
        FailureStored(rows, run, ids, rs, failures, n);
        FailureKeepsSound(reports, rows, store.records, ids.Of(f.specialist), FailureRow(run, f));
        rows := rows[ids.Of(f.specialist) := FailureRow(run, f)];
      }
      assert failures[..|failures|] == failures;
      specialistRuns := rows;
      return false;
    }

    /** `_known_evidence`: the union of the results' evidence, each id once. */
    method KnownEvidence(rs: seq<Result>) returns (references: seq<Id>)
      ensures forall e :: e in references <==> exists i :: 0 <= i < |rs| && e in rs[i].known
      ensures forall i, j :: 0 <= i < j < |references| ==> references[i] != references[j]
    {
      references := [];
      for n := 0 to |rs|
        invariant forall e :: e in references <==> exists i :: 0 <= i < n && e in rs[i].known
        invariant forall i, j :: 0 <= i < j < |references| ==> references[i] != references[j]
      {
        var known := rs[n].known;
        for m := 0 to |known|
          invariant forall e :: e in references <==> e in known[..m] || exists i :: 0 <= i < n && e in rs[i].known
          invariant forall i, j :: 0 <= i < j < |references| ==> references[i] != references[j]
        {
          assert known[..m + 1] == known[..m] + [known[m]];
          if known[m] !in references {
            references := references + [known[m]];
          }
        }
        assert known[..|known|] == known;
      }
    }

    /** `_synthesize_prompt`: the first acceptable answer, unless the model fails or gives none in time. */
    method SynthesizePrompt(known: seq<Id>, answers: seq<Answer>) returns (r: RootEnd)
      requires |answers| == correctiveRetries + 1
      ensures r.Drafted? ==> ReportSchema(r.report) && forall e :: e in Cites(r.report) ==> e in known
      ensures r.Drafted? <==> exists i: nat :: DecidedBy(answers, Members(known), i)
      ensures forall i: nat :: DecidedBy(answers, Members(known), i) ==> r == Drafted(answers[i].draft.value)
      ensures r.RootFailed? ==> RootFails(answers, Members(known), r.code)
    {
      hide ReportSchema, Cites;
      for attempt := 0 to correctiveRetries + 1
        invariant forall j :: 0 <= j < attempt ==> answers[j].Wrote? && !Acceptable(answers[j], Members(known))
      {
        var answer := answers[attempt];
        if answer.ModelFault? {
          assert AllRefused(answers, Members(known), attempt);
          match answer.fault {
            case OutOfTime => return RootFailed(L.DEADLINE_EXCEEDED);
            case Typed(code) => return RootFailed(code);
            case Untyped => return RootFailed(L.INTERNAL_ERROR);
          }
        }
        var draft := answer.draft;
        if draft.Some? && ReportSchema(draft.value) && (forall e :: e in Cites(draft.value) ==> e in known) {
          assert DecidedBy(answers, Members(known), attempt);
          return Drafted(draft.value);
        }
      }
      return RootFailed(L.VALIDATION_FAILED);
    }

    /** `synthesize`: analyses that cite unknown evidence are refused before the model is asked. */
    method Synthesize(analyses: seq<Analysis>, known: seq<Id>, answers: seq<Answer>) returns (r: RootEnd)
      requires |answers| == correctiveRetries + 1
      ensures r.Drafted? ==> ReportSchema(r.report) && forall e :: e in Cites(r.report) ==> e in known
      ensures r.Drafted? ==> forall i, e :: 0 <= i < |analyses| && e in Cited(analyses[i]) ==> e in known
      ensures r.Drafted? && r.report.status == COMPLETE ==> AllComplete(analyses)
      ensures r.Drafted? <==>
                && (exists i: nat :: DecidedBy(answers, Members(known), i))
                && forall i, e :: 0 <= i < |analyses| && e in Cited(analyses[i]) ==> e in known
      ensures forall i: nat :: DecidedBy(answers, Members(known), i) && r.Drafted? ==>
                ReportsDraft(r.report, answers[i].draft.value, !AllComplete(analyses))
      ensures r.RootFailed? ==>
                RootFails(answers, Members(known), r.code)
                || (r.code == L.VALIDATION_FAILED
                    && exists i, e :: 0 <= i < |analyses| && e in Cited(analyses[i]) && e !in known)
    {
      hide ReportSchema, Cites, Acceptable;
      if exists i, e :: 0 <= i < |analyses| && e in Cited(analyses[i]) && e !in known {
        return RootFailed(L.VALIDATION_FAILED);
      }
      r := SynthesizePrompt(known, answers);
      if r.Drafted? {
        DowngradedReport(r.report);
        r := Drafted(WithIncompleteAnalyses(r.report, analyses));
      }
    }

    /** What the end of an analysis says about its bundle and the root model's answers. */
    ghost predicate ReportsOn(b: Bundle, answers: seq<Answer>, end: RunEnd) {
      && !end.RetryTransport?
      && (b.results == [] ==>
            && end.Reported?
            && end.report == (if b.failures != [] then Report(FAILED, [], ["NO_USABLE_SPECIALIST_EVIDENCE"])
                              else Report(PARTIAL, [], ["NO_SAFE_MCP_EVIDENCE"]))
            && (end.failure.Some? <==> b.failures != [])
            && forall i: nat :: Leads(b.failures, i) && end.failure.Some? ==>
                 SameName(b.failures[i].code, end.failure.value))
      && (b.results != [] && !end.Interrupted? ==>
            && (end.Reported? <==> exists i: nat :: DecidedBy(answers, KnownTo(b.results), i))
            && (end.Reported? ==> end.failure == None)
            && (end.RootFailure? ==> RootFails(answers, KnownTo(b.results), end.code))
            && forall i: nat :: DecidedBy(answers, KnownTo(b.results), i) && end.Reported? ==>
                 ReportsDraft(end.report, answers[i].draft.value, b.failures != []
                              || !AllComplete(AnalysesOf(b.results))))
    }

    /** `_raise_if_retryable_analysis_total_failure` */
    predicate TotalTransportFailure(b: Bundle, attempt: nat) {
      attempt < 3 && b.results == [] && b.failures != [] && forall i :: 0 <= i < |b.failures| ==>
        b.failures[i].code == MCP_TRANSPORT
    }

    /**
     The report of a settled bundle. Without results it is a failed one if and only if there are failures,
     and a partial one otherwise; with results it is the root model's draft, marked as partial when a
     specialist failed or an analysis is not complete. `calm` means that nothing else raises.
     */
    method ReportOn(run: Id, ids: RunIds, b: Bundle, mode: Mode, answers: seq<Answer>, calm: bool) returns (end: RunEnd)
      requires Valid() && AllGrounded(limits, store.records, run, ids, b.results) && |answers| == correctiveRetries + 1
      ensures end.Reported? ==> ReportSchema(end.report) && ReportsEvidence(end.report, run, store.records)
      ensures end.Reported? && end.report.status == COMPLETE ==>
                b.failures == [] && b.results != [] && AllComplete(AnalysesOf(b.results))
                  && AllWithinBudget(limits, store.records, b.results)
      ensures end.Reported? && end.report.status == COMPLETE ==> CitesWithinBudget(limits, store.records, end.report)
      ensures ReportsOn(b, answers, end) && (calm ==> !end.Interrupted?)
    {
      if b.results == [] {
        var failure := TerminalFailureCode(b.failures);
        return Reported(if b.failures != [] then FailedAnalysis() else InsufficientEvidence(), failure);
      }
      hide ReportSchema, Cites, AllGrounded, AllWithinBudget, DecidedBy, RootFails, WithinBudget, AllComplete,
           AnalysesOf, Cited,
        KnownTo, Sound;
      var references := KnownEvidence(b.results);
      CompleteResults(b.results);
      ReferencesGrounded(limits, store.records, run, ids, b.results, references);
      CitationsAreKnown(limits, store.records, run, ids, b.results);
      assert Members(references) == KnownTo(b.results);
      var root;
      if mode == SHADOW {
        root := SynthesizePrompt(references, answers);
      } else {
        root := Synthesize(AnalysesOf(b.results), references, answers);
      }
      if root.RootFailed? {
        return RootFailure(root.code);
      }
      var fault: bool := *;
      if fault && !calm {
        return Interrupted;
      }
      var report := root.report;
      if b.failures != [] || exists i :: 0 <= i < |b.results| && b.results[i].analysis.status != COMPLETE {
        DowngradedReport(report);
        report := WithSpecialistFailures(report);
      }
      return Reported(report, None);
    }

    /**
     `_run_specialist_analysis`. The returned bundle is what the report was built on: canonical, with no
     specialist in both lists and every routed or undiscovered specialist in one of them.
     */
    method RunSpecialistAnalysis(run: Id, ids: RunIds, attempt: nat, scope: Option<Scope>, c: Capabilities, mode: Mode,
                                 visits: SpecialistKind -> seq<Visit>, answers: seq<Answer>, calm: bool)
      returns (end: RunEnd, ghost b: Bundle)
      requires Valid() && ids.Distinct() && Reserved(run, ids) && RunsFit(specialistRuns, run, ids)
               && FailuresHaveNoTools(c) && Scripted(visits, correctiveRetries + 1)
               && |answers| == correctiveRetries + 1
      modifies this`specialistRuns, store
      ensures Valid() && Reserved(run, ids) && RunsFit(specialistRuns, run, ids) && (calm ==> !end.Interrupted?)
      ensures !end.Interrupted? && !end.RetryTransport? ==> ReportsOn(b, answers, end)
      ensures !end.Interrupted? ==>
                && Canonical(b) && DisjointKinds(b) && TableTells(specialistRuns, run, ids, b)
                && Accounts(scope, c, b) && AllEnd(scope, c, visits, b)
      ensures end.Reported? ==> ReportSchema(end.report) && ReportsEvidence(end.report, run, store.records)
      ensures end.Reported? && end.report.status == COMPLETE ==>
                b.failures == [] && b.results != [] && AllComplete(AnalysesOf(b.results))
                  && AllWithinBudget(limits, store.records, b.results)
      ensures end.Reported? && end.report.status == COMPLETE ==> CitesWithinBudget(limits, store.records, end.report)
      ensures !end.Interrupted? ==>
                (end.RetryTransport? <==> attempt < 3 && b.results == [] && b.failures != []
                                          && forall f :: f in b.failures ==> f.code == MCP_TRANSPORT)
    {
      hide ResultGrounded, Normalize, Usable, ReportSchema, Sound, Ordered, RunsFit, CitesOwn, Accounts, AllEnd;
      b := Bundle([], []);
      var first, cancelled := RunWorkflow(run, ids, scope, c, visits, calm);
      if cancelled {
        return Interrupted, b;
      }
      UsableBundleIsNormal(first);
      var bundle := Ordered(Normalize(first));
      var persisted, audit, broken := PersistAnalyses(run, ids, bundle.results, calm);
      if broken {
        return Interrupted, b;
      }
      var merged := Bundle(persisted, bundle.failures + audit);
      MergeFacts(bundle, persisted, audit);
      assert merged == bundle;
      bundle := Ordered(merged);
      broken := PersistFailures(run, ids, bundle.results, bundle.failures, calm);
      if broken {
        return Interrupted, b;
      }
      b := bundle;
      if TotalTransportFailure(bundle, attempt) {
        return RetryTransport, b;
      }
      end := ReportOn(run, ids, bundle, mode, answers, calm);
    }

    /** `_persist_report`, whose transaction may raise having committed or not. */
    method PersistReport(run: Id, report: Report, calm: bool) returns (raised: bool)
      requires Valid() && ReportsEvidence(report, run, store.records)
      modifies this`reports
      ensures Valid() && (calm ==> !raised)
      ensures reports == old(reports) + [StoredReport(run, report)] || (raised && reports == old(reports))
    {
      hide ReportsEvidence;
      raised := *;
      raised := raised && !calm;
      var committed: bool := *;
      if committed || !raised {
        reports := reports + [StoredReport(run, report)];
      }
    }

    /** The report of an analysis that has come to an end, and the result for the job; `None` if storing it raises. */
    method Conclude(run: Id, end: RunEnd, calm: bool) returns (result: Option<L.ProcessingResult>)
      requires Valid() && (end.Reported? || end.RootFailure?)
      requires end.Reported? ==> ReportsEvidence(end.report, run, store.records)
      modifies this`reports
      ensures Valid() && (calm ==> result.Some?)
      ensures var report := if end.Reported? then end.report
                            else Report(FAILED, [], ["NO_USABLE_SPECIALIST_EVIDENCE"]);
              && (reports == old(reports) + [StoredReport(run, report)] || (result.None? && reports == old(reports)))
              && (result.Some? ==>
                    SameStatus(report.status, result.value.status)
                    && result.value.failure == if end.Reported? then end.failure else Some(end.code))
    {
      hide ReportsEvidence, Sound;
      var report, failure := FailedAnalysis(), None;
      if end.Reported? {
        report, failure := end.report, end.failure;
      } else {
        NothingCited(run, store.records);
        failure := Some(end.code);
      }
      var raised := PersistReport(run, report, calm);
      if raised {
        return None;
      }
      match report.status {
        case COMPLETE => return Some(L.ProcessingResult(L.COMPLETE, failure));
        case PARTIAL => return Some(L.ProcessingResult(L.PARTIAL, failure));
        case FAILED => return Some(L.ProcessingResult(L.FAILED_RESULT, failure));
      }
    }

    /** What a call leaves: a report when it returns, at most one when it raises, and it cites this run's evidence. */
    ghost predicate Files(before: seq<StoredReport>, run: Id, end: RunEnd)
      reads this, store
    {
      || (reports == before && (end.RetryTransport? || end.Interrupted?))
      || (&& |reports| == |before| + 1 && before == reports[..|before|] && reports[|before|].run == run
          && ReportsEvidence(reports[|before|].report, run, store.records)
          && (reports[|before|].report.status == COMPLETE ==>
                CitesWithinBudget(limits, store.records, reports[|before|].report))
          && (reports[|before|].report.status == COMPLETE ==> Cites(reports[|before|].report) != {})
          && (reports[|before|].report.status == FAILED ==> Cites(reports[|before|].report) == {})
          && !end.RetryTransport? && (end.Reported? ==> reports[|before|].report == end.report)
          && (end.RootFailure? ==> reports[|before|].report == Report(FAILED, [], ["NO_USABLE_SPECIALIST_EVIDENCE"])))
    }

    /**
     `__call__` on the analysis path: the report that is persisted cites only evidence records of this
     RCA run, whatever the model and the MCP servers answered. A call that returns has stored exactly one
     report, one that raises at most one. Without a usable scope the report is a partial one; else it is
     the report on the bundle `b` of this call. The result that is returned has the stored report's status.
     */
    method Process(run: Id, ids: RunIds, attempt: nat, scope: Option<Scope>, c: Capabilities, mode: Mode,
                   visits: SpecialistKind -> seq<Visit>, answers: seq<Answer>, calm: bool)
      returns (end: RunEnd, result: Option<L.ProcessingResult>, ghost b: Option<Bundle>)
      requires Valid() && ids.Distinct() && Reserved(run, ids) && RunsFit(specialistRuns, run, ids)
               && FailuresHaveNoTools(c) && Scripted(visits, correctiveRetries + 1)
               && |answers| == correctiveRetries + 1
      modifies this`reports, this`specialistRuns, store
      ensures Valid() && Reserved(run, ids) && RunsFit(specialistRuns, run, ids)
      ensures Files(old(reports), run, end) && (calm ==> !end.Interrupted?)
      ensures !end.Interrupted? ==> (b.Some? <==> scope.Some? && scope.value.provider == "GCP" && scope.value.safe)
      ensures !end.Interrupted? && b.None? ==>
              end == Reported(Report(PARTIAL, [], ["NO_SAFE_MCP_EVIDENCE"]), None)
      ensures !end.Interrupted? && b.Some? ==>
                && Accounts(scope, c, b.value) && AllEnd(scope, c, visits, b.value)
                && TableTells(specialistRuns, run, ids, b.value)
                && (end.RetryTransport? <==> attempt < 3 && b.value.results == [] && b.value.failures != []
                                             && forall f :: f in b.value.failures ==> f.code == MCP_TRANSPORT)
                && (!end.RetryTransport? ==> ReportsOn(b.value, answers, end))
      ensures result.Some? <==> end.Reported? || end.RootFailure?
      ensures result.Some? ==>
                && SameStatus(reports[|reports| - 1].report.status, result.value.status)
                && result.value.failure == if end.Reported? then end.failure else Some(end.code)
    {
      b, result := None, None;
      var raised: bool := *;
      if raised && !calm {
        return Interrupted, None, None;
      }
      if scope.None? || scope.value.provider != "GCP" || !scope.value.safe {
        raised := PersistReport(run, InsufficientEvidence(), calm);
        if raised {
          return Interrupted, None, None;
        }
        return Reported(InsufficientEvidence(), None), Some(L.ProcessingResult(L.PARTIAL, None)), None;
      }
      hide ReportSchema, RunsFit, ReservedIn, TableTells, DecidedBy, ReportsOn, Accounts, AllEnd;
      ghost var bundle;
      end, bundle := RunSpecialistAnalysis(run, ids, attempt, scope, c, mode, visits, answers, calm);
      b := Some(bundle);
      if end.Reported? {
        CitationsFollowStatus(end.report);
      }
      if end.Reported? || end.RootFailure? {
        result := Conclude(run, end, calm);
        if result.None? {
          end := Interrupted;
        }
      }
    }
  }

  lemma NothingCited(run: Id, records: map<Id, Record>)
    ensures ReportsEvidence(FailedAnalysis(), run, records)
  {
  }

  /** The status of a report and that of the processing result. */
  predicate SameStatus(s: Status, r: L.ResultStatus) {
    (s == COMPLETE <==> r == L.COMPLETE) && (s == PARTIAL <==> r == L.PARTIAL)
  }

  /** Grounded results cite only what some result knows. */
  lemma {:induction false} CitationsAreKnown(limits: Chunking.Limits, records: map<Id, Record>, run: Id, ids: RunIds,
                                             rs: seq<Result>)
    requires AllGrounded(limits, records, run, ids, rs)
    ensures forall i, e :: 0 <= i < |rs| && e in Cited(AnalysesOf(rs)[i]) ==> e in KnownTo(rs)
  {
    hide SchemaValid, Cited;
    forall i, e | 0 <= i < |rs| && e in Cited(AnalysesOf(rs)[i])
      ensures e in KnownTo(rs)
    {
      assert ResultGrounded(limits, records, run, ids.Of(rs[i].analysis.specialist), rs[i]);
      assert e in rs[i].known;
    }
  }

  lemma AddsItself(records: map<Id, Record>, run: Id, writer: Option<Id>)
    ensures Adds(records, records, run, writer)
  {
  }

  lemma BatchesKeptItself(batches: map<Id, nat>, specialistRun: Id)
    ensures BatchesKept(batches, batches, specialistRun)
  {
  }

  lemma BatchesKeptTransitive(a: map<Id, nat>, b: map<Id, nat>, c: map<Id, nat>, specialistRun: Id)
    requires BatchesKept(a, b, specialistRun) && BatchesKept(b, c, specialistRun)
    ensures BatchesKept(a, c, specialistRun)
  {
  }

  lemma StartsItself(runs: map<Id, SpecialistRun>)
    ensures Starts(runs, runs)
  {
  }

  /** Starting a branch gives its own specialist run a row and takes none away. */
  lemma {:induction false} RowsStay(runs: map<Id, SpecialistRun>, after: map<Id, SpecialistRun>, run: Id, ids: RunIds,
                                    r: Request, kinds: set<SpecialistKind>)
    requires RunsFit(runs, run, ids) && ids.Distinct() && r.run == run && r.specialistRun == ids.Of(r.kind)
    requires RowsExist(runs, run, ids, kinds)
    requires after == Started(runs, r) || after == runs
    ensures RunsFit(after, run, ids) && RowsExist(after, run, ids, kinds)
    ensures after == Started(runs, r) ==> RowsExist(after, run, ids, kinds + {r.kind})
  {
    StartedStarts(runs, run, ids, r);
    forall k | k in kinds
      ensures RowFits(after, run, ids.Of(k), k)
    {
      assert RowFits(runs, run, ids.Of(k), k);
    }
    assert after == Started(runs, r) ==> RowFits(after, run, ids.Of(r.kind), r.kind);
  }

  lemma NothingPersisted(runs: map<Id, SpecialistRun>, run: Id, ids: RunIds)
    ensures ResultKinds([]) == {} && FailureKinds([]) == {} && TellsResults(runs, run, ids, [])
  {
  }

  lemma KindIsNew(rs: seq<Result>, n: nat)
    requires CanonicalResults(rs) && n < |rs|
    ensures rs[n].analysis.specialist !in ResultKinds(rs[..n])
  {
    assert forall i :: 0 <= i < n ==> rs[..n][i] == rs[i];
  }

  lemma KindAt(rs: seq<Result>, n: nat)
    requires n < |rs|
    ensures rs[n].analysis.specialist in ResultKinds(rs)
  {
  }

  lemma GroundedIsOwned(limits: Chunking.Limits, records: map<Id, Record>, run: Id, ids: RunIds, rs: seq<Result>,
                        n: nat)
    requires n < |rs|
    ensures AllGrounded(limits, records, run, ids, rs) ==>
              CitesOwn(records, run, ids.Of(rs[n].analysis.specialist), rs[n].analysis)
  {
    if AllGrounded(limits, records, run, ids, rs) {
      assert ResultGrounded(limits, records, run, ids.Of(rs[n].analysis.specialist), rs[n]);
    }
  }

  /** Storing one specialist's analysis leaves the rows of the others as they were. */
  lemma AnalysisStored(runs: map<Id, SpecialistRun>, run: Id, ids: RunIds, a: Analysis, rs: seq<Result>)
    requires RunsFit(runs, run, ids) && ids.Distinct() && a.specialist !in ResultKinds(rs)
    requires TellsResults(runs, run, ids, rs) && RowFits(runs, run, ids.Of(a.specialist), a.specialist)
    ensures var after := runs[ids.Of(a.specialist) := AnalysisRow(run, a)];
            && RunsFit(after, run, ids) && TellsResults(after, run, ids, rs)
            && StoredIn(after, ids.Of(a.specialist), AnalysisRow(run, a))
  {
    forall i | 0 <= i < |rs|
      ensures ids.Of(rs[i].analysis.specialist) != ids.Of(a.specialist)
    {
      assert rs[i].analysis.specialist in ResultKinds(rs);
    }
  }

  lemma TellsMore(runs: map<Id, SpecialistRun>, run: Id, ids: RunIds, rs: seq<Result>, r: Result)
    requires TellsResults(runs, run, ids, rs)
             && StoredIn(runs, ids.Of(r.analysis.specialist), AnalysisRow(run, r.analysis))
    ensures TellsResults(runs, run, ids, rs + [r])
  {
  }

  /** Storing a failure leaves the rows of the results and of the earlier failures as they were. */
  lemma {:induction false} FailureStored(runs: map<Id, SpecialistRun>, run: Id, ids: RunIds, rs: seq<Result>,
                                         failures: seq<Failure>, n: nat)
    requires ids.Distinct() && RunsFit(runs, run, ids) && n < |failures|
    requires CanonicalFailures(failures) && DisjointKinds(Bundle(rs, failures))
             && TableTells(runs, run, ids, Bundle(rs, failures[..n]))
    ensures var after := runs[ids.Of(failures[n].specialist) := FailureRow(run, failures[n])];
            RunsFit(after, run, ids) && TableTells(after, run, ids, Bundle(rs, failures[..n + 1]))
  {
    var f := failures[n];
    assert f.specialist in FailureKinds(failures);
    forall i | 0 <= i < |rs|
      ensures rs[i].analysis.specialist != f.specialist
    {
      assert rs[i].analysis.specialist in ResultKinds(rs);
    }
    forall i | 0 <= i < n
      ensures failures[i].specialist != f.specialist
    {
      assert Rank(failures[i].specialist) < Rank(f.specialist);
    }
    var after := runs[ids.Of(f.specialist) := FailureRow(run, f)];
    var stored := failures[..n + 1];
    forall i | 0 <= i < |stored|
      ensures StoredIn(after, ids.Of(stored[i].specialist), FailureRow(run, stored[i]))
    {
      if i < n {
        assert failures[..n][i] == failures[i];
        assert StoredIn(runs, ids.Of(failures[i].specialist), FailureRow(run, failures[i]));
      }
    }
  }

  lemma FailureKeepsSound(reports: seq<StoredReport>, runs: map<Id, SpecialistRun>, records: map<Id, Record>,
                          specialistRun: Id, row: SpecialistRun)
    requires Sound(reports, runs, records) && row.analysis == None
    ensures Sound(reports, runs[specialistRun := row], records)
  {
  }

  /** No record that any of the results knows is longer than the session's budget. */
  ghost predicate AllWithinBudget(limits: Chunking.Limits, records: map<Id, Record>, rs: seq<Result>) {
    forall i :: 0 <= i < |rs| ==> WithinBudget(limits, records, rs[i].known)
  }

  ghost predicate CitesWithinBudget(limits: Chunking.Limits, records: map<Id, Record>, r: Report) {
    forall e :: e in Cites(r) ==> e in records && |records[e].text| <= limits.maxTotalChars
  }

  /** The union of grounded results' evidence is evidence of the run, within the budget if all analyses are complete. */
  lemma {:induction false} ReferencesGrounded(limits: Chunking.Limits, records: map<Id, Record>, run: Id, ids: RunIds,
                                              rs: seq<Result>, references: seq<Id>)
    requires AllGrounded(limits, records, run, ids, rs)
    requires forall e :: e in references ==> exists i :: 0 <= i < |rs| && e in rs[i].known
    ensures forall e :: e in references ==> e in records && records[e].run == run
    ensures AllComplete(AnalysesOf(rs)) ==>
            AllWithinBudget(limits, records, rs) && WithinBudget(limits, records, references)
  {
    hide SchemaValid, Cited;
    forall e | e in references
      ensures e in records && records[e].run == run
      ensures AllComplete(AnalysesOf(rs)) ==> |records[e].text| <= limits.maxTotalChars
    {
      var i :| 0 <= i < |rs| && e in rs[i].known;
      assert ResultGrounded(limits, records, run, ids.Of(rs[i].analysis.specialist), rs[i]);
      assert AllComplete(AnalysesOf(rs)) ==> AnalysesOf(rs)[i].status == COMPLETE;
    }
    if AllComplete(AnalysesOf(rs)) {
      forall i | 0 <= i < |rs|
        ensures WithinBudget(limits, records, rs[i].known)
      {
        assert ResultGrounded(limits, records, run, ids.Of(rs[i].analysis.specialist), rs[i]);
        assert AnalysesOf(rs)[i].status == COMPLETE;
      }
    }
  }

  lemma GroundedMapStays(limits: Chunking.Limits, before: map<Id, Record>, after: map<Id, Record>, run: Id, ids: RunIds,
                         kind: SpecialistKind, m: map<SpecialistKind, Result>)
    requires Adds(before, after, run, Some(ids.Of(kind))) && GroundedMap(limits, before, run, ids, m)
    ensures GroundedMap(limits, after, run, ids, m)
  {
    hide ResultGrounded;
    forall k | k in m
      ensures ResultGrounded(limits, after, run, ids.Of(k), m[k])
    {
      GroundedStays(limits, before, after, run, Some(ids.Of(kind)), ids.Of(k), m[k]);
    }
  }

  lemma NothingGrounded(limits: Chunking.Limits, records: map<Id, Record>, run: Id, ids: RunIds)
    ensures GroundedMap(limits, records, run, ids, map[])
  {
  }

  lemma GroundedMapGrows(limits: Chunking.Limits, records: map<Id, Record>, run: Id, ids: RunIds,
                         m: map<SpecialistKind, Result>,
                         k: SpecialistKind, r: Result)
    requires GroundedMap(limits, records, run, ids, m) && ResultGrounded(limits, records, run, ids.Of(k), r)
    ensures GroundedMap(limits, records, run, ids, m[k := r])
  {
    hide ResultGrounded;
  }

  lemma GroundedInOrder(limits: Chunking.Limits, records: map<Id, Record>, run: Id, ids: RunIds,
                        m: map<SpecialistKind, Result>, rs: seq<Result>)
    requires KeyedResults(m) && GroundedMap(limits, records, run, ids, m) && forall r :: r in rs ==> r in InOrder(m)
    ensures AllGrounded(limits, records, run, ids, rs)
  {
    hide ResultGrounded, InOrder;
    InOrderResults(m);
    forall i | 0 <= i < |rs|
      ensures ResultGrounded(limits, records, run, ids.Of(rs[i].analysis.specialist), rs[i])
    {
      assert rs[i] in rs && rs[i] in InOrder(m);
      var k :| k in m && m[k] == rs[i];
    }
  }

  lemma NotSettledYet(c: Capabilities, handled: set<SpecialistKind>, results: map<SpecialistKind, Result>,
                      failures: map<SpecialistKind, Failure>, kind: SpecialistKind)
    requires Settling(c, handled, results, failures) && kind !in handled && kind !in FailureKinds(c.failures)
    ensures kind !in results && kind !in failures
  {
  }

  lemma NothingSettled(c: Capabilities)
    ensures Settling(c, {}, map[], FailuresBy(c.failures))
  {
    FailuresByKeys(c.failures);
  }

  lemma SettlingStep(c: Capabilities, handled: set<SpecialistKind>, results: map<SpecialistKind, Result>,
                     failures: map<SpecialistKind, Failure>, 
                     kind: SpecialistKind, result: Option<Result>, failure: Option<Failure>)
    requires Settling(c, handled, results, failures) && kind !in handled && kind !in FailureKinds(c.failures)
    requires result.Some? <==> failure.None?
    requires result.Some? ==> result.value.analysis.specialist == kind
    requires failure.Some? ==> failure.value.specialist == kind
    ensures result.Some? ==> Settling(c, handled + {kind}, results[kind := result.value], failures)
    ensures failure.Some? ==> Settling(c, handled + {kind}, results, failures[kind := failure.value])
  {
    assert kind !in results && kind !in failures;
  }

  lemma KindsGrow(rs: seq<Result>, r: Result)
    ensures ResultKinds(rs + [r]) == ResultKinds(rs) + {r.analysis.specialist}
  {
    assert forall i :: 0 <= i < |rs| ==> (rs + [r])[i] == rs[i];
    assert (rs + [r])[|rs|] == r;
  }

  lemma FailuresGrow(fs: seq<Failure>, f: Failure)
    ensures FailureKinds(fs + [f]) == FailureKinds(fs) + {f.specialist}
  {
    assert forall i :: 0 <= i < |fs| ==> (fs + [f])[i] == fs[i];
    assert (fs + [f])[|fs|] == f;
  }

  lemma UsableBundleIsNormal(b: Bundle)
    requires Canonical(b) && forall r :: r in b.results ==> Usable(r)
    ensures Normalize(b) == b && Ordered(b) == b
  {
    CanonicalResultsFixed(b.results);
    CanonicalFailuresFixed(b.failures);
    UsableAreKept(b.results, FailuresBy(b.failures));
  }

  /** The audit moves specialists from results to failures and loses none. */
  lemma MergeFacts(b: Bundle, persisted: seq<Result>, audit: seq<Failure>)
    requires DisjointKinds(b)
    requires ResultKinds(persisted) + FailureKinds(audit) == ResultKinds(b.results)
             && ResultKinds(persisted) !! FailureKinds(audit)
    ensures var m := Ordered(Bundle(persisted, b.failures + audit));
            && Canonical(m) && DisjointKinds(m)
            && ResultKinds(m.results) + FailureKinds(m.failures) == ResultKinds(b.results) + FailureKinds(b.failures)
            && forall r :: r in m.results ==> r in persisted
  {
    hide InOrder;
    ResultsByKeys(persisted);
    FailuresByKeys(b.failures + audit);
    InOrderResults(ResultsBy(persisted));
    InOrderFailures(FailuresBy(b.failures + audit));
    FailureKindsConcat(b.failures, audit);
  }

  lemma {:induction false} FailureKindsConcat(a: seq<Failure>, b: seq<Failure>)
    ensures FailureKinds(a + b) == FailureKinds(a) + FailureKinds(b)
  {
    if b == [] {
      assert a + b == a;
    } else {
      var n := |b| - 1;
      FailureKindsConcat(a, b[..n]);
      FailuresGrow(a + b[..n], b[n]);
      FailuresGrow(b[..n], b[n]);
      assert a + b == (a + b[..n]) + [b[n]];
      assert b == b[..n] + [b[n]];
    }
  }
}
