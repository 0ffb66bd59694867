/**
 What a specialist branch meets and what it makes of it: the model's answers, the visits of a branch with
 their faults, and the one result or failure that two visits end in.
 */
module BranchModel {
  import opened Common
  import opened EvidenceSession
  import opened AnalysisModel

  /** The exceptions a branch can raise; `Rejected` comes from the analysis validator. */
  datatype BranchError =
    | TimedOut | ConnectionLost | PayloadTooLarge | ResultInvalid
    | Rejected(code: Code) | Coded(code: Code) | Uncoded

  datatype Branch = Done(result: Result) | Raised(error: BranchError)

  datatype AnalyzeEnd = Analyzed(analysis: Analysis) | Gave(error: BranchError)

  /** What a call of the specialist model gives: an exception, or text, which may not parse as an analysis. */
  datatype Turn = Faults(error: BranchError) | Says(draft: Option<Analysis>)

  /** One attempt at a branch: the deadline may have passed, its row or its lock may fail, else the model is called. */
  datatype Visit = Visit(late: bool, noRow: Option<BranchError>, lockTimeout: bool, turns: seq<Turn>)

  /** What the session's receipt holds when an answer is checked. */
  datatype Seen = Seen(known: seq<Id>, truncated: bool)

  /** The failure code of an exception that ends a branch. */
  function FailureCode(e: BranchError): Code {
    match e
    case TimedOut => ANALYSIS_TIMEOUT
    case ConnectionLost => MCP_TRANSPORT
    case PayloadTooLarge => MCP_PAYLOAD_TOO_LARGE
    case ResultInvalid => MCP_RESULT_INVALID
    case Rejected(c) => if c == ANALYSIS_SCHEMA_INVALID || c == ANALYSIS_UNKNOWN_EVIDENCE then c else ANALYSIS_FAILED
    case Coded(c) => c
    case Uncoded => ANALYSIS_FAILED
  }

  /** Only transport errors are tried again. */
  predicate Retryable(e: BranchError) {
    e == ConnectionLost || e == Coded(MCP_TRANSPORT)
  }

  /** Which code stands for which error: the validator's own codes and coded errors keep theirs. */
  predicate Explains(e: BranchError, code: Code) {
    && (e.TimedOut? ==> code == ANALYSIS_TIMEOUT)
    && (e.ConnectionLost? ==> code == MCP_TRANSPORT)
    && (e.PayloadTooLarge? ==> code == MCP_PAYLOAD_TOO_LARGE)
    && (e.ResultInvalid? ==> code == MCP_RESULT_INVALID)
    && (e.Coded? ==> code == e.code)
    && (e.Rejected? && e.code in {ANALYSIS_SCHEMA_INVALID, ANALYSIS_UNKNOWN_EVIDENCE} ==> code == e.code)
    && (e.Uncoded? || (e.Rejected? && e.code !in {ANALYSIS_SCHEMA_INVALID, ANALYSIS_UNKNOWN_EVIDENCE}) ==>
          code == ANALYSIS_FAILED)
  }

  // ----- The model's answers -----

  function Judged(draft: Option<Analysis>, seen: Seen, kind: SpecialistKind, most: nat): Outcome<Analysis> {
    if draft.None? then Outcome.Failed(ANALYSIS_SCHEMA_INVALID)
    else Validate(draft.value, kind, seen.known, seen.truncated, most)
  }

  predicate Refused(turn: Turn, seen: Seen, kind: SpecialistKind, most: nat) {
    turn.Says? && Judged(turn.draft, seen, kind, most).Failed?
  }

  /**
   An analysis ends with the model's first exception or acceptable answer, or with the refusal of its last
   allowed one; `seen` has one entry for each answer that was asked for.
   */
  ghost predicate TurnsGive(turns: seq<Turn>, seen: seq<Seen>, kind: SpecialistKind, most: nat, end: AnalyzeEnd) {
    && 0 < |seen| <= |turns|
    && (forall i :: 0 <= i < |seen| - 1 ==> Refused(turns[i], seen[i], kind, most))
    && match turns[|seen| - 1]
       case Faults(error) => end == Gave(error)
       case Says(draft) =>
         match Judged(draft, seen[|seen| - 1], kind, most)
         case Got(analysis) => end == Analyzed(analysis)
         case Failed(code) => |seen| == |turns| && end == Gave(Rejected(code))
  }

  // ----- The visits of a branch -----

  /** A visit ends as its analysis does, unless the row or the lock fails before. */
  ghost predicate VisitGives(v: Visit, seen: seq<Seen>, kind: SpecialistKind, most: nat, branch: Branch) {
    if v.noRow.Some? then branch == Raised(v.noRow.value)
    else if v.lockTimeout then branch == Raised(TimedOut)
    else
      match branch
      case Raised(error) => TurnsGive(v.turns, seen, kind, most, Gave(error))
      case Done(result) =>
        && TurnsGive(v.turns, seen, kind, most, Analyzed(result.analysis))
        && result.known == seen[|seen| - 1].known
  }

  /** The branch lost its connection, which is tried once more. */
  predicate LostConnection(branch: Branch) {
    branch in {Raised(ConnectionLost), Raised(Coded(MCP_TRANSPORT))}
  }

  /** Each visit is in time and gives its branch; another one follows a lost connection only. */
  ghost predicate Visited(visits: seq<Visit>, kind: SpecialistKind, most: nat, branches: seq<Branch>,
                          seen: seq<seq<Seen>>) {
    && |branches| == |seen| <= |visits|
    && (forall i :: 0 <= i < |branches| ==>
          !visits[i].late && VisitGives(visits[i], seen[i], kind, most, branches[i]))
    && forall i :: 0 <= i < |branches| - 1 ==> LostConnection(branches[i])
  }

  /** What two visits end in: a result, or a failure with the code of what stopped them. */
  ghost predicate VisitsEnd(visits: seq<Visit>, kind: SpecialistKind, branches: seq<Branch>, result: Option<Result>,
                            failure: Option<Failure>)
    requires |branches| <= |visits| == 2
  {
    var n := |branches|;
    if n < 2 && (n == 0 || LostConnection(branches[n - 1]))
    then visits[n].late && result == None && failure == Some(Failure(kind, ANALYSIS_TIMEOUT))
    else
      match branches[n - 1]
      case Done(r) => result == Some(r) && failure == None
      case Raised(error) =>
        result == None && failure.Some? && failure.value.specialist == kind && Explains(error, failure.value.code)
  }

  ghost predicate Plays(visits: seq<Visit>, kind: SpecialistKind, most: nat, result: Option<Result>,
                        failure: Option<Failure>)
    requires |visits| == 2
  {
    exists branches, seen ::
      Visited(visits, kind, most, branches, seen) && VisitsEnd(visits, kind, branches, result, failure)
  }

  lemma PlaysAs(visits: seq<Visit>, kind: SpecialistKind, most: nat, branches: seq<Branch>, seen: seq<seq<Seen>>,
                result: Option<Result>, failure: Option<Failure>)
    requires |visits| == 2 && Visited(visits, kind, most, branches, seen)
    requires VisitsEnd(visits, kind, branches, result, failure)
    ensures Plays(visits, kind, most, result, failure)
  {
  }

  // ----- All branches of a run -----

  /** Two visits for each specialist, each with as many answers of the model as may be asked for. */
  ghost predicate Scripted(visits: SpecialistKind -> seq<Visit>, answers: nat) {
    forall k :: |visits(k)| == 2 && forall i :: 0 <= i < 2 ==> |visits(k)[i].turns| == answers
  }

  function Entry<T>(m: map<SpecialistKind, T>, k: SpecialistKind): Option<T> {
    if k in m then Some(m[k]) else None
  }

  ghost predicate AllPlay(visits: SpecialistKind -> seq<Visit>, most: nat, kinds: set<SpecialistKind>,
                          results: map<SpecialistKind, Result>, failures: map<SpecialistKind, Failure>)
    requires forall k :: |visits(k)| == 2
  {
    forall k :: k in kinds ==> Plays(visits(k), k, most, Entry(results, k), Entry(failures, k))
  }

  lemma PlaysToo(visits: SpecialistKind -> seq<Visit>, most: nat, kinds: set<SpecialistKind>,
                 results: map<SpecialistKind, Result>, failures: map<SpecialistKind, Failure>, kind: SpecialistKind,
                 result: Option<Result>, failure: Option<Failure>)
    requires (forall k :: |visits(k)| == 2) && AllPlay(visits, most, kinds, results, failures)
    requires kind !in kinds && kind !in results && kind !in failures && (result.Some? <==> failure.None?)
    requires Plays(visits(kind), kind, most, result, failure)
    ensures result.Some? ==> AllPlay(visits, most, kinds + {kind}, results[kind := result.value], failures)
    ensures failure.Some? ==> AllPlay(visits, most, kinds + {kind}, results, failures[kind := failure.value])
  {
    hide Plays;
  }

  /**
   A specialist's entry in a bundle is what its visits ended in; an analysis that says nothing usable counts
   as the failure that it names first.
   */
  ghost predicate EndsIn(b: Bundle, visits: seq<Visit>, kind: SpecialistKind, most: nat)
    requires |visits| == 2
  {
    exists result, failure ::
      && Plays(visits, kind, most, result, failure)
      && (failure.Some? ==> failure.value in b.failures)
      && (result.Some? ==>
            var a := result.value.analysis;
            if a.status != FAILED && a.observations != [] then result.value in b.results
            else Failure(a.specialist, if a.missing != [] then a.missing[0] else ANALYSIS_FAILED) in b.failures)
  }

  lemma {:induction false} NormalizedEnds(visits: SpecialistKind -> seq<Visit>, most: nat, kinds: set<SpecialistKind>,
                                          results: map<SpecialistKind, Result>,
                                          failures: map<SpecialistKind, Failure>)
    requires (forall k :: |visits(k)| == 2) && AllPlay(visits, most, kinds, results, failures)
    requires KeyedResults(results) && KeyedFailures(failures) && results.Keys !! failures.Keys
    ensures forall k :: k in kinds ==>
              EndsIn(Normalize(Bundle(InOrder(results), InOrder(failures))), visits(k), k, most)
  {
    hide Plays, Normalize, InOrder;
    forall k | k in kinds
      ensures EndsIn(Normalize(Bundle(InOrder(results), InOrder(failures))), visits(k), k, most)
    {
      NormalizeKeepsEach(results, failures, k);
      assert Plays(visits(k), k, most, Entry(results, k), Entry(failures, k));
    }
  }
}
