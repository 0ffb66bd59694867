/**
 The lease protocol together with the reports that executions store. `_persist_report` does not look at
 the lease, so a claim that has lost its job can still add a report.
 */
module ReportLedger {
  import opened Common
  import opened Ordering
  import opened LeaseTables
  import opened LeaseProtocol
  import opened LeaseLimits

  /** A row of `rca_reports`: its result status and the attempt that stored it. Its version is its position. */
  datatype Filed = Filed(status: ResultStatus, attempt: nat)

  /** `stored` has the status of the report that a worker's execution in flight has stored, if it has. */
  datatype Office = Office(sys: System, reports: map<Id, seq<Filed>>, stored: map<Id, ResultStatus>)

  datatype Step =
    | Act(action: Action)
    | File(p: Id, status: ResultStatus)

  function ReportsOf(o: Office, run: Id): seq<Filed> {
    if run in o.reports then o.reports[run] else []
  }

  predicate Executing(s: System, p: Id) {
    At(s, p) && s.phases[p].Working?
  }

  /** A processor stores its report once, before it returns. */
  predicate MayFile(o: Office, p: Id) {
    Executing(o.sys, p) && p !in o.stored
  }

  /** A result is settled after its report was stored, and has its status. */
  predicate MayAct(o: Office, a: Action) {
    a.Settle? ==> a.p in o.stored && a.result.status == o.stored[a.p]
  }

  function Store(o: Office, p: Id, status: ResultStatus): Office
    requires MayFile(o, p)
  {
    var c := o.sys.phases[p].claim;
    o.(reports := o.reports[c.message.run := ReportsOf(o, c.message.run) + [Filed(status, c.attempt)]],
       stored := o.stored[p := status])
  }

  /** When an execution ends, its worker starts afresh. */
  function Apply(o: Office, step: Step): Office {
    match step
    case File(p, status) => if MayFile(o, p) then Store(o, p, status) else o
    case Act(a) =>
      if MayAct(o, a) then
        var t := LeaseProtocol.Step(o.sys, a);
        Office(t, o.reports, map p | p in o.stored && Executing(t, p) :: o.stored[p])
      else o
  }

  function ApplyAll(o: Office, steps: seq<Step>): Office
    decreases |steps|
  {
    if steps == [] then o else ApplyAll(Apply(o, steps[0]), steps[1..])
  }

  ghost predicate Opening(o: Office) {
    Init(o.sys) && o.reports == map[] && o.stored == map[]
  }

  // ----- The invariant -----

  function StatusOf(r: RunStatus): ResultStatus {
    match r
    case RUN_SUCCEEDED => COMPLETE
    case RUN_PARTIAL => ResultStatus.PARTIAL
    case _ => FAILED_RESULT
  }

  /** Reports come from attempts that the job has had; a succeeded job's last attempt has stored the result's. */
  ghost predicate JobReports(db: Tables, reports: seq<Filed>, job: Id)
    requires job in db.jobs && db.jobs[job].run in db.runs
  {
    && (forall f :: f in reports ==> 1 <= f.attempt <= db.jobs[job].attempts)
    && (db.jobs[job].status == SUCCEEDED ==>
          Filed(StatusOf(db.runs[db.jobs[job].run].status), db.jobs[job].attempts) in reports)
  }

  /** An execution has stored exactly the report that it remembers. */
  ghost predicate ClaimReports(reports: seq<Filed>, c: Claim, stored: Option<ResultStatus>) {
    match stored
    case Some(status) => Filed(status, c.attempt) in reports
    case None => forall f :: f in reports ==> f.attempt != c.attempt
  }

  /** Each attempt has stored at most one report. */
  ghost predicate OneEach(reports: seq<Filed>) {
    forall i, j :: 0 <= i < j < |reports| ==> reports[i].attempt != reports[j].attempt
  }

  function StoredBy(o: Office, p: Id): Option<ResultStatus> {
    if p in o.stored then Some(o.stored[p]) else None
  }

  ghost predicate JobFine(o: Office, job: Id)
    requires job in o.sys.db.jobs
  {
    && o.sys.db.jobs[job].run in o.sys.db.runs
    && JobReports(o.sys.db, ReportsOf(o, o.sys.db.jobs[job].run), job)
  }

  ghost predicate ClaimFine(o: Office, p: Id)
    requires Executing(o.sys, p)
  {
    var c := o.sys.phases[p].claim;
    ClaimReports(ReportsOf(o, c.message.run), c, StoredBy(o, p))
  }

  ghost predicate LedgerInv(o: Office) {
    && Inv(o.sys) && o.reports.Keys <= o.sys.db.runs.Keys
    && (forall p :: p in o.stored ==> Executing(o.sys, p))
    && (forall run :: OneEach(ReportsOf(o, run)))
    && (forall job :: job in o.sys.db.jobs ==> JobFine(o, job))
    && (forall p :: p in o.sys.phases && Executing(o.sys, p) ==> ClaimFine(o, p))
  }

  lemma {:induction false} OpeningIsInv(o: Office)
    requires Opening(o)
    ensures LedgerInv(o)
  {
    InitIsInv(o.sys);
  }

  // ----- What the protocol's steps do to claims and results -----

  /** A claim in flight after a step was in flight before, or has just begun the job's next attempt. */
  lemma {:induction false} StepClaims(s: System, a: Action, p: Id)
    requires Inv(s) && Executing(LeaseProtocol.Step(s, a), p)
    ensures var t := LeaseProtocol.Step(s, a);
            var c := t.phases[p].claim;
            || (Executing(s, p) && s.phases[p].claim == c)
            || (&& !Executing(s, p) && c.message.job in s.db.jobs && s.db.jobs[c.message.job].run == c.message.run
                && c.attempt == s.db.jobs[c.message.job].attempts + 1)
  {
    hide Inv, ClaimRows, RenewRows, SettleRows, FailRows, MarkRows, InsertRows, Deadline;
  }

  /** A job that a step makes succeed is settled by the claim of its last attempt. */
  lemma {:induction false} StepSucceeds(s: System, a: Action, job: Id)
    requires Inv(s) && job in s.db.jobs && s.db.jobs[job].status != SUCCEEDED
    requires job in LeaseProtocol.Step(s, a).db.jobs && LeaseProtocol.Step(s, a).db.jobs[job].status == SUCCEEDED
    ensures a.Settle? && Executing(s, a.p) && s.phases[a.p].claim.message.job == job
    ensures var c := s.phases[a.p].claim;
            var t := LeaseProtocol.Step(s, a);
            && c.message.run == s.db.jobs[job].run && c.attempt == s.db.jobs[job].attempts == t.db.jobs[job].attempts
            && t.db.jobs[job].run == c.message.run && c.message.run in t.db.runs
            && StatusOf(t.db.runs[c.message.run].status) == a.result.status
  {
    hide Inv, Deadline;
    if a.Settle? && Executing(s, a.p) && Owns(s.db, s.phases[a.p].claim) {
      OwnerIsCurrent(s, a.p);
    }
  }

  /** A job that a step creates is queued, and its run is new. */
  lemma {:induction false} StepCreates(s: System, a: Action, job: Id)
    requires Inv(s) && job in LeaseProtocol.Step(s, a).db.jobs && job !in s.db.jobs
    ensures var j := LeaseProtocol.Step(s, a).db.jobs[job];
            j.status == QUEUED && j.run !in s.db.runs && j.run in LeaseProtocol.Step(s, a).db.runs
  {
    hide Inv, Deadline;
    if (a.Renew? || a.Settle? || a.Fail? || a.Mark?) && At(s, a.p) {
      PhaseAt(s, a.p);
    }
  }

  // ----- Every step keeps the invariant -----

  lemma {:induction false} ActKeepsClaims(o: Office, a: Action, p: Id)
    requires LedgerInv(o) && MayAct(o, a) && Executing(LeaseProtocol.Step(o.sys, a), p)
    ensures ClaimFine(Apply(o, Act(a)), p)
  {
    hide Inv, LeaseProtocol.Step, JobReports, ClaimReports;
    StepClaims(o.sys, a, p);
    var c := LeaseProtocol.Step(o.sys, a).phases[p].claim;
    if Executing(o.sys, p) && o.sys.phases[p].claim == c {
      assert ClaimFine(o, p);
    } else {
      assert JobFine(o, c.message.job);
      NextIsUnused(o.sys.db, ReportsOf(o, c.message.run), c);
    }
  }

  lemma NextIsUnused(db: Tables, reports: seq<Filed>, c: Claim)
    requires c.message.job in db.jobs && db.jobs[c.message.job].run in db.runs && JobReports(db, reports, c.message.job)
    requires c.attempt == db.jobs[c.message.job].attempts + 1
    ensures ClaimReports(reports, c, None)
  {
  }

  lemma {:induction false} ActKeepsJobs(o: Office, a: Action, job: Id)
    requires LedgerInv(o) && MayAct(o, a) && job in LeaseProtocol.Step(o.sys, a).db.jobs
    ensures JobFine(Apply(o, Act(a)), job)
  {
    hide Inv, LeaseProtocol.Step;
    var t := LeaseProtocol.Step(o.sys, a);
    StepKeepsInv(o.sys, a);
    InvHasRun(t, job);
    if job !in o.sys.db.jobs {
      StepCreates(o.sys, a, job);
    } else {
      StepAges(o.sys, a);
      assert JobFine(o, job);
      if t.db.jobs[job].status == SUCCEEDED && o.sys.db.jobs[job].status != SUCCEEDED {
        StepSucceeds(o.sys, a, job);
        assert ClaimFine(o, a.p);
      }
    }
  }

  lemma InvHasRun(s: System, job: Id)
    requires Inv(s) && job in s.db.jobs
    ensures s.db.jobs[job].run in s.db.runs
  {
    CoupledAt(s.db, job);
  }

  lemma {:induction false} ActKeepsLedger(o: Office, a: Action)
    requires LedgerInv(o) && MayAct(o, a)
    ensures LedgerInv(Apply(o, Act(a)))
  {
    hide Inv, LeaseProtocol.Step, JobFine, ClaimFine, OneEach, Ages;
    var t := Apply(o, Act(a));
    StepKeepsInv(o.sys, a);
    RunsStay(o.sys, a);
    forall run
      ensures OneEach(ReportsOf(t, run))
    {
      assert ReportsOf(t, run) == ReportsOf(o, run);
    }
    forall job | job in t.sys.db.jobs
      ensures JobFine(t, job)
    {
      ActKeepsJobs(o, a, job);
    }
    forall p | p in t.sys.phases && Executing(t.sys, p)
      ensures ClaimFine(t, p)
    {
      ActKeepsClaims(o, a, p);
    }
  }

  lemma RunsStay(s: System, a: Action)
    requires Inv(s)
    ensures s.db.runs.Keys <= LeaseProtocol.Step(s, a).db.runs.Keys
  {
    hide Inv, LeaseProtocol.Step;
    StepAges(s, a);
  }

  /** Two claims of one run in flight are different attempts of its job. */
  lemma {:induction false} OtherClaim(s: System, p: Id, q: Id)
    requires Inv(s) && Executing(s, p) && Executing(s, q) && p != q
    requires s.phases[p].claim.message.run == s.phases[q].claim.message.run
    ensures s.phases[p].claim.attempt != s.phases[q].claim.attempt
  {
    hide JobAgrees;
    PhaseAt(s, p);
    PhaseAt(s, q);
    PairAt(s, p, q);
  }

  lemma {:induction false} ClaimOfJob(s: System, p: Id)
    requires Inv(s) && Executing(s, p)
    ensures var c := s.phases[p].claim;
            && c.message.job in s.db.jobs && s.db.jobs[c.message.job].run == c.message.run && c.message.run in s.db.runs
            && 1 <= c.attempt <= s.db.jobs[c.message.job].attempts
            && forall job :: job in s.db.jobs && s.db.jobs[job].run == c.message.run ==> job == c.message.job
  {
    hide JobAgrees;
    PhaseAt(s, p);
  }

  lemma {:induction false} FileKeepsLedger(o: Office, p: Id, status: ResultStatus)
    requires LedgerInv(o) && MayFile(o, p)
    ensures LedgerInv(Store(o, p, status))
  {
    hide Inv, JobReports, ClaimReports;
    var c := o.sys.phases[p].claim;
    var t := Store(o, p, status);
    var before, f := ReportsOf(o, c.message.run), Filed(status, c.attempt);
    ClaimOfJob(o.sys, p);
    assert ClaimFine(o, p) && OneEach(before);
    NewIsDistinct(before, f, c);
    forall run
      ensures OneEach(ReportsOf(t, run))
    {
      assert run != c.message.run ==> ReportsOf(t, run) == ReportsOf(o, run);
    }
    forall job | job in t.sys.db.jobs
      ensures JobFine(t, job)
    {
      assert JobFine(o, job);
      if o.sys.db.jobs[job].run == c.message.run {
        OneMoreOfJob(o.sys.db, before, f, job);
      } else {
        assert ReportsOf(t, o.sys.db.jobs[job].run) == ReportsOf(o, o.sys.db.jobs[job].run);
      }
    }
    forall q | q in t.sys.phases && Executing(t.sys, q)
      ensures ClaimFine(t, q)
    {
      assert ClaimFine(o, q);
      if q != p && o.sys.phases[q].claim.message.run == c.message.run {
        OtherClaim(o.sys, p, q);
        OneMoreOfClaim(before, f, o.sys.phases[q].claim, StoredBy(o, q));
      } else if q == p {
        OwnReport(before, f, c);
      }
    }
  }

  lemma NewIsDistinct(before: seq<Filed>, f: Filed, c: Claim)
    requires OneEach(before) && ClaimReports(before, c, None) && f.attempt == c.attempt
    ensures OneEach(before + [f])
  {
    assert forall i :: 0 <= i < |before| ==> before[i] in before;
  }

  lemma OneMoreOfJob(db: Tables, before: seq<Filed>, f: Filed, job: Id)
    requires job in db.jobs && db.jobs[job].run in db.runs && JobReports(db, before, job)
    requires 1 <= f.attempt <= db.jobs[job].attempts
    ensures JobReports(db, before + [f], job)
  {
  }

  lemma OneMoreOfClaim(before: seq<Filed>, f: Filed, c: Claim, stored: Option<ResultStatus>)
    requires ClaimReports(before, c, stored) && f.attempt != c.attempt
    ensures ClaimReports(before + [f], c, stored)
  {
  }

  lemma OwnReport(before: seq<Filed>, f: Filed, c: Claim)
    requires f.attempt == c.attempt
    ensures ClaimReports(before + [f], c, Some(f.status))
  {
    assert (before + [f])[|before|] == f;
  }

  lemma {:induction false} ApplyKeepsLedger(o: Office, step: Step)
    requires LedgerInv(o)
    ensures LedgerInv(Apply(o, step))
  {
    hide LedgerInv, MayAct, MayFile;
    match step
    case Act(a) => if MayAct(o, a) { ActKeepsLedger(o, a); }
    case File(p, status) => if MayFile(o, p) { FileKeepsLedger(o, p, status); }
  }

  lemma {:induction false} LedgerRuns(o: Office, steps: seq<Step>)
    requires LedgerInv(o)
    ensures LedgerInv(ApplyAll(o, steps))
    decreases |steps|
  {
    hide LedgerInv, Apply;
    if steps != [] {
      ApplyKeepsLedger(o, steps[0]);
      LedgerRuns(Apply(o, steps[0]), steps[1..]);
    }
  }

  // ----- How many reports a run has, and which -----

  /** The attempts of distinct reports are as many numbers from 1 on. */
  lemma {:induction false} CountAttempts(reports: seq<Filed>, n: nat)
    requires OneEach(reports) && forall f :: f in reports ==> 1 <= f.attempt <= n
    ensures |reports| <= n
  {
    var numbers := seq(|reports|, i requires 0 <= i < |reports| => reports[i].attempt);
    assert forall i :: 0 <= i < |numbers| ==> reports[i] in reports;
    DistinctSize(numbers);
    NumbersUpTo(Members(numbers), n);
  }

  lemma {:induction false} NumbersUpTo(numbers: set<nat>, n: nat)
    requires forall k :: k in numbers ==> 1 <= k <= n
    ensures |numbers| <= n
  {
    if n == 0 {
      assert numbers == {};
    } else {
      NumbersUpTo(numbers - {n}, n - 1);
      assert numbers <= (numbers - {n}) + {n};
    }
  }

  /**
   In every run of any number of workers, each attempt of a job stores at most one report, so a job has at
   most as many reports as attempts, and at most three; and a run that is `SUCCEEDED` or `PARTIAL` has a
   `COMPLETE` or `PARTIAL` report of the attempt that settled it.
   */
  lemma {:induction false} SettledRunsHaveReports(o: Office, steps: seq<Step>, job: Id)
    requires Opening(o) && job in ApplyAll(o, steps).sys.db.jobs
    ensures var t := ApplyAll(o, steps);
            var j := t.sys.db.jobs[job];
            var reports := ReportsOf(t, j.run);
            && j.run in t.sys.db.runs && |reports| <= j.attempts <= 3
            && (t.sys.db.runs[j.run].status == RUN_SUCCEEDED ==> Filed(COMPLETE, j.attempts) in reports)
            && (t.sys.db.runs[j.run].status == RUN_PARTIAL ==> Filed(ResultStatus.PARTIAL, j.attempts) in reports)
  {
    OpeningIsInv(o);
    LedgerRuns(o, steps);
    var t := ApplyAll(o, steps);
    hide ApplyAll, Inv;
    assert JobFine(t, job);
    CoupledRows(t.sys, job);
    assert OneEach(ReportsOf(t, t.sys.db.jobs[job].run));
    CountAttempts(ReportsOf(t, t.sys.db.jobs[job].run), t.sys.db.jobs[job].attempts);
  }

  lemma CoupledRows(s: System, job: Id)
    requires Inv(s) && job in s.db.jobs
    ensures s.db.jobs[job].run in s.db.runs && RowsAgree(s.db.jobs[job], s.db.runs[s.db.jobs[job].run])
  {
    CoupledAt(s.db, job);
  }

  // ----- Which report is the newest -----

  /** The report of the highest version, which is the one that operators read. */
  function Newest(o: Office, run: Id): Option<Filed> {
    var reports := ReportsOf(o, run);
    if reports == [] then None else Some(reports[|reports| - 1])
  }

  /** The step stores a report of this run. */
  predicate FilesFor(o: Office, step: Step, run: Id) {
    step.File? && MayFile(o, step.p) && o.sys.phases[step.p].claim.message.run == run
  }

  predicate NoneFiles(o: Office, steps: seq<Step>, run: Id)
    decreases |steps|
  {
    steps == [] || (!FilesFor(o, steps[0], run) && NoneFiles(Apply(o, steps[0]), steps[1..], run))
  }

  lemma {:induction false} StepReports(o: Office, step: Step, run: Id)
    ensures !FilesFor(o, step, run) ==> ReportsOf(Apply(o, step), run) == ReportsOf(o, run)
    ensures FilesFor(o, step, run) ==>
            ReportsOf(Apply(o, step), run)
            == ReportsOf(o, run) + [Filed(step.status, o.sys.phases[step.p].claim.attempt)]
  {
    hide LeaseProtocol.Step;
  }

  lemma {:induction false} ReportsGrow(o: Office, steps: seq<Step>, run: Id)
    ensures ReportsOf(o, run) <= ReportsOf(ApplyAll(o, steps), run)
    decreases |steps|
  {
    hide Apply, ReportsOf;
    if steps != [] {
      StepReports(o, steps[0], run);
      ReportsGrow(Apply(o, steps[0]), steps[1..], run);
    }
  }

  /**
   The newest report of a run stays the newest over any further steps if and only if none of them stores
   a report of the run. No other attempt can store the same one again, so it does not come back.
   */
  lemma {:induction false} NewestStaysExactlyWhen(o: Office, steps: seq<Step>, run: Id)
    requires LedgerInv(o) && ReportsOf(o, run) != []
    ensures Newest(ApplyAll(o, steps), run) == Newest(o, run) <==> NoneFiles(o, steps, run)
    decreases |steps|
  {
    hide LedgerInv, Apply, ReportsOf, FilesFor;
    if steps != [] {
      var t, rest := Apply(o, steps[0]), steps[1..];
      StepReports(o, steps[0], run);
      ApplyKeepsLedger(o, steps[0]);
      ReportsGrow(t, rest, run);
      if FilesFor(o, steps[0], run) {
        LedgerRuns(t, rest);
        var before, after := ReportsOf(o, run), ReportsOf(ApplyAll(o, steps), run);
        assert OneEach(after) by {
          LedgerIsOneEach(ApplyAll(t, rest), run);
        }
        assert |after| > |before| && after[|before| - 1] == before[|before| - 1];
      } else {
        NewestStaysExactlyWhen(t, rest, run);
      }
    }
  }

  lemma LedgerIsOneEach(o: Office, run: Id)
    requires LedgerInv(o)
    ensures OneEach(ReportsOf(o, run))
  {
  }

  /** After the report of a job's last attempt, only a claim that has lost the job can store another. */
  lemma {:induction false} OnlyLostClaimsOvertake(o: Office, step: Step, job: Id)
    requires LedgerInv(o) && job in o.sys.db.jobs && FilesFor(o, step, o.sys.db.jobs[job].run)
    requires exists f :: f in ReportsOf(o, o.sys.db.jobs[job].run) && f.attempt == o.sys.db.jobs[job].attempts
    ensures !RowHolds(o.sys.db.jobs[job], o.sys.phases[step.p].claim)
  {
    hide Inv, JobReports;
    ClaimOfJob(o.sys, step.p);
    assert ClaimFine(o, step.p);
  }

  // ----- A lost claim's report becomes the newest -----

  ghost function Overtaking(p: Id, q: Id, msg: Message): seq<Step> {
    [Act(Insert(msg)), Act(Receive(p, msg)), Act(Tick(LEASE + 1)), Act(Receive(q, msg)),
     File(q, COMPLETE), Act(Settle(q, ProcessingResult(COMPLETE, None))), File(p, FAILED_RESULT)]
  }

  /** The office after the second worker has taken the job over while the first one still executes. */
  ghost predicate TakenOver(o: Office, p: Id, q: Id, msg: Message) {
    && Executing(o.sys, p) && Executing(o.sys, q) && p != q && o.reports == map[] && o.stored == map[]
    && Matches(o.sys.db, msg) && o.sys.phases[p].claim.message == msg && o.sys.phases[q].claim.message == msg
    && o.sys.phases[p].claim.attempt == 1 && o.sys.phases[q].claim.attempt == 2
    && Owns(o.sys.db, o.sys.phases[q].claim)
  }

  lemma {:induction false} TakesOver(o: Office, p: Id, q: Id, msg: Message)
    requires Opening(o) && At(o.sys, p) && At(o.sys, q) && p != q
    ensures var steps := Overtaking(p, q, msg);
            TakenOver(Apply(Apply(Apply(Apply(o, steps[0]), steps[1]), steps[2]), steps[3]), p, q, msg)
  {
    var s := o.sys;
    FreshAt(s, q);
    var s2 := LeaseProtocol.Step(LeaseProtocol.Step(s, Insert(msg)), Receive(p, msg));
    FirstAttempt(s, p, msg);
    var s3 := LeaseProtocol.Step(s2, Tick(LEASE + 1));
    NextAttempt(s3, q, msg, s.now, 1, s.workers[p].id);
  }

  lemma {:induction false} LateReport(o: Office, p: Id, q: Id, msg: Message)
    requires TakenOver(o, p, q, msg)
    ensures var t := Apply(Apply(Apply(o, File(q, COMPLETE)), Act(Settle(q, ProcessingResult(COMPLETE, None)))),
                           File(p, FAILED_RESULT));
            && msg.run in t.sys.db.runs && t.sys.db.runs[msg.run].status == RUN_SUCCEEDED
            && ReportsOf(t, msg.run) == [Filed(COMPLETE, 2), Filed(FAILED_RESULT, 1)]
  {
    var o1 := Apply(o, File(q, COMPLETE));
    assert ReportsOf(o1, msg.run) == [Filed(COMPLETE, 2)];
    var o2 := Apply(o1, Act(Settle(q, ProcessingResult(COMPLETE, None))));
    assert o2.sys.db.runs[msg.run].status == RUN_SUCCEEDED && o2.sys.phases[p] == o.sys.phases[p];
    assert MayFile(o2, p);
  }

  lemma {:induction false} ApplySeven(o: Office, steps: seq<Step>)
    requires |steps| == 7
    ensures ApplyAll(o, steps) ==
            Apply(Apply(Apply(Apply(Apply(Apply(Apply(o, steps[0]), steps[1]), steps[2]), steps[3]), steps[4]),
                        steps[5]), steps[6])
  {
    hide Apply;
    ApplyTwo(o, steps);
    var o2 := Apply(Apply(o, steps[0]), steps[1]);
    ApplyTwo(o2, steps[2..]);
    var o4 := Apply(Apply(o2, steps[2]), steps[3]);
    ApplyTwo(o4, steps[2..][2..]);
    var last := steps[2..][2..][2..];
    assert last == [steps[6]] && last[1..] == [];
    var o6 := Apply(Apply(o4, steps[4]), steps[5]);
    assert ApplyAll(o6, last) == ApplyAll(Apply(o6, last[0]), last[1..]);
  }

  lemma {:induction false} ApplyTwo(o: Office, steps: seq<Step>)
    requires |steps| >= 2
    ensures ApplyAll(o, steps) == ApplyAll(Apply(Apply(o, steps[0]), steps[1]), steps[2..])
  {
    hide Apply;
    assert steps[1..][1..] == steps[2..];
  }

  /**
   So the newest report of a run need not be that of the attempt that settled it: any two workers have a
   run that ends `SUCCEEDED` while operators read the failed report of a claim that had lost the job.
   */
  lemma {:induction false} LostClaimOvertakes(o: Office, p: Id, q: Id, msg: Message)
    requires Opening(o) && At(o.sys, p) && At(o.sys, q) && p != q
    ensures var t := ApplyAll(o, Overtaking(p, q, msg));
            && msg.run in t.sys.db.runs && t.sys.db.runs[msg.run].status == RUN_SUCCEEDED
            && Newest(t, msg.run) == Some(Filed(FAILED_RESULT, 1))
  {
    hide Apply, Opening, TakenOver;
    var steps := Overtaking(p, q, msg);
    TakesOver(o, p, q, msg);
    LateReport(Apply(Apply(Apply(Apply(o, steps[0]), steps[1]), steps[2]), steps[3]), p, q, msg);
    ApplySeven(o, steps);
  }
}
