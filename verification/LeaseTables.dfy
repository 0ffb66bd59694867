/**
 The rows of `worker_jobs`, `rca_runs` and `worker_attempts`, the SQL transactions of the RCA worker
 on them, and the coupling of the three tables that every transaction keeps.
 */
module LeaseTables {
  import opened Common

  /** Microseconds, as PostgreSQL's `now()`. */
  type Instant = int

  const SECOND: int := 1000000
  const LEASE: int := 60 * SECOND
  const RETRY_DELAY: int := 30 * SECOND
  const JOB_LIFETIME: int := 300 * SECOND
  const MAX_ATTEMPTS: int := 3

  datatype JobStatus = QUEUED | RUNNING | SUCCEEDED | FAILED

  datatype RunStatus = RUN_QUEUED | RUN_RUNNING | RUN_SUCCEEDED | RUN_PARTIAL | RUN_FAILED

  datatype FailureCode =
    | DEADLINE_EXCEEDED | MCP_TIMEOUT | MCP_TRANSPORT | POLICY_DENIED | VALIDATION_FAILED | INTERNAL_ERROR
    | NO_SAFE_MCP_CAPABILITY | MCP_PAYLOAD_TOO_LARGE | MCP_RESULT_INVALID | ANALYSIS_TIMEOUT
    | ANALYSIS_SCHEMA_INVALID | ANALYSIS_UNKNOWN_EVIDENCE | ANALYSIS_INPUT_TRUNCATED | ANALYSIS_FAILED

  datatype Job = Job(
    run: Id,
    status: JobStatus,
    owner: Option<Id>,
    leaseUntil: Option<Instant>,
    attempts: nat,
    createdAt: Instant,
    availableAt: Instant,
    startedAt: Option<Instant>,
    completedAt: Option<Instant>)

  datatype Run = Run(
    incident: Id,
    status: RunStatus,
    failure: Option<FailureCode>,
    startedAt: Option<Instant>,
    completedAt: Option<Instant>)

  datatype Attempt = Attempt(completedAt: Option<Instant>, failure: Option<FailureCode>)

  /** The attempt rows, whose key is (job, number), are grouped by job. */
  datatype Tables = Tables(jobs: map<Id, Job>, runs: map<Id, Run>, attempts: map<Id, map<nat, Attempt>>)

  function AttemptsOf(db: Tables, job: Id): map<nat, Attempt> {
    if job in db.attempts then db.attempts[job] else map[]
  }

  /** The body of a broker message. */
  datatype Message = Message(job: Id, run: Id, incident: Id)

  datatype Claim = Claim(message: Message, attempt: nat, deadline: Instant, owner: Id)

  /** A worker's identity and its configured deadline, 1 to 300 seconds. */
  datatype Worker = Worker(id: Id, deadlineSeconds: int) {
    predicate Valid() { 1 <= deadlineSeconds <= 300 }
  }

  datatype ResultStatus = COMPLETE | PARTIAL | FAILED_RESULT

  datatype ProcessingResult = ProcessingResult(status: ResultStatus, failure: Option<FailureCode>)

  datatype Disposition = ACK | NACK

  // ----- The transactions -----

  predicate TerminalStatus(s: JobStatus) {
    s == SUCCEEDED || s == FAILED
  }

  predicate Terminal(db: Tables, job: Id) {
    job in db.jobs && TerminalStatus(db.jobs[job].status)
  }

  /** The message's triple names a job row and its run's incident. */
  predicate Matches(db: Tables, msg: Message) {
    && msg.job in db.jobs && db.jobs[msg.job].run == msg.run
    && msg.run in db.runs && db.runs[msg.run].incident == msg.incident
  }

  /** `LEAST(created_at + interval '5 minutes', now() + make_interval(secs => :configured))` */
  function Deadline(j: Job, now: Instant, worker: Worker): Instant {
    Min(j.createdAt + JOB_LIFETIME, now + worker.deadlineSeconds * SECOND)
  }

  predicate Claimable(db: Tables, now: Instant, worker: Worker, msg: Message) {
    && Matches(db, msg)
    && var j := db.jobs[msg.job];
    && j.availableAt <= now && j.attempts < MAX_ATTEMPTS
    && Deadline(j, now, worker) > now
    && (j.status == QUEUED || (j.status == RUNNING && j.leaseUntil.Some? && j.leaseUntil.value < now))
  }

  function OrNow(t: Option<Instant>, now: Instant): Option<Instant> {
    if t.None? then Some(now) else t
  }

  function ClaimedJob(j: Job, now: Instant, worker: Worker): Job {
    j.(status := RUNNING, owner := Some(worker.id), leaseUntil := Some(now + LEASE),
       attempts := j.attempts + 1, startedAt := OrNow(j.startedAt, now))
  }

  /** The rows after `_claim` took the job. */
  function ClaimRows(db: Tables, now: Instant, worker: Worker, msg: Message): Tables
    requires Matches(db, msg)
  {
    var j := db.jobs[msg.job];
    var r := db.runs[msg.run];
    Tables(
      db.jobs[msg.job := ClaimedJob(j, now, worker)],
      db.runs[msg.run := r.(status := RUN_RUNNING, startedAt := OrNow(r.startedAt, now))],
      db.attempts[msg.job := AttemptsOf(db, msg.job)[j.attempts + 1 := Attempt(None, None)]])
  }

  function ClaimFor(db: Tables, now: Instant, worker: Worker, msg: Message): Claim
    requires Matches(db, msg)
  {
    Claim(msg, db.jobs[msg.job].attempts + 1, Deadline(db.jobs[msg.job], now, worker), worker.id)
  }

  /** `WHERE id=:id AND status='RUNNING' AND lease_owner=:owner`, the guard of renewing and settling. */
  predicate Owns(db: Tables, c: Claim) {
    c.message.job in db.jobs && db.jobs[c.message.job].status == RUNNING
      && db.jobs[c.message.job].owner == Some(c.owner)
  }

  function RenewRows(db: Tables, now: Instant, c: Claim): Tables
    requires Owns(db, c)
  {
    db.(jobs := db.jobs[c.message.job := db.jobs[c.message.job].(leaseUntil := Some(now + LEASE))])
  }

  function Released(j: Job, status: JobStatus, completedAt: Option<Instant>): Job {
    j.(status := status, completedAt := completedAt, owner := None, leaseUntil := None)
  }

  /** `UPDATE worker_attempts ... WHERE worker_job_id=:id AND attempt_number=:attempt` */
  function CloseAttempt(attempts: map<Id, map<nat, Attempt>>, c: Claim, now: Instant,
                        failure: Option<FailureCode>): map<Id, map<nat, Attempt>> {
    var id := c.message.job;
    if id in attempts && c.attempt in attempts[id] then
      var rows: map<nat, Attempt> := attempts[id];
      attempts[id := rows[c.attempt := Attempt(Some(now), failure)]]
    else attempts
  }

  /** `UPDATE rca_runs SET ... WHERE id=:id` */
  function SetRun(runs: map<Id, Run>, id: Id, status: RunStatus, failure: Option<FailureCode>,
                  completedAt: Option<Instant>): map<Id, Run> {
    if id in runs then runs[id := runs[id].(status := status, failure := failure, completedAt := completedAt)] else runs
  }

  function RunCompleted(runs: map<Id, Run>, id: Id): Option<Instant> {
    if id in runs then runs[id].completedAt else None
  }

  function ResultRunStatus(r: ProcessingResult): RunStatus {
    match r.status
    case COMPLETE => RUN_SUCCEEDED
    case PARTIAL => RUN_PARTIAL
    case FAILED_RESULT => RUN_FAILED
  }

  function ResultFailure(r: ProcessingResult): Option<FailureCode> {
    if r.status != FAILED_RESULT then None
    else if r.failure.None? then Some(INTERNAL_ERROR) else r.failure
  }

  /** `_settle_success` on an owned job. */
  function SettleRows(db: Tables, now: Instant, c: Claim, result: ProcessingResult): Tables
    requires Owns(db, c)
  {
    var status := if result.status == FAILED_RESULT then FAILED else SUCCEEDED;
    Tables(
      db.jobs[c.message.job := Released(db.jobs[c.message.job], status, Some(now))],
      SetRun(db.runs, c.message.run, ResultRunStatus(result), ResultFailure(result), Some(now)),
      CloseAttempt(db.attempts, c, now, ResultFailure(result)))
  }

  predicate FailureIsTerminal(c: Claim, code: FailureCode) {
    code != MCP_TRANSPORT || c.attempt >= MAX_ATTEMPTS
  }

  /** `_settle_failure` on an owned job: terminal, or back to the queue 30 seconds from now. */
  function FailRows(db: Tables, now: Instant, c: Claim, code: FailureCode): Tables
    requires Owns(db, c)
  {
    var j := db.jobs[c.message.job];
    var completedAt := RunCompleted(db.runs, c.message.run);
    var attempts := CloseAttempt(db.attempts, c, now, Some(code));
    if FailureIsTerminal(c, code) then
      Tables(db.jobs[c.message.job := Released(j, FAILED, Some(now))],
             SetRun(db.runs, c.message.run, RUN_FAILED, Some(code), completedAt), attempts)
    else
      Tables(db.jobs[c.message.job := Released(j, QUEUED, None).(availableAt := now + RETRY_DELAY)],
             SetRun(db.runs, c.message.run, RUN_QUEUED, None, completedAt), attempts)
  }

  predicate Markable(db: Tables, msg: Message) {
    msg.job in db.jobs && db.jobs[msg.job].run == msg.run && !TerminalStatus(db.jobs[msg.job].status)
  }

  /** `_mark_unclaimed_terminal` on a job that is not terminal yet. */
  function MarkRows(db: Tables, now: Instant, msg: Message, code: FailureCode): Tables
    requires Markable(db, msg)
  {
    Tables(
      db.jobs[msg.job := Released(db.jobs[msg.job], FAILED, Some(now))],
      if msg.run in db.runs && db.runs[msg.run].incident == msg.incident
      then SetRun(db.runs, msg.run, RUN_FAILED, Some(code), Some(now)) else db.runs,
      db.attempts)
  }

  /** The rows that the ingestion transaction creates for a new incident. */
  function InsertRows(db: Tables, now: Instant, msg: Message): Tables {
    Tables(
      db.jobs[msg.job := Job(msg.run, QUEUED, None, None, 0, now, now, None, None)],
      db.runs[msg.run := Run(msg.incident, RUN_QUEUED, None, None, None)],
      db.attempts)
  }

  predicate Insertable(db: Tables, msg: Message) {
    msg.job !in db.jobs && msg.run !in db.runs
  }

  // ----- The coupling of the tables -----

  predicate StatusesAgree(j: JobStatus, r: RunStatus) {
    match j
    case QUEUED => r == RUN_QUEUED
    case RUNNING => r == RUN_RUNNING
    case SUCCEEDED => r == RUN_SUCCEEDED || r == RUN_PARTIAL
    case FAILED => r == RUN_FAILED
  }

  /** What one job row and its run row promise about each other. */
  predicate RowsAgree(j: Job, r: Run) {
    && StatusesAgree(j.status, r.status)
    && (j.owner.Some? <==> j.status == RUNNING) && (j.leaseUntil.Some? <==> j.status == RUNNING)
    && (j.completedAt.Some? <==> TerminalStatus(j.status))
    && (r.failure.Some? <==> r.status == RUN_FAILED)
    && (j.startedAt.Some? <==> j.attempts > 0) && (r.startedAt.Some? <==> j.attempts > 0)
    && j.attempts <= MAX_ATTEMPTS && (j.status == QUEUED ==> j.attempts < MAX_ATTEMPTS)
  }

  /** The attempt rows are numbered 1 to `attempt_count`; the last one is open exactly while running. */
  ghost predicate AttemptsAgree(j: Job, rows: map<nat, Attempt>) {
    && (forall n: nat :: n in rows <==> 1 <= n <= j.attempts)
    && (j.status == RUNNING ==> j.attempts > 0 && rows[j.attempts] == Attempt(None, None))
    && (j.status == QUEUED && j.attempts > 0 ==>
          rows[j.attempts].completedAt.Some? && rows[j.attempts].failure == Some(MCP_TRANSPORT))
  }

  ghost predicate JobAgrees(db: Tables, job: Id)
    requires job in db.jobs
  {
    && db.jobs[job].run in db.runs
    && RowsAgree(db.jobs[job], db.runs[db.jobs[job].run])
    && AttemptsAgree(db.jobs[job], AttemptsOf(db, job))
  }

  ghost predicate OneJobPerRun(db: Tables) {
    forall a, b :: a in db.jobs && b in db.jobs && db.jobs[a].run == db.jobs[b].run ==> a == b
  }

  ghost predicate Coupled(db: Tables) {
    && OneJobPerRun(db) && db.attempts.Keys <= db.jobs.Keys
    && forall job :: job in db.jobs ==> JobAgrees(db, job)
  }

  /** A time that is set stays as it is. */
  predicate Keeps(before: Option<Instant>, after: Option<Instant>) {
    before.Some? ==> after == before
  }

  /** `after` differs from `db` at most in `job`'s row, its run's row and its attempt rows. */
  ghost predicate TouchesOnly(db: Tables, after: Tables, job: Id)
    requires job in db.jobs
  {
    && after.jobs.Keys == db.jobs.Keys && after.runs.Keys == db.runs.Keys
    && after.attempts.Keys <= db.attempts.Keys + {job}
    && after.jobs[job].run == db.jobs[job].run && after.jobs[job].createdAt == db.jobs[job].createdAt
    && Keeps(db.jobs[job].startedAt, after.jobs[job].startedAt)
    && (forall r :: r in db.runs ==>
          after.runs[r].incident == db.runs[r].incident && Keeps(db.runs[r].startedAt, after.runs[r].startedAt))
    && (forall k :: k in db.jobs && k != job ==> after.jobs[k] == db.jobs[k])
    && (forall r :: r in db.runs && r != db.jobs[job].run ==> after.runs[r] == db.runs[r])
    && (forall k :: k != job ==> AttemptsOf(after, k) == AttemptsOf(db, k))
  }

  /** A transaction on one job keeps the coupling when it keeps that job's part of it. */
  lemma {:induction false} OneJobAtATime(db: Tables, after: Tables, job: Id)
    requires Coupled(db) && job in db.jobs && TouchesOnly(db, after, job)
    requires after.jobs[job].run in after.runs && RowsAgree(after.jobs[job], after.runs[after.jobs[job].run])
    requires AttemptsAgree(after.jobs[job], AttemptsOf(after, job))
    ensures Coupled(after)
  {
    hide RowsAgree, AttemptsAgree, AttemptsOf;
    forall k | k in after.jobs
      ensures JobAgrees(after, k)
    {
      if k != job {
        assert JobAgrees(db, k);
        assert after.jobs[k] == db.jobs[k];
        assert db.jobs[k].run != db.jobs[job].run;
      }
    }
  }

  /** New values for one job row and its run row, and possibly for its attempt rows. */
  function Put(db: Tables, job: Id, j: Job, r: Run, attempts: map<Id, map<nat, Attempt>>): Tables {
    Tables(db.jobs[job := j], db.runs[j.run := r], attempts)
  }

  lemma {:induction false} PutTouchesOnly(db: Tables, job: Id, j: Job, r: Run, attempts: map<Id, map<nat, Attempt>>)
    requires job in db.jobs && db.jobs[job].run == j.run && db.jobs[job].createdAt == j.createdAt
    requires j.run in db.runs && db.runs[j.run].incident == r.incident
    requires Keeps(db.jobs[job].startedAt, j.startedAt) && Keeps(db.runs[j.run].startedAt, r.startedAt)
    requires attempts == db.attempts || (job in attempts && attempts == db.attempts[job := attempts[job]])
    ensures TouchesOnly(db, Put(db, job, j, r, attempts), job)
  {
  }

  lemma {:induction false} PutKeepsCoupling(db: Tables, job: Id, j: Job, r: Run, attempts: map<Id, map<nat, Attempt>>)
    requires Coupled(db)
    requires job in db.jobs && db.jobs[job].run == j.run && db.jobs[job].createdAt == j.createdAt
    requires j.run in db.runs && db.runs[j.run].incident == r.incident
    requires Keeps(db.jobs[job].startedAt, j.startedAt) && Keeps(db.runs[j.run].startedAt, r.startedAt)
    requires attempts == db.attempts || (job in attempts && attempts == db.attempts[job := attempts[job]])
    requires RowsAgree(j, r) && AttemptsAgree(j, if job in attempts then attempts[job] else map[])
    ensures TouchesOnly(db, Put(db, job, j, r, attempts), job)
    ensures Coupled(Put(db, job, j, r, attempts))
  {
    hide RowsAgree, AttemptsAgree, TouchesOnly, Coupled;
    PutTouchesOnly(db, job, j, r, attempts);
    OneJobAtATime(db, Put(db, job, j, r, attempts), job);
  }

  lemma {:induction false} CoupledAt(db: Tables, job: Id)
    requires Coupled(db) && job in db.jobs
    ensures db.jobs[job].run in db.runs && RowsAgree(db.jobs[job], db.runs[db.jobs[job].run])
    ensures AttemptsAgree(db.jobs[job], AttemptsOf(db, job))
  {
    assert JobAgrees(db, job);
  }

  /** The clause `created_at + 5 minutes` alone decides whether a job can still be claimed. */
  lemma DeadlineOpen(j: Job, now: Instant, worker: Worker)
    requires worker.Valid()
    ensures Deadline(j, now, worker) > now <==> now < j.createdAt + JOB_LIFETIME
  {
  }

  /**
   A claim opens a fresh attempt row of a job younger than five minutes that nobody is leasing, and
   its deadline lies ahead, within both limits.
   */
  lemma {:induction false} ClaimKeepsCoupling(db: Tables, now: Instant, worker: Worker, msg: Message)
    requires Coupled(db) && worker.Valid() && Claimable(db, now, worker, msg)
    ensures db.jobs[msg.job].attempts + 1 !in AttemptsOf(db, msg.job)
    ensures TouchesOnly(db, ClaimRows(db, now, worker, msg), msg.job)
    ensures Coupled(ClaimRows(db, now, worker, msg))
    ensures now < db.jobs[msg.job].createdAt + JOB_LIFETIME
    ensures now < ClaimFor(db, now, worker, msg).deadline
    ensures ClaimFor(db, now, worker, msg).deadline <= Min(db.jobs[msg.job].createdAt, now) + JOB_LIFETIME
  {
    hide Coupled, TouchesOnly;
    CoupledAt(db, msg.job);
    var after := ClaimRows(db, now, worker, msg);
    PutKeepsCoupling(db, msg.job, after.jobs[msg.job], after.runs[msg.run], after.attempts);
  }

  lemma {:induction false} RenewKeepsCoupling(db: Tables, now: Instant, c: Claim)
    requires Coupled(db) && Owns(db, c)
    ensures TouchesOnly(db, RenewRows(db, now, c), c.message.job)
    ensures Coupled(RenewRows(db, now, c))
  {
    hide Coupled, TouchesOnly;
    var job := c.message.job;
    CoupledAt(db, job);
    var after := RenewRows(db, now, c);
    var run := db.jobs[job].run;
    assert after == Put(db, job, after.jobs[job], db.runs[run], db.attempts) by {
      assert db.runs == db.runs[run := db.runs[run]];
    }
    PutKeepsCoupling(db, job, after.jobs[job], db.runs[run], db.attempts);
  }

  /** The claim's own triple and attempt number are those of the row it owns. */
  predicate CurrentClaim(db: Tables, c: Claim) {
    Owns(db, c) && Matches(db, c.message) && db.jobs[c.message.job].attempts == c.attempt
  }

  lemma {:induction false} SettleKeepsCoupling(db: Tables, now: Instant, c: Claim, result: ProcessingResult)
    requires Coupled(db) && CurrentClaim(db, c)
    ensures TouchesOnly(db, SettleRows(db, now, c, result), c.message.job)
    ensures Coupled(SettleRows(db, now, c, result))
  {
    hide Coupled, TouchesOnly;
    CoupledAt(db, c.message.job);
    var after := SettleRows(db, now, c, result);
    PutKeepsCoupling(db, c.message.job, after.jobs[c.message.job], after.runs[c.message.run], after.attempts);
  }

  lemma {:induction false} FailKeepsCoupling(db: Tables, now: Instant, c: Claim, code: FailureCode)
    requires Coupled(db) && CurrentClaim(db, c)
    ensures TouchesOnly(db, FailRows(db, now, c, code), c.message.job)
    ensures Coupled(FailRows(db, now, c, code))
  {
    hide Coupled, TouchesOnly;
    CoupledAt(db, c.message.job);
    var after := FailRows(db, now, c, code);
    PutKeepsCoupling(db, c.message.job, after.jobs[c.message.job], after.runs[c.message.run], after.attempts);
  }

  lemma {:induction false} MarkKeepsCoupling(db: Tables, now: Instant, msg: Message, code: FailureCode)
    requires Coupled(db) && Markable(db, msg) && Matches(db, msg)
    ensures TouchesOnly(db, MarkRows(db, now, msg, code), msg.job)
    ensures Coupled(MarkRows(db, now, msg, code))
  {
    hide Coupled, TouchesOnly;
    CoupledAt(db, msg.job);
    var after := MarkRows(db, now, msg, code);
    PutKeepsCoupling(db, msg.job, after.jobs[msg.job], after.runs[msg.run], after.attempts);
  }

  lemma {:induction false} InsertKeepsCoupling(db: Tables, now: Instant, msg: Message)
    requires Coupled(db) && Insertable(db, msg)
    ensures Coupled(InsertRows(db, now, msg))
  {
    var after := InsertRows(db, now, msg);
    forall k | k in after.jobs
      ensures JobAgrees(after, k)
    {
      if k != msg.job {
        assert JobAgrees(db, k);
        assert after.jobs[k] == db.jobs[k];
      }
    }
    forall a, b | a in after.jobs && b in after.jobs && after.jobs[a].run == after.jobs[b].run
      ensures a == b
    {
      if a != msg.job {
        assert JobAgrees(db, a);
      }
      if b != msg.job {
        assert JobAgrees(db, b);
      }
    }
  }
}
