/**
 Any number of workers handling redelivered messages, one SQL transaction at a time, on a shared
 clock. Every interleaving of their transactions is a run of `Step`.
 */
module LeaseProtocol {
  import opened Common
  import opened LeaseTables

  /** Where one worker's sequential pull loop stands between two transactions. */
  datatype Phase =
    | Idle
    | Working(claim: Claim, until: Instant)
    | Looking(message: Message)
    | Marking(message: Message, code: FailureCode)

  datatype Entry = Entry(message: Message, disposition: Disposition)

  /** `log` collects the dispositions that `handle` returned; `until` above is the lease a claim last obtained. */
  datatype System = System(
    db: Tables,
    now: Instant,
    workers: map<Id, Worker>,
    phases: map<Id, Phase>,
    log: seq<Entry>)

  datatype Action =
    | Tick(delay: nat)
    | Insert(message: Message)
    | Receive(p: Id, message: Message)
    | Renew(p: Id)
    | Settle(p: Id, result: ProcessingResult)
    | Fail(p: Id, code: FailureCode)
    | Look(p: Id)
    | Mark(p: Id)
    | Crash(p: Id)

  datatype Decision = Answer(disposition: Disposition) | MarkFailed(code: FailureCode)

  // ----- One step -----

  /** `_unclaimed_disposition` up to the transaction it may start. */
  function Decide(db: Tables, now: Instant, worker: Worker, msg: Message): Decision {
    if msg.job !in db.jobs || db.jobs[msg.job].run !in db.runs then Answer(ACK)
    else
      var j := db.jobs[msg.job];
      if j.run != msg.run || db.runs[j.run].incident != msg.incident then Answer(ACK)
      else if TerminalStatus(j.status) then Answer(ACK)
      else
        var expired := Deadline(j, now, worker) <= now;
        if expired || j.attempts >= MAX_ATTEMPTS
        then MarkFailed(if expired then DEADLINE_EXCEEDED else INTERNAL_ERROR)
        else Answer(NACK)
  }

  predicate At(s: System, p: Id) {
    p in s.phases && p in s.workers
  }

  /** `handle` returns `d`; the worker pulls its next message. */
  function Return(s: System, p: Id, db: Tables, msg: Message, d: Disposition): System {
    s.(db := db, phases := s.phases[p := Idle], log := s.log + [Entry(msg, d)])
  }

  function StepReceive(s: System, p: Id, msg: Message): System
    requires At(s, p)
  {
    if Claimable(s.db, s.now, s.workers[p], msg) then
      s.(db := ClaimRows(s.db, s.now, s.workers[p], msg),
         phases := s.phases[p := Working(ClaimFor(s.db, s.now, s.workers[p], msg), s.now + LEASE)])
    else
      s.(phases := s.phases[p := Looking(msg)])
  }

  function StepRenew(s: System, p: Id, c: Claim): System
  {
    if Owns(s.db, c)
    then s.(db := RenewRows(s.db, s.now, c), phases := s.phases[p := Working(c, s.now + LEASE)])
    else Return(s, p, s.db, c.message, NACK)
  }

  function StepSettle(s: System, p: Id, c: Claim, result: ProcessingResult): System {
    if Owns(s.db, c)
    then Return(s, p, SettleRows(s.db, s.now, c, result), c.message, ACK)
    else Return(s, p, s.db, c.message, NACK)
  }

  function StepFail(s: System, p: Id, c: Claim, code: FailureCode): System {
    if Owns(s.db, c)
    then Return(s, p, FailRows(s.db, s.now, c, code), c.message, if FailureIsTerminal(c, code) then ACK else NACK)
    else Return(s, p, s.db, c.message, NACK)
  }

  function StepLook(s: System, p: Id, msg: Message): System
    requires At(s, p)
  {
    match Decide(s.db, s.now, s.workers[p], msg)
    case Answer(d) => Return(s, p, s.db, msg, d)
    case MarkFailed(code) => s.(phases := s.phases[p := Marking(msg, code)])
  }

  function StepMark(s: System, p: Id, msg: Message, code: FailureCode): System {
    Return(s, p, if Markable(s.db, msg) then MarkRows(s.db, s.now, msg, code) else s.db, msg, ACK)
  }

  /** An action whose worker is not where the action starts leaves the system alone. */
  function Step(s: System, a: Action): System {
    match a
    case Tick(delay) => s.(now := s.now + delay)
    case Insert(msg) => if Insertable(s.db, msg) then s.(db := InsertRows(s.db, s.now, msg)) else s
    case Receive(p, msg) => if At(s, p) && s.phases[p].Idle? then StepReceive(s, p, msg) else s
    case Renew(p) => if At(s, p) && s.phases[p].Working? then StepRenew(s, p, s.phases[p].claim) else s
    case Settle(p, result) =>
      if At(s, p) && s.phases[p].Working? then StepSettle(s, p, s.phases[p].claim, result) else s
    case Fail(p, code) => if At(s, p) && s.phases[p].Working? then StepFail(s, p, s.phases[p].claim, code) else s
    case Look(p) => if At(s, p) && s.phases[p].Looking? then StepLook(s, p, s.phases[p].message) else s
    case Mark(p) =>
      if At(s, p) && s.phases[p].Marking? then StepMark(s, p, s.phases[p].message, s.phases[p].code) else s
    case Crash(p) => if At(s, p) then s.(phases := s.phases[p := Idle]) else s
  }

  function Exec(s: System, actions: seq<Action>): System
    decreases |actions|
  {
    if actions == [] then s else Exec(Step(s, actions[0]), actions[1..])
  }

  // ----- The invariant -----

  ghost predicate DistinctIds(workers: map<Id, Worker>) {
    forall p, q :: p in workers && q in workers && workers[p].id == workers[q].id ==> p == q
  }

  /** The row still carries this claim: running, owned by its worker, on its attempt. */
  predicate RowHolds(j: Job, c: Claim) {
    j.status == RUNNING && j.owner == Some(c.owner) && j.attempts == c.attempt
  }

  /**
   An in-flight claim either holds the row, which was available, with the lease it knows of, or has
   lost it for good: the row is terminal, or a later attempt began after the lease it knows of ran out.
   */
  predicate ClaimState(j: Job, c: Claim, until: Instant, now: Instant) {
    && 1 <= c.attempt <= j.attempts && c.deadline <= j.createdAt + JOB_LIFETIME
    && if j.status == RUNNING && j.owner == Some(c.owner)
       then j.attempts == c.attempt && j.leaseUntil == Some(until) && j.availableAt <= now
       else TerminalStatus(j.status) || (c.attempt < j.attempts && until < now)
  }

  /** Why a redelivery may mark a job failed. Once true, it stays true. */
  predicate Exhausted(j: Job, now: Instant) {
    TerminalStatus(j.status) || j.createdAt + JOB_LIFETIME <= now || j.attempts >= MAX_ATTEMPTS
  }

  predicate PhaseAgrees(db: Tables, now: Instant, worker: Worker, phase: Phase) {
    match phase
    case Working(c, until) =>
      c.owner == worker.id && Matches(db, c.message) && ClaimState(db.jobs[c.message.job], c, until, now)
    case Marking(msg, code) => Matches(db, msg) && Exhausted(db.jobs[msg.job], now)
    case _ => true
  }

  /** Two in-flight claims of one job are different attempts, and the earlier one's lease is over. */
  predicate PairAgrees(a: Phase, b: Phase, now: Instant) {
    a.Working? && b.Working? && a.claim.message.job == b.claim.message.job ==>
      a.claim.attempt != b.claim.attempt && (a.claim.attempt < b.claim.attempt ==> a.until < now)
  }

  ghost predicate PairsAgree(phases: map<Id, Phase>, now: Instant) {
    forall p, q {:trigger phases[p], phases[q]} :: p in phases && q in phases && p != q ==>
      PairAgrees(phases[p], phases[q], now)
  }

  ghost predicate WorkersFine(s: System) {
    && s.phases.Keys == s.workers.Keys && DistinctIds(s.workers)
    && forall p :: p in s.workers ==> s.workers[p].Valid()
  }

  ghost predicate Inv(s: System) {
    && WorkersFine(s) && Coupled(s.db)
    && (forall p :: p in s.phases ==> PhaseAgrees(s.db, s.now, s.workers[p], s.phases[p]))
    && PairsAgree(s.phases, s.now)
  }

  /** The system before any job exists. */
  ghost predicate Init(s: System) {
    && WorkersFine(s) && s.db == Tables(map[], map[], map[]) && s.log == []
    && forall p :: p in s.phases ==> s.phases[p].Idle?
  }

  lemma {:induction false} InitIsInv(s: System)
    requires Init(s)
    ensures Inv(s)
  {
  }

  // ----- Every step keeps the invariant -----

  /** How a transaction on a job by someone else may look to a claim or a mark in flight. */
  ghost predicate RowMoves(before: Job, after: Job, now: Instant, actor: Id) {
    && before.createdAt == after.createdAt && before.attempts <= after.attempts
    && (TerminalStatus(before.status) ==> TerminalStatus(after.status))
    && forall c: Claim, until: Instant {:trigger ClaimState(after, c, until, now)} ::
         c.owner != actor && ClaimState(before, c, until, now) ==> ClaimState(after, c, until, now)
  }

  lemma {:induction false} OthersAgree(db: Tables, after: Tables, job: Id, now: Instant, actor: Id, worker: Worker,
                                       phase: Phase)
    requires job in db.jobs && TouchesOnly(db, after, job) && RowMoves(db.jobs[job], after.jobs[job], now, actor)
    requires worker.id != actor && PhaseAgrees(db, now, worker, phase)
    ensures PhaseAgrees(after, now, worker, phase)
  {
    hide ClaimState;
    if phase.Working? && phase.claim.message.job == job {
      assert ClaimState(db.jobs[job], phase.claim, phase.until, now);
      assert ClaimState(after.jobs[job], phase.claim, phase.until, now);
    }
  }

  /** A step of worker `p` on one job: what remains to check is `p` itself. */
  lemma {:induction false} ActorDecides(s: System, t: System, p: Id, job: Id)
    requires Inv(s) && p in s.phases && job in s.db.jobs
    requires t.now == s.now && t.workers == s.workers && p in t.phases && t.phases == s.phases[p := t.phases[p]]
    requires TouchesOnly(s.db, t.db, job) && Coupled(t.db)
    requires RowMoves(s.db.jobs[job], t.db.jobs[job], s.now, s.workers[p].id)
    requires PhaseAgrees(t.db, t.now, t.workers[p], t.phases[p])
    requires forall q :: q in s.phases && q != p ==>
               PairAgrees(s.phases[q], t.phases[p], s.now) && PairAgrees(t.phases[p], s.phases[q], s.now)
    ensures Inv(t)
  {
    hide TouchesOnly, Coupled, RowMoves, PhaseAgrees, PairAgrees;
    assert p in t.phases;
    forall q | q in t.phases
      ensures PhaseAgrees(t.db, t.now, t.workers[q], t.phases[q])
    {
      if q != p {
        assert t.phases[q] == s.phases[q];
        OthersAgree(s.db, t.db, job, s.now, s.workers[p].id, s.workers[q], s.phases[q]);
      }
    }
  }

  /** A step of worker `p` that changes no row. */
  lemma {:induction false} RowsUntouched(s: System, t: System, p: Id)
    requires Inv(s) && p in s.phases && t.db == s.db
    requires t.now == s.now && t.workers == s.workers && p in t.phases && t.phases == s.phases[p := t.phases[p]]
    requires !t.phases[p].Working? && PhaseAgrees(t.db, t.now, t.workers[p], t.phases[p])
    ensures Inv(t)
  {
    hide Coupled, PhaseAgrees;
    assert p in t.phases;
    forall q | q in t.phases
      ensures PhaseAgrees(t.db, t.now, t.workers[q], t.phases[q])
    {
      if q != p {
        assert t.phases[q] == s.phases[q];
      }
    }
  }

  lemma {:induction false} ReceiveKeepsInv(s: System, p: Id, msg: Message)
    requires Inv(s) && At(s, p) && s.phases[p].Idle?
    ensures Inv(StepReceive(s, p, msg))
  {
    hide Coupled, TouchesOnly;
    var t := StepReceive(s, p, msg);
    var worker := s.workers[p];
    if Claimable(s.db, s.now, worker, msg) {
      ClaimKeepsCoupling(s.db, s.now, worker, msg);
      assert RowMoves(s.db.jobs[msg.job], t.db.jobs[msg.job], s.now, worker.id);
      forall q | q in s.phases && q != p
        ensures PairAgrees(s.phases[q], t.phases[p], s.now) && PairAgrees(t.phases[p], s.phases[q], s.now)
      {
        assert PhaseAgrees(s.db, s.now, s.workers[q], s.phases[q]);
      }
      ActorDecides(s, t, p, msg.job);
    } else {
      RowsUntouched(s, t, p);
    }
  }

  /** An in-flight claim whose guard passes is the current one. */
  lemma OwnerIsCurrent(s: System, p: Id)
    requires Inv(s) && At(s, p) && s.phases[p].Working? && Owns(s.db, s.phases[p].claim)
    ensures CurrentClaim(s.db, s.phases[p].claim)
    ensures s.db.jobs[s.phases[p].claim.message.job].leaseUntil == Some(s.phases[p].until)
  {
    assert PhaseAgrees(s.db, s.now, s.workers[p], s.phases[p]);
  }

  lemma {:induction false} RenewKeepsInv(s: System, p: Id)
    requires Inv(s) && At(s, p) && s.phases[p].Working?
    ensures Inv(StepRenew(s, p, s.phases[p].claim))
  {
    hide Coupled, TouchesOnly;
    var c := s.phases[p].claim;
    var t := StepRenew(s, p, c);
    assert PhaseAgrees(s.db, s.now, s.workers[p], s.phases[p]);
    if Owns(s.db, c) {
      OwnerIsCurrent(s, p);
      RenewKeepsCoupling(s.db, s.now, c);
      assert RowMoves(s.db.jobs[c.message.job], t.db.jobs[c.message.job], s.now, c.owner);
      forall q | q in s.phases && q != p
        ensures PairAgrees(s.phases[q], t.phases[p], s.now) && PairAgrees(t.phases[p], s.phases[q], s.now)
      {
        assert PhaseAgrees(s.db, s.now, s.workers[q], s.phases[q]);
        assert PairAgrees(s.phases[q], s.phases[p], s.now) && PairAgrees(s.phases[p], s.phases[q], s.now);
      }
      ActorDecides(s, t, p, c.message.job);
    } else {
      RowsUntouched(s, t, p);
    }
  }

  lemma {:induction false} SettleKeepsInv(s: System, p: Id, result: ProcessingResult)
    requires Inv(s) && At(s, p) && s.phases[p].Working?
    ensures Inv(StepSettle(s, p, s.phases[p].claim, result))
  {
    hide Coupled, TouchesOnly;
    var c := s.phases[p].claim;
    var t := StepSettle(s, p, c, result);
    assert PhaseAgrees(s.db, s.now, s.workers[p], s.phases[p]);
    if Owns(s.db, c) {
      OwnerIsCurrent(s, p);
      SettleKeepsCoupling(s.db, s.now, c, result);
      assert RowMoves(s.db.jobs[c.message.job], t.db.jobs[c.message.job], s.now, c.owner);
      ActorDecides(s, t, p, c.message.job);
    } else {
      RowsUntouched(s, t, p);
    }
  }

  lemma {:induction false} FailKeepsInv(s: System, p: Id, code: FailureCode)
    requires Inv(s) && At(s, p) && s.phases[p].Working?
    ensures Inv(StepFail(s, p, s.phases[p].claim, code))
  {
    hide Coupled, TouchesOnly;
    var c := s.phases[p].claim;
    var t := StepFail(s, p, c, code);
    assert PhaseAgrees(s.db, s.now, s.workers[p], s.phases[p]);
    if Owns(s.db, c) {
      OwnerIsCurrent(s, p);
      FailKeepsCoupling(s.db, s.now, c, code);
      assert RowMoves(s.db.jobs[c.message.job], t.db.jobs[c.message.job], s.now, c.owner);
      ActorDecides(s, t, p, c.message.job);
    } else {
      RowsUntouched(s, t, p);
    }
  }

  lemma {:induction false} LookKeepsInv(s: System, p: Id, msg: Message)
    requires Inv(s) && At(s, p) && s.phases[p] == Looking(msg)
    ensures Inv(StepLook(s, p, msg))
  {
    hide Coupled;
    RowsUntouched(s, StepLook(s, p, msg), p);
  }

  lemma {:induction false} MarkKeepsInv(s: System, p: Id)
    requires Inv(s) && At(s, p) && s.phases[p].Marking?
    ensures Inv(StepMark(s, p, s.phases[p].message, s.phases[p].code))
  {
    hide Coupled, TouchesOnly;
    var msg, code := s.phases[p].message, s.phases[p].code;
    var t := StepMark(s, p, msg, code);
    assert PhaseAgrees(s.db, s.now, s.workers[p], s.phases[p]);
    if Markable(s.db, msg) {
      MarkKeepsCoupling(s.db, s.now, msg, code);
      assert RowMoves(s.db.jobs[msg.job], t.db.jobs[msg.job], s.now, s.workers[p].id);
      ActorDecides(s, t, p, msg.job);
    } else {
      RowsUntouched(s, t, p);
    }
  }

  lemma {:induction false} TickKeepsInv(s: System, delay: nat)
    requires Inv(s)
    ensures Inv(s.(now := s.now + delay))
  {
    hide Coupled;
    var t := s.(now := s.now + delay);
    forall p | p in t.phases
      ensures PhaseAgrees(t.db, t.now, t.workers[p], t.phases[p])
    {
      assert PhaseAgrees(s.db, s.now, s.workers[p], s.phases[p]);
    }
    forall p, q | p in t.phases && q in t.phases && p != q
      ensures PairAgrees(t.phases[p], t.phases[q], t.now)
    {
      assert PairAgrees(s.phases[p], s.phases[q], s.now);
    }
  }

  lemma {:induction false} InsertKeepsInv(s: System, msg: Message)
    requires Inv(s) && Insertable(s.db, msg)
    ensures Inv(s.(db := InsertRows(s.db, s.now, msg)))
  {
    hide Coupled;
    InsertKeepsCoupling(s.db, s.now, msg);
    var t := s.(db := InsertRows(s.db, s.now, msg));
    forall p | p in t.phases
      ensures PhaseAgrees(t.db, t.now, t.workers[p], t.phases[p])
    {
      assert PhaseAgrees(s.db, s.now, s.workers[p], s.phases[p]);
    }
  }

  lemma {:induction false} StepKeepsInv(s: System, a: Action)
    requires Inv(s)
    ensures Inv(Step(s, a))
  {
    hide Inv, StepReceive, StepRenew, StepSettle, StepFail, StepLook, StepMark;
    match a
    case Tick(delay) => TickKeepsInv(s, delay);
    case Insert(msg) => if Insertable(s.db, msg) { InsertKeepsInv(s, msg); }
    case Receive(p, msg) => if At(s, p) && s.phases[p].Idle? { ReceiveKeepsInv(s, p, msg); }
    case Renew(p) => if At(s, p) && s.phases[p].Working? { RenewKeepsInv(s, p); }
    case Settle(p, result) => if At(s, p) && s.phases[p].Working? { SettleKeepsInv(s, p, result); }
    case Fail(p, code) => if At(s, p) && s.phases[p].Working? { FailKeepsInv(s, p, code); }
    case Look(p) => if At(s, p) && s.phases[p].Looking? { LookKeepsInv(s, p, s.phases[p].message); }
    case Mark(p) => if At(s, p) && s.phases[p].Marking? { MarkKeepsInv(s, p); }
    case Crash(p) => if At(s, p) { CrashKeepsInv(s, p); }
  }

  lemma {:induction false} CrashKeepsInv(s: System, p: Id)
    requires Inv(s) && At(s, p)
    ensures Inv(s.(phases := s.phases[p := Idle]))
  {
    RowsUntouched(s, s.(phases := s.phases[p := Idle]), p);
  }

  /** The coupling and the lease discipline hold after every run, of any length and interleaving. */
  lemma {:induction false} RunsKeepInv(s: System, actions: seq<Action>)
    requires Inv(s)
    ensures Inv(Exec(s, actions))
    decreases |actions|
  {
    if actions != [] {
      StepKeepsInv(s, actions[0]);
      RunsKeepInv(Step(s, actions[0]), actions[1..]);
    }
  }

  // ----- What follows for every run -----

  /** Worker `p` believes, from what the database last told it, that it still leases the job. */
  predicate LiveHolder(s: System, p: Id, job: Id) {
    At(s, p) && s.phases[p].Working? && s.phases[p].claim.message.job == job && s.now <= s.phases[p].until
  }

  /** At no instant do two workers both believe that they lease the same job. */
  lemma {:induction false} OneLiveLease(s: System, actions: seq<Action>, p: Id, q: Id, job: Id)
    requires Init(s)
    requires LiveHolder(Exec(s, actions), p, job) && LiveHolder(Exec(s, actions), q, job)
    ensures p == q
  {
    InitIsInv(s);
    RunsKeepInv(s, actions);
    if p != q {
      NoTwoLiveHolders(Exec(s, actions), p, q, job);
    }
  }

  lemma NoTwoLiveHolders(s: System, p: Id, q: Id, job: Id)
    requires Inv(s) && p != q && At(s, p) && At(s, q)
    ensures !(LiveHolder(s, p, job) && LiveHolder(s, q, job))
  {
    assert PairAgrees(s.phases[p], s.phases[q], s.now) && PairAgrees(s.phases[q], s.phases[p], s.now);
  }

  /** The row is past the claim: terminal, or in a later attempt. */
  predicate MovedOn(db: Tables, c: Claim) {
    c.message.job in db.jobs && (Terminal(db, c.message.job) || db.jobs[c.message.job].attempts > c.attempt)
  }

  /** How any step may change a job row: identity and first start fixed, attempts growing, terminal final. */
  predicate RowAges(before: Job, after: Job) {
    && before.run == after.run && before.createdAt == after.createdAt && before.attempts <= after.attempts
    && Keeps(before.startedAt, after.startedAt)
    && (TerminalStatus(before.status) ==> after == before)
  }

  ghost predicate Ages(db: Tables, after: Tables) {
    && (forall k :: k in db.jobs ==> k in after.jobs && RowAges(db.jobs[k], after.jobs[k]))
    && (forall r :: r in db.runs ==>
          r in after.runs && after.runs[r].incident == db.runs[r].incident
            && Keeps(db.runs[r].startedAt, after.runs[r].startedAt))
    && (forall k :: k in db.jobs && TerminalStatus(db.jobs[k].status) && db.jobs[k].run in db.runs ==>
          after.runs[db.jobs[k].run] == db.runs[db.jobs[k].run] && AttemptsOf(after, k) == AttemptsOf(db, k))
  }

  lemma {:induction false} TouchingAges(db: Tables, after: Tables, job: Id)
    requires OneJobPerRun(db) && job in db.jobs && TouchesOnly(db, after, job)
    requires !TerminalStatus(db.jobs[job].status) && db.jobs[job].attempts <= after.jobs[job].attempts
    ensures Ages(db, after)
  {
  }

  lemma {:induction false} StepAges(s: System, a: Action)
    requires Inv(s)
    ensures Ages(s.db, Step(s, a).db)
  {
    hide Coupled, TouchesOnly, Ages;
    var t := Step(s, a);
    assert OneJobPerRun(s.db) && Ages(s.db, s.db) by {
      CoupledIsOneToOne(s.db);
    }
    if t.db != s.db {
      match a
      case Insert(msg) =>
        InsertAges(s.db, s.now, msg);
      case Receive(p, msg) =>
        ClaimKeepsCoupling(s.db, s.now, s.workers[p], msg);
        TouchingAges(s.db, t.db, msg.job);
      case Renew(p) =>
        OwnerIsCurrent(s, p);
        RenewKeepsCoupling(s.db, s.now, s.phases[p].claim);
        TouchingAges(s.db, t.db, s.phases[p].claim.message.job);
      case Settle(p, result) =>
        OwnerIsCurrent(s, p);
        SettleKeepsCoupling(s.db, s.now, s.phases[p].claim, result);
        TouchingAges(s.db, t.db, s.phases[p].claim.message.job);
      case Fail(p, code) =>
        OwnerIsCurrent(s, p);
        FailKeepsCoupling(s.db, s.now, s.phases[p].claim, code);
        TouchingAges(s.db, t.db, s.phases[p].claim.message.job);
      case Mark(p) =>
        assert PhaseAgrees(s.db, s.now, s.workers[p], s.phases[p]);
        MarkKeepsCoupling(s.db, s.now, s.phases[p].message, s.phases[p].code);
        TouchingAges(s.db, t.db, s.phases[p].message.job);
      case _ =>
    }
  }

  lemma CoupledIsOneToOne(db: Tables)
    requires Coupled(db)
    ensures OneJobPerRun(db) && Ages(db, db)
  {
  }

  lemma {:induction false} InsertAges(db: Tables, now: Instant, msg: Message)
    requires Insertable(db, msg)
    ensures Ages(db, InsertRows(db, now, msg))
  {
  }

  lemma {:induction false} AgesTransitive(a: Tables, b: Tables, c: Tables)
    requires Ages(a, b) && Ages(b, c)
    ensures Ages(a, c)
  {
  }

  /** Terminal rows are absorbing and attempts only grow, whatever any worker does afterwards. */
  lemma {:induction false} RunsAge(s: System, actions: seq<Action>)
    requires Inv(s)
    ensures Ages(s.db, Exec(s, actions).db)
    decreases |actions|
  {
    hide Inv, Ages, Step;
    if actions == [] {
      assert Ages(s.db, s.db) by {
        InvIsCoupled(s);
        CoupledIsOneToOne(s.db);
      }
    } else {
      StepKeepsInv(s, actions[0]);
      StepAges(s, actions[0]);
      RunsAge(Step(s, actions[0]), actions[1..]);
      AgesTransitive(s.db, Step(s, actions[0]).db, Exec(s, actions).db);
    }
  }

  lemma InvIsCoupled(s: System)
    requires Inv(s)
    ensures Coupled(s.db)
  {
  }

  /** Renewing or settling, by worker `p`. */
  predicate ClaimStep(a: Action, p: Id) {
    (a.Renew? || a.Settle? || a.Fail?) && a.p == p
  }

  /**
   A claim that has lost its row stays lost: at any later time, in any run, its renewals and
   settlements change no row at all and its delivery is not acknowledged.
   */
  lemma {:induction false} LostClaimIsPowerless(s: System, actions: seq<Action>, p: Id, a: Action)
    requires Inv(s) && At(s, p) && s.phases[p].Working?
    requires !RowHolds(s.db.jobs[s.phases[p].claim.message.job], s.phases[p].claim)
    requires At(Exec(s, actions), p) && Exec(s, actions).phases[p].Working?
    requires Exec(s, actions).phases[p].claim == s.phases[p].claim && ClaimStep(a, p)
    ensures Step(Exec(s, actions), a).db == Exec(s, actions).db
    ensures Step(Exec(s, actions), a).log == Exec(s, actions).log + [Entry(s.phases[p].claim.message, NACK)]
  {
    hide Coupled;
    var c := s.phases[p].claim;
    var t := Exec(s, actions);
    assert PhaseAgrees(s.db, s.now, s.workers[p], s.phases[p]);
    assert MovedOn(s.db, c);
    RunsAge(s, actions);
    assert MovedOn(t.db, c);
    RunsKeepInv(s, actions);
    assert PhaseAgrees(t.db, t.now, t.workers[p], t.phases[p]);
    assert !Owns(t.db, c);
  }

  /** From five minutes after creation on, no run starts another attempt of the job. */
  lemma {:induction false} NoAttemptAfterLifetime(s: System, actions: seq<Action>, job: Id)
    requires Inv(s) && job in s.db.jobs && s.db.jobs[job].createdAt + 300000000 <= s.now
    ensures job in Exec(s, actions).db.jobs && Exec(s, actions).db.jobs[job].attempts == s.db.jobs[job].attempts
    decreases |actions|
  {
    hide Inv, Step;
    if actions != [] {
      var t := Step(s, actions[0]);
      StepAttempts(s, actions[0], job);
      StepAges(s, actions[0]);
      StepKeepsInv(s, actions[0]);
      TimeNeverRunsBack(s, actions[0]);
      NoAttemptAfterLifetime(t, actions[1..], job);
    }
  }

  lemma TimeNeverRunsBack(s: System, a: Action)
    ensures s.now <= Step(s, a).now
  {
  }

  /**
   Only a claim starts an attempt, within the five minutes of its job and by one; a job has at most three.
   The lease of the new attempt is one minute.
   */
  lemma {:induction false} StepAttempts(s: System, a: Action, job: Id)
    requires Inv(s) && job in s.db.jobs
    ensures job in Step(s, a).db.jobs
    ensures Step(s, a).db.jobs[job].attempts != s.db.jobs[job].attempts ==>
              && a.Receive? && a.message.job == job && s.now < s.db.jobs[job].createdAt + 300000000
              && Step(s, a).db.jobs[job].attempts == s.db.jobs[job].attempts + 1 <= 3
              && LiveHolder(Step(s, a), a.p, job)
              && s.now < Step(s, a).phases[a.p].claim.deadline <= s.db.jobs[job].createdAt + 300000000
              && Step(s, a).db.jobs[job].leaseUntil == Some(s.now + 60000000) == Some(Step(s, a).phases[a.p].until)
  {
    hide Coupled;
    if a.Receive? && At(s, a.p) && s.phases[a.p].Idle? && Claimable(s.db, s.now, s.workers[a.p], a.message)
      && a.message.job == job {
      DeadlineOpen(s.db.jobs[job], s.now, s.workers[a.p]);
    }
  }

  // ----- Dispositions -----

  /** A step adds at most one disposition; an acknowledged message is settled or names no row. */
  lemma {:induction false} AckedStep(s: System, a: Action)
    requires Inv(s)
    ensures s.log <= Step(s, a).log && |Step(s, a).log| <= |s.log| + 1
    ensures |Step(s, a).log| > |s.log| ==>
              var e := Step(s, a).log[|s.log|];
              e.disposition == ACK ==> Terminal(Step(s, a).db, e.message.job) || !Matches(Step(s, a).db, e.message)
    ensures |Step(s, a).log| > |s.log| && a.Look? ==>
              var e := Step(s, a).log[|s.log|];
              e.disposition == NACK <==> Matches(s.db, e.message) && !Exhausted(s.db.jobs[e.message.job], s.now)
  {
    hide Coupled;
    if a.Look? && At(s, a.p) && s.phases[a.p].Looking? && s.phases[a.p].message.job in s.db.jobs {
      DeadlineOpen(s.db.jobs[s.phases[a.p].message.job], s.now, s.workers[a.p]);
    }
    if a.Mark? && At(s, a.p) {
      assert PhaseAgrees(s.db, s.now, s.workers[a.p], s.phases[a.p]);
    }
    if a.Fail? && At(s, a.p) {
      assert PhaseAgrees(s.db, s.now, s.workers[a.p], s.phases[a.p]);
    }
  }

  /**
   A message whose triple names a row is acknowledged only once its job is terminal, under every
   interleaving of the transactions between receiving it and answering.
   */
  lemma {:induction false} AckIsDurable(s: System, actions: seq<Action>, k: nat)
    requires Inv(s)
    requires |s.log| <= k < |Exec(s, actions).log| && Exec(s, actions).log[k].disposition == ACK
    requires Matches(s.db, Exec(s, actions).log[k].message)
    ensures Terminal(Exec(s, actions).db, Exec(s, actions).log[k].message.job)
    decreases |actions|
  {
    hide Inv, Step, Matches;
    if actions != [] {
      var t := Step(s, actions[0]);
      var msg := Exec(s, actions).log[k].message;
      AckedStep(s, actions[0]);
      StepAges(s, actions[0]);
      StepKeepsInv(s, actions[0]);
      MatchesAges(s.db, t.db, msg);
      RunsAge(t, actions[1..]);
      LogGrows(t, actions[1..]);
      if k < |t.log| {
        assert Terminal(t.db, msg.job);
      } else {
        AckIsDurable(t, actions[1..], k);
      }
    }
  }

  lemma MatchesAges(db: Tables, after: Tables, msg: Message)
    requires Ages(db, after) && Matches(db, msg)
    ensures Matches(after, msg)
  {
  }

  lemma {:induction false} LogGrows(s: System, actions: seq<Action>)
    requires Inv(s)
    ensures s.log <= Exec(s, actions).log
    decreases |actions|
  {
    hide Inv, Step;
    if actions != [] {
      AckedStep(s, actions[0]);
      StepKeepsInv(s, actions[0]);
      LogGrows(Step(s, actions[0]), actions[1..]);
    }
  }

  /** A run that a mark has failed carries the reason: its time was up, or else its attempts were. */
  predicate FailedAsExhausted(db: Tables, msg: Message, before: Job, now: Instant) {
    && Matches(db, msg) && db.jobs[msg.job].status == JobStatus.FAILED && db.runs[msg.run].status == RUN_FAILED
    && db.jobs[msg.job].completedAt == db.runs[msg.run].completedAt == Some(now)
    && db.runs[msg.run].failure == Some(if before.createdAt + 300000000 <= now then DEADLINE_EXCEEDED
                                        else INTERNAL_ERROR)
  }

  /** A redelivery of an exhausted job's message, handled undisturbed, settles the job and is acknowledged. */
  lemma {:induction false} ExhaustedIsSettled(s: System, p: Id, msg: Message)
    requires Inv(s) && At(s, p) && s.phases[p].Idle? && Matches(s.db, msg) && Exhausted(s.db.jobs[msg.job], s.now)
    ensures var t := Exec(s, [Receive(p, msg), Look(p), Mark(p)]);
            && Terminal(t.db, msg.job) && t.log == s.log + [Entry(msg, ACK)] && At(t, p) && t.phases[p].Idle?
            && (!Terminal(s.db, msg.job) ==> FailedAsExhausted(t.db, msg, s.db.jobs[msg.job], s.now))
  {
    ExecThree(s, Receive(p, msg), Look(p), Mark(p));
    var looking := s.(phases := s.phases[p := Looking(msg)]);
    ExhaustedIsNotClaimed(s, p, msg);
    LookSettlesOrMarks(looking, p, msg);
  }

  lemma ExhaustedIsNotClaimed(s: System, p: Id, msg: Message)
    requires Inv(s) && At(s, p) && s.phases[p].Idle? && Matches(s.db, msg) && Exhausted(s.db.jobs[msg.job], s.now)
    ensures Step(s, Receive(p, msg)) == s.(phases := s.phases[p := Looking(msg)])
    ensures s.workers[p].Valid()
  {
    hide Coupled, PairsAgree, PhaseAgrees;
    DeadlineOpen(s.db.jobs[msg.job], s.now, s.workers[p]);
  }

  lemma LookSettlesOrMarks(s: System, p: Id, msg: Message)
    requires At(s, p) && s.workers[p].Valid() && s.phases[p] == Looking(msg)
    requires Matches(s.db, msg) && Exhausted(s.db.jobs[msg.job], s.now)
    ensures var t := Step(Step(s, Look(p)), Mark(p));
            && Terminal(t.db, msg.job) && t.log == s.log + [Entry(msg, ACK)] && At(t, p) && t.phases[p].Idle?
            && (!Terminal(s.db, msg.job) ==> FailedAsExhausted(t.db, msg, s.db.jobs[msg.job], s.now))
  {
    DeadlineOpen(s.db.jobs[msg.job], s.now, s.workers[p]);
  }

  lemma {:induction false} ExecThree(s: System, a: Action, b: Action, c: Action)
    ensures Exec(s, [a, b, c]) == Step(Step(Step(s, a), b), c)
  {
    hide Step;
    var rest := [a, b, c][1..];
    assert rest == [b, c] && rest[1..] == [c];
    assert Exec(s, [a, b, c]) == Exec(Step(s, a), [b, c]);
    assert [b, c][1..] == [c] && [c][1..] == [];
    assert Exec(Step(s, a), [b, c]) == Exec(Step(Step(s, a), b), [c]);
    assert Exec(Step(Step(s, a), b), [c]) == Exec(Step(Step(Step(s, a), b), c), []);
  }

  // ----- How a live holder loses its job -----

  predicate HoldsRow(db: Tables, c: Claim) {
    c.message.job in db.jobs && RowHolds(db.jobs[c.message.job], c)
  }

  /** Some worker's mark of this job is about to be written. */
  predicate MarksJob(s: System, a: Action, job: Id) {
    a.Mark? && At(s, a.p) && s.phases[a.p].Marking? && s.phases[a.p].message.job == job
  }

  /**
   A worker whose lease has not run out can lose its row in one way only: another worker that found
   the job exhausted marks it failed. That can happen under a live lease, so the lease protects
   against other claims but not against this mark.
   */
  lemma {:induction false} LiveHolderLosesOnlyToMark(s: System, a: Action, t: System, p: Id, c: Claim)
    requires Inv(s) && t == Step(s, a)
    requires LiveHolder(s, p, c.message.job) && s.phases[p].claim == c && HoldsRow(s.db, c)
    requires At(t, p) && t.phases[p].Working? && t.phases[p].claim == c
    ensures !HoldsRow(t.db, c) <==> MarksJob(s, a, c.message.job)
    ensures !HoldsRow(t.db, c) ==> Exhausted(s.db.jobs[c.message.job], s.now) && Terminal(t.db, c.message.job)
  {
    hide Inv;
    PhaseAt(s, p);
    if (a.Renew? || a.Settle? || a.Fail? || a.Mark?) && At(s, a.p) {
      PhaseAt(s, a.p);
      PairAt(s, p, a.p);
    }
  }

  lemma PhaseAt(s: System, p: Id)
    requires Inv(s) && At(s, p)
    ensures PhaseAgrees(s.db, s.now, s.workers[p], s.phases[p])
  {
  }

  lemma PairAt(s: System, p: Id, q: Id)
    requires Inv(s) && At(s, p) && At(s, q)
    ensures p != q ==> PairAgrees(s.phases[p], s.phases[q], s.now) && s.workers[p].id != s.workers[q].id
  {
  }

  // ----- What a holder's settlement leaves behind -----

  /** The rows and the disposition that a settlement of a held job leaves. */
  ghost predicate SettledAs(s: System, t: System, c: Claim, job: JobStatus, run: RunStatus,
                            failure: Option<FailureCode>, d: Disposition) {
    && c.message.job in t.db.jobs && t.db.jobs[c.message.job].status == job && t.db.jobs[c.message.job].owner == None
    && t.db.jobs[c.message.job].completedAt == (if job == QUEUED then None else Some(s.now))
    && c.message.run in t.db.runs && t.db.runs[c.message.run].status == run
    && t.db.runs[c.message.run].failure == (if job == JobStatus.FAILED then failure else None)
    && c.attempt in AttemptsOf(t.db, c.message.job)
       && AttemptsOf(t.db, c.message.job)[c.attempt] == Attempt(Some(s.now), failure)
    && t.log == s.log + [Entry(c.message, d)]
  }

  /**
   A holder's settlement is complete: the job, the run and the attempt all tell the result, a failed
   result has a code, and the message is acknowledged exactly when the job became terminal.
   */
  lemma {:induction false} HolderSettles(s: System, p: Id, result: ProcessingResult)
    requires Inv(s) && At(s, p) && s.phases[p].Working? && HoldsRow(s.db, s.phases[p].claim)
    ensures var t := Step(s, Settle(p, result));
            var c := s.phases[p].claim;
            && (result.status == COMPLETE ==> SettledAs(s, t, c, SUCCEEDED, RUN_SUCCEEDED, None, ACK))
            && (result.status == ResultStatus.PARTIAL ==> SettledAs(s, t, c, SUCCEEDED, RUN_PARTIAL, None, ACK))
            && (result.status == FAILED_RESULT && result.failure.Some? ==>
                SettledAs(s, t, c, JobStatus.FAILED, RUN_FAILED, result.failure, ACK))
            && (result.status == FAILED_RESULT && result.failure.None? ==>
                SettledAs(s, t, c, JobStatus.FAILED, RUN_FAILED, Some(INTERNAL_ERROR), ACK))
  {
    hide Inv;
    HolderRows(s, p);
  }

  lemma {:induction false} HolderFails(s: System, p: Id, code: FailureCode)
    requires Inv(s) && At(s, p) && s.phases[p].Working? && HoldsRow(s.db, s.phases[p].claim)
    ensures var t := Step(s, Fail(p, code));
            var c := s.phases[p].claim;
            var again := code == MCP_TRANSPORT && c.attempt < 3;
            && (!again ==> SettledAs(s, t, c, JobStatus.FAILED, RUN_FAILED, Some(code), ACK))
            && (again ==> SettledAs(s, t, c, QUEUED, RUN_QUEUED, Some(code), NACK))
            && (again ==> t.db.jobs[c.message.job].availableAt == s.now + 30000000)
  {
    hide Inv;
    HolderRows(s, p);
  }

  lemma HolderRows(s: System, p: Id)
    requires Inv(s) && At(s, p) && s.phases[p].Working? && HoldsRow(s.db, s.phases[p].claim)
    ensures var c := s.phases[p].claim;
            CurrentClaim(s.db, c) && 1 <= c.attempt <= MAX_ATTEMPTS && c.attempt in AttemptsOf(s.db, c.message.job)
  {
    hide OneJobPerRun;
    PhaseAt(s, p);
    CoupledAt(s.db, s.phases[p].claim.message.job);
  }

  /**
   When a queued or running job of an unexhausted message can be claimed: after the retry delay of a
   transport failure, or once its holder's lease has run out, and before the five minutes are over.
   */
  lemma {:induction false} ClaimableExactlyWhen(s: System, p: Id, c: Claim, later: Instant, q: Id)
    requires Inv(s) && At(s, p) && s.phases[p].Working? && s.phases[p].claim == c && HoldsRow(s.db, c) && At(s, q)
    requires later >= s.now && c.attempt < 3
    ensures var j := s.db.jobs[c.message.job];
            && (Claimable(s.db, later, s.workers[q], c.message) <==>
                s.phases[p].until < later && later < j.createdAt + 300000000)
            && (Claimable(Step(s, Fail(p, MCP_TRANSPORT)).db, later, s.workers[q], c.message) <==>
                s.now + 30000000 <= later < j.createdAt + 300000000)
  {
    PhaseAt(s, p);
    DeadlineOpen(s.db.jobs[c.message.job], later, s.workers[q]);
  }
}
