/**
 `RcaJobHandler` in imperative form: each transaction updates the tables statement by statement, and
 `Handle` strings them together while other workers act in between. Each method is proved to be a
 step, or a run, of the protocol.
 */
module LeaseHandler {
  import opened Common
  import opened LeaseTables
  import opened LeaseProtocol

  datatype Error = ConnectionError | TimeoutError | OtherError

  /** `_classify_failure` */
  function ClassifyFailure(e: Error): FailureCode {
    match e
    case ConnectionError => MCP_TRANSPORT
    case TimeoutError => DEADLINE_EXCEEDED
    case OtherError => INTERNAL_ERROR
  }

  /** How the processor task can end. */
  datatype Outcome = Returned(result: ProcessingResult) | Raised(error: Error)

  /**
   What happens next while a claim is being executed, after `others` have acted: a renewal runs, a
   renewal's transaction raises, having stored the new lease or not, or the processor ends.
   */
  datatype Event =
    | RenewalDue(others: seq<Action>)
    | RenewalRaises(others: seq<Action>, error: Error, stored: bool)
    | Finished(others: seq<Action>, outcome: Outcome)

  /** How `_execute_with_lease` ends. */
  datatype Execution = Completed(result: ProcessingResult) | Failed(error: Error) | DeadlinePassed | LeaseLost

  predicate ActsAs(a: Action, p: Id) {
    !a.Tick? && !a.Insert? && a.p == p
  }

  ghost predicate OthersOnly(actions: seq<Action>, p: Id) {
    forall k :: 0 <= k < |actions| ==> !ActsAs(actions[k], p)
  }

  ghost predicate EventsByOthers(events: seq<Event>, p: Id) {
    forall k :: 0 <= k < |events| ==> OthersOnly(events[k].others, p)
  }

  lemma {:induction false} OthersKeepPhase(s: System, actions: seq<Action>, p: Id)
    requires At(s, p) && OthersOnly(actions, p)
    ensures At(Exec(s, actions), p) && Exec(s, actions).phases[p] == s.phases[p]
    ensures Exec(s, actions).workers == s.workers
    decreases |actions|
  {
    if actions != [] {
      assert !ActsAs(actions[0], p);
      OthersKeepPhase(Step(s, actions[0]), actions[1..], p);
    }
  }

  lemma {:induction false} ExecConcat(s: System, a: seq<Action>, b: seq<Action>)
    ensures Exec(s, a + b) == Exec(Exec(s, a), b)
    decreases |a|
  {
    hide Step;
    if a == [] {
      assert a + b == b;
    } else {
      assert (a + b)[0] == a[0] && (a + b)[1..] == a[1..] + b;
      ExecConcat(Step(s, a[0]), a[1..], b);
    }
  }

  lemma {:induction false} ExecOne(s: System, a: Action)
    ensures Exec(s, [a]) == Step(s, a)
  {
    hide Step;
    assert [a][1..] == [];
    assert Exec(s, [a]) == Exec(Step(s, a), []);
  }

  /** The actions of one worker among those of all. */
  ghost function OwnActions(actions: seq<Action>, p: Id): seq<Action> {
    if actions == [] then []
    else
      var last := actions[|actions| - 1];
      OwnActions(actions[..|actions| - 1], p) + if ActsAs(last, p) then [last] else []
  }

  lemma {:induction false} OwnConcat(a: seq<Action>, b: seq<Action>, p: Id)
    ensures OwnActions(a + b, p) == OwnActions(a, p) + OwnActions(b, p)
  {
    if b == [] {
      assert a + b == a;
    } else {
      var n := |b| - 1;
      OwnConcat(a, b[..n], p);
      assert (a + b)[..|a + b| - 1] == a + b[..n];
    }
  }

  lemma {:induction false} OwnOfOthers(a: seq<Action>, p: Id)
    requires OthersOnly(a, p)
    ensures OwnActions(a, p) == []
  {
    if a != [] {
      OwnOfOthers(a[..|a| - 1], p);
    }
  }

  lemma OwnOne(a: Action, p: Id)
    requires ActsAs(a, p)
    ensures OwnActions([a], p) == [a]
  {
    assert [a][..0] == [];
  }

  lemma {:induction false} OwnExtends(t: seq<Action>, others: seq<Action>, a: Action, p: Id)
    requires OthersOnly(others, p) && ActsAs(a, p)
    ensures OwnActions(t + others, p) == OwnActions(t, p)
    ensures OwnActions(t + (others + [a]), p) == OwnActions(t, p) + [a]
  {
    OwnConcat(t, others, p);
    OwnOfOthers(others, p);
    OwnConcat(t, others + [a], p);
    OwnConcat(others, [a], p);
    OwnOne(a, p);
  }

  /** How far the clock moves. */
  function Elapsed(actions: seq<Action>): nat {
    if actions == [] then 0 else (if actions[0].Tick? then actions[0].delay else 0) + Elapsed(actions[1..])
  }

  lemma {:induction false} ExecElapses(s: System, actions: seq<Action>)
    ensures Exec(s, actions).now == s.now + Elapsed(actions)
    decreases |actions|
  {
    if actions != [] {
      StepElapses(s, actions[0]);
      ExecElapses(Step(s, actions[0]), actions[1..]);
    }
  }

  lemma StepElapses(s: System, a: Action)
    ensures Step(s, a).now == s.now + if a.Tick? then a.delay else 0
  {
  }

  /** The renewals that run before the event that decides the execution. */
  function RenewalsDue(now: Instant, deadline: Instant, events: seq<Event>, p: Id): seq<Action>
    decreases |events|
  {
    if events == [] || !events[0].RenewalDue? || deadline <= now + Elapsed(events[0].others) then []
    else [LeaseProtocol.Renew(p)] + RenewalsDue(now + Elapsed(events[0].others), deadline, events[1..], p)
  }

  /**
   How the execution ends when the lease is kept: with the first event before the deadline that is no
   completed renewal, otherwise with the deadline, which also ends a processor that never finishes.
   */
  function Ending(now: Instant, deadline: Instant, events: seq<Event>): Execution
    decreases |events|
  {
    if events == [] || deadline <= now + Elapsed(events[0].others) then DeadlinePassed
    else if events[0].RenewalDue? then Ending(now + Elapsed(events[0].others), deadline, events[1..])
    else EndOf(events[0])
  }

  /** The exception of a renewal ends the execution as the processor's own would. */
  function EndOf(e: Event): Execution
    requires !e.RenewalDue?
  {
    match e
    case RenewalRaises(_, error, _) => Execution.Failed(error)
    case Finished(_, outcome) =>
      match outcome
      case Returned(result) => Completed(result)
      case Raised(error) => Execution.Failed(error)
  }

  /** The execution ends with a renewal that raises although it stored the new lease. */
  predicate EndsStored(now: Instant, deadline: Instant, events: seq<Event>)
    decreases |events|
  {
    && events != [] && now + Elapsed(events[0].others) < deadline
    && (events[0].RenewalDue? ==> EndsStored(now + Elapsed(events[0].others), deadline, events[1..]))
    && (!events[0].RenewalDue? ==> events[0].RenewalRaises? && events[0].stored)
  }

  /** What one event does to an execution, and what the worker does for it; `None` when it goes on. */
  predicate HappensAs(now: Instant, deadline: Instant, e: Event, p: Id, end: Option<Execution>, own: seq<Action>) {
    if deadline <= now + Elapsed(e.others) then end == Some(DeadlinePassed) && own == []
    else
      match e
      case RenewalDue(_) => own == [LeaseProtocol.Renew(p)] && (end == None || end == Some(LeaseLost))
      case RenewalRaises(_, _, stored) =>
        end == Some(EndOf(e)) && (own == [] || (stored && own == [LeaseProtocol.Renew(p)]))
      case Finished(_, _) => end == Some(EndOf(e)) && own == []
  }

  lemma EventDecides(now: Instant, deadline: Instant, events: seq<Event>, p: Id, end: Option<Execution>,
                     own: seq<Action>)
    requires events != [] && HappensAs(now, deadline, events[0], p, end, own)
    ensures var at := now + Elapsed(events[0].others);
            end == None ==>
              && Ending(now, deadline, events) == Ending(at, deadline, events[1..])
              && EndsStored(now, deadline, events) == EndsStored(at, deadline, events[1..])
              && RenewalsDue(now, deadline, events, p) == own + RenewalsDue(at, deadline, events[1..], p)
    ensures end == Some(LeaseLost) ==> own == [LeaseProtocol.Renew(p)] && own <= RenewalsDue(now, deadline, events, p)
    ensures end.Some? && end.value != LeaseLost ==>
              && end.value == Ending(now, deadline, events) && RenewalsDue(now, deadline, events, p) == []
              && (own == [] || (EndsStored(now, deadline, events) && own == [LeaseProtocol.Renew(p)]))
  {
    hide Elapsed;
  }

  /** The clock when the `k`-th event happens. */
  function ClockAt(now: Instant, events: seq<Event>, k: nat): Instant
    requires k < |events|
    decreases k
  {
    var at := now + Elapsed(events[0].others);
    if k == 0 then at else ClockAt(at, events[1..], k - 1)
  }

  /** Event `k` is not a completed renewal, comes before the deadline, and only such renewals come before it. */
  predicate DecidedAt(now: Instant, deadline: Instant, events: seq<Event>, k: nat) {
    && k < |events| && !events[k].RenewalDue? && ClockAt(now, events, k) < deadline
    && forall i :: 0 <= i < k ==> events[i].RenewalDue?
  }

  lemma {:induction false} ClockGrows(now: Instant, events: seq<Event>, k: nat)
    requires k < |events|
    ensures now + Elapsed(events[0].others) <= ClockAt(now, events, k)
    decreases k
  {
    if k > 0 {
      ClockGrows(now + Elapsed(events[0].others), events[1..], k - 1);
    }
  }

  /**
   An execution that kept its lease ends before the deadline exactly when the processor finishes or a
   renewal raises before it, and it ends as whichever of the two came first.
   */
  lemma {:induction false} EndsInTime(now: Instant, deadline: Instant, events: seq<Event>)
    ensures Ending(now, deadline, events) != DeadlinePassed <==> exists k: nat :: DecidedAt(now, deadline, events, k)
    ensures forall k: nat :: DecidedAt(now, deadline, events, k) ==>
            Ending(now, deadline, events) == EndOf(events[k])
    decreases |events|
  {
    if events != [] {
      hide Elapsed;
      var at, rest := now + Elapsed(events[0].others), events[1..];
      EndsInTime(at, deadline, rest);
      forall k: nat | DecidedAt(now, deadline, events, k)
        ensures Ending(now, deadline, events) == EndOf(events[k])
      {
        ClockGrows(now, events, k);
        if k > 0 {
          assert DecidedAt(at, deadline, rest, k - 1);
        }
      }
      if Ending(now, deadline, events) != DeadlinePassed {
        if !events[0].RenewalDue? {
          assert DecidedAt(now, deadline, events, 0);
        } else {
          var k: nat :| DecidedAt(at, deadline, rest, k);
          assert DecidedAt(now, deadline, events, k + 1);
        }
      }
    }
  }

  /**
   A result is settled as such if and only if the processor returns it before the deadline and no
   renewal raised before that.
   */
  lemma {:induction false} CompletesExactlyWhen(now: Instant, deadline: Instant, events: seq<Event>,
                                                result: ProcessingResult)
    ensures Ending(now, deadline, events) == Completed(result) <==>
            exists k: nat :: DecidedAt(now, deadline, events, k) && events[k].Finished?
              && events[k].outcome == Returned(result)
  {
    hide Ending, ClockAt;
    EndsInTime(now, deadline, events);
    if Ending(now, deadline, events) == Completed(result) {
      var k: nat :| DecidedAt(now, deadline, events, k);
      assert Ending(now, deadline, events) == EndOf(events[k]);
    }
  }

  lemma NothingLeft(now: Instant, deadline: Instant, p: Id)
    ensures Ending(now, deadline, []) == DeadlinePassed && RenewalsDue(now, deadline, [], p) == []
  {
  }

  /** How an execution ends and what its worker does until then. */
  ghost predicate ExecutesAs(now: Instant, deadline: Instant, events: seq<Event>, p: Id, end: Execution,
                             own: seq<Action>) {
    if end == LeaseLost then own != [] && own <= RenewalsDue(now, deadline, events, p)
    else
      && end == Ending(now, deadline, events)
      && (own == RenewalsDue(now, deadline, events, p) ||
          (EndsStored(now, deadline, events) &&
           own == RenewalsDue(now, deadline, events, p) + [LeaseProtocol.Renew(p)]))
  }

  /** The settlement that `handle` chooses for an execution that kept its lease. */
  function SettlementOf(e: Execution, p: Id): Action {
    match e
    case Completed(result) => Settle(p, result)
    case Failed(error) => Fail(p, ClassifyFailure(error))
    case _ => Fail(p, DEADLINE_EXCEEDED)
  }

  // ----- What a settlement leaves on the rows -----

  /**
   After an error: a lost connection sends the job back to the queue for 30 seconds, with NACK, before the
   third attempt and fails it from then on; a timeout and any other error fail it at once.
   */
  ghost predicate ErrorSettles(s: System, t: System, c: Claim, error: Error) {
    match error
    case ConnectionError =>
      if c.attempt < 3 then
        && SettledAs(s, t, c, QUEUED, RUN_QUEUED, Some(MCP_TRANSPORT), NACK)
        && t.db.jobs[c.message.job].availableAt == s.now + 30000000
      else SettledAs(s, t, c, JobStatus.FAILED, RUN_FAILED, Some(MCP_TRANSPORT), ACK)
    case TimeoutError => SettledAs(s, t, c, JobStatus.FAILED, RUN_FAILED, Some(DEADLINE_EXCEEDED), ACK)
    case OtherError => SettledAs(s, t, c, JobStatus.FAILED, RUN_FAILED, Some(INTERNAL_ERROR), ACK)
  }

  ghost predicate ResultSettles(s: System, t: System, c: Claim, result: ProcessingResult) {
    match result.status
    case COMPLETE => SettledAs(s, t, c, SUCCEEDED, RUN_SUCCEEDED, None, ACK)
    case PARTIAL => SettledAs(s, t, c, SUCCEEDED, RUN_PARTIAL, None, ACK)
    case FAILED_RESULT =>
      SettledAs(s, t, c, JobStatus.FAILED, RUN_FAILED, Some(if result.failure.Some? then result.failure.value
                                                            else INTERNAL_ERROR), ACK)
  }

  ghost predicate EventSettles(s: System, t: System, c: Claim, e: Event)
    requires !e.RenewalDue?
  {
    match e
    case RenewalRaises(_, error, _) => ErrorSettles(s, t, c, error)
    case Finished(_, Raised(error)) => ErrorSettles(s, t, c, error)
    case Finished(_, Returned(result)) => ResultSettles(s, t, c, result)
  }

  /** The rows tell the event that decided the execution, or that its deadline passed. */
  ghost predicate RowsTell(s: System, t: System, c: Claim, now: Instant, deadline: Instant, events: seq<Event>) {
    && (forall k: nat :: DecidedAt(now, deadline, events, k) ==> EventSettles(s, t, c, events[k]))
    && ((forall k: nat :: !DecidedAt(now, deadline, events, k)) ==>
          SettledAs(s, t, c, JobStatus.FAILED, RUN_FAILED, Some(DEADLINE_EXCEEDED), ACK))
  }

  /** A settlement by a claim that holds its row tells how the execution ended; a lost claim's changes nothing. */
  ghost predicate SettlesFrom(s: System, t: System, p: Id, c: Claim, now: Instant, deadline: Instant,
                              events: seq<Event>) {
    && At(s, p) && s.phases[p].Working? && s.phases[p].claim == c
    && (HoldsRow(s.db, c) ==> RowsTell(s, t, c, now, deadline, events))
    && (!HoldsRow(s.db, c) ==> t.db == s.db && t.log == s.log + [Entry(c.message, NACK)])
  }

  lemma {:induction false} SettlementTells(s: System, p: Id, now: Instant, deadline: Instant, events: seq<Event>)
    requires Inv(s) && At(s, p) && s.phases[p].Working?
    ensures SettlesFrom(s, Step(s, SettlementOf(Ending(now, deadline, events), p)), p, s.phases[p].claim, now,
                        deadline, events)
  {
    hide Inv, Ending, DecidedAt, SettledAs;
    var c := s.phases[p].claim;
    if HoldsRow(s.db, c) {
      HeldSettlementTells(s, p, now, deadline, events);
    } else {
      LostSettlement(s, p, Ending(now, deadline, events));
    }
  }

  lemma LostSettlement(s: System, p: Id, e: Execution)
    requires Inv(s) && At(s, p) && s.phases[p].Working? && !HoldsRow(s.db, s.phases[p].claim)
    ensures var t := Step(s, SettlementOf(e, p));
            t.db == s.db && t.log == s.log + [Entry(s.phases[p].claim.message, NACK)]
  {
    hide Inv;
    PhaseAt(s, p);
  }

  lemma {:induction false} HeldSettlementTells(s: System, p: Id, now: Instant, deadline: Instant, events: seq<Event>)
    requires Inv(s) && At(s, p) && s.phases[p].Working? && HoldsRow(s.db, s.phases[p].claim)
    ensures RowsTell(s, Step(s, SettlementOf(Ending(now, deadline, events), p)), s.phases[p].claim, now, deadline,
                     events)
  {
    hide Inv, Ending, ClockAt, SettledAs, Step, HoldsRow;
    var c, end := s.phases[p].claim, Ending(now, deadline, events);
    var t := Step(s, SettlementOf(end, p));
    EndsInTime(now, deadline, events);
    HolderFails(s, p, DEADLINE_EXCEEDED);
    forall k: nat | DecidedAt(now, deadline, events, k)
      ensures EventSettles(s, t, c, events[k])
    {
      match events[k]
      case RenewalRaises(_, error, _) => HolderFails(s, p, ClassifyFailure(error));
      case Finished(_, Raised(error)) => HolderFails(s, p, ClassifyFailure(error));
      case Finished(_, Returned(result)) => HolderSettles(s, p, result);
    }
  }

  /** What one worker does in a call of `handle`, apart from receiving the message. */
  ghost predicate HandlesAs(own: seq<Action>, p: Id, now: Instant, deadline: Instant, events: seq<Event>,
                            d: Disposition) {
    || own == [Look(p)]
    || (own == [Look(p), Mark(p)] && d == ACK)
    || own == RenewalsDue(now, deadline, events, p) + [SettlementOf(Ending(now, deadline, events), p)]
    || (EndsStored(now, deadline, events) &&
        own == RenewalsDue(now, deadline, events, p)
               + [LeaseProtocol.Renew(p), SettlementOf(Ending(now, deadline, events), p)])
    || (own != [] && own <= RenewalsDue(now, deadline, events, p) && d == NACK)
  }

  /** The deadline of the claim that a worker has in flight. */
  function DeadlineOf(phase: Phase): Instant {
    if phase.Working? then phase.claim.deadline else 0
  }

  /** The database, the clock and every worker running against it. */
  class Cluster {
    var jobs: map<Id, Job>
    var runs: map<Id, Run>
    var attempts: map<Id, map<nat, Attempt>>
    var now: Instant
    const workers: map<Id, Worker>
    var phases: map<Id, Phase>
    var log: seq<Entry>

    function Sys(): System
      reads this
    {
      System(Tables(jobs, runs, attempts), now, workers, phases, log)
    }

    ghost predicate Valid()
      reads this
    {
      Inv(Sys())
    }

    constructor (workers: map<Id, Worker>, now: Instant)
      requires DistinctIds(workers) && forall p :: p in workers ==> workers[p].Valid()
      ensures Valid() && Init(Sys()) && Sys().now == now && Sys().workers == workers
    {
      this.workers := workers;
      this.now := now;
      jobs, runs, attempts, log := map[], map[], map[], [];
      phases := map p | p in workers :: Idle;
    }

    /** What everyone else does between two transactions of one worker. */
    method Interleave(p: Id, actions: seq<Action>)
      requires Valid() && At(Sys(), p) && OthersOnly(actions, p)
      modifies this
      ensures Valid() && Sys() == Exec(old(Sys()), actions)
      ensures At(Sys(), p) && Sys().phases[p] == old(Sys()).phases[p] && |log| >= old(|log|)
    {
      hide Inv, Step;
      OthersKeepPhase(Sys(), actions, p);
      RunsKeepInv(Sys(), actions);
      LogGrows(Sys(), actions);
      var s := Exec(Sys(), actions);
      jobs, runs, attempts, now, phases, log := s.db.jobs, s.db.runs, s.db.attempts, s.now, s.phases, s.log;
    }

    /** `_claim` */
    method Claim(p: Id, message: Message) returns (claim: Option<Claim>)
      requires Valid() && At(Sys(), p) && Sys().phases[p].Idle?
      modifies this
      ensures Valid() && Sys() == Step(old(Sys()), Receive(p, message))
      ensures At(Sys(), p)
      ensures claim.Some? ==> Sys().phases[p] == Working(claim.value, now + 60000000) && claim.value.message == message
      ensures claim.None? ==> Sys().phases[p] == Looking(message)
      ensures log == old(log)
    {
      hide Inv;
      StepKeepsInv(Sys(), Receive(p, message));
      if !Claimable(Tables(jobs, runs, attempts), now, workers[p], message) {
        phases := phases[p := Looking(message)];
        return None;
      }
      var job := jobs[message.job];
      jobs := jobs[message.job := job.(
        status := RUNNING, owner := Some(workers[p].id), leaseUntil := Some(now + LEASE),
        attempts := job.attempts + 1, startedAt := OrNow(job.startedAt, now))];
      var run := runs[message.run];
      runs := runs[message.run := run.(status := RUN_RUNNING, startedAt := OrNow(run.startedAt, now))];
      var rows: map<nat, Attempt> := if message.job in attempts then attempts[message.job] else map[];
      attempts := attempts[message.job := rows[job.attempts + 1 := Attempt(None, None)]];
      var taken := LeaseTables.Claim(message, job.attempts + 1, Deadline(job, now, workers[p]), workers[p].id);
      phases := phases[p := Working(taken, now + LEASE)];
      return Some(taken);
    }

    /** One round of `_renew_lease`; a lost lease ends `handle` with NACK. */
    method Renew(p: Id) returns (renewed: bool)
      requires Valid() && At(Sys(), p) && Sys().phases[p].Working?
      modifies this
      ensures Valid() && Sys() == Step(old(Sys()), LeaseProtocol.Renew(p))
      ensures At(Sys(), p)
      ensures renewed ==> Sys().phases[p] == Working(old(Sys()).phases[p].claim, now + 60000000)
      ensures renewed ==> var job := old(Sys()).phases[p].claim.message.job;
                          job in jobs && jobs[job].leaseUntil == Some(now + 60000000)
      ensures renewed ==> log == old(log)
      ensures !renewed ==> Answered(p, old(Sys()).phases[p].claim.message, NACK) && |log| > old(|log|)
    {
      hide Inv;
      StepKeepsInv(Sys(), LeaseProtocol.Renew(p));
      var c := phases[p].claim;
      var id := c.message.job;
      renewed := id in jobs && jobs[id].status == RUNNING && jobs[id].owner == Some(c.owner);
      if renewed {
        jobs := jobs[id := jobs[id].(leaseUntil := Some(now + LEASE))];
        phases := phases[p := Working(c, now + LEASE)];
      } else {
        phases, log := phases[p := Idle], log + [Entry(c.message, NACK)];
      }
    }

    /** `handle` has just returned `d` for this message. */
    predicate Answered(p: Id, message: Message, d: Disposition)
      reads this
    {
      p in phases && phases[p].Idle? && |log| > 0 && log[|log| - 1] == Entry(message, d)
    }

    /** `UPDATE worker_attempts SET completed_at=now(), failure_code=:failure WHERE ...` */
    method UpdateAttempt(c: Claim, failure: Option<FailureCode>)
      modifies this`attempts
      ensures attempts == CloseAttempt(old(attempts), c, now, failure)
    {
      var id := c.message.job;
      if id in attempts && c.attempt in attempts[id] {
        var rows: map<nat, Attempt> := attempts[id];
        attempts := attempts[id := rows[c.attempt := Attempt(Some(now), failure)]];
      }
    }

    /** `UPDATE rca_runs SET status=:status, failure_code=:failure WHERE id=:id` */
    method UpdateRun(id: Id, status: RunStatus, failure: Option<FailureCode>, completedAt: Option<Instant>)
      modifies this`runs
      ensures runs == SetRun(old(runs), id, status, failure, completedAt)
    {
      if id in runs {
        runs := runs[id := runs[id].(status := status, failure := failure, completedAt := completedAt)];
      }
    }

    /** `_settle_success` */
    method SettleSuccess(p: Id, result: ProcessingResult) returns (d: Disposition)
      requires Valid() && At(Sys(), p) && Sys().phases[p].Working?
      modifies this
      ensures Valid() && Sys() == Step(old(Sys()), Settle(p, result))
      ensures At(Sys(), p) && Answered(p, old(Sys()).phases[p].claim.message, d) && |log| > old(|log|)
    {
      hide Inv, StepReceive, StepRenew, StepFail, StepLook, StepMark, SetRun, CloseAttempt;
      StepKeepsInv(Sys(), Settle(p, result));
      var c := phases[p].claim;
      var id := c.message.job;
      var jobStatus := if result.status == FAILED_RESULT then JobStatus.FAILED else SUCCEEDED;
      var failure := if result.status == FAILED_RESULT then result.failure else None;
      if result.status == FAILED_RESULT && failure.None? {
        failure := Some(INTERNAL_ERROR);
      }
      phases := phases[p := Idle];
      if id !in jobs || jobs[id].status != RUNNING || jobs[id].owner != Some(c.owner) {
        log := log + [Entry(c.message, NACK)];
        return NACK;
      }
      jobs := jobs[id := jobs[id].(status := jobStatus, completedAt := Some(now), owner := None, leaseUntil := None)];
      UpdateRun(c.message.run, ResultRunStatus(result), failure, Some(now));
      UpdateAttempt(c, failure);
      log := log + [Entry(c.message, ACK)];
      return ACK;
    }

    /** `_settle_failure` */
    method SettleFailure(p: Id, code: FailureCode) returns (d: Disposition)
      requires Valid() && At(Sys(), p) && Sys().phases[p].Working?
      modifies this
      ensures Valid() && Sys() == Step(old(Sys()), Fail(p, code))
      ensures At(Sys(), p) && Answered(p, old(Sys()).phases[p].claim.message, d) && |log| > old(|log|)
    {
      hide Inv, StepReceive, StepRenew, StepSettle, StepLook, StepMark, SetRun, CloseAttempt;
      StepKeepsInv(Sys(), Fail(p, code));
      var c := phases[p].claim;
      var id := c.message.job;
      var terminal := code != MCP_TRANSPORT || c.attempt >= MAX_ATTEMPTS;
      phases := phases[p := Idle];
      if id !in jobs || jobs[id].status != RUNNING || jobs[id].owner != Some(c.owner) {
        log := log + [Entry(c.message, NACK)];
        return NACK;
      }
      var job := jobs[id];
      jobs := jobs[id := job.(
        status := if terminal then JobStatus.FAILED else QUEUED,
        availableAt := if terminal then job.availableAt else now + RETRY_DELAY,
        completedAt := if terminal then Some(now) else None, owner := None, leaseUntil := None)];
      UpdateAttempt(c, Some(code));
      UpdateRun(c.message.run, if terminal then RUN_FAILED else RUN_QUEUED, if terminal then Some(code) else None,
                RunCompleted(runs, c.message.run));
      d := if terminal then ACK else NACK;
      log := log + [Entry(c.message, d)];
    }

    /** `_unclaimed_disposition`: the read, then possibly the marking transaction after `others` acted. */
    method UnclaimedDisposition(p: Id, message: Message,
                                others: seq<Action>) returns (d: Disposition, ghost trace: seq<Action>)
      requires Valid() && At(Sys(), p) && Sys().phases[p] == Looking(message) && OthersOnly(others, p)
      modifies this
      ensures Valid() && Sys() == Exec(old(Sys()), trace)
      ensures At(Sys(), p) && Answered(p, message, d) && |log| > old(|log|)
      ensures OwnActions(trace, p) == [Look(p)] || (OwnActions(trace, p) == [Look(p), Mark(p)] && d == ACK)
    {
      hide Inv, Exec, OwnActions;
      trace := [Look(p)];
      OwnOne(Look(p), p);
      StepKeepsInv(Sys(), Look(p));
      ExecOne(Sys(), Look(p));
      var decision := Decide(Tables(jobs, runs, attempts), now, workers[p], message);
      if decision.Answer? {
        phases, log := phases[p := Idle], log + [Entry(message, decision.disposition)];
        return decision.disposition, trace;
      }
      phases := phases[p := Marking(message, decision.code)];
      ghost var s1 := Sys();
      Interleave(p, others);
      ghost var s2 := Sys();
      MarkUnclaimedTerminal(p);
      assert Sys() == Exec(old(Sys()), [Look(p)] + others + [Mark(p)]) by {
        ExecOne(s2, Mark(p));
        ExecConcat(old(Sys()), [Look(p)], others);
        ExecConcat(old(Sys()), [Look(p)] + others, [Mark(p)]);
      }
      trace := [Look(p)] + others + [Mark(p)];
      OwnExtends([Look(p)], others, Mark(p), p);
      assert trace == [Look(p)] + (others + [Mark(p)]);
      d := ACK;
    }

    /** `_mark_unclaimed_terminal` */
    method MarkUnclaimedTerminal(p: Id)
      requires Valid() && At(Sys(), p) && Sys().phases[p].Marking?
      modifies this
      ensures Valid() && Sys() == Step(old(Sys()), Mark(p))
      ensures At(Sys(), p) && Answered(p, old(Sys()).phases[p].message, ACK) && |log| > old(|log|)
    {
      hide Inv;
      StepKeepsInv(Sys(), Mark(p));
      var message, code := phases[p].message, phases[p].code;
      var id, run := message.job, message.run;
      if id in jobs && jobs[id].run == run && !TerminalStatus(jobs[id].status) {
        jobs := jobs[id := jobs[id].(status := JobStatus.FAILED, completedAt := Some(now), owner := None,
                                     leaseUntil := None)];
        if run in runs && runs[run].incident == message.incident {
          runs := runs[run := runs[run].(status := RUN_FAILED, failure := Some(code), completedAt := Some(now))];
        }
      }
      phases, log := phases[p := Idle], log + [Entry(message, ACK)];
    }

    /** A renewal whose transaction raises; what it stored, the worker does not learn. */
    method RenewalFault(p: Id, stored: bool) returns (ghost trace: seq<Action>)
      requires Valid() && At(Sys(), p) && Sys().phases[p].Working?
      modifies this
      ensures Valid() && Sys() == Exec(old(Sys()), trace) && At(Sys(), p) && |log| >= old(|log|)
      ensures Sys().phases[p].Working? && Sys().phases[p].claim == old(Sys()).phases[p].claim
      ensures trace == [] || (stored && trace == [LeaseProtocol.Renew(p)])
    {
      hide Inv, Step;
      ExecNone(Sys());
      var c := phases[p].claim;
      var id := c.message.job;
      trace := [];
      if stored && id in jobs && jobs[id].status == RUNNING && jobs[id].owner == Some(c.owner) {
        RenewStays(Sys(), p);
        ExecOne(Sys(), LeaseProtocol.Renew(p));
        var renewed := Renew(p);
        trace := [LeaseProtocol.Renew(p)];
      }
    }

    /** One event of an execution, after the others have acted. */
    method Happens(p: Id, e: Event) returns (end: Option<Execution>, ghost trace: seq<Action>)
      requires Valid() && At(Sys(), p) && Sys().phases[p].Working? && OthersOnly(e.others, p)
      modifies this
      ensures Valid() && Sys() == Exec(old(Sys()), trace) && At(Sys(), p) && |log| >= old(|log|)
      ensures HappensAs(old(now), old(Sys()).phases[p].claim.deadline, e, p, end, OwnActions(trace, p))
      ensures end == Some(LeaseLost) ==> Answered(p, old(Sys()).phases[p].claim.message, NACK) && |log| > old(|log|)
      ensures end != Some(LeaseLost) ==> Sys().phases[p].Working? && Sys().phases[p].claim == old(Sys()).phases[p].claim
      ensures end == None ==> now == old(now) + Elapsed(e.others)
      ensures end == Some(DeadlinePassed) ==> old(Sys()).phases[p].claim.deadline <= now
    {
      hide Inv, Step, Exec, OwnActions, Elapsed;
      ghost var start := Sys();
      var deadline := phases[p].claim.deadline;
      ExecElapses(Sys(), e.others);
      OwnOfOthers(e.others, p);
      Interleave(p, e.others);
      trace := e.others;
      if deadline <= now {
        return Some(DeadlinePassed), trace;
      }
      ghost var due := Sys();
      OwnOne(LeaseProtocol.Renew(p), p);
      OwnConcat(e.others, [LeaseProtocol.Renew(p)], p);
      ExecConcat(start, e.others, [LeaseProtocol.Renew(p)]);
      match e {
        case Finished(_, _) =>
          return Some(EndOf(e)), trace;
        case RenewalRaises(_, _, stored) =>
          ghost var own := RenewalFault(p, stored);
          ExecConcat(start, e.others, own);
          assert e.others + [] == e.others;
          return Some(EndOf(e)), e.others + own;
        case RenewalDue(_) =>
          StepElapses(due, LeaseProtocol.Renew(p));
          ExecOne(due, LeaseProtocol.Renew(p));
          var renewed := Renew(p);
          return if renewed then None else Some(LeaseLost), e.others + [LeaseProtocol.Renew(p)];
      }
    }

    /**
     `_execute_with_lease`: renewals until the processor ends, a renewal raises, the lease is lost or the
     claim's deadline passes. A processor that never finishes is waited for until the deadline.
     */
    method ExecuteWithLease(p: Id, events: seq<Event>) returns (end: Execution, ghost trace: seq<Action>)
      requires Valid() && At(Sys(), p) && Sys().phases[p].Working? && EventsByOthers(events, p)
      modifies this
      ensures Valid() && Sys() == Exec(old(Sys()), trace) && At(Sys(), p) && |log| >= old(|log|)
      ensures end == LeaseLost ==> Answered(p, old(Sys()).phases[p].claim.message, NACK) && |log| > old(|log|)
      ensures end != LeaseLost ==> Sys().phases[p].Working? && Sys().phases[p].claim == old(Sys()).phases[p].claim
      ensures ExecutesAs(old(now), old(Sys()).phases[p].claim.deadline, events, p, end, OwnActions(trace, p))
      ensures end == DeadlinePassed ==> old(Sys()).phases[p].claim.deadline <= now
    {
      hide Inv, Step, Exec, OwnActions, Elapsed, HappensAs, Ending, RenewalsDue, EndsStored;
      ghost var start := Sys();
      var deadline := phases[p].claim.deadline;
      trace := [];
      ExecNone(Sys());
      OwnOfOthers([], p);
      assert events[0..] == events;
      for k := 0 to |events|
        invariant Valid() && Sys() == Exec(start, trace) && At(Sys(), p) && |log| >= old(|log|)
        invariant Sys().phases[p].Working? && Sys().phases[p].claim == start.phases[p].claim
        invariant Ending(start.now, deadline, events) == Ending(now, deadline, events[k..])
        invariant EndsStored(start.now, deadline, events) == EndsStored(now, deadline, events[k..])
        invariant RenewalsDue(start.now, deadline, events, p)
                  == OwnActions(trace, p) + RenewalsDue(now, deadline, events[k..], p)
      {
        assert OthersOnly(events[k].others, p);
        assert events[k..][0] == events[k] && events[k..][1..] == events[k + 1..];
        ghost var before := now;
        var result;
        ghost var done;
        result, done := Happens(p, events[k]);
        EventDecides(before, deadline, events[k..], p, result, OwnActions(done, p));
        ExecConcat(start, trace, done);
        OwnConcat(trace, done, p);
        trace := trace + done;
        if result.Some? {
          return result.value, trace;
        }
      }
      NothingLeft(now, deadline, p);
      ghost var wait := WaitUntil(p, deadline);
      ExecConcat(start, trace, wait);
      OwnConcat(trace, wait, p);
      OwnOfOthers(wait, p);
      return DeadlinePassed, trace + wait;
    }

    /** `asyncio.wait(..., timeout=remaining)` with nothing done. */
    method WaitUntil(p: Id, deadline: Instant) returns (ghost trace: seq<Action>)
      requires Valid() && At(Sys(), p)
      modifies this
      ensures Valid() && Sys() == Exec(old(Sys()), trace) && OthersOnly(trace, p) && deadline <= now
      ensures At(Sys(), p) && Sys().phases[p] == old(Sys()).phases[p] && |log| >= old(|log|)
    {
      hide Inv, Step, Exec, Elapsed;
      var wait := [Tick(if now < deadline then deadline - now else 0)];
      ExecOne(Sys(), wait[0]);
      StepElapses(Sys(), wait[0]);
      Interleave(p, wait);
      trace := wait;
    }

    /**
     `handle`. Whatever the processor does and however the other workers' transactions fall in
     between, the call is a run of the protocol in which this worker renews as long as the processor
     runs and settles as it ended; it answers its message once, and it acknowledges a message whose
     triple named a row only after that job is durably terminal. `ready` is the system just before the
     settlement, if one is reached: the rows then tell how the execution ended.
     */
    method Handle(p: Id, message: Message, events: seq<Event>, others: seq<Action>)
      returns (d: Disposition, ghost trace: seq<Action>, ghost ready: Option<System>)
      requires Valid() && At(Sys(), p) && Sys().phases[p].Idle?
      requires EventsByOthers(events, p) && OthersOnly(others, p)
      modifies this
      ensures Valid() && Sys() == Exec(old(Sys()), [Receive(p, message)] + trace)
      ensures Answered(p, message, d) && |log| > old(|log|)
      ensures d == ACK && Matches(old(Sys()).db, message) ==> Terminal(Sys().db, message.job)
      ensures var claimed := Step(old(Sys()), Receive(p, message));
              p in claimed.phases && HandlesAs(OwnActions(trace, p), p, old(now), DeadlineOf(claimed.phases[p]),
                                               events, d)
      ensures var claimed := Step(old(Sys()), Receive(p, message));
              p in claimed.phases && Settled(claimed.phases[p], p, old(now), events, ready, OwnActions(trace, p))
    {
      hide Inv, Step, Exec, Matches, Claimable, OwnActions, SettlesFrom;
      ghost var start := Sys();
      var claim := Claim(p, message);
      ghost var claimed := Sys();
      ExecOne(start, Receive(p, message));
      StepElapses(start, Receive(p, message));
      if claim.None? {
        Interleave(p, others);
        ghost var rest;
        d, rest := UnclaimedDisposition(p, message, others);
        trace := others + rest;
        ExecConcat(claimed, others, rest);
        OwnConcat(others, rest, p);
        OwnOfOthers(others, p);
        ready := None;
      } else {
        d, trace, ready := ExecuteAndSettle(p, events, others);
      }
      ExecConcat(start, [Receive(p, message)], trace);
      AckedMeansTerminal(start, [Receive(p, message)] + trace, message);
    }

    /** A call that reaches its settlement leaves rows that tell how its execution ended. */
    ghost predicate Settled(phase: Phase, p: Id, now: Instant, events: seq<Event>, ready: Option<System>,
                            own: seq<Action>)
      reads this
    {
      && (ready.Some? <==> own != [] && (own[|own| - 1].Settle? || own[|own| - 1].Fail?))
      && (ready.Some? ==>
            phase.Working? && SettlesFrom(ready.value, Sys(), p, phase.claim, now, phase.claim.deadline, events))
    }

    method ExecuteAndSettle(p: Id, events: seq<Event>, others: seq<Action>)
      returns (d: Disposition, ghost trace: seq<Action>, ghost ready: Option<System>)
      requires Valid() && At(Sys(), p) && Sys().phases[p].Working?
      requires EventsByOthers(events, p) && OthersOnly(others, p)
      modifies this
      ensures Valid() && Sys() == Exec(old(Sys()), trace)
      ensures Answered(p, old(Sys()).phases[p].claim.message, d) && |log| > old(|log|)
      ensures HandlesAs(OwnActions(trace, p), p, old(now), old(Sys()).phases[p].claim.deadline, events, d)
      ensures Settled(old(Sys()).phases[p], p, old(now), events, ready, OwnActions(trace, p))
    {
      hide Inv, Step, Exec, OwnActions, RenewalsDue, Ending, EndsStored, SettlesFrom;
      var end;
      end, trace := ExecuteWithLease(p, events);
      if end == LeaseLost {
        OnlyRenewals(old(now), old(Sys()).phases[p].claim.deadline, events, p);
        return NACK, trace, None;
      }
      ghost var executed := Sys();
      Interleave(p, others);
      ghost var before := Sys();
      ready := Some(before);
      SettlementTells(before, p, old(now), old(Sys()).phases[p].claim.deadline, events);
      ghost var last;
      if end.Completed? {
        d := SettleSuccess(p, end.result);
        last := Settle(p, end.result);
      } else {
        var code := if end.Failed? then ClassifyFailure(end.error) else DEADLINE_EXCEEDED;
        d := SettleFailure(p, code);
        last := Fail(p, code);
      }
      ExecOne(before, last);
      ExecConcat(executed, others, [last]);
      ExecConcat(old(Sys()), trace, others + [last]);
      OwnExtends(trace, others, last, p);
      trace := trace + (others + [last]);
    }
  }

  lemma {:induction false} OnlyRenewals(now: Instant, deadline: Instant, events: seq<Event>, p: Id)
    ensures forall k :: 0 <= k < |RenewalsDue(now, deadline, events, p)| ==>
              RenewalsDue(now, deadline, events, p)[k] == LeaseProtocol.Renew(p)
    decreases |events|
  {
    if events != [] {
      OnlyRenewals(now + Elapsed(events[0].others), deadline, events[1..], p);
    }
  }

  /** A renewal by a worker that owns the row keeps its claim in flight. */
  lemma RenewStays(s: System, p: Id)
    requires At(s, p) && s.phases[p].Working? && Owns(s.db, s.phases[p].claim)
    ensures var t := Step(s, LeaseProtocol.Renew(p));
            At(t, p) && t.phases[p].Working? && t.phases[p].claim == s.phases[p].claim && t.log == s.log
  {
  }

  lemma ExecNone(s: System)
    ensures Exec(s, []) == s
  {
  }

  /** The last disposition of a run, when it acknowledges a message that named a row, is durable. */
  lemma {:induction false} AckedMeansTerminal(s: System, actions: seq<Action>, message: Message)
    requires Inv(s)
    requires var t := Exec(s, actions); |t.log| > |s.log| && t.log[|t.log| - 1].message == message
    ensures var t := Exec(s, actions);
            t.log[|t.log| - 1].disposition == ACK && Matches(s.db, message) ==> Terminal(t.db, message.job)
  {
    hide Inv, Step, Exec, Matches;
    var t := Exec(s, actions);
    if t.log[|t.log| - 1].disposition == ACK && Matches(s.db, message) {
      AckIsDurable(s, actions, |t.log| - 1);
    }
  }
}
