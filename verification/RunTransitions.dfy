/**
 The backend's table of RCA run transitions, compared with what the workers' transactions do to
 `rca_runs.status`.
 */
module RunTransitions {
  import opened Common
  import opened LeaseTables
  import opened LeaseProtocol
  import opened LeaseLimits

  /** `_RCA_RUN_TRANSITIONS` on the statuses that the transactions write. */
  predicate TransitionAllowed(from: RunStatus, to: RunStatus) {
    match from
    case RUN_QUEUED => to == RUN_RUNNING
    case RUN_RUNNING => to in {RUN_SUCCEEDED, RUN_PARTIAL, RUN_FAILED}
    case _ => false
  }

  /** The step changes the run's status in a way that the table does not list. */
  predicate LeavesTable(s: System, a: Action, run: Id)
    requires run in s.db.runs && run in Step(s, a).db.runs
  {
    var from, to := s.db.runs[run].status, Step(s, a).db.runs[run].status;
    from != to && !TransitionAllowed(from, to)
  }

  /** A transport failure of a claim that owns the run's job, before its third attempt. */
  predicate Requeues(s: System, a: Action, run: Id) {
    && a.Fail? && At(s, a.p) && s.phases[a.p].Working?
    && var c := s.phases[a.p].claim;
    c.message.run == run && Owns(s.db, c) && a.code == MCP_TRANSPORT && c.attempt < MAX_ATTEMPTS
  }

  /** A mark of the run's job while that job waits in the queue. */
  predicate FailsQueued(s: System, a: Action, run: Id) {
    && a.Mark? && At(s, a.p) && s.phases[a.p].Marking?
    && var msg := s.phases[a.p].message;
    msg.run == run && msg.job in s.db.jobs && s.db.jobs[msg.job].status == QUEUED
  }

  /**
   In every reachable system and for every step, a run's status leaves the table exactly in two cases:
   a transport failure sends it from `RUNNING` back to `QUEUED`, or a mark sends it from `QUEUED`
   straight to `FAILED`. The second happens only once the job's five minutes are over.
   */
  lemma {:induction false} LeavesTableExactlyWhen(s: System, a: Action, run: Id)
    requires Inv(s) && run in s.db.runs
    ensures run in Step(s, a).db.runs
    ensures LeavesTable(s, a, run) <==> Requeues(s, a, run) || FailsQueued(s, a, run)
    ensures Requeues(s, a, run) ==>
              s.db.runs[run].status == RUN_RUNNING && Step(s, a).db.runs[run].status == RUN_QUEUED
    ensures FailsQueued(s, a, run) ==>
              && s.db.runs[run].status == RUN_QUEUED && Step(s, a).db.runs[run].status == RUN_FAILED
              && s.db.jobs[s.phases[a.p].message.job].createdAt + JOB_LIFETIME <= s.now
  {
    hide Inv;
    match a
    case Fail(p, code) => if At(s, p) && s.phases[p].Working? { FailLeavesTable(s, p, code, run); }
    case Mark(p) => if At(s, p) && s.phases[p].Marking? { MarkLeavesTable(s, p, run); }
    case _ => OthersFollowTable(s, a, run);
  }

  lemma OthersFollowTable(s: System, a: Action, run: Id)
    requires Inv(s) && run in s.db.runs && !a.Fail? && !a.Mark?
    ensures run in Step(s, a).db.runs && !LeavesTable(s, a, run)
  {
    hide Inv;
    match a
    case Receive(p, msg) => if At(s, p) && Claimable(s.db, s.now, s.workers[p], msg) { JobRow(s, msg.job); }
    case Settle(p, result) => if At(s, p) && s.phases[p].Working? { OwnedRow(s, p); }
    case _ =>
  }

  lemma FailLeavesTable(s: System, p: Id, code: FailureCode, run: Id)
    requires Inv(s) && run in s.db.runs && At(s, p) && s.phases[p].Working?
    ensures run in Step(s, Fail(p, code)).db.runs
    ensures LeavesTable(s, Fail(p, code), run) <==> Requeues(s, Fail(p, code), run)
    ensures Requeues(s, Fail(p, code), run) ==>
              s.db.runs[run].status == RUN_RUNNING && Step(s, Fail(p, code)).db.runs[run].status == RUN_QUEUED
  {
    hide Inv;
    OwnedRow(s, p);
  }

  lemma MarkLeavesTable(s: System, p: Id, run: Id)
    requires Inv(s) && run in s.db.runs && At(s, p) && s.phases[p].Marking?
    ensures run in Step(s, Mark(p)).db.runs
    ensures LeavesTable(s, Mark(p), run) <==> FailsQueued(s, Mark(p), run)
    ensures FailsQueued(s, Mark(p), run) ==>
              && s.db.runs[run].status == RUN_QUEUED && Step(s, Mark(p)).db.runs[run].status == RUN_FAILED
              && s.db.jobs[s.phases[p].message.job].createdAt + JOB_LIFETIME <= s.now
  {
    hide Inv;
    PhaseAt(s, p);
    JobRow(s, s.phases[p].message.job);
  }

  lemma JobRow(s: System, job: Id)
    requires Inv(s) && job in s.db.jobs
    ensures s.db.jobs[job].run in s.db.runs && RowsAgree(s.db.jobs[job], s.db.runs[s.db.jobs[job].run])
  {
    CoupledAt(s.db, job);
  }

  lemma OwnedRow(s: System, p: Id)
    requires Inv(s) && At(s, p) && s.phases[p].Working?
    ensures var c := s.phases[p].claim;
            Owns(s.db, c) ==> Matches(s.db, c.message) && s.db.runs[c.message.run].status == RUN_RUNNING
  {
    PhaseAt(s, p);
    if Owns(s.db, s.phases[p].claim) {
      JobRow(s, s.phases[p].claim.message.job);
    }
  }

  // ----- Whole runs -----

  /** Every status that a run of the protocol gives to `run` follows the table. */
  ghost predicate FollowsTable(s: System, actions: seq<Action>, run: Id)
    requires Inv(s) && run in s.db.runs
    decreases |actions|
  {
    actions == [] ||
    (LeavesTableExactlyWhen(s, actions[0], run);
     StepKeepsInv(s, actions[0]);
     !LeavesTable(s, actions[0], run) && FollowsTable(Step(s, actions[0]), actions[1..], run))
  }

  /** The `k`-th step of the run is a requeue, or a mark of a queued job. */
  ghost predicate Deviates(s: System, actions: seq<Action>, k: nat, run: Id)
    requires k < |actions|
  {
    Requeues(Exec(s, actions[..k]), actions[k], run) || FailsQueued(Exec(s, actions[..k]), actions[k], run)
  }

  /** A whole run follows the table if and only if none of its steps is one of the two. */
  lemma {:induction false} FollowsTableExactlyWhen(s: System, actions: seq<Action>, run: Id)
    requires Inv(s) && run in s.db.runs
    ensures FollowsTable(s, actions, run) <==> forall k :: 0 <= k < |actions| ==> !Deviates(s, actions, k, run)
    decreases |actions|
  {
    hide Inv, Step, Requeues, FailsQueued;
    if actions != [] {
      var t, rest := Step(s, actions[0]), actions[1..];
      LeavesTableExactlyWhen(s, actions[0], run);
      StepKeepsInv(s, actions[0]);
      FollowsTableExactlyWhen(t, rest, run);
      assert Exec(s, actions[..0]) == s;
      assert Deviates(s, actions, 0, run) == LeavesTable(s, actions[0], run);
      forall k | 0 <= k < |rest|
        ensures Deviates(t, rest, k, run) == Deviates(s, actions, k + 1, run)
      {
        assert actions[..k + 1][1..] == rest[..k] && actions[..k + 1][0] == actions[0];
      }
      assert forall k :: 0 < k < |actions| ==> Deviates(s, actions, k, run) == Deviates(t, rest, k - 1, run);
    }
  }

  // ----- All of it happens -----

  /** No row of the table is idle: some run of the protocol takes it. */
  lemma {:induction false} TableIsTaken(s: System, p: Id, msg: Message, from: RunStatus, to: RunStatus)
    returns (before: seq<Action>, a: Action)
    requires Init(s) && At(s, p) && TransitionAllowed(from, to)
    ensures var t := Exec(s, before);
            && msg.run in t.db.runs && t.db.runs[msg.run].status == from
            && msg.run in Step(t, a).db.runs && Step(t, a).db.runs[msg.run].status == to
  {
    hide Step;
    assert Fresh(s);
    FirstAttempt(s, p, msg);
    ExecTwo(s, Insert(msg), Receive(p, msg));
    InsertedIsQueued(s, p, msg);
    if from == RUN_QUEUED {
      before, a := [Insert(msg)], Receive(p, msg);
      assert [Insert(msg)][1..] == [];
      assert Exec(s, [Insert(msg)]) == Exec(Step(s, Insert(msg)), []);
    } else {
      before := [Insert(msg), Receive(p, msg)];
      var status := if to == RUN_SUCCEEDED then COMPLETE
                    else if to == RUN_PARTIAL then ResultStatus.PARTIAL else FAILED_RESULT;
      a := Settle(p, ProcessingResult(status, None));
      HeldIsSettled(Step(Step(s, Insert(msg)), Receive(p, msg)), p, msg, status);
    }
  }

  lemma InsertedIsQueued(s: System, p: Id, msg: Message)
    requires Init(s) && At(s, p)
    ensures var queued := Step(s, Insert(msg));
            var running := Step(queued, Receive(p, msg));
            && msg.run in queued.db.runs && queued.db.runs[msg.run].status == RUN_QUEUED
            && msg.run in running.db.runs && running.db.runs[msg.run].status == RUN_RUNNING
  {
    var queued := Step(s, Insert(msg));
    DeadlineOpen(queued.db.jobs[msg.job], queued.now, queued.workers[p]);
    assert Claimable(queued.db, queued.now, queued.workers[p], msg);
  }

  lemma HeldIsSettled(s: System, p: Id, msg: Message, status: ResultStatus)
    requires At(s, p) && s.phases[p].Working? && s.phases[p].claim.message == msg
    requires Owns(s.db, s.phases[p].claim) && msg.run in s.db.runs
    ensures var t := Step(s, Settle(p, ProcessingResult(status, None)));
            msg.run in t.db.runs && t.db.runs[msg.run].status ==
            match status case COMPLETE => RUN_SUCCEEDED case PARTIAL => RUN_PARTIAL case FAILED_RESULT => RUN_FAILED
  {
  }

  /** A transport failure of the first attempt. */
  lemma {:induction false} RetryLeavesTable(s: System, p: Id, msg: Message)
    requires Init(s) && At(s, p)
    ensures var t := Exec(s, [Insert(msg), Receive(p, msg)]);
            && msg.run in t.db.runs && t.db.runs[msg.run].status == RUN_RUNNING
            && Requeues(t, Fail(p, MCP_TRANSPORT), msg.run)
            && msg.run in Step(t, Fail(p, MCP_TRANSPORT)).db.runs
            && Step(t, Fail(p, MCP_TRANSPORT)).db.runs[msg.run].status == RUN_QUEUED
  {
    var s1 := Step(s, Insert(msg));
    ExecTwo(s, Insert(msg), Receive(p, msg));
    DeadlineOpen(s1.db.jobs[msg.job], s1.now, s1.workers[p]);
    assert Claimable(s1.db, s1.now, s1.workers[p], msg);
  }

  /** The system just before a worker looks at a message that nobody has received for five minutes. */
  ghost predicate Expired(s: System, p: Id, msg: Message) {
    && At(s, p) && s.workers[p].Valid() && Matches(s.db, msg)
    && s.db.jobs[msg.job].status == QUEUED && s.db.runs[msg.run].status == RUN_QUEUED
    && s.db.jobs[msg.job].createdAt + JOB_LIFETIME <= s.now
  }

  lemma ExpiredIsMarked(s: System, p: Id, msg: Message)
    requires Expired(s, p, msg) && s.phases[p] == Looking(msg)
    ensures var t := Step(s, Look(p));
            && t.db == s.db && FailsQueued(t, Mark(p), msg.run)
            && msg.run in Step(t, Mark(p)).db.runs && Step(t, Mark(p)).db.runs[msg.run].status == RUN_FAILED
  {
    DeadlineOpen(s.db.jobs[msg.job], s.now, s.workers[p]);
  }

  lemma ExpiredIsNotClaimed(s: System, p: Id, msg: Message)
    requires Expired(s, p, msg) && s.phases[p].Idle?
    ensures Step(s, Receive(p, msg)) == s.(phases := s.phases[p := Looking(msg)])
  {
    DeadlineOpen(s.db.jobs[msg.job], s.now, s.workers[p]);
  }

  lemma {:induction false} ExpiresUnreceived(s: System, p: Id, msg: Message)
    requires Init(s) && At(s, p)
    ensures var t := Step(Step(s, Insert(msg)), Tick(JOB_LIFETIME)); Expired(t, p, msg) && t.phases[p].Idle?
  {
  }

  /** A message that nobody receives for five minutes. */
  lemma {:induction false} ExpiryLeavesTable(s: System, p: Id, msg: Message)
    requires Init(s) && At(s, p)
    ensures var t := Exec(s, [Insert(msg), Tick(JOB_LIFETIME), Receive(p, msg), Look(p)]);
            && msg.run in t.db.runs && t.db.runs[msg.run].status == RUN_QUEUED
            && FailsQueued(t, Mark(p), msg.run)
            && msg.run in Step(t, Mark(p)).db.runs && Step(t, Mark(p)).db.runs[msg.run].status == RUN_FAILED
  {
    hide Init, Step, FailsQueued;
    ExpiresUnreceived(s, p, msg);
    var s2 := Step(Step(s, Insert(msg)), Tick(JOB_LIFETIME));
    ExpiredIsNotClaimed(s2, p, msg);
    ExpiredIsMarked(Step(s2, Receive(p, msg)), p, msg);
    var before := [Insert(msg), Tick(JOB_LIFETIME), Receive(p, msg)];
    ExecThree(s, Insert(msg), Tick(JOB_LIFETIME), Receive(p, msg));
    ExecSnoc(s, before, Look(p));
    assert before + [Look(p)] == [Insert(msg), Tick(JOB_LIFETIME), Receive(p, msg), Look(p)];
  }

  lemma {:induction false} ExecTwo(s: System, a: Action, b: Action)
    ensures Exec(s, [a, b]) == Step(Step(s, a), b)
  {
    hide Step;
    assert [a, b] == [a] + [b];
    ExecSnoc(s, [a], b);
    assert [a][1..] == [];
    assert Exec(s, [a]) == Exec(Step(s, a), []);
  }
}
