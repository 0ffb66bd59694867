/** Runs that show where the lease protocol's guarantees end. */
module LeaseLimits {
  import opened Common
  import opened LeaseTables
  import opened LeaseProtocol

  /** As `Init`, without assuming that the workers are configured with different ids. */
  ghost predicate Fresh(s: System) {
    && s.phases.Keys == s.workers.Keys && (forall p :: p in s.workers ==> s.workers[p].Valid())
    && s.db == Tables(map[], map[], map[]) && s.log == []
    && forall p :: p in s.phases ==> s.phases[p].Idle?
  }

  ghost predicate Exclusive(s: System) {
    forall actions: seq<Action>, p, q, job
      {:trigger LiveHolder(Exec(s, actions), p, job), LiveHolder(Exec(s, actions), q, job)} ::
      LiveHolder(Exec(s, actions), p, job) && LiveHolder(Exec(s, actions), q, job) ==> p == q
  }

  lemma {:induction false} ExecSnoc(s: System, actions: seq<Action>, a: Action)
    ensures Exec(s, actions + [a]) == Step(Exec(s, actions), a)
    decreases |actions|
  {
    hide Step;
    if actions == [] {
      assert [a][1..] == [];
      assert actions + [a] == [a];
      assert Exec(s, [a]) == Exec(Step(s, a), []);
    } else {
      assert (actions + [a])[0] == actions[0] && (actions + [a])[1..] == actions[1..] + [a];
      ExecSnoc(Step(s, actions[0]), actions[1..], a);
    }
  }

  /** The job row of a system whose only job is `msg.job`, in its `n`-th attempt since `at`, run by `owner`. */
  ghost predicate AttemptRunning(s: System, msg: Message, born: Instant, n: nat, owner: Id, at: Instant) {
    && Matches(s.db, msg)
    && var j := s.db.jobs[msg.job];
    && j.status == RUNNING && j.owner == Some(owner) && j.leaseUntil == Some(at + LEASE)
    && j.attempts == n && j.createdAt == born && j.availableAt == born
  }

  lemma {:induction false} FirstAttempt(s: System, p: Id, msg: Message)
    requires Fresh(s) && At(s, p)
    ensures var t := Step(Step(s, Insert(msg)), Receive(p, msg));
            && t.now == s.now && t.workers == s.workers
            && AttemptRunning(t, msg, s.now, 1, s.workers[p].id, s.now)
            && t.phases == s.phases[p :=
                                    Working(Claim(msg, 1, Deadline(t.db.jobs[msg.job], s.now, s.workers[p]),
                                                  s.workers[p].id), s.now + LEASE)]
  {
    var s1 := Step(s, Insert(msg));
    assert s1.db.jobs[msg.job] == Job(msg.run, QUEUED, None, None, 0, s.now, s.now, None, None);
    DeadlineOpen(s1.db.jobs[msg.job], s1.now, s1.workers[p]);
    assert Claimable(s1.db, s1.now, s1.workers[p], msg);
  }

  /** One microsecond after its lease, an attempt can be taken over. */
  lemma {:induction false} NextAttempt(s: System, p: Id, msg: Message, born: Instant, n: nat, owner: Id)
    requires At(s, p) && s.workers[p].Valid() && s.phases[p].Idle?
    requires 0 < n < MAX_ATTEMPTS && AttemptRunning(s, msg, born, n, owner, s.now - LEASE - 1)
    requires s.now < born + JOB_LIFETIME && born <= s.now
    ensures var t := Step(s, Receive(p, msg));
            && t.now == s.now && t.workers == s.workers
            && AttemptRunning(t, msg, born, n + 1, s.workers[p].id, s.now)
            && t.phases == s.phases[p :=
                                    Working(Claim(msg, n + 1, Deadline(t.db.jobs[msg.job], s.now, s.workers[p]),
                                                  s.workers[p].id), s.now + LEASE)]
  {
    DeadlineOpen(s.db.jobs[msg.job], s.now, s.workers[p]);
    assert Claimable(s.db, s.now, s.workers[p], msg);
  }

  /**
   Two workers configured with one id: the second takes the job over, and the first, whose guard
   compares owners only, renews the lease it had lost.
   */
  lemma {:induction false} SharedIdBreaksExclusion(s: System, p: Id, q: Id, msg: Message)
    requires Fresh(s) && At(s, p) && At(s, q) && p != q && s.workers[p].id == s.workers[q].id
    ensures var t := Exec(s, [Insert(msg), Receive(p, msg), Tick(LEASE + 1), Receive(q, msg), Renew(p)]);
            LiveHolder(t, p, msg.job) && LiveHolder(t, q, msg.job)
  {
    var s2 := Step(Step(s, Insert(msg)), Receive(p, msg));
    var s3 := Step(s2, Tick(LEASE + 1));
    var s4 := Step(s3, Receive(q, msg));
    var s5 := Step(s4, Renew(p));
    assert Exec(s, [Insert(msg), Receive(p, msg), Tick(LEASE + 1), Receive(q, msg), Renew(p)]) == s5 by {
      hide Step;
      ExecFive(s, Insert(msg), Receive(p, msg), Tick(LEASE + 1), Receive(q, msg), Renew(p));
    }
    hide Fresh;
    FirstAttempt(s, p, msg);
    assert s3.now == s.now + LEASE + 1 && s3.db == s2.db && s3.phases == s2.phases;
    assert s3.workers[q].Valid() && s3.phases[q].Idle? by {
      FreshAt(s, q);
    }
    NextAttempt(s3, q, msg, s.now, 1, s.workers[p].id);
    assert Owns(s4.db, s4.phases[p].claim);
  }

  lemma FreshAt(s: System, p: Id)
    requires Fresh(s) && At(s, p)
    ensures s.workers[p].Valid() && s.phases[p].Idle?
  {
  }

  lemma {:induction false} ExecFive(s: System, a: Action, b: Action, c: Action, d: Action, e: Action)
    ensures Exec(s, [a, b, c, d, e]) == Step(Step(Step(Step(Step(s, a), b), c), d), e)
  {
    hide Step;
    assert [a, b, c, d, e] == [a, b, c, d] + [e] && [a, b, c, d] == [a, b, c] + [d];
    ExecSnoc(s, [a, b, c, d], e);
    ExecSnoc(s, [a, b, c], d);
    ExecThree(s, a, b, c);
  }

  /** Mutual exclusion over all runs holds exactly for deployments whose worker ids differ. */
  lemma {:induction false} ExclusionNeedsDistinctIds(s: System)
    requires Fresh(s)
    ensures Exclusive(s) <==> DistinctIds(s.workers)
  {
    hide Exec, LiveHolder;
    if DistinctIds(s.workers) {
      forall actions: seq<Action>, p, q, job | LiveHolder(Exec(s, actions), p, job)
        && LiveHolder(Exec(s, actions), q, job)
        ensures p == q
      {
        OneLiveLease(s, actions, p, q, job);
      }
    } else {
      var p, q :| p in s.workers && q in s.workers && s.workers[p].id == s.workers[q].id && p != q;
      var msg := Message("job", "run", "incident");
      SharedIdBreaksExclusion(s, p, q, msg);
    }
  }

  /** Two attempts end in crashes and a third holds a live lease; then a redelivery fails the job under it. */
  ghost function ThirdAttempt(p: Id, msg: Message): seq<Action> {
    [Insert(msg), Receive(p, msg), Crash(p), Tick(LEASE + 1), Receive(p, msg), Crash(p), Tick(LEASE + 1),
     Receive(p, msg)]
  }

  lemma {:induction false} ThirdAttemptRuns(s: System, p: Id, q: Id, msg: Message)
    requires Fresh(s) && At(s, p) && At(s, q) && p != q
    ensures var t := Exec(s, ThirdAttempt(p, msg));
            && t.workers == s.workers && t.now == s.now + 2 * (LEASE + 1)
            && AttemptRunning(t, msg, s.now, 3, s.workers[p].id, t.now)
            && LiveHolder(t, p, msg.job) && HoldsRow(t.db, t.phases[p].claim)
            && At(t, q) && t.phases[q].Idle?
  {
    FreshAt(s, p);
    FreshAt(s, q);
    var s2 := Step(Step(s, Insert(msg)), Receive(p, msg));
    FirstAttempt(s, p, msg);
    var s4 := Step(Step(s2, Crash(p)), Tick(LEASE + 1));
    NextAttempt(s4, p, msg, s.now, 1, s.workers[p].id);
    var s5 := Step(s4, Receive(p, msg));
    var s7 := Step(Step(s5, Crash(p)), Tick(LEASE + 1));
    NextAttempt(s7, p, msg, s.now, 2, s.workers[p].id);
    var s8 := Step(s7, Receive(p, msg));
    ThirdAttemptUnfolds(s, p, msg);
  }

  lemma {:induction false} ThirdAttemptUnfolds(s: System, p: Id, msg: Message)
    ensures Exec(s, ThirdAttempt(p, msg)) ==
            Step(Step(Step(Step(Step(Step(Step(Step(s, Insert(msg)), Receive(p, msg)), Crash(p)), Tick(LEASE + 1)),
                                Receive(p, msg)), Crash(p)), Tick(LEASE + 1)), Receive(p, msg))
  {
    hide Step;
    var head := [Insert(msg), Receive(p, msg), Crash(p), Tick(LEASE + 1), Receive(p, msg)];
    ExecFive(s, Insert(msg), Receive(p, msg), Crash(p), Tick(LEASE + 1), Receive(p, msg));
    ExecSnoc(s, head, Crash(p));
    ExecSnoc(s, head + [Crash(p)], Tick(LEASE + 1));
    ExecSnoc(s, head + [Crash(p)] + [Tick(LEASE + 1)], Receive(p, msg));
    assert head + [Crash(p)] + [Tick(LEASE + 1)] + [Receive(p, msg)] == ThirdAttempt(p, msg);
  }

  /** Any two workers have a run in which a live holder is dispossessed by a redelivered message. */
  lemma {:induction false} RedeliveryFailsLiveHolder(s: System, p: Id, q: Id, msg: Message)
    requires Fresh(s) && DistinctIds(s.workers) && At(s, p) && At(s, q) && p != q
    ensures var t := Exec(Exec(s, ThirdAttempt(p, msg)), [Receive(q, msg), Look(q), Mark(q)]);
            && LiveHolder(t, p, msg.job) && !HoldsRow(t.db, t.phases[p].claim)
            && Terminal(t.db, msg.job) && t.log == [Entry(msg, ACK)]
  {
    hide Fresh, DistinctIds;
    var t := Exec(s, ThirdAttempt(p, msg));
    ThirdAttemptRuns(s, p, q, msg);
    assert Init(s) by {
      FreshIsInit(s);
    }
    InitIsInv(s);
    RunsKeepInv(s, ThirdAttempt(p, msg));
    ExhaustedIsSettled(t, q, msg);
    OthersKeepWorking(t, p, q, msg);
    assert t.log == [] by {
      NoneAnswered(s, p, msg);
    }
  }

  lemma FreshIsInit(s: System)
    requires Fresh(s) && DistinctIds(s.workers)
    ensures Init(s)
  {
  }

  lemma {:induction false} OthersKeepWorking(s: System, p: Id, q: Id, msg: Message)
    requires At(s, p) && At(s, q) && p != q && s.phases[q].Idle?
    ensures var t := Exec(s, [Receive(q, msg), Look(q), Mark(q)]);
            At(t, p) && t.phases[p] == s.phases[p] && t.now == s.now
  {
    ExecThree(s, Receive(q, msg), Look(q), Mark(q));
  }

  lemma {:induction false} NoneAnswered(s: System, p: Id, msg: Message)
    requires Fresh(s) && At(s, p)
    ensures Exec(s, ThirdAttempt(p, msg)).log == []
  {
    QuietKeepsLog(s, ThirdAttempt(p, msg));
  }

  predicate Quiet(a: Action) {
    a.Tick? || a.Insert? || a.Receive? || a.Crash?
  }

  lemma {:induction false} QuietKeepsLog(s: System, actions: seq<Action>)
    requires forall k :: 0 <= k < |actions| ==> Quiet(actions[k])
    ensures Exec(s, actions).log == s.log
    decreases |actions|
  {
    if actions != [] {
      assert Quiet(actions[0]);
      assert Step(s, actions[0]).log == s.log;
      QuietKeepsLog(Step(s, actions[0]), actions[1..]);
    }
  }
}
