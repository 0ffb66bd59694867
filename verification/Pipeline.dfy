/**
 The whole path of a job: ingestion commits the job with its outbox row, the outbox publishes it, and
 workers receive what the broker has. Steps of all three interleave arbitrarily.
 */
module Pipeline {
  import opened Common
  import I = IngestionModel
  import G = IngestionProofs
  import R = IngestionRuns
  import O = OutboxModel
  import L = LeaseTables
  import P = LeaseProtocol

  /** The backend's database, the broker, and the workers; both sides share the work tables. */
  datatype World = World(db: I.Db, broker: seq<O.Sent>, workers: P.System)

  datatype Step =
    | Webhook(request: I.Request)
    | EditStatus(incident: Id, status: I.IncidentStatus, resolvedAt: Option<L.Instant>)
    | Publish(op: O.Op)
    | Act(action: P.Action)

  function Outbox(w: World): O.Store {
    O.Store(w.db.outbox, w.broker)
  }

  /** A worker only receives what the broker has; it may receive it any number of times. */
  ghost predicate InBroker(w: World, msg: L.Message) {
    exists k :: 0 <= k < |w.broker| && w.broker[k].message == msg
  }

  ghost predicate Possible(w: World, a: P.Action) {
    !a.Insert? && (a.Receive? ==> InBroker(w, a.message))
  }

  ghost function Apply(n: I.Normalizer, w: World, delay: int, step: Step): World
    requires R.DbInv(w.db)
  {
    match step
    case Webhook(r) =>
      var db := R.Apply(n, w.db, R.Webhook(r));
      World(db, w.broker, w.workers.(db := db.work))
    case EditStatus(i, status, resolvedAt) =>
      var db := R.Apply(n, w.db, R.EditStatus(i, status, resolvedAt));
      World(db, w.broker, w.workers)
    case Publish(op) =>
      if op.Announce? then w
      else
        var st := O.Apply(Outbox(w), delay, op);
        World(w.db.(outbox := st.rows), st.broker, w.workers)
    case Act(a) =>
      if !Possible(w, a) then w
      else
        var workers := P.Step(w.workers, a);
        World(w.db.(work := workers.db), w.broker, workers)
  }

  // ----- Growth of the tables -----

  ghost predicate WorkGrows(work: L.Tables, after: L.Tables) {
    && work.jobs.Keys <= after.jobs.Keys && work.runs.Keys <= after.runs.Keys
    && (forall j :: j in work.jobs ==> after.jobs[j] == work.jobs[j])
    && (forall r :: r in work.runs ==> after.runs[r] == work.runs[r])
  }

  ghost predicate OutboxGrows(outbox: map<Id, O.Row>, after: map<Id, O.Row>) {
    && outbox.Keys <= after.Keys
    && (forall o :: o in outbox ==> after[o] == outbox[o])
    && (forall o :: o in after && o !in outbox ==> after[o].status == O.PENDING && after[o].publishedAt.None?)
  }

  ghost predicate TablesGrow(db: I.Db, after: I.Db) {
    WorkGrows(db.work, after.work) && OutboxGrows(db.outbox, after.outbox)
  }

  lemma OpenGrows(db: I.Db, e: I.CanonicalEvent, id: Id, now: L.Instant, u: I.Uuids, from: Option<Id>)
    requires u.job !in db.work.jobs && u.run !in db.work.runs && u.outbox !in db.outbox
    ensures TablesGrow(db, I.Open(db, e, id, now, u, from))
  {
  }

  lemma SameGrows(db: I.Db, after: I.Db)
    requires after.work == db.work && after.outbox == db.outbox
    ensures TablesGrow(db, after)
  {
  }

  lemma GrowsTransitive(a: I.Db, b: I.Db, c: I.Db)
    requires TablesGrow(a, b) && TablesGrow(b, c)
    ensures TablesGrow(a, c)
  {
  }

  lemma {:induction false} AlertGrows(db: I.Db, delivery: Id, now: L.Instant, e: I.CanonicalEvent, u: I.Uuids)
    requires I.Unused(db, u)
    ensures TablesGrow(db, I.IngestAlert(db, delivery, now, e, u))
  {
    hide TablesGrow, I.Open, I.UpsertInstance;
    if I.EventKey(e) in db.dedup {
      SameGrows(db, db);
    } else {
      var logged := I.LogEvent(db, delivery, now, e, u.event);
      SameGrows(db, logged);
      if e.state == I.FIRING && I.ActiveWith(logged.incidents, e.identity) == {} {
        OpenGrows(logged, e, u.event, now, u, I.LatestResolved(logged.incidents, e.identity));
        GrowsTransitive(db, logged, I.IngestAlert(db, delivery, now, e, u));
      } else {
        SameGrows(db, I.IngestAlert(db, delivery, now, e, u));
      }
    }
  }

  lemma {:induction false} AlertsGrow(n: I.Normalizer, db: I.Db, r: I.Request, k: nat)
    requires k <= |n.parse(r.body)| && |r.uuids| == |n.parse(r.body)|
    requires R.DbInv(db) && r.delivery in db.deliveries && db.deliveries[r.delivery].status == I.RECEIVED
    requires forall j :: 0 <= j < |r.uuids| ==> I.Unused(db, r.uuids[j])
    requires forall i, j :: 0 <= i < j < |r.uuids| ==> I.Disjoint(r.uuids[i], r.uuids[j])
    ensures TablesGrow(db, I.IngestAlerts(n, db, r, k))
  {
    hide TablesGrow, R.DbInv, I.Unused, I.Disjoint, I.IngestAlert, I.Canonical;
    if k == 0 {
      SameGrows(db, db);
    } else {
      AlertsGrow(n, db, r, k - 1);
      R.AlertsKeepInv(n, db, r, k - 1);
      var before := I.IngestAlerts(n, db, r, k - 1);
      var e := I.Canonical(n, r, n.parse(r.body)[k - 1]);
      AlertGrows(before, r.delivery, r.now, e, r.uuids[k - 1]);
      GrowsTransitive(db, before, I.IngestAlerts(n, db, r, k));
    }
  }

  lemma {:induction false} DeliverGrows(n: I.Normalizer, db: I.Db, r: I.Request)
    requires R.DbInv(db) && I.FreshIds(n, db, r)
    ensures TablesGrow(db, R.Deliver(n, db, r))
  {
    hide TablesGrow, R.DbInv, I.IngestAlerts, I.FinalStatus;
    var received := I.Receive(n, db, r);
    R.ReceiveKeepsInv(n, db, r);
    R.AlertsKeepInv(n, received, r, |r.uuids|);
    AlertsGrow(n, received, r, |r.uuids|);
    var done := I.IngestAlerts(n, received, r, |r.uuids|);
    SameGrows(db, received);
    GrowsTransitive(db, received, done);
    SameGrows(done, R.Deliver(n, db, r));
    GrowsTransitive(db, done, R.Deliver(n, db, r));
  }

  // ----- The invariant -----

  ghost predicate Rests(work: L.Tables, e: P.Entry) {
    L.Matches(work, e.message) && (e.disposition == L.ACK ==> L.Terminal(work, e.message.job))
  }

  function MessageAt(phase: P.Phase): Option<L.Message> {
    match phase
    case Idle => None
    case Working(c, _) => Some(c.message)
    case Looking(m) => Some(m)
    case Marking(m, _) => Some(m)
  }

  ghost predicate PhaseMatches(work: L.Tables, phase: P.Phase) {
    MessageAt(phase).Some? ==> L.Matches(work, MessageAt(phase).value)
  }

  ghost predicate WorkersRest(work: L.Tables, workers: P.System) {
    && (forall k :: 0 <= k < |workers.log| ==> Rests(work, workers.log[k]))
    && (forall p :: p in workers.phases ==> PhaseMatches(work, workers.phases[p]))
  }

  /**
   Every side keeps its own invariant, and no worker ever holds or has answered a message that names
   no row: an acknowledged message's job is terminal.
   */
  ghost predicate WorldInv(w: World) {
    && R.DbInv(w.db) && O.OutboxInv(Outbox(w)) && P.Inv(w.workers) && w.workers.db == w.db.work
    && WorkersRest(w.db.work, w.workers)
  }

  ghost predicate InitialWorld(w: World) {
    w.db == R.Empty() && w.broker == [] && P.Init(w.workers)
  }

  lemma InitialIsInv(w: World)
    requires InitialWorld(w)
    ensures WorldInv(w)
  {
    hide P.Inv;
    R.EmptyIsInv();
    P.InitIsInv(w.workers);
  }

  /** What the broker has names a job, run and incident that were committed together. */
  lemma {:induction false} BrokerMatches(w: World, msg: L.Message)
    requires R.DbInv(w.db) && O.OutboxInv(Outbox(w)) && InBroker(w, msg)
    ensures L.Matches(w.db.work, msg) && msg.incident in w.db.incidents
  {
    hide G.LogInv, G.IncidentInv, L.Coupled;
    var k :| 0 <= k < |w.broker| && w.broker[k].message == msg;
    assert O.HasRow(w.db.outbox, w.broker[k]);
    var o :| o in w.db.outbox && O.SentFrom(w.db.outbox[o], w.broker[k]);
    assert G.OutboxRowFine(w.db.incidents, w.db.work, w.db.outbox[o]);
  }

  // ----- Workers' steps -----

  lemma {:induction false} OldEntriesRest(work: L.Tables, after: L.Tables, e: P.Entry)
    requires P.Ages(work, after) && Rests(work, e)
    ensures Rests(after, e)
  {
    P.MatchesAges(work, after, e.message);
  }

  /** The message of the entry that a step adds was the message its worker was handling. */
  lemma {:induction false} StepHandles(s: P.System, a: P.Action)
    ensures |P.Step(s, a).log| > |s.log| ==> a.Renew? || a.Settle? || a.Fail? || a.Look? || a.Mark?
    ensures |P.Step(s, a).log| > |s.log| ==>
            P.At(s, a.p) && MessageAt(s.phases[a.p]) == Some(P.Step(s, a).log[|s.log|].message)
    ensures forall p :: p in P.Step(s, a).phases && MessageAt(P.Step(s, a).phases[p]).Some? ==>
              (p in s.phases && MessageAt(P.Step(s, a).phases[p]) == MessageAt(s.phases[p])) ||
              (a.Receive? && MessageAt(P.Step(s, a).phases[p]).value == a.message)
  {
    hide L.ClaimRows, L.RenewRows, L.SettleRows, L.FailRows, L.MarkRows, L.InsertRows, L.Deadline;
  }

  lemma {:induction false} ActRests(w: World, a: P.Action)
    requires WorldInv(w) && Possible(w, a)
    ensures WorkersRest(P.Step(w.workers, a).db, P.Step(w.workers, a))
  {
    hide R.DbInv, O.OutboxInv, P.Inv, P.Step, P.Ages, Rests, L.Matches, L.Terminal;
    var s := w.workers;
    var t := P.Step(s, a);
    P.StepAges(s, a);
    P.AckedStep(s, a);
    StepHandles(s, a);
    forall p | p in t.phases
      ensures PhaseMatches(t.db, t.phases[p])
    {
      if MessageAt(t.phases[p]).Some? {
        var msg := MessageAt(t.phases[p]).value;
        if p in s.phases && MessageAt(t.phases[p]) == MessageAt(s.phases[p]) {
          assert PhaseMatches(s.db, s.phases[p]);
        } else {
          BrokerMatches(w, msg);
        }
        P.MatchesAges(s.db, t.db, msg);
      }
    }
    forall k | 0 <= k < |t.log|
      ensures Rests(t.db, t.log[k])
    {
      if k < |s.log| {
        assert t.log[k] == s.log[k];
        OldEntriesRest(s.db, t.db, s.log[k]);
      } else {
        assert PhaseMatches(s.db, s.phases[a.p]);
        P.MatchesAges(s.db, t.db, t.log[k].message);
        EntryRests(t.db, t.log[k]);
      }
    }
  }

  lemma EntryRests(work: L.Tables, e: P.Entry)
    requires L.Matches(work, e.message)
    requires e.disposition == L.ACK ==> L.Terminal(work, e.message.job) || !L.Matches(work, e.message)
    ensures Rests(work, e)
  {
  }

  lemma {:induction false} ActCreatesNothing(s: P.System, a: P.Action)
    requires P.Inv(s) && !a.Insert?
    ensures P.Step(s, a).db.jobs.Keys == s.db.jobs.Keys && P.Step(s, a).db.runs.Keys == s.db.runs.Keys
  {
    hide P.Inv, L.Deadline;
    match a
    case Receive(p, msg) =>
    case Renew(p) =>
    case Settle(p, result) =>
    case Fail(p, code) =>
    case _ =>
  }

  lemma {:induction false} ActKeepsInv(w: World, a: P.Action)
    requires WorldInv(w) && Possible(w, a)
    ensures var t := P.Step(w.workers, a); WorldInv(World(w.db.(work := t.db), w.broker, t))
  {
    hide R.DbInv, O.OutboxInv, P.Inv, P.Step, P.Ages, L.Coupled, WorkersRest;
    var t := P.Step(w.workers, a);
    P.StepKeepsInv(w.workers, a);
    P.StepAges(w.workers, a);
    P.InvIsCoupled(t);
    ActCreatesNothing(w.workers, a);
    assert R.WorkAges(w.db.work, t.db);
    R.WorkIsItsOwnAge(w.db);
    R.MovesKeepInv(w.db, w.db.outbox, t.db);
    assert w.db.(outbox := w.db.outbox, work := t.db) == w.db.(work := t.db);
    ActRests(w, a);
  }

  // ----- The backend's steps -----

  /** Rows that ingestion adds do not disturb the workers. */
  lemma {:induction false} GrowthKeepsWorkers(s: P.System, after: L.Tables)
    requires P.Inv(s) && WorkersRest(s.db, s) && WorkGrows(s.db, after) && L.Coupled(after)
    ensures P.Inv(s.(db := after)) && WorkersRest(after, s.(db := after))
  {
    hide L.Coupled;
    forall p | p in s.phases
      ensures P.PhaseAgrees(after, s.now, s.workers[p], s.phases[p])
      ensures PhaseMatches(after, s.phases[p])
    {
      assert P.PhaseAgrees(s.db, s.now, s.workers[p], s.phases[p]);
      assert PhaseMatches(s.db, s.phases[p]);
    }
    forall k | 0 <= k < |s.log|
      ensures Rests(after, s.log[k])
    {
      assert Rests(s.db, s.log[k]);
    }
  }

  lemma {:induction false} GrowthKeepsOutbox(outbox: map<Id, O.Row>, after: map<Id, O.Row>, broker: seq<O.Sent>)
    requires O.OutboxInv(O.Store(outbox, broker)) && OutboxGrows(outbox, after)
    ensures O.OutboxInv(O.Store(after, broker))
  {
    hide O.WasSent, O.HasRow;
    forall k | 0 <= k < |broker|
      ensures O.HasRow(after, broker[k])
    {
      O.RowStays(outbox, after, broker[k]);
    }
  }

  lemma DbInvIsCoupled(db: I.Db)
    requires R.DbInv(db)
    ensures L.Coupled(db.work)
  {
    hide G.LogInv, G.IncidentInv, R.DeliveriesAgree, L.Coupled;
  }

  lemma {:induction false} WebhookKeepsInv(n: I.Normalizer, w: World, r: I.Request)
    requires WorldInv(w)
    ensures var db := R.Apply(n, w.db, R.Webhook(r)); WorldInv(World(db, w.broker, w.workers.(db := db.work)))
  {
    hide R.DbInv, O.OutboxInv, P.Inv, R.Deliver, I.FreshIds, WorkersRest, OutboxGrows, WorkGrows;
    if I.FreshIds(n, w.db, r) {
      R.DeliverKeepsInv(n, w.db, r);
      DeliverGrows(n, w.db, r);
      var db := R.Deliver(n, w.db, r);
      DbInvIsCoupled(db);
      GrowthKeepsWorkers(w.workers, db.work);
      GrowthKeepsOutbox(w.db.outbox, db.outbox, w.broker);
    } else {
      assert w.workers.(db := w.db.work) == w.workers;
    }
  }

  lemma {:induction false} EditKeepsWork(n: I.Normalizer, w: World, i: Id, status: I.IncidentStatus,
                                         resolvedAt: Option<L.Instant>)
    requires WorldInv(w)
    ensures var db := R.Apply(n, w.db, R.EditStatus(i, status, resolvedAt)); WorldInv(World(db, w.broker, w.workers))
  {
    hide R.DbInv, O.OutboxInv, P.Inv, WorkersRest;
    R.ApplyKeepsInv(n, w.db, R.EditStatus(i, status, resolvedAt));
  }

  lemma {:induction false} PublishSameAnnouncements(st: O.Store, delay: int, op: O.Op)
    requires O.OutboxInv(st) && !op.Announce?
    ensures R.SameAnnouncements(st.rows, O.Apply(st, delay, op).rows)
  {
    hide O.OutboxInv, O.AfterRows, O.AfterRow;
    match op
    case PublishBatch(_, _, _, now, calls, abort) =>
      O.RowsKeepInv(st, O.Locked(st, op), now, delay, calls);
    case PublishOne(id, now, call, aborts) =>
      if id in st.rows {
        O.RowKeepsInv(st, id, now, delay, call);
      }
    case _ =>
  }

  lemma {:induction false} PublishKeepsInv(w: World, delay: int, op: O.Op)
    requires WorldInv(w) && !op.Announce?
    ensures var st := O.Apply(Outbox(w), delay, op); WorldInv(World(w.db.(outbox := st.rows), st.broker, w.workers))
  {
    hide R.DbInv, O.OutboxInv, P.Inv, WorkersRest, O.Apply, R.SameAnnouncements, R.WorkAges;
    var st := O.Apply(Outbox(w), delay, op);
    O.ApplyKeepsInv(Outbox(w), delay, op);
    PublishSameAnnouncements(Outbox(w), delay, op);
    R.WorkIsItsOwnAge(w.db);
    R.MovesKeepInv(w.db, st.rows, w.db.work);
    assert w.db.(outbox := st.rows, work := w.db.work) == w.db.(outbox := st.rows);
  }

  lemma {:induction false} ApplyKeepsInv(n: I.Normalizer, w: World, delay: int, step: Step)
    requires WorldInv(w)
    ensures WorldInv(Apply(n, w, delay, step))
  {
    hide WorkersRest, O.OutboxInv, P.Inv, R.DbInv, R.Apply, O.Apply, P.Step, Possible;
    match step
    case Webhook(r) => WebhookKeepsInv(n, w, r);
    case EditStatus(i, status, resolvedAt) => EditKeepsWork(n, w, i, status, resolvedAt);
    case Publish(op) => if !op.Announce? { PublishKeepsInv(w, delay, op); }
    case Act(a) => if Possible(w, a) { ActKeepsInv(w, a); }
  }

  ghost function ApplyAll(n: I.Normalizer, w: World, delay: int, steps: seq<Step>): (after: World)
    requires WorldInv(w)
    ensures WorldInv(after)
    decreases |steps|
  {
    if steps == [] then w
    else
      ApplyKeepsInv(n, w, delay, steps[0]);
      ApplyAll(n, Apply(n, w, delay, steps[0]), delay, steps[1..])
  }

  /** Where the steps lead from a system without alerts, jobs or messages. */
  ghost function RunFrom(n: I.Normalizer, start: World, delay: int, steps: seq<Step>): (after: World)
    requires InitialWorld(start)
    ensures WorldInv(after)
  {
    InitialIsInv(start);
    ApplyAll(n, start, delay, steps)
  }

  /**
   In every run of the pipeline, whatever the broker duplicates and however the three sides
   interleave: a worker's acknowledgement means that the job named by the message exists and is
   terminal. The branch that acknowledges a message because no row matches it is never taken.
   */
  lemma {:induction false} AcknowledgedJobsAreTerminal(n: I.Normalizer, w: World, delay: int, steps: seq<Step>, k: nat)
    requires InitialWorld(w) && k < |RunFrom(n, w, delay, steps).workers.log|
    ensures var t := RunFrom(n, w, delay, steps);
            var e := t.workers.log[k];
            && L.Matches(t.db.work, e.message) && e.message.incident in t.db.incidents
            && (e.disposition == L.ACK ==> L.Terminal(t.db.work, e.message.job))
  {
    hide O.OutboxInv, P.Inv, RunFrom, L.Matches, L.Terminal;
    var t := RunFrom(n, w, delay, steps);
    assert Rests(t.db.work, t.workers.log[k]);
    MatchedIncidentExists(t.db, t.workers.log[k].message);
  }

  lemma {:induction false} MatchedIncidentExists(db: I.Db, msg: L.Message)
    requires R.DbInv(db) && L.Matches(db.work, msg)
    ensures msg.incident in db.incidents
  {
    hide G.LogInv, G.IncidentInv, R.DeliveriesAgree, L.Coupled;
    assert G.NamesRun(db.outbox, msg.run);
    var o :| o in db.outbox && db.outbox[o].payload.Some? && db.outbox[o].payload.value.run == msg.run;
    assert G.OutboxRowFine(db.incidents, db.work, db.outbox[o]);
  }
}
