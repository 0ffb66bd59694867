/** Whole deliveries, and any sequence of deliveries, operator edits, publishing and worker activity. */
module IngestionRuns {
  import opened Common
  import opened IngestionModel
  import opened IngestionProofs
  import L = LeaseTables
  import P = LeaseProtocol
  import O = OutboxModel

  /** A finished delivery's status tells what it brought: nothing new, an invalid alert, or new alerts. */
  ghost predicate DeliveriesAgree(db: Db) {
    forall d :: d in db.deliveries && db.deliveries[d].status != RECEIVED ==>
      StatusTells(db.deliveries[d].status, HasEvents(db, d), HasInvalid(db, d))
  }

  predicate StatusTells(status: DeliveryStatus, hasEvents: bool, hasInvalid: bool) {
    && (status == VALIDATION_FAILED <==> hasInvalid)
    && (status == PROCESSED <==> hasEvents && !hasInvalid)
    && (status == DUPLICATE <==> !hasEvents)
  }

  ghost predicate DbInv(db: Db) {
    && LogInv(db) && IncidentInv(db, |db.log|) && WorkInv(db.incidents, db.outbox, db.work) && DeliveriesAgree(db)
  }

  ghost function Empty(): Db {
    Db(map[], map[], map[], [], map[], map[], [], map[], L.Tables(map[], map[], map[]))
  }

  lemma EmptyIsInv()
    ensures DbInv(Empty())
  {
    assert forall s: string :: WithIdentity(Empty().incidents, s) == {};
  }

  // ----- One alert -----

  /** What one iteration may touch. */
  ghost predicate Extends(db: Db, after: Db, delivery: Id, u: Uuids) {
    && after.deliveries == db.deliveries
    && (after.events == db.events
        || (u.event in after.events && after.events == db.events[u.event := after.events[u.event]]
                                      && after.events[u.event].delivery == delivery))
    && after.incidents.Keys <= db.incidents.Keys + {u.incident}
    && after.outbox.Keys <= db.outbox.Keys + {u.outbox}
    && after.work.jobs.Keys <= db.work.jobs.Keys + {u.job} && after.work.runs.Keys <= db.work.runs.Keys + {u.run}
  }

  lemma OpenExtends(db: Db, e: CanonicalEvent, id: Id, now: L.Instant, u: Uuids, from: Option<Id>)
    ensures var after := Open(db, e, id, now, u, from);
            && KeepsLog(db, after) && GrowsBy(db, after, u)
  {
  }

  lemma AttachExtends(db: Db, i: Id, id: Id, state: AlertState, u: Uuids)
    requires i in db.incidents
    ensures var after := Attach(db, i, id, state);
            && KeepsLog(db, after) && GrowsBy(db, after, u)
  {
  }

  ghost predicate KeepsLog(db: Db, after: Db) {
    && after.deliveries == db.deliveries && after.dedup == db.dedup && after.events == db.events
    && after.log == db.log && after.instances == db.instances
  }

  ghost predicate GrowsBy(db: Db, after: Db, u: Uuids) {
    && after.incidents.Keys <= db.incidents.Keys + {u.incident} && after.outbox.Keys <= db.outbox.Keys + {u.outbox}
    && after.work.jobs.Keys <= db.work.jobs.Keys + {u.job} && after.work.runs.Keys <= db.work.runs.Keys + {u.run}
  }

  lemma {:induction false} RelateExtends(db: Db, e: CanonicalEvent, id: Id, now: L.Instant, u: Uuids)
    ensures KeepsLog(db, Relate(db, e, id, now, u)) && GrowsBy(db, Relate(db, e, id, now, u), u)
  {
    hide Open, Attach, KeepsLog, GrowsBy;
    if e.state == FIRING {
      var active := ActiveWith(db.incidents, e.identity);
      if active == {} {
        OpenExtends(db, e, id, now, u, LatestResolved(db.incidents, e.identity));
      } else {
        AttachExtends(db, LatestOf(db.incidents, active), id, FIRING, u);
      }
    } else {
      var all := WithIdentity(db.incidents, e.identity);
      if all == {} {
        assert KeepsLog(db, db) && GrowsBy(db, db, u) by {
          Unchanged(db, u);
        }
      } else {
        AttachExtends(db, LatestOf(db.incidents, all), id, AlertState.RESOLVED, u);
      }
    }
  }

  lemma Unchanged(db: Db, u: Uuids)
    ensures KeepsLog(db, db) && GrowsBy(db, db, u)
  {
  }

  lemma {:induction false} AlertExtends(db: Db, delivery: Id, now: L.Instant, e: CanonicalEvent, u: Uuids)
    ensures Extends(db, IngestAlert(db, delivery, now, e, u), delivery, u)
    ensures IngestAlert(db, delivery, now, e, u).dedup.Keys == db.dedup.Keys + {EventKey(e)}
  {
    hide UpsertInstance, Relate;
    if EventKey(e) !in db.dedup {
      RelateExtends(LogEvent(db, delivery, now, e, u.event), e, u.event, now, u);
    }
  }

  lemma StillUnused(db: Db, after: Db, delivery: Id, u: Uuids, v: Uuids)
    requires Extends(db, after, delivery, u) && Unused(db, v) && Disjoint(u, v)
    ensures Unused(after, v)
  {
  }

  lemma {:induction false} DeliveriesStay(db: Db, after: Db, delivery: Id, u: Uuids)
    requires DeliveriesAgree(db) && Extends(db, after, delivery, u) && Unused(db, u)
    requires delivery in db.deliveries && db.deliveries[delivery].status == RECEIVED
    ensures DeliveriesAgree(after)
  {
    forall d | d in after.deliveries && after.deliveries[d].status != RECEIVED
      ensures StatusTells(after.deliveries[d].status, HasEvents(after, d), HasInvalid(after, d))
    {
      StatusFrame(db, after, d);
    }
  }

  lemma StatusFrame(db: Db, after: Db, d: Id)
    requires forall x :: x in db.events ==> x in after.events && after.events[x] == db.events[x]
    requires forall x :: x in after.events && after.events[x].delivery == d ==> x in db.events
    ensures HasEvents(after, d) == HasEvents(db, d) && HasInvalid(after, d) == HasInvalid(db, d)
  {
    if HasEvents(db, d) {
      var x :| x in db.events && db.events[x].delivery == d;
      assert after.events[x].delivery == d;
    }
    if HasInvalid(db, d) {
      var x :| x in db.events && db.events[x].delivery == d && db.events[x].event.invalid;
      assert after.events[x].delivery == d;
    }
  }

  lemma NotYetLinked(db: Db, id: Id)
    requires LinksAgree(db) && id !in db.events
    ensures !Linked(db.links, id)
  {
    forall k | 0 <= k < |db.links|
      ensures db.links[k].event != id
    {
      assert LinkFine(db, db.links[k]);
    }
  }

  lemma LoggedIsPending(db: Db, delivery: Id, now: L.Instant, e: CanonicalEvent, id: Id)
    requires LogInv(db) && IncidentInv(db, |db.log|) && id !in db.events && EventKey(e) !in db.dedup
             && delivery in db.deliveries
    ensures Pending(LogEvent(db, delivery, now, e, id), e, id, now)
  {
    hide UpsertInstance, LinksAgree, IncidentsAgree, OneActive, OrphansUpTo, ReopensAgree, LogLists, KeysAgree,
         InstancesAgree;
    LogKeepsInv(db, delivery, now, e, id);
    LogKeepsIncidents(db, delivery, now, e, id);
    NotYetLinked(db, id);
  }

  lemma {:induction false} AlertKeepsInv(db: Db, delivery: Id, now: L.Instant, e: CanonicalEvent, u: Uuids)
    requires DbInv(db) && Unused(db, u) && delivery in db.deliveries && db.deliveries[delivery].status == RECEIVED
    ensures DbInv(IngestAlert(db, delivery, now, e, u))
  {
    hide LogLists, KeysAgree, InstancesAgree, IncidentInv, WorkInv, DeliveriesAgree, Relate, UpsertInstance;
    if EventKey(e) !in db.dedup {
      var logged := LogEvent(db, delivery, now, e, u.event);
      LogKeepsInv(db, delivery, now, e, u.event);
      LoggedIsPending(db, delivery, now, e, u.event);
      RelateKeepsInv(logged, e, u.event, now, u);
      RelateExtends(logged, e, u.event, now, u);
      RelateKeepsWork(logged, e, u.event, now, u);
      AlertExtends(db, delivery, now, e, u);
      DeliveriesStay(db, IngestAlert(db, delivery, now, e, u), delivery, u);
    }
  }

  // ----- What one new alert does to incidents -----

  /** The one opened last among `s`, at equal times the one with the smaller id. */
  ghost predicate OpenedLast(incidents: map<Id, Incident>, s: set<Id>, i: Id)
    requires s <= incidents.Keys
  {
    i in s && forall j :: j in s && j != i ==>
      incidents[j].openedAt < incidents[i].openedAt
      || (incidents[j].openedAt == incidents[i].openedAt && StringLess(i, j))
  }

  /** A new open incident with its first link, a queued run and job, and a pending announcement of them. */
  ghost predicate Opens(db: Db, after: Db, e: CanonicalEvent, u: Uuids, now: L.Instant) {
    var row := Incident(e.identity, OPEN, FIRING, now, None, LatestResolved(db.incidents, e.identity), 1);
    && after.incidents == db.incidents[u.incident := row]
    && after.links == db.links + [Link(u.incident, u.event)]
    && after.work.jobs == db.work.jobs[u.job := L.Job(u.run, L.QUEUED, None, None, 0, now, now, None, None)]
    && after.work.runs == db.work.runs[u.run := L.Run(u.incident, L.RUN_QUEUED, None, None, None)]
    && after.outbox == db.outbox[u.outbox := O.Row(u.incident, Some(L.Message(u.job, u.run, u.incident)),
                                                   "rca-run:" + u.run, O.PENDING, now, now, None)]
  }

  /** The event is linked to an incident, whose alert state it sets; nothing about the incident's status changes. */
  ghost predicate Joins(db: Db, after: Db, e: CanonicalEvent, u: Uuids, i: Id)
    requires i in db.incidents
  {
    var row := db.incidents[i];
    && after.incidents == db.incidents[i := row.(alertState := e.state, version := row.version + 1)]
    && after.links == db.links + [Link(i, u.event)] && after.work == db.work && after.outbox == db.outbox
  }

  /**
   A firing alert joins the unresolved incident of its identity that was opened last, and opens one if
   there is none. A resolved alert joins the incident opened last of all; without one it changes nothing.
   */
  lemma {:induction false} NewAlertRelates(db: Db, delivery: Id, now: L.Instant, e: CanonicalEvent, u: Uuids)
    requires EventKey(e) !in db.dedup
    ensures var after := IngestAlert(db, delivery, now, e, u);
            var targets := set i | i in db.incidents && db.incidents[i].identity == e.identity
                             && (e.state == FIRING ==> db.incidents[i].status != IncidentStatus.RESOLVED);
            if targets != {} then exists i :: OpenedLast(db.incidents, targets, i) && Joins(db, after, e, u, i)
            else if e.state == FIRING then Opens(db, after, e, u, now)
            else after.incidents == db.incidents && after.links == db.links && after.work == db.work
                 && after.outbox == db.outbox
  {
    hide UpsertInstance, LatestResolved, LatestOf, Open, Attach, Joins, Opens, OpenedLast;
    var logged := LogEvent(db, delivery, now, e, u.event);
    var targets := set i | i in db.incidents && db.incidents[i].identity == e.identity
                     && (e.state == FIRING ==> db.incidents[i].status != IncidentStatus.RESOLVED);
    assert targets == if e.state == FIRING then ActiveWith(db.incidents, e.identity)
                      else WithIdentity(db.incidents, e.identity);
    if targets != {} {
      LatestWasOpenedLast(db.incidents, targets);
      AttachJoins(db, logged, e, u, LatestOf(db.incidents, targets));
    } else if e.state == FIRING {
      OpenOpens(db, logged, e, u, now);
    }
  }

  lemma LatestWasOpenedLast(incidents: map<Id, Incident>, s: set<Id>)
    requires s <= incidents.Keys && s != {}
    ensures OpenedLast(incidents, s, LatestOf(incidents, s))
  {
  }

  lemma AttachJoins(db: Db, logged: Db, e: CanonicalEvent, u: Uuids, i: Id)
    requires i in db.incidents && logged.incidents == db.incidents && logged.links == db.links
             && logged.work == db.work && logged.outbox == db.outbox
    ensures Joins(db, Attach(logged, i, u.event, e.state), e, u, i)
  {
  }

  lemma OpenOpens(db: Db, logged: Db, e: CanonicalEvent, u: Uuids, now: L.Instant)
    requires logged.incidents == db.incidents && logged.links == db.links && logged.work == db.work
             && logged.outbox == db.outbox
    ensures Opens(db, Open(logged, e, u.event, now, u, LatestResolved(logged.incidents, e.identity)), e, u, now)
  {
    hide LatestResolved;
  }

  // ----- One delivery -----

  lemma {:induction false} AlertsKeepInv(n: Normalizer, db: Db, r: Request, k: nat)
    requires k <= |n.parse(r.body)| && |r.uuids| == |n.parse(r.body)|
    requires DbInv(db) && r.delivery in db.deliveries && db.deliveries[r.delivery].status == RECEIVED
    requires forall j :: 0 <= j < |r.uuids| ==> Unused(db, r.uuids[j])
    requires forall i, j :: 0 <= i < j < |r.uuids| ==> Disjoint(r.uuids[i], r.uuids[j])
    ensures var done := IngestAlerts(n, db, r, k);
            && DbInv(done) && done.deliveries == db.deliveries && db.dedup.Keys <= done.dedup.Keys
            && (forall j :: k <= j < |r.uuids| ==> Unused(done, r.uuids[j]))
            && forall j :: 0 <= j < k ==> EventKey(Canonical(n, r, n.parse(r.body)[j])) in done.dedup
  {
    hide DbInv, Unused, Disjoint, IngestAlert, Canonical, Extends;
    if k > 0 {
      AlertsKeepInv(n, db, r, k - 1);
      var before := IngestAlerts(n, db, r, k - 1);
      var e := Canonical(n, r, n.parse(r.body)[k - 1]);
      var u := r.uuids[k - 1];
      AlertKeepsInv(before, r.delivery, r.now, e, u);
      AlertExtends(before, r.delivery, r.now, e, u);
      var done := IngestAlerts(n, db, r, k);
      assert done == IngestAlert(before, r.delivery, r.now, e, u);
      assert done.deliveries == before.deliveries by {
        ExtendsDeliveries(before, done, r.delivery, u);
      }
      forall j | k <= j < |r.uuids|
        ensures Unused(done, r.uuids[j])
      {
        StillUnused(before, done, r.delivery, u, r.uuids[j]);
      }
    }
  }

  lemma ExtendsDeliveries(db: Db, after: Db, delivery: Id, u: Uuids)
    requires Extends(db, after, delivery, u)
    ensures after.deliveries == db.deliveries
  {
  }

  lemma {:induction false} ReceiveKeepsInv(n: Normalizer, db: Db, r: Request)
    requires DbInv(db) && r.delivery !in db.deliveries
    ensures DbInv(Receive(n, db, r))
  {
    hide IncidentInv, WorkInv, InstancesAgree, LogLists;
    var after := Receive(n, db, r);
    assert IncidentInv(after, |after.log|) by {
      IncidentFrame(db, after);
    }
    forall d | d in after.deliveries && after.deliveries[d].status != RECEIVED
      ensures StatusTells(after.deliveries[d].status, HasEvents(after, d), HasInvalid(after, d))
    {
      SameEvents(db, after, d);
    }
  }

  lemma {:induction false} IncidentFrame(db: Db, after: Db)
    requires IncidentInv(db, |db.log|)
    requires after.events == db.events && after.log == db.log && after.links == db.links
             && after.incidents == db.incidents
    ensures IncidentInv(after, |after.log|)
  {
    hide LinkedTo, Linked, IncidentAgrees, FiredBefore;
    forall k | 0 <= k < |after.links|
      ensures LinkFine(after, after.links[k])
    {
      assert LinkFine(db, db.links[k]);
    }
    forall k | 0 <= k < |after.log|
      ensures OrphanFine(after, k)
    {
      assert OrphanFine(db, k);
    }
  }

  /** The transaction of `execute`. */
  ghost function Deliver(n: Normalizer, db: Db, r: Request): Db
    requires DbInv(db) && FreshIds(n, db, r)
  {
    var received := Receive(n, db, r);
    ReceiveKeepsInv(n, db, r);
    AlertsKeepInv(n, received, r, |r.uuids|);
    var done := IngestAlerts(n, received, r, |r.uuids|);
    Finish(done, r.delivery, FinalStatus(done, r.delivery), r.now)
  }

  /** Every alert's dedup key is claimed. */
  ghost predicate AllClaimed(n: Normalizer, db: Db, r: Request) {
    forall j :: 0 <= j < |n.parse(r.body)| ==> EventKey(Canonical(n, r, n.parse(r.body)[j])) in db.dedup
  }

  lemma InvalidIsEvent(db: Db, d: Id)
    ensures HasInvalid(db, d) ==> HasEvents(db, d)
  {
  }

  lemma {:induction false} FinishKeepsInv(db: Db, d: Id, now: L.Instant)
    requires DbInv(db) && d in db.deliveries
    ensures DbInv(Finish(db, d, FinalStatus(db, d), now))
  {
    hide IncidentInv, WorkInv, InstancesAgree, LogLists, HasEvents, HasInvalid;
    var after := Finish(db, d, FinalStatus(db, d), now);
    assert IncidentInv(after, |after.log|) by {
      IncidentFrame(db, after);
    }
    InvalidIsEvent(db, d);
    forall x | x in after.deliveries && after.deliveries[x].status != RECEIVED
      ensures StatusTells(after.deliveries[x].status, HasEvents(after, x), HasInvalid(after, x))
    {
      SameEvents(db, after, x);
    }
  }

  lemma {:induction false} DeliverKeepsInv(n: Normalizer, db: Db, r: Request)
    requires DbInv(db) && FreshIds(n, db, r)
    ensures var after := Deliver(n, db, r);
            && DbInv(after) && AllClaimed(n, after, r) && db.dedup.Keys <= after.dedup.Keys
            && after.deliveries.Keys == db.deliveries.Keys + {r.delivery}
               && after.deliveries[r.delivery].status != RECEIVED
  {
    hide DbInv, IngestAlerts, FinalStatus;
    var received := Receive(n, db, r);
    ReceiveKeepsInv(n, db, r);
    AlertsKeepInv(n, received, r, |r.uuids|);
    var done := IngestAlerts(n, received, r, |r.uuids|);
    FinishKeepsInv(done, r.delivery, r.now);
    assert FinalStatus(done, r.delivery) != RECEIVED by {
      NeverReceived(done, r.delivery);
    }
  }

  lemma NeverReceived(db: Db, d: Id)
    ensures FinalStatus(db, d) != RECEIVED
  {
  }

  // ----- What a delivery logs -----

  function DedupKeyAt(n: Normalizer, r: Request, j: nat): DedupKey
    requires j < |n.parse(r.body)|
  {
    DedupKey(r.source, KeyOf(n, r.source, r.body, n.parse(r.body)[j]))
  }

  /** The dedup key of an alert is not claimed yet, and no alert before it in the body has the same one. */
  ghost predicate IsNew(n: Normalizer, db: Db, r: Request, j: nat)
    requires j < |n.parse(r.body)|
  {
    DedupKeyAt(n, r, j) !in db.dedup && forall i :: 0 <= i < j ==> DedupKeyAt(n, r, i) != DedupKeyAt(n, r, j)
  }

  /** The event row of an alert, with the sender's fingerprint if there is one. */
  ghost predicate LogsAlert(n: Normalizer, r: Request, a: RawAlert, row: AlertEvent) {
    && row.delivery == r.delivery && row.receivedAt == r.now && row.event.source == r.source
    && row.event.state == a.state && row.event.detail == r.rules(a) && row.event.invalid == n.invalid(r.source, a)
    && row.event.fingerprint == (if a.fingerprint != "" then a.fingerprint else n.hashLabels(r.source, a.labels))
    && row.event.identity == n.identity(r.source, a.folder, a.name, row.event.fingerprint)
    && row.event.key == n.hashKey(r.source, row.event.fingerprint, a.state, a.startsAt, a.endsAt, n.hashBody(r.body))
  }

  ghost function KeysUpTo(n: Normalizer, r: Request, k: nat): set<DedupKey>
    requires k <= |n.parse(r.body)|
  {
    set j | 0 <= j < k :: DedupKeyAt(n, r, j)
  }

  ghost function NewEvents(n: Normalizer, db: Db, r: Request, k: nat): set<Id>
    requires k <= |n.parse(r.body)| == |r.uuids|
  {
    set j | 0 <= j < k && IsNew(n, db, r, j) :: r.uuids[j].event
  }

  /** Of the first `k` alerts exactly the new ones have been logged, and all their keys are claimed. */
  ghost predicate LogsNew(n: Normalizer, db: Db, after: Db, r: Request, k: nat)
    requires k <= |n.parse(r.body)| == |r.uuids|
  {
    && after.dedup.Keys == db.dedup.Keys + KeysUpTo(n, r, k)
    && after.events.Keys == db.events.Keys + NewEvents(n, db, r, k)
    && (forall id :: id in db.events ==> id in after.events && after.events[id] == db.events[id])
    && forall j :: 0 <= j < k && IsNew(n, db, r, j) ==>
         r.uuids[j].event in after.events && LogsAlert(n, r, n.parse(r.body)[j], after.events[r.uuids[j].event])
  }

  lemma AlertLogs(db: Db, delivery: Id, now: L.Instant, e: CanonicalEvent, u: Uuids)
    ensures var after := IngestAlert(db, delivery, now, e, u);
            && after.dedup.Keys == db.dedup.Keys + {EventKey(e)}
            && after.events == if EventKey(e) in db.dedup then db.events
                               else db.events[u.event := AlertEvent(delivery, now, e)]
  {
    hide UpsertInstance, Relate;
    if EventKey(e) !in db.dedup {
      RelateExtends(LogEvent(db, delivery, now, e, u.event), e, u.event, now, u);
    }
  }

  lemma {:induction false} SetsGrow(n: Normalizer, db: Db, r: Request, k: nat)
    requires k < |n.parse(r.body)| == |r.uuids|
    ensures KeysUpTo(n, r, k + 1) == KeysUpTo(n, r, k) + {DedupKeyAt(n, r, k)}
    ensures NewEvents(n, db, r, k + 1)
            == NewEvents(n, db, r, k) + if IsNew(n, db, r, k) then {r.uuids[k].event} else {}
    ensures IsNew(n, db, r, k) <==> DedupKeyAt(n, r, k) !in db.dedup.Keys + KeysUpTo(n, r, k)
  {
    hide DedupKeyAt;
  }

  lemma CanonicalLogs(n: Normalizer, r: Request, a: RawAlert)
    ensures LogsAlert(n, r, a, AlertEvent(r.delivery, r.now, Canonical(n, r, a)))
    ensures EventKey(Canonical(n, r, a)) == DedupKey(r.source, KeyOf(n, r.source, r.body, a))
  {
  }

  /** The next alert is logged exactly when it is new. */
  lemma {:induction false} LogsNext(n: Normalizer, db: Db, before: Db, r: Request, k: nat)
    requires k < |n.parse(r.body)| == |r.uuids| && LogsNew(n, db, before, r, k)
    requires r.uuids[k].event !in before.events
    ensures LogsNew(n, db, IngestAlert(before, r.delivery, r.now, Canonical(n, r, n.parse(r.body)[k]), r.uuids[k]), r,
                    k + 1)
  {
    hide IngestAlert, KeysUpTo, NewEvents, IsNew, LogsAlert, Canonical;
    CanonicalLogs(n, r, n.parse(r.body)[k]);
    var e := Canonical(n, r, n.parse(r.body)[k]);
    AlertLogs(before, r.delivery, r.now, e, r.uuids[k]);
    SetsGrow(n, db, r, k);
  }

  lemma LogsNothing(n: Normalizer, db: Db, r: Request)
    requires |n.parse(r.body)| == |r.uuids|
    ensures LogsNew(n, db, db, r, 0)
  {
  }

  lemma {:induction false} AlertsLogNew(n: Normalizer, db: Db, r: Request, k: nat)
    requires k <= |n.parse(r.body)| == |r.uuids|
    requires DbInv(db) && r.delivery in db.deliveries && db.deliveries[r.delivery].status == RECEIVED
    requires forall j :: 0 <= j < |r.uuids| ==> Unused(db, r.uuids[j])
    requires forall i, j :: 0 <= i < j < |r.uuids| ==> Disjoint(r.uuids[i], r.uuids[j])
    ensures LogsNew(n, db, IngestAlerts(n, db, r, k), r, k)
  {
    hide DbInv, Disjoint, LogsNew, IngestAlert, Canonical;
    if k == 0 {
      LogsNothing(n, db, r);
    } else {
      AlertsLogNew(n, db, r, k - 1);
      AlertsKeepInv(n, db, r, k - 1);
      LogsNext(n, db, IngestAlerts(n, db, r, k - 1), r, k - 1);
    }
  }

  /** The new alerts of a request decide about the flags of its delivery. */
  lemma {:induction false} NewAlertsDecide(n: Normalizer, db: Db, after: Db, r: Request)
    requires |n.parse(r.body)| == |r.uuids| && LogsNew(n, db, after, r, |r.uuids|)
    requires !HasEvents(db, r.delivery)
    ensures HasEvents(after, r.delivery) <==> exists j :: 0 <= j < |r.uuids| && IsNew(n, db, r, j)
    ensures HasInvalid(after, r.delivery) <==>
            exists j :: 0 <= j < |r.uuids| && IsNew(n, db, r, j) && n.invalid(r.source, n.parse(r.body)[j])
  {
    hide IsNew;
    forall id | id in after.events && after.events[id].delivery == r.delivery
      ensures exists j :: 0 <= j < |r.uuids| && IsNew(n, db, r, j) && r.uuids[j].event == id
    {
      assert id in NewEvents(n, db, r, |r.uuids|);
    }
  }

  /**
   What a delivery is: exactly the new alerts of its body are logged, each in an event row of its own. Its
   row ends as `VALIDATION_FAILED` if and only if one of them is invalid, as `DUPLICATE` if and only if
   there is none, and as `PROCESSED` otherwise.
   */
  ghost predicate Delivers(n: Normalizer, db: Db, after: Db, r: Request)
    requires |n.parse(r.body)| == |r.uuids|
  {
    && LogsNew(n, db, after, r, |r.uuids|)
    && r.delivery in after.deliveries
    && var row := after.deliveries[r.delivery];
       && row.source == r.source && row.bodyHash == n.hashBody(r.body)
       && row.receivedAt == r.now && row.processedAt == Some(r.now)
       && (row.status == VALIDATION_FAILED <==>
           exists j :: 0 <= j < |r.uuids| && IsNew(n, db, r, j) && n.invalid(r.source, n.parse(r.body)[j]))
       && (row.status == DUPLICATE <==> !exists j :: 0 <= j < |r.uuids| && IsNew(n, db, r, j))
       && row.status != RECEIVED
  }

  lemma {:induction false} DeliveryLogsNewAlerts(n: Normalizer, db: Db, r: Request)
    requires DbInv(db) && FreshIds(n, db, r)
    ensures Delivers(n, db, Deliver(n, db, r), r)
  {
    hide DbInv, IngestAlerts, HasEvents, HasInvalid, LogsNew, Delivers, FreshIds;
    var received := Receive(n, db, r);
    StillFresh(n, db, r);
    ReceiveKeepsInv(n, db, r);
    InvHasLog(db);
    NothingNew(db, r.delivery);
    AlertsKeepInv(n, received, r, |r.uuids|);
    AlertsLogNew(n, received, r, |r.uuids|);
    var done := IngestAlerts(n, received, r, |r.uuids|);
    SameNews(n, received, db, done, r);
    NewAlertsDecide(n, db, done, r);
    InvalidIsEvent(done, r.delivery);
    FinishDelivers(n, db, done, r);
  }

  lemma StillFresh(n: Normalizer, db: Db, r: Request)
    requires FreshIds(n, db, r)
    ensures |n.parse(r.body)| == |r.uuids| && r.delivery !in db.deliveries
    ensures forall j :: 0 <= j < |r.uuids| ==> Unused(Receive(n, db, r), r.uuids[j])
    ensures forall i, j :: 0 <= i < j < |r.uuids| ==> Disjoint(r.uuids[i], r.uuids[j])
  {
  }

  lemma FinishDelivers(n: Normalizer, db: Db, done: Db, r: Request)
    requires |n.parse(r.body)| == |r.uuids| && LogsNew(n, db, done, r, |r.uuids|)
    requires r.delivery in done.deliveries
             && done.deliveries[r.delivery] == Delivery(r.source, n.hashBody(r.body), r.now, RECEIVED, None)
    requires HasEvents(done, r.delivery) <==> exists j :: 0 <= j < |r.uuids| && IsNew(n, db, r, j)
    requires HasInvalid(done, r.delivery) <==>
             exists j :: 0 <= j < |r.uuids| && IsNew(n, db, r, j) && n.invalid(r.source, n.parse(r.body)[j])
    requires HasInvalid(done, r.delivery) ==> HasEvents(done, r.delivery)
    ensures Delivers(n, db, Finish(done, r.delivery, FinalStatus(done, r.delivery), r.now), r)
  {
    hide HasEvents, HasInvalid, IsNew, KeysUpTo, NewEvents, LogsAlert;
  }

  lemma {:induction false} SameNews(n: Normalizer, db: Db, other: Db, done: Db, r: Request)
    requires db.dedup == other.dedup && db.events == other.events && |n.parse(r.body)| == |r.uuids|
    requires LogsNew(n, db, done, r, |r.uuids|)
    ensures LogsNew(n, other, done, r, |r.uuids|)
  {
    hide DedupKeyAt, LogsAlert, KeysUpTo;
    forall j | 0 <= j < |r.uuids|
      ensures IsNew(n, db, r, j) == IsNew(n, other, r, j)
    {
    }
    assert NewEvents(n, db, r, |r.uuids|) == NewEvents(n, other, r, |r.uuids|);
  }

  // ----- Redelivery -----

  lemma {:induction false} ClaimedAlertsDoNothing(n: Normalizer, db: Db, r: Request, k: nat)
    requires k <= |n.parse(r.body)| && |r.uuids| == |n.parse(r.body)| && AllClaimed(n, db, r)
    ensures IngestAlerts(n, db, r, k) == db
  {
    hide Canonical, Relate, LogEvent;
    if k > 0 {
      ClaimedAlertsDoNothing(n, db, r, k - 1);
    }
  }

  lemma {:induction false} NothingNew(db: Db, d: Id)
    requires LogInv(db) && d !in db.deliveries
    ensures !HasEvents(db, d) && !HasInvalid(db, d)
  {
  }

  /** A delivery whose keys are all claimed adds one `DUPLICATE` row and changes nothing else. */
  lemma {:induction false} ClaimedDeliveryIsDuplicate(n: Normalizer, db: Db, r: Request)
    requires DbInv(db) && FreshIds(n, db, r) && AllClaimed(n, db, r)
    ensures Deliver(n, db, r) ==
            db.(deliveries := db.deliveries[r.delivery := Delivery(r.source, n.hashBody(r.body), r.now, DUPLICATE,
              Some(r.now))])
  {
    hide IngestAlerts, HasEvents, HasInvalid, AllClaimed, DbInv;
    var received := Receive(n, db, r);
    assert AllClaimed(n, received, r) by {
      ClaimsStay(n, db, received, r, r);
    }
    ClaimedAlertsDoNothing(n, received, r, |r.uuids|);
    assert !HasEvents(received, r.delivery) && !HasInvalid(received, r.delivery) by {
      InvHasLog(db);
      NothingNew(db, r.delivery);
      SameEvents(db, received, r.delivery);
    }
  }

  lemma InvHasLog(db: Db)
    requires DbInv(db)
    ensures LogInv(db)
  {
  }

  lemma SameEvents(db: Db, after: Db, d: Id)
    requires db.events == after.events
    ensures HasEvents(db, d) == HasEvents(after, d) && HasInvalid(db, d) == HasInvalid(after, d)
  {
  }

  /** Claims persist, and a body's keys depend on its source and bytes only, not on the rules in force. */
  lemma ClaimsStay(n: Normalizer, db: Db, after: Db, r: Request, again: Request)
    requires AllClaimed(n, db, r) && db.dedup.Keys <= after.dedup.Keys
    requires again.source == r.source && again.body == r.body
    ensures AllClaimed(n, after, again)
  {
    forall j | 0 <= j < |n.parse(again.body)|
      ensures EventKey(Canonical(n, again, n.parse(again.body)[j])) in after.dedup
    {
      assert EventKey(Canonical(n, again, n.parse(again.body)[j])) == EventKey(Canonical(n, r, n.parse(r.body)[j]));
    }
  }

  // ----- Everything that can happen in between -----

  datatype Step =
    | Webhook(request: Request)
    | EditStatus(incident: Id, status: IncidentStatus, resolvedAt: Option<L.Instant>)
    | Publish(outbox: map<Id, O.Row>)
    | Work(work: L.Tables)

  /** Publishing changes outbox rows only in their status fields. */
  ghost predicate SameAnnouncements(outbox: map<Id, O.Row>, after: map<Id, O.Row>) {
    && after.Keys == outbox.Keys
    && forall o :: o in outbox ==>
         after[o].incident == outbox[o].incident && after[o].payload == outbox[o].payload
           && after[o].key == outbox[o].key
  }

  /** Workers age rows but create none. */
  ghost predicate WorkAges(work: L.Tables, after: L.Tables) {
    && L.Coupled(after) && P.Ages(work, after) && after.jobs.Keys == work.jobs.Keys && after.runs.Keys == work.runs.Keys
  }

  function EditRow(incidents: map<Id, Incident>, i: Id, status: IncidentStatus,
                   resolvedAt: Option<L.Instant>): map<Id, Incident>
    requires i in incidents
  {
    incidents[i := incidents[i].(status := status, resolvedAt := resolvedAt)]
  }

  /** The unique index on active identities lets an edit pass or aborts it. */
  predicate EditAllowed(incidents: map<Id, Incident>, i: Id, status: IncidentStatus) {
    i in incidents && (Active(status) ==> ActiveWith(incidents, incidents[i].identity) <= {i})
  }

  /** The index lets an edit pass if and only if it leaves at most one active incident of the identity. */
  lemma {:induction false} EditAllowedExactlyWhen(incidents: map<Id, Incident>, i: Id, status: IncidentStatus,
                                                  resolvedAt: Option<L.Instant>)
    requires OneActive(incidents) && i in incidents
    ensures EditAllowed(incidents, i, status) <==> OneActive(EditRow(incidents, i, status, resolvedAt))
  {
    var after := EditRow(incidents, i, status, resolvedAt);
    if Active(status) {
      forall x | x in ActiveWith(incidents, incidents[i].identity) && x != i
        ensures !OneActive(after)
      {
        assert BothActive(after[x], after[i]);
      }
    }
    assert forall x :: x in after && x != i && BothActive(after[x], after[i]) ==>
             x in ActiveWith(incidents, incidents[i].identity);
    if EditAllowed(incidents, i, status) {
      forall a, b | a in after && b in after && BothActive(after[a], after[b])
        ensures a == b
      {
        if a != i && b != i {
          assert BothActive(incidents[a], incidents[b]);
        }
      }
    }
  }

  /** A step that the database refuses (a used id, a second active incident) changes nothing. */
  ghost function Apply(n: Normalizer, db: Db, step: Step): Db
    requires DbInv(db)
  {
    match step
    case Webhook(r) => if FreshIds(n, db, r) then Deliver(n, db, r) else db
    case EditStatus(i, status, resolvedAt) =>
      if EditAllowed(db.incidents, i, status) then db.(incidents := EditRow(db.incidents, i, status, resolvedAt))
        else db
    case Publish(outbox) => if SameAnnouncements(db.outbox, outbox) then db.(outbox := outbox) else db
    case Work(work) => if WorkAges(db.work, work) then db.(work := work) else db
  }

  lemma {:induction false} EditKeepsInv(db: Db, i: Id, status: IncidentStatus, resolvedAt: Option<L.Instant>)
    requires DbInv(db) && EditAllowed(db.incidents, i, status)
    ensures DbInv(db.(incidents := EditRow(db.incidents, i, status, resolvedAt)))
  {
    hide LogLists, KeysAgree, InstancesAgree, WorkInv, IncidentAgrees, LinkedTo, Linked, FiredBefore;
    var after := db.(incidents := EditRow(db.incidents, i, status, resolvedAt));
    KeysOnlyWork(db.incidents, after.incidents, db.outbox, db.work);
    assert OneActive(after.incidents) && ReopensAgree(after.incidents) by {
      EditKeepsRows(db.incidents, i, status, resolvedAt);
    }
    assert LinksAgree(after) by {
      assert forall k :: 0 <= k < |db.links| ==> LinkFine(db, db.links[k]);
    }
    forall x | x in after.incidents
      ensures IncidentAgrees(after.events, LinkedTo(after.links, x), after.incidents[x])
    {
      assert IncidentAgrees(db.events, LinkedTo(db.links, x), db.incidents[x]);
      StatusIsNotSummarised(db.events, LinkedTo(db.links, x), db.incidents[x], after.incidents[x]);
    }
    forall s: string
      ensures WithIdentity(after.incidents, s) == WithIdentity(db.incidents, s)
    {
    }
    forall k | 0 <= k < |after.log|
      ensures OrphanFine(after, k)
    {
      assert OrphanFine(db, k);
    }
    assert DeliveriesAgree(after) by {
      forall d | d in after.deliveries
        ensures HasEvents(after, d) == HasEvents(db, d) && HasInvalid(after, d) == HasInvalid(db, d)
      {
        SameEvents(db, after, d);
      }
    }
  }

  lemma StatusIsNotSummarised(events: map<Id, AlertEvent>, h: seq<Id>, row: Incident, after: Incident)
    requires IncidentAgrees(events, h, row)
    requires after.identity == row.identity && after.version == row.version && after.openedAt == row.openedAt
             && after.alertState == row.alertState
    ensures IncidentAgrees(events, h, after)
  {
  }

  lemma {:induction false} EditKeepsRows(incidents: map<Id, Incident>, i: Id, status: IncidentStatus,
                                         resolvedAt: Option<L.Instant>)
    requires OneActive(incidents) && ReopensAgree(incidents) && EditAllowed(incidents, i, status)
    ensures OneActive(EditRow(incidents, i, status, resolvedAt))
            && ReopensAgree(EditRow(incidents, i, status, resolvedAt))
  {
    var after := EditRow(incidents, i, status, resolvedAt);
    forall x | x in after && after[x].reopenedFrom.Some?
      ensures ReopenFine(after, x, after[x].reopenedFrom.value)
    {
      assert ReopenFine(incidents, x, incidents[x].reopenedFrom.value);
    }
    assert Active(status) ==> forall x :: x in incidents && x != i ==>
           x !in ActiveWith(incidents, incidents[i].identity);
    assert forall x :: x in incidents && x != i ==> !BothActive(incidents[x], after[i]);
    forall a, b | a in after && b in after && BothActive(after[a], after[b])
      ensures a == b
    {
      if a != i && b != i {
        assert BothActive(incidents[a], incidents[b]);
      }
    }
  }

  lemma SameNames(outbox: map<Id, O.Row>, after: map<Id, O.Row>, incident: Id, job: Id, run: Id)
    requires SameAnnouncements(outbox, after)
    ensures HasOutbox(outbox, incident) ==> HasOutbox(after, incident)
    ensures NamesJob(outbox, job, run) ==> NamesJob(after, job, run)
    ensures NamesRun(outbox, run) ==> NamesRun(after, run)
  {
    if HasOutbox(outbox, incident) {
      var o :| o in outbox && outbox[o].incident == incident;
      assert after[o].incident == incident;
    }
    if NamesJob(outbox, job, run) {
      var o :| o in outbox && outbox[o].payload.Some? && outbox[o].payload.value.job == job
        && outbox[o].payload.value.run == run;
      assert after[o].payload == outbox[o].payload;
    }
    if NamesRun(outbox, run) {
      var o :| o in outbox && outbox[o].payload.Some? && outbox[o].payload.value.run == run;
      assert after[o].payload == outbox[o].payload;
    }
  }

  lemma RunsStay(work: L.Tables, worked: L.Tables, job: Id)
    requires WorkAges(work, worked) && job in work.jobs
    ensures job in worked.jobs && worked.jobs[job].run == work.jobs[job].run
  {
    hide L.Coupled;
  }

  lemma {:induction false} OutboxMovesKeepWork(incidents: map<Id, Incident>, outbox: map<Id, O.Row>,
                                               after: map<Id, O.Row>, work: L.Tables, worked: L.Tables)
    requires WorkInv(incidents, outbox, work) && SameAnnouncements(outbox, after) && WorkAges(work, worked)
    ensures WorkInv(incidents, after, worked)
  {
    hide L.Coupled, L.Matches, P.Ages, HasOutbox, NamesJob, NamesRun;
    forall o | o in after
      ensures OutboxRowFine(incidents, worked, after[o])
    {
      assert OutboxRowFine(incidents, work, outbox[o]);
      P.MatchesAges(work, worked, outbox[o].payload.value);
    }
    forall i | i in incidents
      ensures HasOutbox(after, i)
    {
      SameNames(outbox, after, i, "", "");
    }
    forall j | j in worked.jobs
      ensures NamesJob(after, j, worked.jobs[j].run)
    {
      RunsStay(work, worked, j);
      SameNames(outbox, after, "", j, work.jobs[j].run);
    }
    forall r | r in worked.runs
      ensures NamesRun(after, r)
    {
      SameNames(outbox, after, "", "", r);
    }
  }

  lemma {:induction false} MovesKeepInv(db: Db, outbox: map<Id, O.Row>, work: L.Tables)
    requires DbInv(db) && SameAnnouncements(db.outbox, outbox) && WorkAges(db.work, work)
    ensures DbInv(db.(outbox := outbox, work := work))
  {
    hide LogLists, KeysAgree, InstancesAgree, WorkInv, IncidentInv;
    var after := db.(outbox := outbox, work := work);
    OutboxMovesKeepWork(db.incidents, db.outbox, outbox, db.work, work);
    IncidentFrame(db, after);
    assert DeliveriesAgree(after) by {
      forall d | d in after.deliveries
        ensures HasEvents(after, d) == HasEvents(db, d) && HasInvalid(after, d) == HasInvalid(db, d)
      {
        SameEvents(db, after, d);
      }
    }
  }

  lemma WorkIsItsOwnAge(db: Db)
    requires DbInv(db)
    ensures WorkAges(db.work, db.work) && SameAnnouncements(db.outbox, db.outbox)
  {
    hide LogInv, IncidentInv, DeliveriesAgree;
    P.CoupledIsOneToOne(db.work);
  }

  lemma {:induction false} ApplyKeepsInv(n: Normalizer, db: Db, step: Step)
    requires DbInv(db)
    ensures DbInv(Apply(n, db, step)) && db.dedup.Keys <= Apply(n, db, step).dedup.Keys
  {
    hide DbInv, Deliver, FreshIds, WorkAges, SameAnnouncements;
    WorkIsItsOwnAge(db);
    match step
    case Webhook(r) => if FreshIds(n, db, r) { DeliverKeepsInv(n, db, r); }
    case EditStatus(i, status, resolvedAt) =>
      if EditAllowed(db.incidents, i, status) { EditKeepsInv(db, i, status, resolvedAt); }
    case Publish(outbox) =>
      if SameAnnouncements(db.outbox, outbox) {
        MovesKeepInv(db, outbox, db.work);
        assert db.(outbox := outbox, work := db.work) == db.(outbox := outbox);
      }
    case Work(work) =>
      if WorkAges(db.work, work) {
        MovesKeepInv(db, db.outbox, work);
        assert db.(outbox := db.outbox, work := work) == db.(work := work);
      }
  }

  ghost function ApplyAll(n: Normalizer, db: Db, steps: seq<Step>): (after: Db)
    requires DbInv(db)
    ensures DbInv(after)
    decreases |steps|
  {
    if steps == [] then db
    else
      ApplyKeepsInv(n, db, steps[0]);
      ApplyAll(n, Apply(n, db, steps[0]), steps[1..])
  }

  /**
   After any history that starts from empty tables, the materialised rows agree with the append-only
   event log, at most one incident per identity is active, and incidents, runs, jobs and outbox rows
   correspond one to one.
   */
  lemma {:induction false} RowsAgreeWithLog(n: Normalizer, steps: seq<Step>)
    ensures DbInv(Empty()) && DbInv(ApplyAll(n, Empty(), steps))
  {
    EmptyIsInv();
  }

  ghost predicate OnlyRunOf(db: Db, incident: Id, run: Id) {
    run in db.work.runs && forall r :: r in db.work.runs ==> (db.work.runs[r].incident == incident <==> r == run)
  }

  ghost predicate OnlyJobOf(db: Db, run: Id, job: Id) {
    job in db.work.jobs && forall j :: j in db.work.jobs ==> (db.work.jobs[j].run == run <==> j == job)
  }

  /** The outbox row that announced a run belongs to the run's incident. */
  lemma {:induction false} RunAnnounced(db: Db, r: Id) returns (o: Id)
    requires WorkInv(db.incidents, db.outbox, db.work) && r in db.work.runs
    ensures o in db.outbox && db.outbox[o].payload.Some? && db.outbox[o].payload.value.run == r
    ensures db.outbox[o].incident == db.work.runs[r].incident
  {
    hide L.Coupled, HasOutbox, NamesJob;
    assert NamesRun(db.outbox, r);
    o :| o in db.outbox && db.outbox[o].payload.Some? && db.outbox[o].payload.value.run == r;
    assert OutboxRowFine(db.incidents, db.work, db.outbox[o]);
  }

  /** Each incident has exactly one outbox row, exactly one run, and that run exactly one job, all named by the row. */
  lemma {:induction false} OneOfEach(db: Db, incident: Id) returns (o: Id)
    requires DbInv(db) && incident in db.incidents
    ensures o in db.outbox && db.outbox[o].payload.Some?
    ensures forall x :: x in db.outbox ==> (db.outbox[x].incident == incident <==> x == o)
    ensures OnlyRunOf(db, incident, db.outbox[o].payload.value.run)
    ensures OnlyJobOf(db, db.outbox[o].payload.value.run, db.outbox[o].payload.value.job)
  {
    hide LogInv, IncidentInv, DeliveriesAgree, NamesJob, NamesRun, L.JobAgrees;
    assert HasOutbox(db.outbox, incident);
    o :| o in db.outbox && db.outbox[o].incident == incident;
    assert OutboxRowFine(db.incidents, db.work, db.outbox[o]);
    forall r | r in db.work.runs && db.work.runs[r].incident == incident
      ensures r == db.outbox[o].payload.value.run
    {
      var x := RunAnnounced(db, r);
    }
  }

  lemma {:induction false} ClaimsAreForever(n: Normalizer, db: Db, steps: seq<Step>)
    requires DbInv(db)
    ensures db.dedup.Keys <= ApplyAll(n, db, steps).dedup.Keys
    decreases |steps|
  {
    hide DbInv, Apply;
    if steps != [] {
      ApplyKeepsInv(n, db, steps[0]);
      ClaimsAreForever(n, Apply(n, db, steps[0]), steps[1..]);
    }
  }

  /**
   Redelivering a body for its source, at any later time and whatever happened in between, adds one
   `DUPLICATE` delivery row: no event, instance, incident, link, run, job or outbox row changes.
   */
  lemma {:induction false} RedeliveryIsDuplicate(n: Normalizer, db: Db, r: Request, steps: seq<Step>, again: Request)
    requires DbInv(db) && FreshIds(n, db, r) && again.source == r.source && again.body == r.body
    requires DbInv(Deliver(n, db, r)) && FreshIds(n, ApplyAll(n, Deliver(n, db, r), steps), again)
    ensures var before := ApplyAll(n, Deliver(n, db, r), steps);
            Deliver(n, before, again) == before.(deliveries := before.deliveries[again.delivery :=
              Delivery(r.source, n.hashBody(r.body), again.now, DUPLICATE, Some(again.now))])
  {
    hide DbInv, Deliver, FreshIds, ApplyAll, AllClaimed;
    DeliverKeepsInv(n, db, r);
    var first := Deliver(n, db, r);
    var before := ApplyAll(n, first, steps);
    ClaimsAreForever(n, first, steps);
    ClaimsStay(n, first, before, r, again);
    ClaimedDeliveryIsDuplicate(n, before, again);
  }
}
