/** `IngestGrafanaAlerts.execute` and its repositories, statement by statement. */
module IngestionService {
  import opened Common
  import opened Ordering
  import opened IngestionModel
  import opened IngestionProofs
  import opened IngestionRuns
  import L = LeaseTables
  import O = OutboxModel

  class IngestGrafanaAlerts {
    var deliveries: map<Id, Delivery>
    var dedup: map<DedupKey, Id>
    var events: map<Id, AlertEvent>
    ghost var log: seq<Id>
    var instances: map<InstanceKey, Instance>
    var incidents: map<Id, Incident>
    var links: seq<Link>
    var outbox: map<Id, O.Row>
    var jobs: map<Id, L.Job>
    var runs: map<Id, L.Run>
    var attempts: map<Id, map<nat, L.Attempt>>
    const normalizer: Normalizer

    ghost function Db(): Db
      reads this
    {
      IngestionModel.Db(deliveries, dedup, events, log, instances, incidents, links, outbox,
                        L.Tables(jobs, runs, attempts))
    }

    constructor (normalizer: Normalizer)
      ensures Db() == Empty() && DbInv(Db()) && this.normalizer == normalizer
    {
      this.normalizer := normalizer;
      deliveries, dedup, events, log, instances := map[], map[], map[], [], map[];
      incidents, links, outbox, jobs, runs, attempts := map[], [], map[], map[], map[], map[];
      new;
      EmptyIsInv();
    }

    /** `ON CONFLICT (source_id, dedup_key) DO NOTHING RETURNING id` */
    method ClaimDedupKey(key: DedupKey, delivery: Id) returns (claimed: bool)
      modifies this`dedup
      ensures claimed <==> key !in old(dedup)
      ensures dedup == if claimed then old(dedup)[key := delivery] else old(dedup)
    {
      claimed := key !in dedup;
      if claimed {
        dedup := dedup[key := delivery];
      }
    }

    method AddEvent(id: Id, row: AlertEvent)
      modifies this`events, this`log
      ensures events == old(events)[id := row] && log == old(log) + [id]
    {
      events, log := events[id := row], log + [id];
    }

    method UpsertInstance(e: CanonicalEvent, id: Id, now: L.Instant)
      modifies this`instances
      ensures instances == IngestionModel.UpsertInstance(old(instances), e, id, now)
    {
      var k := InstanceOf(e);
      var resolvedAt := if e.state == AlertState.RESOLVED then Some(now) else None;
      if k !in instances {
        instances := instances[k := Instance(id, e.state, e.detail, now, now, resolvedAt, 1)];
        return;
      }
      var row := instances[k];
      instances := instances[k := Instance(id, e.state, e.detail, row.firstSeen, now, resolvedAt, row.version + 1)];
    }

    /** `get_or_create_active`; the unique index on active identities decides whether the insert happens. */
    method GetOrCreateActive(e: CanonicalEvent, proposed: Id, now: L.Instant,
                             reopenedFrom: Option<Id>) returns (id: Id, created: bool)
      modifies this`incidents
      ensures created <==> ActiveWith(old(incidents), e.identity) == {}
      ensures created ==> id == proposed
      ensures created ==>
                incidents == old(incidents)[id := Incident(e.identity, OPEN, FIRING, now, None, reopenedFrom, 1)]
      ensures !created ==> incidents == old(incidents) && id == LatestOf(incidents, ActiveWith(incidents, e.identity))
    {
      var active := ActiveWith(incidents, e.identity);
      if active == {} {
        incidents := incidents[proposed := Incident(e.identity, OPEN, FIRING, now, None, reopenedFrom, 1)];
        return proposed, true;
      }
      return LatestOf(incidents, active), false;
    }

    method LinkAlert(i: Id, event: Id)
      modifies this`links
      ensures links == old(links) + [Link(i, event)]
    {
      links := links + [Link(i, event)];
    }

    method SetAlertState(i: Id, state: AlertState)
      requires i in incidents
      modifies this`incidents
      ensures var was := old(incidents)[i];
              incidents == old(incidents)[i := was.(alertState := state, version := was.version + 1)]
    {
      var row := incidents[i];
      incidents := incidents[i := row.(alertState := state, version := row.version + 1)];
    }

    /** `create_rca_work`: the run, the job and the outbox row share one payload. */
    method CreateRcaWork(incident: Id, now: L.Instant, u: Uuids) returns (event: Id)
      requires u.incident == incident
      modifies this`jobs, this`runs, this`outbox
      ensures event == u.outbox
      ensures L.Tables(jobs, runs, attempts) == L.InsertRows(old(Db().work), now, MessageOf(u))
      ensures outbox == old(outbox)[u.outbox := O.Row(incident, Some(MessageOf(u)), RunKey(u.run), O.PENDING, now,
                                                      now, None)]
    {
      runs := runs[u.run := L.Run(incident, L.RUN_QUEUED, None, None, None)];
      jobs := jobs[u.job := L.Job(u.run, L.QUEUED, None, None, 0, now, now, None, None)];
      var payload := L.Message(u.job, u.run, incident);
      outbox := outbox[u.outbox := O.Row(incident, Some(payload), "rca-run:" + u.run, O.PENDING, now, now, None)];
      return u.outbox;
    }

    /** The incident part of one iteration: which incident the event was linked to, and a new outbox id. */
    method RelateEvent(e: CanonicalEvent, id: Id, now: L.Instant,
                       u: Uuids) returns (incident: Option<Id>, event: Option<Id>)
      modifies this
      ensures Db() == Relate(old(Db()), e, id, now, u)
      ensures links == if incident.Some? then old(links) + [Link(incident.value, id)] else old(links)
      ensures (event == None && outbox == old(outbox))
              || (event == Some(u.outbox) && outbox.Keys == old(outbox.Keys) + {u.outbox})
    {
      event := None;
      if e.state == FIRING {
        var reopenedFrom := LatestResolved(incidents, e.identity);
        var i, created := GetOrCreateActive(e, u.incident, now, reopenedFrom);
        LinkAlert(i, id);
        incident := Some(i);
        if !created {
          SetAlertState(i, FIRING);
        } else {
          var o := CreateRcaWork(i, now, u);
          event := Some(o);
        }
      } else {
        var all := WithIdentity(incidents, e.identity);
        if all == {} {
          return None, None;
        }
        var i := LatestOf(incidents, all);
        LinkAlert(i, id);
        SetAlertState(i, AlertState.RESOLVED);
        incident := Some(i);
      }
    }

    /** One iteration of the loop over alerts. */
    method IngestOne(delivery: Id, now: L.Instant, e: CanonicalEvent,
                     u: Uuids) returns (isNew: bool, incident: Option<Id>, event: Option<Id>)
      modifies this
      ensures Db() == IngestAlert(old(Db()), delivery, now, e, u)
      ensures isNew <==> EventKey(e) !in old(dedup)
      ensures TallyBetween(old(Db()), Db(), delivery, now, e, u, isNew, incident, event)
    {
      hide IngestionModel.UpsertInstance, Relate;
      isNew := ClaimDedupKey(EventKey(e), delivery);
      if !isNew {
        return isNew, None, None;
      }
      AddEvent(u.event, AlertEvent(delivery, now, e));
      UpsertInstance(e, u.event, now);
      assert Db() == LogEvent(old(Db()), delivery, now, e, u.event);
      ghost var logged := Db();
      incident, event := RelateEvent(e, u.event, now, u);
      RelateExtends(logged, e, u.event, now, u);
    }

    /** The loop over alerts with its counters and id lists. */
    method IngestAll(r: Request) returns (incidentIds: seq<Id>, outboxIds: seq<Id>, newEvents: nat, hasInvalid: bool)
      requires DbInv(Db()) && FreshAlerts(normalizer, Db(), r)
      requires r.delivery in deliveries && deliveries[r.delivery].status == RECEIVED
      requires !HasEvents(Db(), r.delivery) && !HasInvalid(Db(), r.delivery)
      modifies this
      ensures Db() == IngestAlerts(normalizer, old(Db()), r, |r.uuids|)
      ensures Tally(old(Db()), Db(), r.delivery, incidentIds, outboxIds, newEvents, hasInvalid)
    {
      hide DbInv, IngestAlert, Canonical, Unused, Disjoint, Tally, TallyBetween;
      ghost var start := Db();
      incidentIds, outboxIds, newEvents, hasInvalid := [], [], 0, false;
      TallyStarts(start, r.delivery);
      var alerts := normalizer.parse(r.body);
      for k := 0 to |alerts|
        invariant Db() == IngestAlerts(normalizer, start, r, k)
        invariant Tally(start, Db(), r.delivery, incidentIds, outboxIds, newEvents, hasInvalid)
      {
        AlertsKeepInv(normalizer, start, r, k);
        ghost var before := Db();
        var e := Canonical(normalizer, r, alerts[k]);
        var isNew, incident, event := IngestOne(r.delivery, r.now, e, r.uuids[k]);
        ghost var tally := Tallied(incidentIds, outboxIds, newEvents, hasInvalid);
        if isNew {
          newEvents := newEvents + 1;
          hasInvalid := hasInvalid || e.invalid;
        }
        if event.Some? {
          outboxIds := outboxIds + [event.value];
        }
        if incident.Some? && incident.value !in incidentIds {
          incidentIds := incidentIds + [incident.value];
        }
        TallyFollows(start, before, Db(), r.delivery, r.now, e, r.uuids[k], isNew, incident, event, tally);
      }
    }

    /**
     `execute`: the whole transaction. It returns the incidents its new events were linked to and the
     outbox rows it created, each once; those rows are what gets published right after the commit.
     */
    method Execute(r: Request) returns (incidentIds: seq<Id>, outboxIds: seq<Id>)
      requires DbInv(Db()) && FreshIds(normalizer, Db(), r)
      modifies this
      ensures Db() == Deliver(normalizer, old(Db()), r) && DbInv(Db()) && Delivers(normalizer, old(Db()), Db(), r)
      ensures Distinct(outboxIds) && Members(outboxIds) == outbox.Keys - old(outbox.Keys)
      ensures Distinct(incidentIds) && old(links) <= links
      ensures Members(incidentIds) == set l | l in links[|old(links)|..] :: l.incident
    {
      hide DbInv, IngestAlerts, HasEvents, HasInvalid, Delivers;
      ghost var start := Db();
      ReceiveKeepsInv(normalizer, start, r);
      DeliverKeepsInv(normalizer, start, r);
      DeliveryLogsNewAlerts(normalizer, start, r);
      deliveries := deliveries[r.delivery := Delivery(r.source, normalizer.hashBody(r.body), r.now, RECEIVED, None)];
      ghost var received := Db();
      NoEventsYet(start, received, r.delivery);
      AlertsKeepInv(normalizer, received, r, |r.uuids|);
      var newEvents, hasInvalid;
      incidentIds, outboxIds, newEvents, hasInvalid := IngestAll(r);
      var status := if hasInvalid then VALIDATION_FAILED else if newEvents > 0 then PROCESSED else DUPLICATE;
      deliveries := deliveries[r.delivery := deliveries[r.delivery].(status := status, processedAt := Some(r.now))];
    }
  }

  ghost predicate FreshAlerts(n: Normalizer, db: Db, r: Request) {
    && |r.uuids| == |n.parse(r.body)|
    && (forall k :: 0 <= k < |r.uuids| ==> Unused(db, r.uuids[k]))
    && forall j, k :: 0 <= j < k < |r.uuids| ==> Disjoint(r.uuids[j], r.uuids[k])
  }

  lemma NoEventsYet(db: Db, received: Db, d: Id)
    requires DbInv(db) && d !in db.deliveries && received.events == db.events
    ensures !HasEvents(received, d) && !HasInvalid(received, d)
  {
    hide IncidentInv, WorkInv, DeliveriesAgree;
    NothingNew(db, d);
    SameEvents(db, received, d);
  }

  datatype Tallied = Tallied(incidentIds: seq<Id>, outboxIds: seq<Id>, newEvents: nat, hasInvalid: bool)

  /** The loop's counters and lists describe what was added since `start`. */
  ghost predicate Tally(start: Db, db: Db, delivery: Id, incidentIds: seq<Id>, outboxIds: seq<Id>, newEvents: nat,
                        hasInvalid: bool) {
    && (newEvents > 0 <==> HasEvents(db, delivery)) && (hasInvalid <==> HasInvalid(db, delivery))
    && Collected(outboxIds, db.outbox.Keys, start.outbox.Keys)
    && start.links <= db.links && Reported(incidentIds, db.links[|start.links|..])
  }

  lemma TallyStarts(db: Db, delivery: Id)
    requires !HasEvents(db, delivery) && !HasInvalid(db, delivery)
    ensures Tally(db, db, delivery, [], [], 0, false)
  {
    assert db.links[|db.links|..] == [];
  }

  /** What one iteration changed, in the fields that the counters look at. */
  ghost predicate TallyBetween(db: Db, after: Db, delivery: Id, now: L.Instant, e: CanonicalEvent, u: Uuids,
                               isNew: bool, incident: Option<Id>, event: Option<Id>) {
    && after.events == (if isNew then db.events[u.event := AlertEvent(delivery, now, e)] else db.events)
    && after.links == (if incident.Some? then db.links + [Link(incident.value, u.event)] else db.links)
    && ((event == None && after.outbox == db.outbox)
        || (event == Some(u.outbox) && after.outbox.Keys == db.outbox.Keys + {u.outbox}))
  }

  lemma {:induction false} TallyFollows(start: Db, db: Db, after: Db, delivery: Id, now: L.Instant,
                                        e: CanonicalEvent, u: Uuids, 
                                        isNew: bool, incident: Option<Id>, event: Option<Id>, t: Tallied)
    requires Tally(start, db, delivery, t.incidentIds, t.outboxIds, t.newEvents, t.hasInvalid)
    requires Unused(db, u) && TallyBetween(db, after, delivery, now, e, u, isNew, incident, event)
    ensures Tally(start, after, delivery,
              if incident.Some? && incident.value !in t.incidentIds then t.incidentIds + [incident.value]
                else t.incidentIds,
              if event.Some? then t.outboxIds + [event.value] else t.outboxIds,
              if isNew then t.newEvents + 1 else t.newEvents, t.hasInvalid || (isNew && e.invalid))
  {
    hide HasEvents, HasInvalid, Collected, Reported;
    FlagsFollow(db, after, delivery, now, e, u.event, isNew);
    CollectFollows(t.outboxIds, db.outbox.Keys, after.outbox.Keys, start.outbox.Keys, event, u.outbox);
    var n := |start.links|;
    assert after.links[n..] == if incident.Some? then db.links[n..] + [Link(incident.value, u.event)]
           else db.links[n..];
    ReportFollows(t.incidentIds, db.links[n..], after.links[n..], incident, u.event);
  }

  ghost predicate Collected(ids: seq<Id>, now: set<Id>, before: set<Id>) {
    Distinct(ids) && Members(ids) == now - before && before <= now
  }

  ghost predicate Reported(ids: seq<Id>, links: seq<Link>) {
    Distinct(ids) && Members(ids) == set l | l in links :: l.incident
  }

  lemma FlagsFollow(db: Db, after: Db, delivery: Id, now: L.Instant, e: CanonicalEvent, id: Id, isNew: bool)
    requires id !in db.events || !isNew
    requires after.events == if isNew then db.events[id := AlertEvent(delivery, now, e)] else db.events
    ensures HasEvents(after, delivery) <==> HasEvents(db, delivery) || isNew
    ensures HasInvalid(after, delivery) <==> HasInvalid(db, delivery) || (isNew && e.invalid)
  {
    if isNew {
      assert after.events[id].delivery == delivery;
      if HasEvents(db, delivery) {
        var x :| x in db.events && db.events[x].delivery == delivery;
        assert after.events[x].delivery == delivery;
      }
      if HasInvalid(db, delivery) {
        var x :| x in db.events && db.events[x].delivery == delivery && db.events[x].event.invalid;
        assert after.events[x].delivery == delivery;
      }
    }
  }

  lemma CollectFollows(ids: seq<Id>, keys: set<Id>, after: set<Id>, start: set<Id>, event: Option<Id>, id: Id)
    requires Collected(ids, keys, start) && id !in keys
    requires (event == None && after == keys) || (event == Some(id) && after == keys + {id})
    ensures Collected(if event.Some? then ids + [id] else ids, after, start)
  {
    if event.Some? {
      assert id !in Members(ids);
      assert Members(ids + [id]) == Members(ids) + {id};
    }
  }

  lemma ReportFollows(ids: seq<Id>, links: seq<Link>, after: seq<Link>, incident: Option<Id>, event: Id)
    requires Reported(ids, links)
    requires after == if incident.Some? then links + [Link(incident.value, event)] else links
    ensures Reported(if incident.Some? && incident.value !in ids then ids + [incident.value] else ids, after)
  {
    if incident.Some? {
      var i := incident.value;
      assert (set l | l in after :: l.incident) == (set l | l in links :: l.incident) + {i} by {
        assert after[|links|] == Link(i, event);
        assert forall l :: l in after <==> l in links || l == Link(i, event);
      }
      assert Members(ids + [i]) == Members(ids) + {i};
      assert i in ids <==> i in Members(ids);
    }
  }
}
