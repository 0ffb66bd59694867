/** What every ingestion transaction keeps: the materialised rows agree with the event log. */
module IngestionProofs {
  import opened Common
  import opened Ordering
  import opened IngestionModel
  import L = LeaseTables
  import O = OutboxModel

  // ----- The log invariant -----

  /** The events of one alert instance, which has the same source and fingerprint throughout, in order. */
  function History(events: map<Id, AlertEvent>, log: seq<Id>, k: InstanceKey): (h: seq<Id>)
    requires forall id :: id in log ==> id in events
    ensures forall id :: id in h ==>
            id in log && events[id].event.source == k.source && events[id].event.fingerprint == k.fingerprint
  {
    if log == [] then []
    else
      var last := log[|log| - 1];
      var e := events[last].event;
      History(events, log[..|log| - 1], k) + if e.source == k.source && e.fingerprint == k.fingerprint then [last]
        else []
  }

  /** An instance row is the summary of its history. */
  predicate InstanceAgrees(events: map<Id, AlertEvent>, h: seq<Id>, row: Instance)
    requires h != [] && forall id :: id in h ==> id in events
  {
    var first, last := events[h[0]], events[h[|h| - 1]];
    && row.version == |h| && row.latestEvent == h[|h| - 1]
    && row.state == last.event.state && row.detail == last.event.detail
    && row.firstSeen == first.receivedAt && row.lastSeen == last.receivedAt
    && row.resolvedAt == if last.event.state == AlertState.RESOLVED then Some(last.receivedAt) else None
  }

  ghost predicate LogLists(events: map<Id, AlertEvent>, log: seq<Id>) {
    && (forall id :: id in log <==> id in events)
    && forall i, j :: 0 <= i < j < |log| ==> log[i] != log[j]
  }

  /** Alert events and claimed dedup keys are in bijection; both name the delivery that brought them. */
  ghost predicate KeysAgree(deliveries: map<Id, Delivery>, dedup: map<DedupKey, Id>, events: map<Id, AlertEvent>) {
    && (forall id :: id in events ==>
          && EventKey(events[id].event) in dedup && dedup[EventKey(events[id].event)] == events[id].delivery
          && events[id].delivery in deliveries)
    && (forall a, b :: a in events && b in events && EventKey(events[a].event) == EventKey(events[b].event) ==> a == b)
    && forall k :: k in dedup ==> exists id :: id in events && EventKey(events[id].event) == k
  }

  ghost predicate InstanceFine(events: map<Id, AlertEvent>, log: seq<Id>, instances: map<InstanceKey, Instance>,
                               k: InstanceKey)
    requires forall id :: id in log ==> id in events
  {
    var h := History(events, log, k);
    && (k in instances <==> h != [])
    && (k in instances ==> InstanceAgrees(events, h, instances[k]))
  }

  ghost predicate InstancesAgree(events: map<Id, AlertEvent>, log: seq<Id>, instances: map<InstanceKey, Instance>)
    requires forall id :: id in log ==> id in events
  {
    forall k :: InstanceFine(events, log, instances, k)
  }

  ghost predicate LogInv(db: Db) {
    && LogLists(db.events, db.log) && KeysAgree(db.deliveries, db.dedup, db.events)
    && InstancesAgree(db.events, db.log, db.instances)
  }

  lemma {:induction false} HistoryFrame(events: map<Id, AlertEvent>, log: seq<Id>, k: InstanceKey, id: Id,
                                        row: AlertEvent)
    requires (forall x :: x in log ==> x in events) && id !in log
    ensures History(events[id := row], log, k) == History(events, log, k)
  {
    if log != [] {
      HistoryFrame(events, log[..|log| - 1], k, id, row);
      assert log[|log| - 1] in log;
    }
  }

  lemma {:induction false} HistorySnoc(events: map<Id, AlertEvent>, log: seq<Id>, k: InstanceKey, id: Id,
                                       row: AlertEvent)
    requires (forall x :: x in log ==> x in events) && id !in log
    ensures History(events[id := row], log + [id], k) ==
            History(events, log, k) + if InstanceOf(row.event) == k then [id] else []
  {
    HistoryFrame(events, log, k, id, row);
    assert (log + [id])[..|log|] == log;
  }

  /** Appending an event to a history and bumping the instance row go together. */
  lemma SummaryFollows(events: map<Id, AlertEvent>, h: seq<Id>, row: Instance, id: Id, latest: AlertEvent)
    requires h != [] && (forall x :: x in h ==> x in events) && id !in events && InstanceAgrees(events, h, row)
    ensures var resolvedAt := if latest.event.state == AlertState.RESOLVED then Some(latest.receivedAt) else None;
            InstanceAgrees(events[id := latest], h + [id],
              row.(latestEvent := id, state := latest.event.state, detail := latest.event.detail,
                   lastSeen := latest.receivedAt, resolvedAt := resolvedAt, version := row.version + 1))
  {
    assert h[0] in h;
  }

  lemma {:induction false} InstanceFollows(events: map<Id, AlertEvent>, log: seq<Id>,
                                           instances: map<InstanceKey, Instance>, id: Id, row: AlertEvent,
                                           k: InstanceKey)
    requires (forall x :: x in log ==> x in events) && id !in events && InstanceFine(events, log, instances, k)
    ensures InstanceFine(events[id := row], log + [id], UpsertInstance(instances, row.event, id, row.receivedAt), k)
  {
    hide History;
    HistorySnoc(events, log, k, id, row);
    var h := History(events, log, k);
    if h != [] {
      assert h[0] in h && h[|h| - 1] in h;
      if InstanceOf(row.event) == k {
        SummaryFollows(events, h, instances[k], id, row);
      }
    }
  }

  lemma {:induction false} KeysFollow(deliveries: map<Id, Delivery>, dedup: map<DedupKey, Id>,
                                      events: map<Id, AlertEvent>, id: Id, row: AlertEvent)
    requires KeysAgree(deliveries, dedup, events) && id !in events && EventKey(row.event) !in dedup
             && row.delivery in deliveries
    ensures KeysAgree(deliveries, dedup[EventKey(row.event) := row.delivery], events[id := row])
  {
    var after := events[id := row];
    var claimed := dedup[EventKey(row.event) := row.delivery];
    forall k | k in claimed
      ensures exists x :: x in after && EventKey(after[x].event) == k
    {
      if k == EventKey(row.event) {
        assert EventKey(after[id].event) == k;
      } else {
        var x :| x in events && EventKey(events[x].event) == k;
        assert EventKey(after[x].event) == k;
      }
    }
  }

  lemma LogFollows(events: map<Id, AlertEvent>, log: seq<Id>, id: Id, row: AlertEvent)
    requires LogLists(events, log) && id !in events
    ensures LogLists(events[id := row], log + [id])
  {
    forall i, j | 0 <= i < j < |log| + 1
      ensures (log + [id])[i] != (log + [id])[j]
    {
      assert log[i] in log;
    }
  }

  lemma {:induction false} LogKeepsInv(db: Db, delivery: Id, now: L.Instant, e: CanonicalEvent, id: Id)
    requires LogInv(db) && EventKey(e) !in db.dedup && id !in db.events && delivery in db.deliveries
    ensures LogInv(LogEvent(db, delivery, now, e, id))
  {
    hide KeysAgree, InstanceFine, UpsertInstance;
    var row := AlertEvent(delivery, now, e);
    LogFollows(db.events, db.log, id, row);
    KeysFollow(db.deliveries, db.dedup, db.events, id, row);
    var after := LogEvent(db, delivery, now, e, id);
    forall k
      ensures InstanceFine(after.events, after.log, after.instances, k)
    {
      InstanceFollows(db.events, db.log, db.instances, id, row, k);
    }
  }

  // ----- The incident invariant -----

  function LinkedTo(links: seq<Link>, i: Id): (h: seq<Id>)
  {
    if links == [] then []
    else LinkedTo(links[..|links| - 1], i) + if links[|links| - 1].incident == i then [links[|links| - 1].event] else []
  }

  ghost predicate Linked(links: seq<Link>, event: Id) {
    exists k :: 0 <= k < |links| && links[k].event == event
  }

  /** An incident row is the summary of the events linked to it; a firing event opened it. */
  ghost predicate IncidentAgrees(events: map<Id, AlertEvent>, h: seq<Id>, row: Incident) {
    && h != [] && (forall id :: id in h ==> id in events && events[id].event.identity == row.identity)
    && h[0] in h && h[|h| - 1] in h
    && row.version == |h|
    && events[h[0]].event.state == FIRING && row.openedAt == events[h[0]].receivedAt
    && row.alertState == events[h[|h| - 1]].event.state
  }

  ghost predicate IncidentsAgree(db: Db) {
    forall i :: i in db.incidents ==> IncidentAgrees(db.events, LinkedTo(db.links, i), db.incidents[i])
  }

  ghost predicate OneActive(incidents: map<Id, Incident>) {
    forall a, b :: a in incidents && b in incidents && BothActive(incidents[a], incidents[b]) ==> a == b
  }

  /** Two incidents of one identity, neither of them resolved. */
  predicate BothActive(a: Incident, b: Incident) {
    a.identity == b.identity && a.status != IncidentStatus.RESOLVED && b.status != IncidentStatus.RESOLVED
  }

  ghost predicate LinkFine(db: Db, l: Link) {
    && l.incident in db.incidents && l.event in db.events
    && db.events[l.event].event.identity == db.incidents[l.incident].identity
  }

  /** A link joins an event to an incident of the same identity, and an event has at most one link. */
  ghost predicate LinksAgree(db: Db) {
    && (forall k :: 0 <= k < |db.links| ==> LinkFine(db, db.links[k]))
    && forall j, k :: 0 <= j < k < |db.links| ==> db.links[j].event != db.links[k].event
  }

  predicate Fires(events: map<Id, AlertEvent>, id: Id, identity: string) {
    id in events && events[id].event.state == FIRING && events[id].event.identity == identity
  }

  /** A firing event with this identity is among the first `n` of the log. */
  ghost predicate FiredBefore(events: map<Id, AlertEvent>, log: seq<Id>, n: nat, identity: string) {
    exists j :: 0 <= j < n && j < |log| && Fires(events, log[j], identity)
  }

  /**
   The events without a link are the resolutions that came before their identity ever fired.
   */
  ghost predicate OrphanFine(db: Db, k: nat)
    requires k < |db.log|
  {
    && db.log[k] in db.events
    && var e := db.events[db.log[k]].event;
       (!Linked(db.links, db.log[k]) <==>
        e.state == AlertState.RESOLVED && !FiredBefore(db.events, db.log, k, e.identity))
  }

  /** An identity has an incident once it has fired. */
  ghost predicate IncidentsFired(db: Db, n: nat) {
    forall s: string {:trigger WithIdentity(db.incidents, s)} :: FiredBefore(db.events, db.log, n, s) <==>
      WithIdentity(db.incidents, s) != {}
  }

  ghost predicate OrphansUpTo(db: Db, n: nat) {
    n <= |db.log| && IncidentsFired(db, n) && forall k :: 0 <= k < n ==> OrphanFine(db, k)
  }

  ghost predicate ReopensAgree(incidents: map<Id, Incident>) {
    forall i :: i in incidents && incidents[i].reopenedFrom.Some? ==>
      ReopenFine(incidents, i, incidents[i].reopenedFrom.value)
  }

  predicate ReopenFine(incidents: map<Id, Incident>, i: Id, from: Id)
    requires i in incidents
  {
    from in incidents && from != i && incidents[from].identity == incidents[i].identity
  }

  ghost predicate IncidentInv(db: Db, n: nat) {
    && LinksAgree(db) && IncidentsAgree(db) && OneActive(db.incidents) && OrphansUpTo(db, n)
       && ReopensAgree(db.incidents)
  }

  lemma {:induction false} NotLinkedTo(links: seq<Link>, i: Id)
    requires forall k :: 0 <= k < |links| ==> links[k].incident != i
    ensures LinkedTo(links, i) == []
  {
    if links != [] {
      NotLinkedTo(links[..|links| - 1], i);
    }
  }

  lemma LinkedAfter(links: seq<Link>, l: Link, event: Id)
    ensures Linked(links + [l], event) <==> Linked(links, event) || event == l.event
  {
    if Linked(links, event) {
      var k :| 0 <= k < |links| && links[k].event == event;
      assert (links + [l])[k].event == event;
    }
    assert (links + [l])[|links|] == l;
  }

  lemma LinkedToAfter(links: seq<Link>, l: Link, i: Id)
    ensures LinkedTo(links + [l], i) == LinkedTo(links, i) + if l.incident == i then [l.event] else []
  {
    assert (links + [l])[..|links|] == links;
  }

  lemma FiredKept(events: map<Id, AlertEvent>, log: seq<Id>, id: Id, row: AlertEvent, n: nat, s: string)
    requires n <= |log| && id !in events && forall k :: 0 <= k < |log| ==> log[k] in events
    ensures FiredBefore(events[id := row], log + [id], n, s) <==> FiredBefore(events, log, n, s)
  {
    var after := events[id := row];
    if FiredBefore(events, log, n, s) {
      var j :| 0 <= j < n && j < |log| && Fires(events, log[j], s);
      assert Fires(after, (log + [id])[j], s);
    }
    if FiredBefore(after, log + [id], n, s) {
      var j :| 0 <= j < n && j < |log| + 1 && Fires(after, (log + [id])[j], s);
      assert Fires(events, log[j], s);
    }
  }

  lemma SummaryOfIncidentKept(events: map<Id, AlertEvent>, h: seq<Id>, row: Incident, id: Id, latest: AlertEvent)
    requires id !in events && IncidentAgrees(events, h, row)
    ensures IncidentAgrees(events[id := latest], h, row)
  {
  }

  /** Logging an event leaves the incident part as it was, with one event still to relate. */
  lemma {:induction false} LogKeepsIncidents(db: Db, delivery: Id, now: L.Instant, e: CanonicalEvent, id: Id)
    requires LogLists(db.events, db.log) && IncidentInv(db, |db.log|) && id !in db.events
    ensures IncidentInv(LogEvent(db, delivery, now, e, id), |db.log|)
  {
    hide UpsertInstance, IncidentAgrees, LinkedTo, Linked, FiredBefore;
    var after := LogEvent(db, delivery, now, e, id);
    var row := AlertEvent(delivery, now, e);
    assert LinksAgree(after) by {
      assert forall k :: 0 <= k < |db.links| ==> LinkFine(db, db.links[k]);
    }
    forall i | i in after.incidents
      ensures IncidentAgrees(after.events, LinkedTo(after.links, i), after.incidents[i])
    {
      SummaryOfIncidentKept(db.events, LinkedTo(db.links, i), db.incidents[i], id, row);
    }
    LogKeepsOrphans(db, after, id, row);
  }

  lemma {:induction false} LogKeepsOrphans(db: Db, after: Db, id: Id, row: AlertEvent)
    requires LogLists(db.events, db.log) && OrphansUpTo(db, |db.log|) && id !in db.events
    requires after.events == db.events[id := row] && after.log == db.log + [id]
    requires after.links == db.links && after.incidents == db.incidents
    ensures OrphansUpTo(after, |db.log|)
  {
    hide Linked, FiredBefore, WithIdentity;
    assert forall k :: 0 <= k < |db.log| ==> db.log[k] in db.log;
    forall s: string
      ensures FiredBefore(after.events, after.log, |db.log|, s) <==> FiredBefore(db.events, db.log, |db.log|, s)
    {
      FiredKept(db.events, db.log, id, row, |db.log|, s);
    }
    forall k | 0 <= k < |db.log|
      ensures OrphanFine(after, k)
    {
      assert OrphanFine(db, k);
      FiredKept(db.events, db.log, id, row, k, db.events[db.log[k]].event.identity);
    }
  }

  // ----- Relating the last event -----

  /** The last event of the log is not linked yet; everything before it is settled. */
  ghost predicate Pending(db: Db, e: CanonicalEvent, id: Id, now: L.Instant) {
    && |db.log| > 0 && db.log[|db.log| - 1] == id && id in db.events
    && db.events[id].event == e && db.events[id].receivedAt == now && !Linked(db.links, id)
    && LogLists(db.events, db.log) && IncidentInv(db, |db.log| - 1)
  }

  lemma FiredStep(events: map<Id, AlertEvent>, log: seq<Id>, s: string)
    requires log != []
    ensures FiredBefore(events, log, |log|, s) <==>
            FiredBefore(events, log, |log| - 1, s) || Fires(events, log[|log| - 1], s)
  {
    if FiredBefore(events, log, |log|, s) {
      var j :| 0 <= j < |log| && Fires(events, log[j], s);
      assert j < |log| - 1 || j == |log| - 1;
    }
  }

  /** Orphans before the last event are not affected by a link of the last event. */
  lemma {:induction false} OrphansExtend(db: Db, after: Db, linked: bool)
    requires db.log != [] && LogLists(db.events, db.log) && OrphansUpTo(db, |db.log| - 1)
    requires after.log == db.log && after.events == db.events
    requires forall x :: Linked(after.links, x) <==> Linked(db.links, x) || (linked && x == db.log[|db.log| - 1])
    requires !Linked(db.links, db.log[|db.log| - 1])
    requires var last := db.log[|db.log| - 1];
             var e := db.events[last].event;
             && (linked <==> e.state == FIRING || WithIdentity(db.incidents, e.identity) != {})
             && forall s: string :: WithIdentity(after.incidents, s) != {} <==>
                  WithIdentity(db.incidents, s) != {} || (e.state == FIRING && s == e.identity)
    ensures OrphansUpTo(after, |db.log|)
  {
    hide Linked, FiredBefore, WithIdentity;
    var n := |db.log| - 1;
    var last := db.log[n];
    var e := db.events[last].event;
    forall s: string
      ensures FiredBefore(after.events, after.log, n + 1, s) <==> WithIdentity(after.incidents, s) != {}
    {
      FiredStep(db.events, db.log, s);
    }
    forall k | 0 <= k < n + 1
      ensures OrphanFine(after, k)
    {
      if k < n {
        assert OrphanFine(db, k);
        assert db.log[k] != last;
      } else {
        assert FiredBefore(db.events, db.log, n, e.identity) <==> WithIdentity(db.incidents, e.identity) != {};
      }
    }
  }

  lemma IncidentSummaryFollows(events: map<Id, AlertEvent>, h: seq<Id>, row: Incident, id: Id)
    requires IncidentAgrees(events, h, row) && id in events && events[id].event.identity == row.identity
    ensures IncidentAgrees(events, h + [id], row.(alertState := events[id].event.state, version := row.version + 1))
  {
  }

  lemma {:induction false} LinksExtend(db: Db, after: Db, l: Link)
    requires LinksAgree(db) && after.links == db.links + [l] && after.events == db.events && LinkFine(after, l)
    requires forall i :: i in db.incidents ==>
             i in after.incidents && after.incidents[i].identity == db.incidents[i].identity
    requires !Linked(db.links, l.event)
    ensures LinksAgree(after)
  {
    forall k | 0 <= k < |after.links|
      ensures LinkFine(after, after.links[k])
    {
      if k < |db.links| {
        assert LinkFine(db, db.links[k]);
      }
    }
  }

  lemma {:induction false} AttachKeepsInv(db: Db, e: CanonicalEvent, id: Id, now: L.Instant, i: Id)
    requires Pending(db, e, id, now) && i in db.incidents && db.incidents[i].identity == e.identity
    ensures IncidentInv(Attach(db, i, id, e.state), |db.log|)
  {
    hide IncidentAgrees, LinkedTo, Linked, FiredBefore;
    var after := Attach(db, i, id, e.state);
    var l := Link(i, id);
    LinksExtend(db, after, l);
    forall x | x in after.incidents
      ensures IncidentAgrees(after.events, LinkedTo(after.links, x), after.incidents[x])
    {
      LinkedToAfter(db.links, l, x);
      assert IncidentAgrees(db.events, LinkedTo(db.links, x), db.incidents[x]);
      if x == i {
        IncidentSummaryFollows(db.events, LinkedTo(db.links, x), db.incidents[x], id);
      } else {
        assert LinkedTo(db.links, x) + [] == LinkedTo(db.links, x);
      }
    }
    assert OneActive(after.incidents) && ReopensAgree(after.incidents) by {
      RowsStay(db.incidents, after.incidents);
    }
    assert OrphansUpTo(after, |db.log|) by {
      forall s: string
        ensures WithIdentity(after.incidents, s) == WithIdentity(db.incidents, s)
      {
      }
      assert i in WithIdentity(db.incidents, e.identity);
      forall x
        ensures Linked(after.links, x) <==> Linked(db.links, x) || x == id
      {
        LinkedAfter(db.links, l, x);
      }
      OrphansExtend(db, after, true);
    }
  }

  lemma RowsStay(incidents: map<Id, Incident>, after: map<Id, Incident>)
    requires OneActive(incidents) && ReopensAgree(incidents) && after.Keys == incidents.Keys
    requires forall i :: i in incidents ==>
               after[i].status == incidents[i].status && after[i].identity == incidents[i].identity
                 && after[i].reopenedFrom == incidents[i].reopenedFrom
    ensures OneActive(after) && ReopensAgree(after)
  {
    forall i | i in after && after[i].reopenedFrom.Some?
      ensures ReopenFine(after, i, after[i].reopenedFrom.value)
    {
      assert ReopenFine(incidents, i, incidents[i].reopenedFrom.value);
    }
    forall a, b | a in after && b in after && BothActive(after[a], after[b])
      ensures a == b
    {
      assert BothActive(incidents[a], incidents[b]);
    }
  }

  lemma {:induction false} OpenKeepsRows(incidents: map<Id, Incident>, i: Id, row: Incident)
    requires OneActive(incidents) && ReopensAgree(incidents) && i !in incidents
    requires Active(row.status) ==> ActiveWith(incidents, row.identity) == {}
    requires row.reopenedFrom.Some? ==> row.reopenedFrom.value in WithIdentity(incidents, row.identity)
    ensures OneActive(incidents[i := row]) && ReopensAgree(incidents[i := row])
  {
    var after := incidents[i := row];
    forall x | x in after && after[x].reopenedFrom.Some?
      ensures ReopenFine(after, x, after[x].reopenedFrom.value)
    {
      if x != i {
        assert ReopenFine(incidents, x, incidents[x].reopenedFrom.value);
      }
    }
    assert Active(row.status) ==> forall x :: x in incidents ==> x !in ActiveWith(incidents, row.identity);
    assert forall x :: x in incidents ==> !BothActive(incidents[x], row);
    forall a, b | a in after && b in after && BothActive(after[a], after[b])
      ensures a == b
    {
      if a != i && b != i {
        assert BothActive(incidents[a], incidents[b]);
      }
    }
  }

  lemma {:induction false} OpenKeepsInv(db: Db, e: CanonicalEvent, id: Id, now: L.Instant, u: Uuids)
    requires Pending(db, e, id, now) && e.state == FIRING && ActiveWith(db.incidents, e.identity) == {}
    requires u.incident !in db.incidents
    ensures IncidentInv(Open(db, e, id, now, u, LatestResolved(db.incidents, e.identity)), |db.log|)
  {
    hide IncidentAgrees, LinkedTo, Linked, FiredBefore, L.InsertRows;
    var from := LatestResolved(db.incidents, e.identity);
    var after := Open(db, e, id, now, u, from);
    var l := Link(u.incident, id);
    LinksExtend(db, after, l);
    assert LinkedTo(db.links, u.incident) == [] by {
      assert forall k :: 0 <= k < |db.links| ==> LinkFine(db, db.links[k]);
      NotLinkedTo(db.links, u.incident);
    }
    forall x | x in after.incidents
      ensures IncidentAgrees(after.events, LinkedTo(after.links, x), after.incidents[x])
    {
      LinkedToAfter(db.links, l, x);
      if x == u.incident {
        FirstLink(db.events, after.incidents[x], id);
      } else {
        assert IncidentAgrees(db.events, LinkedTo(db.links, x), db.incidents[x]);
        assert LinkedTo(db.links, x) + [] == LinkedTo(db.links, x);
      }
    }
    OpenKeepsRows(db.incidents, u.incident, after.incidents[u.incident]);
    assert OrphansUpTo(after, |db.log|) by {
      forall s: string
        ensures WithIdentity(after.incidents, s) != {} <==> WithIdentity(db.incidents, s) != {} || s == e.identity
      {
        assert WithIdentity(after.incidents, s) ==
               WithIdentity(db.incidents, s) + if s == e.identity then {u.incident} else {};
      }
      forall x
        ensures Linked(after.links, x) <==> Linked(db.links, x) || x == id
      {
        LinkedAfter(db.links, l, x);
      }
      OrphansExtend(db, after, true);
    }
  }

  lemma FirstLink(events: map<Id, AlertEvent>, row: Incident, id: Id)
    requires id in events && events[id].event.identity == row.identity && row.version == 1
    requires events[id].event.state == FIRING && row.openedAt == events[id].receivedAt && row.alertState == FIRING
    ensures IncidentAgrees(events, [] + [id], row)
  {
    assert [] + [id] == [id];
  }

  lemma {:induction false} RelateKeepsInv(db: Db, e: CanonicalEvent, id: Id, now: L.Instant, u: Uuids)
    requires Pending(db, e, id, now) && u.incident !in db.incidents
    ensures IncidentInv(Relate(db, e, id, now, u), |db.log|)
  {
    hide LinksAgree, IncidentsAgree, OneActive, OrphansUpTo, ReopensAgree, Linked, Open, Attach;
    if e.state == FIRING {
      if ActiveWith(db.incidents, e.identity) == {} {
        OpenKeepsInv(db, e, id, now, u);
      } else {
        AttachKeepsInv(db, e, id, now, LatestOf(db.incidents, ActiveWith(db.incidents, e.identity)));
      }
    } else if WithIdentity(db.incidents, e.identity) == {} {
      OrphansExtend(db, db, false);
    } else {
      AttachKeepsInv(db, e, id, now, LatestOf(db.incidents, WithIdentity(db.incidents, e.identity)));
    }
  }

  // ----- The work invariant -----

  /** An outbox row carries the triple of the job, run and incident committed with it. */
  predicate OutboxRowFine(incidents: map<Id, Incident>, work: L.Tables, row: O.Row) {
    && row.payload.Some? && row.payload.value.incident == row.incident && row.incident in incidents
    && L.Matches(work, row.payload.value) && row.key == RunKey(row.payload.value.run)
  }

  ghost predicate HasOutbox(outbox: map<Id, O.Row>, incident: Id) {
    exists o :: o in outbox && outbox[o].incident == incident
  }

  ghost predicate NamesJob(outbox: map<Id, O.Row>, job: Id, run: Id) {
    exists o :: o in outbox && outbox[o].payload.Some? && outbox[o].payload.value.job == job
      && outbox[o].payload.value.run == run
  }

  ghost predicate NamesRun(outbox: map<Id, O.Row>, run: Id) {
    exists o :: o in outbox && outbox[o].payload.Some? && outbox[o].payload.value.run == run
  }

  /**
   Incidents, runs, jobs and outbox rows are in one-to-one correspondence: each incident has exactly
   one outbox row, and each run and job is named by one.
   */
  ghost predicate WorkInv(incidents: map<Id, Incident>, outbox: map<Id, O.Row>, work: L.Tables) {
    && L.Coupled(work)
    && (forall o :: o in outbox ==> OutboxRowFine(incidents, work, outbox[o]))
    && (forall i :: i in incidents ==> HasOutbox(outbox, i))
    && (forall a, b :: a in outbox && b in outbox && outbox[a].incident == outbox[b].incident ==> a == b)
    && (forall j :: j in work.jobs ==> NamesJob(outbox, j, work.jobs[j].run))
    && (forall r :: r in work.runs ==> NamesRun(outbox, r))
  }

  lemma NamesStay(outbox: map<Id, O.Row>, o: Id, row: O.Row, incident: Id, job: Id, run: Id)
    requires o !in outbox
    ensures HasOutbox(outbox, incident) ==> HasOutbox(outbox[o := row], incident)
    ensures NamesJob(outbox, job, run) ==> NamesJob(outbox[o := row], job, run)
    ensures NamesRun(outbox, run) ==> NamesRun(outbox[o := row], run)
  {
    var after := outbox[o := row];
    if HasOutbox(outbox, incident) {
      var x :| x in outbox && outbox[x].incident == incident;
      assert after[x].incident == incident;
    }
    if NamesJob(outbox, job, run) {
      var x :| x in outbox && outbox[x].payload.Some? && outbox[x].payload.value.job == job
        && outbox[x].payload.value.run == run;
      assert after[x] == outbox[x];
    }
    if NamesRun(outbox, run) {
      var x :| x in outbox && outbox[x].payload.Some? && outbox[x].payload.value.run == run;
      assert after[x] == outbox[x];
    }
  }

  lemma NamesNew(outbox: map<Id, O.Row>, o: Id, row: O.Row)
    requires row.payload.Some? && row.payload.value.incident == row.incident
    ensures HasOutbox(outbox[o := row], row.incident)
    ensures NamesJob(outbox[o := row], row.payload.value.job, row.payload.value.run)
    ensures NamesRun(outbox[o := row], row.payload.value.run)
  {
    assert outbox[o := row][o] == row;
  }

  lemma RowStaysFine(incidents: map<Id, Incident>, after: map<Id, Incident>, work: L.Tables, now: L.Instant,
                     msg: L.Message, row: O.Row)
    requires OutboxRowFine(incidents, work, row) && L.Insertable(work, msg) && incidents.Keys <= after.Keys
    ensures OutboxRowFine(after, L.InsertRows(work, now, msg), row)
  {
  }

  lemma NewRowFine(incidents: map<Id, Incident>, work: L.Tables, now: L.Instant, row: O.Row, msg: L.Message)
    requires row.payload == Some(msg) && row.incident == msg.incident && row.incident in incidents
             && row.key == RunKey(msg.run)
    ensures OutboxRowFine(incidents, L.InsertRows(work, now, msg), row)
  {
  }

  lemma RowNamesIncident(incidents: map<Id, Incident>, work: L.Tables, row: O.Row)
    requires OutboxRowFine(incidents, work, row)
    ensures row.incident in incidents
  {
  }

  lemma {:induction false} OpenKeepsWork(db: Db, e: CanonicalEvent, id: Id, now: L.Instant, u: Uuids, from: Option<Id>)
    requires WorkInv(db.incidents, db.outbox, db.work) && Unused(db.(events := map[]), u)
    ensures var after := Open(db, e, id, now, u, from); WorkInv(after.incidents, after.outbox, after.work)
  {
    hide L.Coupled, HasOutbox, NamesJob, NamesRun, OutboxRowFine;
    var after := Open(db, e, id, now, u, from);
    var row := after.outbox[u.outbox];
    assert OutboxRowFine(after.incidents, after.work, row) by {
      NewRowFine(after.incidents, db.work, now, row, MessageOf(u));
    }
    L.InsertKeepsCoupling(db.work, now, MessageOf(u));
    NamesNew(db.outbox, u.outbox, row);
    forall o | o in after.outbox
      ensures OutboxRowFine(after.incidents, after.work, after.outbox[o])
    {
      if o != u.outbox {
        RowStaysFine(db.incidents, after.incidents, db.work, now, MessageOf(u), db.outbox[o]);
      }
    }
    forall i | i in after.incidents
      ensures HasOutbox(after.outbox, i)
    {
      NamesStay(db.outbox, u.outbox, row, i, "", "");
    }
    forall a, b | a in after.outbox && b in after.outbox && after.outbox[a].incident == after.outbox[b].incident
      ensures a == b
    {
      if a != u.outbox {
        RowNamesIncident(db.incidents, db.work, db.outbox[a]);
      }
      if b != u.outbox {
        RowNamesIncident(db.incidents, db.work, db.outbox[b]);
      }
    }
    forall j | j in after.work.jobs
      ensures NamesJob(after.outbox, j, after.work.jobs[j].run)
    {
      NamesStay(db.outbox, u.outbox, row, "", j, after.work.jobs[j].run);
    }
    forall r | r in after.work.runs
      ensures NamesRun(after.outbox, r)
    {
      NamesStay(db.outbox, u.outbox, row, "", "", r);
    }
  }

  lemma {:induction false} RunHasKnownIncident(db: Db, r: Id)
    requires WorkInv(db.incidents, db.outbox, db.work) && r in db.work.runs
    ensures db.work.runs[r].incident in db.incidents
  {
    hide L.Coupled, HasOutbox, NamesJob;
    assert NamesRun(db.outbox, r);
    var o :| o in db.outbox && db.outbox[o].payload.Some? && db.outbox[o].payload.value.run == r;
    assert OutboxRowFine(db.incidents, db.work, db.outbox[o]);
  }

  lemma {:induction false} JobHasKnownRun(db: Db, j: Id)
    requires WorkInv(db.incidents, db.outbox, db.work) && j in db.work.jobs
    ensures db.work.jobs[j].run in db.work.runs
  {
    hide L.RowsAgree, L.AttemptsAgree, HasOutbox, NamesJob, NamesRun, OutboxRowFine;
    L.CoupledAt(db.work, j);
  }

  lemma {:induction false} KeyHasKnownRun(db: Db, o: Id, run: Id)
    requires WorkInv(db.incidents, db.outbox, db.work) && o in db.outbox && db.outbox[o].key == RunKey(run)
    ensures run in db.work.runs
  {
    hide L.Coupled, HasOutbox, NamesJob, NamesRun;
    assert OutboxRowFine(db.incidents, db.work, db.outbox[o]);
    var named := db.outbox[o].payload.value.run;
    assert RunKey(named)[8..] == named && RunKey(run)[8..] == run;
  }

  /** None of the `ON CONFLICT` clauses of `create_rca_work` can fire for an incident just created. */
  lemma {:induction false} NewWorkNeverConflicts(db: Db, u: Uuids)
    requires WorkInv(db.incidents, db.outbox, db.work) && Unused(db, u)
    ensures forall r :: r in db.work.runs ==> db.work.runs[r].incident != u.incident
    ensures forall j :: j in db.work.jobs ==> db.work.jobs[j].run != u.run
    ensures forall o :: o in db.outbox ==> db.outbox[o].key != RunKey(u.run)
  {
    hide WorkInv, RunKey;
    forall r | r in db.work.runs
      ensures db.work.runs[r].incident != u.incident
    {
      RunHasKnownIncident(db, r);
    }
    forall j | j in db.work.jobs
      ensures db.work.jobs[j].run != u.run
    {
      JobHasKnownRun(db, j);
    }
    forall o | o in db.outbox
      ensures db.outbox[o].key != RunKey(u.run)
    {
      if db.outbox[o].key == RunKey(u.run) {
        KeyHasKnownRun(db, o, u.run);
      }
    }
  }

  lemma {:induction false} KeysOnlyWork(incidents: map<Id, Incident>, after: map<Id, Incident>,
                                        outbox: map<Id, O.Row>, work: L.Tables)
    requires WorkInv(incidents, outbox, work) && after.Keys == incidents.Keys
    ensures WorkInv(after, outbox, work)
  {
    hide L.Coupled, HasOutbox, NamesJob, NamesRun;
    forall o | o in outbox
      ensures OutboxRowFine(after, work, outbox[o])
    {
      assert OutboxRowFine(incidents, work, outbox[o]);
    }
  }

  lemma {:induction false} RelateKeepsWork(db: Db, e: CanonicalEvent, id: Id, now: L.Instant, u: Uuids)
    requires WorkInv(db.incidents, db.outbox, db.work) && Unused(db.(events := map[]), u)
    ensures var after := Relate(db, e, id, now, u); WorkInv(after.incidents, after.outbox, after.work)
  {
    hide WorkInv;
    if e.state == FIRING && ActiveWith(db.incidents, e.identity) == {} {
      OpenKeepsWork(db, e, id, now, u, LatestResolved(db.incidents, e.identity));
    } else {
      var after := Relate(db, e, id, now, u);
      KeysOnlyWork(db.incidents, after.incidents, db.outbox, db.work);
    }
  }
}
