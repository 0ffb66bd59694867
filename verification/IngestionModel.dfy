/**
 The ingestion transaction on tables: a delivery, its alerts' dedup keys and events, alert instances,
 incidents with their links, and for each new incident one run, job and outbox row.
 */
module IngestionModel {
  import opened Common
  import opened Ordering
  import L = LeaseTables
  import O = OutboxModel

  datatype AlertState = FIRING | RESOLVED

  /** One alert of a webhook body; `labels` stands for everything the labels and annotations say. */
  datatype RawAlert = RawAlert(fingerprint: string, labels: string, folder: Option<string>, name: Option<string>,
                               state: AlertState, startsAt: int, endsAt: int)

  /** Parsing, hashing, identity and validation, as functions nothing is assumed about. */
  datatype Normalizer = Normalizer(
    parse: string -> seq<RawAlert>,
    hashBody: string -> string,
    hashLabels: (Id, string) -> string,
    hashKey: (Id, string, AlertState, int, int, string) -> string,
    identity: (Id, Option<string>, Option<string>, string) -> string,
    invalid: (Id, RawAlert) -> bool)

  datatype CanonicalEvent = CanonicalEvent(source: Id, fingerprint: string, key: string, state: AlertState,
                                           identity: string, invalid: bool, detail: string)

  /** A row of `alert_events`. */
  datatype AlertEvent = AlertEvent(delivery: Id, receivedAt: L.Instant, event: CanonicalEvent)

  datatype DeliveryStatus = RECEIVED | PROCESSED | DUPLICATE | VALIDATION_FAILED

  datatype Delivery = Delivery(source: Id, bodyHash: string, receivedAt: L.Instant, status: DeliveryStatus,
                               processedAt: Option<L.Instant>)

  datatype DedupKey = DedupKey(source: Id, key: string)

  datatype InstanceKey = InstanceKey(source: Id, fingerprint: string)

  datatype Instance = Instance(latestEvent: Id, state: AlertState, detail: string, firstSeen: L.Instant,
                               lastSeen: L.Instant, resolvedAt: Option<L.Instant>, version: nat)

  datatype IncidentStatus = OPEN | INVESTIGATING | RESOLVED

  datatype Incident = Incident(identity: string, status: IncidentStatus, alertState: AlertState, openedAt: L.Instant,
                               resolvedAt: Option<L.Instant>, reopenedFrom: Option<Id>, version: nat)

  datatype Link = Link(incident: Id, event: Id)

  /** `log` lists the ids of `events` in the order of their insertion. */
  datatype Db = Db(
    deliveries: map<Id, Delivery>,
    dedup: map<DedupKey, Id>,
    events: map<Id, AlertEvent>,
    log: seq<Id>,
    instances: map<InstanceKey, Instance>,
    incidents: map<Id, Incident>,
    links: seq<Link>,
    outbox: map<Id, O.Row>,
    work: L.Tables)

  /** The `uuid4()` values one alert may use. */
  datatype Uuids = Uuids(event: Id, incident: Id, run: Id, job: Id, outbox: Id)

  /** One webhook call; `rules` is what the source's normalization rules derive from each alert. */
  datatype Request = Request(delivery: Id, source: Id, body: string, now: L.Instant, rules: RawAlert -> string,
                             uuids: seq<Uuids>)

  // ----- Normalization -----

  /** `make_alert_fingerprint` */
  function Fingerprint(n: Normalizer, source: Id, a: RawAlert): string {
    if a.fingerprint != "" then a.fingerprint else n.hashLabels(source, a.labels)
  }

  /** `make_dedup_key`: the normalization rules have no part in it. */
  function KeyOf(n: Normalizer, source: Id, body: string, a: RawAlert): string {
    n.hashKey(source, Fingerprint(n, source, a), a.state, a.startsAt, a.endsAt, n.hashBody(body))
  }

  function Canonical(n: Normalizer, r: Request, a: RawAlert): CanonicalEvent {
    CanonicalEvent(r.source, Fingerprint(n, r.source, a), KeyOf(n, r.source, r.body, a), a.state,
                   n.identity(r.source, a.folder, a.name, Fingerprint(n, r.source, a)), n.invalid(r.source, a),
                   r.rules(a))
  }

  // ----- The event log and the instances -----

  function EventKey(e: CanonicalEvent): DedupKey {
    DedupKey(e.source, e.key)
  }

  function InstanceOf(e: CanonicalEvent): InstanceKey {
    InstanceKey(e.source, e.fingerprint)
  }

  /** `upsert_instance` */
  function UpsertInstance(instances: map<InstanceKey, Instance>, e: CanonicalEvent, id: Id,
                          now: L.Instant): map<InstanceKey, Instance> {
    var k := InstanceOf(e);
    var resolvedAt := if e.state == AlertState.RESOLVED then Some(now) else None;
    if k in instances
    then instances[k := instances[k].(latestEvent := id, state := e.state, detail := e.detail, lastSeen := now,
                                      resolvedAt := resolvedAt, version := instances[k].version + 1)]
    else instances[k := Instance(id, e.state, e.detail, now, now, resolvedAt, 1)]
  }

  /** `claim_dedup_key`, `add_event` and `upsert_instance` for an alert not seen before. */
  function LogEvent(db: Db, delivery: Id, now: L.Instant, e: CanonicalEvent, id: Id): Db {
    db.(dedup := db.dedup[EventKey(e) := delivery],
        events := db.events[id := AlertEvent(delivery, now, e)],
        log := db.log + [id],
        instances := UpsertInstance(db.instances, e, id, now))
  }

  // ----- Incidents -----

  predicate Active(s: IncidentStatus) {
    s == OPEN || s == INVESTIGATING
  }

  function WithIdentity(incidents: map<Id, Incident>, identity: string): set<Id> {
    set i | i in incidents && incidents[i].identity == identity
  }

  function ActiveWith(incidents: map<Id, Incident>, identity: string): set<Id> {
    set i | i in incidents && incidents[i].identity == identity && Active(incidents[i].status)
  }

  function ResolvedWith(incidents: map<Id, Incident>, identity: string): set<Id> {
    set i | i in incidents && incidents[i].identity == identity && incidents[i].status == IncidentStatus.RESOLVED
  }

  /** `ORDER BY opened_at DESC, id` */
  predicate OpenedLater(incidents: map<Id, Incident>, a: Id, b: Id) {
    a in incidents && b in incidents &&
    if incidents[a].openedAt != incidents[b].openedAt then incidents[a].openedAt > incidents[b].openedAt
      else StringLess(a, b)
  }

  /** `ORDER BY resolved_at DESC NULLS LAST, opened_at DESC, id` */
  predicate ResolvedLater(incidents: map<Id, Incident>, a: Id, b: Id) {
    a in incidents && b in incidents &&
    var x, y := incidents[a].resolvedAt, incidents[b].resolvedAt;
    if x.Some? && y.Some? && x.value != y.value then x.value > y.value
    else if x.Some? != y.Some? then x.Some?
    else OpenedLater(incidents, a, b)
  }

  function OpenedOrder(incidents: map<Id, Incident>): (Id, Id) -> bool {
    (a: Id, b: Id) => OpenedLater(incidents, a, b)
  }

  function ResolvedOrder(incidents: map<Id, Incident>): (Id, Id) -> bool {
    (a: Id, b: Id) => ResolvedLater(incidents, a, b)
  }

  /** Later times first, and a missing time last. */
  function ResolvedKey(i: Incident): SortKey {
    if i.resolvedAt.Some? then SortKey(0, -i.resolvedAt.value, -i.openedAt) else SortKey(1, 0, -i.openedAt)
  }

  lemma OpenedOrderIsTotal(incidents: map<Id, Incident>, s: set<Id>)
    requires s <= incidents.Keys
    ensures StrictTotal(OpenedOrder(incidents), s)
  {
    KeyThenIdIsTotal(
      OpenedOrder(incidents),
      i => if i in incidents then SortKey(-incidents[i].openedAt, 0, 0) else SortKey(0, 0, 0),
      s);
  }

  lemma ResolvedOrderIsTotal(incidents: map<Id, Incident>, s: set<Id>)
    requires s <= incidents.Keys
    ensures StrictTotal(ResolvedOrder(incidents), s)
  {
    KeyThenIdIsTotal(
      ResolvedOrder(incidents),
      i => if i in incidents then ResolvedKey(incidents[i]) else SortKey(0, 0, 0),
      s);
  }

  /** `lock_latest`, and the active incident that `get_or_create_active` selects. */
  function LatestOf(incidents: map<Id, Incident>, s: set<Id>): (i: Id)
    requires s <= incidents.Keys && s != {}
    ensures i in s && forall j :: j in s && j != i ==> OpenedLater(incidents, i, j)
  {
    OpenedOrderIsTotal(incidents, s);
    var i := First(OpenedOrder(incidents), s);
    assert forall j :: j in s && j != i ==> OpenedOrder(incidents)(i, j);
    i
  }

  /** `latest_resolved` */
  function LatestResolved(incidents: map<Id, Incident>, identity: string): (r: Option<Id>)
    ensures r.Some? ==> r.value in incidents && incidents[r.value].identity == identity
                        && incidents[r.value].status == IncidentStatus.RESOLVED
    ensures forall j :: j in incidents && incidents[j].identity == identity
                        && incidents[j].status == IncidentStatus.RESOLVED ==>
              r == Some(j) || (r.Some? && ResolvedLater(incidents, r.value, j))
    ensures forall j :: r.Some? && j in ResolvedWith(incidents, identity) && incidents[j].resolvedAt.Some? ==>
              && incidents[r.value].resolvedAt.Some?
              && incidents[j].resolvedAt.value <= incidents[r.value].resolvedAt.value
  {
    var s := ResolvedWith(incidents, identity);
    assert forall j :: j in s <==>
             j in incidents && incidents[j].identity == identity && incidents[j].status == IncidentStatus.RESOLVED;
    if s == {} then None
    else
      ResolvedOrderIsTotal(incidents, s);
      var i := First(ResolvedOrder(incidents), s);
      assert forall j :: j in s && j != i ==> ResolvedOrder(incidents)(i, j);
      Some(i)
  }

  /** `link_alert` and `set_alert_state` */
  function Attach(db: Db, i: Id, id: Id, state: AlertState): Db
    requires i in db.incidents
  {
    db.(links := db.links + [Link(i, id)],
        incidents := db.incidents[i := db.incidents[i].(alertState := state, version := db.incidents[i].version + 1)])
  }

  /** `f"rca-run:{run_id}"` */
  function RunKey(run: Id): string {
    "rca-run:" + run
  }

  function MessageOf(u: Uuids): L.Message {
    L.Message(u.job, u.run, u.incident)
  }

  /** A new incident, its first link, and `create_rca_work` for it. */
  function Open(db: Db, e: CanonicalEvent, id: Id, now: L.Instant, u: Uuids, reopenedFrom: Option<Id>): Db {
    db.(incidents := db.incidents[u.incident := Incident(e.identity, OPEN, FIRING, now, None, reopenedFrom, 1)],
        links := db.links + [Link(u.incident, id)],
        work := L.InsertRows(db.work, now, MessageOf(u)),
        outbox := db.outbox[u.outbox := O.Row(u.incident, Some(MessageOf(u)), RunKey(u.run), O.PENDING, now, now,
                                              None)])
  }

  /** The incident part of one iteration of the loop. */
  ghost function Relate(db: Db, e: CanonicalEvent, id: Id, now: L.Instant, u: Uuids): Db {
    if e.state == FIRING then
      var active := ActiveWith(db.incidents, e.identity);
      if active == {} then Open(db, e, id, now, u, LatestResolved(db.incidents, e.identity))
      else Attach(db, LatestOf(db.incidents, active), id, FIRING)
    else
      var all := WithIdentity(db.incidents, e.identity);
      if all == {} then db else Attach(db, LatestOf(db.incidents, all), id, AlertState.RESOLVED)
  }

  /** One iteration of the loop over alerts. */
  ghost function IngestAlert(db: Db, delivery: Id, now: L.Instant, e: CanonicalEvent, u: Uuids): Db {
    if EventKey(e) in db.dedup then db
    else Relate(LogEvent(db, delivery, now, e, u.event), e, u.event, now, u)
  }

  /** The first `k` alerts of a request. */
  ghost function IngestAlerts(n: Normalizer, db: Db, r: Request, k: nat): Db
    requires k <= |n.parse(r.body)| && |r.uuids| == |n.parse(r.body)|
  {
    if k == 0 then db
    else IngestAlert(IngestAlerts(n, db, r, k - 1), r.delivery, r.now, Canonical(n, r, n.parse(r.body)[k - 1]),
                     r.uuids[k - 1])
  }

  ghost predicate HasEvents(db: Db, delivery: Id) {
    exists id :: id in db.events && db.events[id].delivery == delivery
  }

  ghost predicate HasInvalid(db: Db, delivery: Id) {
    exists id :: id in db.events && db.events[id].delivery == delivery && db.events[id].event.invalid
  }

  ghost function FinalStatus(db: Db, delivery: Id): DeliveryStatus {
    if HasInvalid(db, delivery) then VALIDATION_FAILED
    else if HasEvents(db, delivery) then PROCESSED else DUPLICATE
  }

  function Receive(n: Normalizer, db: Db, r: Request): Db {
    db.(deliveries := db.deliveries[r.delivery := Delivery(r.source, n.hashBody(r.body), r.now, RECEIVED, None)])
  }

  /** `finish_delivery` */
  function Finish(db: Db, delivery: Id, status: DeliveryStatus, now: L.Instant): Db
    requires delivery in db.deliveries
  {
    db.(deliveries := db.deliveries[delivery := db.deliveries[delivery].(status := status, processedAt := Some(now))])
  }

  /** The values `uuid4()` returned are new: no row uses them, and no two alerts share one. */
  predicate Unused(db: Db, u: Uuids) {
    && u.event !in db.events && u.incident !in db.incidents && u.outbox !in db.outbox
    && u.job !in db.work.jobs && u.run !in db.work.runs
  }

  predicate Disjoint(u: Uuids, v: Uuids) {
    u.event != v.event && u.incident != v.incident && u.outbox != v.outbox && u.job != v.job && u.run != v.run
  }

  ghost predicate FreshIds(n: Normalizer, db: Db, r: Request) {
    && r.delivery !in db.deliveries
    && |r.uuids| == |n.parse(r.body)|
    && (forall k :: 0 <= k < |r.uuids| ==> Unused(db, r.uuids[k]))
    && forall j, k :: 0 <= j < k < |r.uuids| ==> Disjoint(r.uuids[j], r.uuids[k])
  }
}
