/**
 The transactional outbox: rows committed with the work they announce, a broker that only appends,
 and publishing transactions that may roll back after the broker already has the message.
 */
module OutboxModel {
  import opened Common
  import opened Ordering
  import L = LeaseTables

  datatype RowStatus = PENDING | PUBLISHED | FAILED

  /** A row of `outbox_events`; `payload` is `None` when it does not decode to an RCA job message. */
  datatype Row = Row(
    incident: Id,
    payload: Option<L.Message>,
    key: string,
    status: RowStatus,
    availableAt: L.Instant,
    createdAt: L.Instant,
    publishedAt: Option<L.Instant>)

  /** A message the broker has, with its `idempotencyKey` attribute. */
  datatype Sent = Sent(message: L.Message, key: string)

  datatype Store = Store(rows: map<Id, Row>, broker: seq<Sent>)

  /** What `publisher.publish` does: it may raise before or after the broker took the message. */
  datatype Call = Delivers | RaisesBefore | RaisesAfter

  datatype ResultCode = RESULT_PUBLISHED | RESULT_FAILED | RESULT_NO_OP

  datatype FailureCategory = INVALID_EVENT | PUBLISH_ERROR

  datatype PublishResult = PublishResult(id: Id, previous: RowStatus, code: ResultCode,
                                         failure: Option<FailureCategory>)

  // ----- One locked row -----

  function SetStatus(st: Store, id: Id, status: RowStatus, availableAt: L.Instant,
                     publishedAt: Option<L.Instant>): Store
    requires id in st.rows
  {
    st.(rows := st.rows[id := st.rows[id].(status := status, availableAt := availableAt, publishedAt := publishedAt)])
  }

  function Send(st: Store, id: Id): Store
    requires id in st.rows && st.rows[id].payload.Some?
  {
    st.(broker := st.broker + [Sent(st.rows[id].payload.value, st.rows[id].key)])
  }

  function AfterRow(st: Store, id: Id, now: L.Instant, delay: int, call: Call): Store
    requires id in st.rows
  {
    var row := st.rows[id];
    if row.status == PUBLISHED then st
    else if row.payload.None? || call == RaisesBefore then SetStatus(st, id, FAILED, now + delay, None)
    else if call == RaisesAfter then SetStatus(Send(st, id), id, FAILED, now + delay, None)
    else SetStatus(Send(st, id), id, PUBLISHED, row.availableAt, Some(now))
  }

  function RowResult(st: Store, id: Id, call: Call): PublishResult
    requires id in st.rows
  {
    var row := st.rows[id];
    if row.status == PUBLISHED then PublishResult(id, row.status, RESULT_NO_OP, None)
    else if row.payload.None? then PublishResult(id, row.status, RESULT_FAILED, Some(INVALID_EVENT))
    else if call == Delivers then PublishResult(id, row.status, RESULT_PUBLISHED, None)
    else PublishResult(id, row.status, RESULT_FAILED, Some(PUBLISH_ERROR))
  }

  predicate InRows(st: Store, ids: seq<Id>) {
    forall k :: 0 <= k < |ids| ==> ids[k] in st.rows
  }

  /** The rows of a transaction, first to last. */
  function AfterRows(st: Store, ids: seq<Id>, now: L.Instant, delay: int, calls: Id -> Call): (r: Store)
    requires InRows(st, ids)
    ensures r.rows.Keys == st.rows.Keys
  {
    if ids == [] then st
    else
      var before := AfterRows(st, ids[..|ids| - 1], now, delay, calls);
      AfterRow(before, ids[|ids| - 1], now, delay, calls(ids[|ids| - 1]))
  }

  function RowResults(st: Store, ids: seq<Id>, now: L.Instant, delay: int, calls: Id -> Call): (r: seq<PublishResult>)
    requires InRows(st, ids)
    ensures |r| == |ids|
  {
    if ids == [] then []
    else
      var last := ids[|ids| - 1];
      var before := AfterRows(st, ids[..|ids| - 1], now, delay, calls);
      RowResults(st, ids[..|ids| - 1], now, delay, calls) + [RowResult(before, last, calls(last))]
  }

  // ----- Selecting a batch -----

  /** `ORDER BY available_at, created_at, id` */
  predicate RowLess(rows: map<Id, Row>, a: Id, b: Id) {
    a in rows && b in rows &&
    if rows[a].availableAt != rows[b].availableAt then rows[a].availableAt < rows[b].availableAt
    else if rows[a].createdAt != rows[b].createdAt then rows[a].createdAt < rows[b].createdAt
    else StringLess(a, b)
  }

  function RowOrder(rows: map<Id, Row>): (Id, Id) -> bool {
    (a: Id, b: Id) => RowLess(rows, a, b)
  }

  lemma RowOrderIsTotal(rows: map<Id, Row>, s: set<Id>)
    requires s <= rows.Keys
    ensures StrictTotal(RowOrder(rows), s)
  {
    KeyThenIdIsTotal(
      RowOrder(rows),
      id => if id in rows then SortKey(rows[id].availableAt, rows[id].createdAt, 0) else SortKey(0, 0, 0),
      s);
  }

  /** `WHERE status=:status AND published_at IS NULL ... SKIP LOCKED` */
  function Eligible(rows: map<Id, Row>, status: RowStatus, locked: set<Id>): set<Id> {
    set id | id in rows && rows[id].status == status && rows[id].publishedAt.None? && id !in locked
  }

  /** The rows that a batch locks, in order. */
  function Batch(rows: map<Id, Row>, status: RowStatus, limit: nat, locked: set<Id>): (ids: seq<Id>)
    ensures |ids| == Min(limit, |Eligible(rows, status, locked)|)
    ensures forall k :: 0 <= k < |ids| ==> ids[k] in Eligible(rows, status, locked)
  {
    var all := Eligible(rows, status, locked);
    RowOrderIsTotal(rows, all);
    var sorted := Sorted(RowOrder(rows), all);
    assert forall k :: 0 <= k < |sorted| ==> sorted[k] in sorted;
    sorted[..Min(limit, |sorted|)]
  }

  /** A batch takes rows of its status that nobody has locked, and all of them if the limit allows it. */
  lemma {:induction false} BatchTakes(rows: map<Id, Row>, status: RowStatus, limit: nat, locked: set<Id>)
    ensures var ids := Batch(rows, status, limit, locked);
            && (forall x :: x in ids ==>
                  x in rows && rows[x].status == status && rows[x].publishedAt.None? && x !in locked)
            && forall x :: x in rows && rows[x].status == status && rows[x].publishedAt.None? && x !in locked ==>
                 x in ids || |ids| == limit
  {
    hide RowLess;
    RowOrderIsTotal(rows, Eligible(rows, status, locked));
    var sorted := Sorted(RowOrder(rows), Eligible(rows, status, locked));
    assert |sorted| <= limit ==> sorted[..|sorted|] == sorted;
  }

  /** The earlier available row comes first, at equal times the older one, and then the one with the smaller id. */
  predicate IsBefore(rows: map<Id, Row>, a: Id, b: Id) {
    && a in rows && b in rows && rows[a].availableAt <= rows[b].availableAt
    && (rows[a].availableAt == rows[b].availableAt ==>
          && rows[a].createdAt <= rows[b].createdAt
          && (rows[a].createdAt == rows[b].createdAt ==> StringLess(a, b)))
  }

  lemma LessIsBefore(rows: map<Id, Row>, a: Id, b: Id)
    requires RowLess(rows, a, b)
    ensures IsBefore(rows, a, b)
  {
  }

  /** A batch takes distinct rows and leaves no eligible row that comes before one it took. */
  lemma {:induction false} BatchIsOldest(rows: map<Id, Row>, status: RowStatus, limit: nat, locked: set<Id>)
    ensures var ids := Batch(rows, status, limit, locked);
            && (forall i, j :: 0 <= i < j < |ids| ==> ids[i] != ids[j] && IsBefore(rows, ids[i], ids[j]))
            && forall x, k :: x in Eligible(rows, status, locked) && x !in ids && 0 <= k < |ids| ==>
               IsBefore(rows, ids[k], x)
  {
    hide IsBefore;
    var all := Eligible(rows, status, locked);
    RowOrderIsTotal(rows, all);
    var sorted := Sorted(RowOrder(rows), all);
    var ids := Batch(rows, status, limit, locked);
    IncreasingDistinct(RowOrder(rows), all, sorted);
    forall i, j | 0 <= i < j < |ids|
      ensures IsBefore(rows, ids[i], ids[j])
    {
      assert RowOrder(rows)(sorted[i], sorted[j]);
      LessIsBefore(rows, ids[i], ids[j]);
    }
    assert forall j :: 0 <= j < |ids| ==> sorted[j] == ids[j] && sorted[j] in ids;
    forall x, k | x in all && x !in ids && 0 <= k < |ids|
      ensures IsBefore(rows, ids[k], x)
    {
      var j :| 0 <= j < |sorted| && sorted[j] == x;
      assert RowOrder(rows)(sorted[k], sorted[j]);
      LessIsBefore(rows, ids[k], x);
    }
  }

  // ----- The invariant -----

  predicate RowAgrees(r: Row) {
    r.status == PUBLISHED <==> r.publishedAt.Some?
  }

  ghost predicate SentFrom(r: Row, m: Sent) {
    r.payload == Some(m.message) && r.key == m.key
  }

  ghost predicate WasSent(r: Row, broker: seq<Sent>) {
    exists k :: 0 <= k < |broker| && SentFrom(r, broker[k])
  }

  ghost predicate HasRow(rows: map<Id, Row>, m: Sent) {
    exists id :: id in rows && SentFrom(rows[id], m)
  }

  /**
   Nothing is called published that the broker does not have, and the broker has nothing that no row
   announced.
   */
  ghost predicate OutboxInv(st: Store) {
    && (forall id :: id in st.rows ==> RowAgrees(st.rows[id]))
    && (forall id :: id in st.rows && st.rows[id].status == PUBLISHED ==> WasSent(st.rows[id], st.broker))
    && (forall k :: 0 <= k < |st.broker| ==> HasRow(st.rows, st.broker[k]))
  }

  /** How publishing may change the store: bodies fixed, published rows final, the broker growing. */
  ghost predicate Publishes(st: Store, after: Store) {
    && after.rows.Keys == st.rows.Keys
    && (forall id :: id in st.rows ==>
          && after.rows[id].incident == st.rows[id].incident && after.rows[id].payload == st.rows[id].payload
          && after.rows[id].key == st.rows[id].key && after.rows[id].createdAt == st.rows[id].createdAt
          && (st.rows[id].status == PUBLISHED ==> after.rows[id] == st.rows[id]))
    && st.broker <= after.broker
  }

  lemma SentStays(r: Row, t: Row, broker: seq<Sent>, after: seq<Sent>)
    requires WasSent(r, broker) && broker <= after && t.payload == r.payload && t.key == r.key
    ensures WasSent(t, after)
  {
    var k :| 0 <= k < |broker| && SentFrom(r, broker[k]);
    assert SentFrom(t, after[k]);
  }

  lemma RowStays(rows: map<Id, Row>, after: map<Id, Row>, m: Sent)
    requires HasRow(rows, m)
    requires forall id :: id in rows ==>
               id in after && after[id].payload == rows[id].payload && after[id].key == rows[id].key
    ensures HasRow(after, m)
  {
    var id :| id in rows && SentFrom(rows[id], m);
    assert SentFrom(after[id], m);
  }

  lemma {:induction false} SendKeepsInv(st: Store, id: Id)
    requires OutboxInv(st) && id in st.rows && st.rows[id].payload.Some?
    ensures OutboxInv(Send(st, id)) && Publishes(st, Send(st, id)) && WasSent(st.rows[id], Send(st, id).broker)
  {
    hide WasSent, HasRow;
    var after := Send(st, id);
    forall x | x in st.rows && st.rows[x].status == PUBLISHED
      ensures WasSent(st.rows[x], after.broker)
    {
      SentStays(st.rows[x], st.rows[x], st.broker, after.broker);
    }
    var m := Sent(st.rows[id].payload.value, st.rows[id].key);
    assert SentFrom(st.rows[id], m);
    JustSent(st, id, m);
    forall k | 0 <= k < |after.broker|
      ensures HasRow(after.rows, after.broker[k])
    {
      assert after.broker[k] == if k < |st.broker| then st.broker[k] else m;
    }
  }

  lemma JustSent(st: Store, id: Id, m: Sent)
    requires id in st.rows && SentFrom(st.rows[id], m)
    ensures HasRow(st.rows, m) && WasSent(st.rows[id], st.broker + [m])
  {
    assert (st.broker + [m])[|st.broker|] == m;
  }

  lemma {:induction false} StatusKeepsInv(st: Store, id: Id, status: RowStatus, availableAt: L.Instant,
                                          publishedAt: Option<L.Instant>)
    requires OutboxInv(st) && id in st.rows && st.rows[id].status != PUBLISHED
    requires (status == PUBLISHED <==> publishedAt.Some?) && (status == PUBLISHED ==> WasSent(st.rows[id], st.broker))
    ensures var after := SetStatus(st, id, status, availableAt, publishedAt); OutboxInv(after) && Publishes(st, after)
  {
    hide WasSent, HasRow;
    var after := SetStatus(st, id, status, availableAt, publishedAt);
    forall x | x in after.rows && after.rows[x].status == PUBLISHED
      ensures WasSent(after.rows[x], after.broker)
    {
      SentStays(st.rows[x], after.rows[x], st.broker, after.broker);
    }
    forall k | 0 <= k < |after.broker|
      ensures HasRow(after.rows, after.broker[k])
    {
      RowStays(st.rows, after.rows, st.broker[k]);
    }
  }

  lemma {:induction false} RowKeepsInv(st: Store, id: Id, now: L.Instant, delay: int, call: Call)
    requires OutboxInv(st) && id in st.rows
    ensures OutboxInv(AfterRow(st, id, now, delay, call)) && Publishes(st, AfterRow(st, id, now, delay, call))
  {
    hide OutboxInv, Send, SetStatus, WasSent;
    var row := st.rows[id];
    if row.status == PUBLISHED {
    } else if row.payload.None? || call == RaisesBefore {
      StatusKeepsInv(st, id, FAILED, now + delay, None);
    } else {
      SendKeepsInv(st, id);
      var sent := Send(st, id);
      SendKeepsRows(st, id);
      if call == RaisesAfter {
        StatusKeepsInv(sent, id, FAILED, now + delay, None);
      } else {
        StatusKeepsInv(sent, id, PUBLISHED, row.availableAt, Some(now));
      }
      PublishesTransitive(st, sent, AfterRow(st, id, now, delay, call));
    }
  }

  lemma SendKeepsRows(st: Store, id: Id)
    requires id in st.rows && st.rows[id].payload.Some?
    ensures Send(st, id).rows == st.rows
  {
  }

  lemma {:induction false} RowsKeepInv(st: Store, ids: seq<Id>, now: L.Instant, delay: int, calls: Id -> Call)
    requires OutboxInv(st) && InRows(st, ids)
    ensures OutboxInv(AfterRows(st, ids, now, delay, calls)) && Publishes(st, AfterRows(st, ids, now, delay, calls))
  {
    hide OutboxInv, AfterRow;
    if ids != [] {
      var last := ids[|ids| - 1];
      var before := AfterRows(st, ids[..|ids| - 1], now, delay, calls);
      RowsKeepInv(st, ids[..|ids| - 1], now, delay, calls);
      RowKeepsInv(before, last, now, delay, calls(last));
      PublishesTransitive(st, before, AfterRow(before, last, now, delay, calls(last)));
    } else {
      assert Publishes(st, st);
    }
  }

  lemma PublishesTransitive(a: Store, b: Store, c: Store)
    requires Publishes(a, b) && Publishes(b, c)
    ensures Publishes(a, c)
  {
  }

  /** A rollback restores the rows; the broker keeps what it was sent. */
  lemma {:induction false} RollbackKeepsInv(st: Store, mid: Store)
    requires OutboxInv(st) && OutboxInv(mid) && Publishes(st, mid)
    ensures OutboxInv(Store(st.rows, mid.broker)) && Publishes(st, Store(st.rows, mid.broker))
  {
    hide WasSent, HasRow;
    forall id | id in st.rows && st.rows[id].status == PUBLISHED
      ensures WasSent(st.rows[id], mid.broker)
    {
      SentStays(st.rows[id], st.rows[id], st.broker, mid.broker);
    }
    forall k | 0 <= k < |mid.broker|
      ensures HasRow(st.rows, mid.broker[k])
    {
      RowStays(mid.rows, st.rows, mid.broker[k]);
    }
  }

  // ----- Whole runs -----

  /** One transaction. `abort` is the number of rows handled before it rolled back, if it did. */
  datatype Op =
    | PublishBatch(status: RowStatus, limit: nat, locked: set<Id>, now: L.Instant, calls: Id -> Call,
                   abort: Option<nat>)
    | PublishOne(id: Id, now: L.Instant, call: Call, aborts: bool)
    | Announce(id: Id, row: Row)

  ghost function Locked(st: Store, op: Op): (ids: seq<Id>)
    requires op.PublishBatch?
    ensures InRows(st, ids)
  {
    Batch(st.rows, op.status, op.limit, op.locked)
  }

  ghost function Apply(st: Store, delay: int, op: Op): Store {
    match op
    case PublishBatch(_, _, _, now, calls, abort) =>
      var ids := Locked(st, op);
      if abort.None? then AfterRows(st, ids, now, delay, calls)
      else
        var handled := ids[..Min(abort.value, |ids|)];
        assert InRows(st, handled);
        Store(st.rows, AfterRows(st, handled, now, delay, calls).broker)
    case PublishOne(id, now, call, aborts) =>
      if id !in st.rows then st
      else if aborts then Store(st.rows, AfterRow(st, id, now, delay, call).broker)
      else AfterRow(st, id, now, delay, call)
    case Announce(id, row) =>
      if id !in st.rows && row.status == PENDING && row.publishedAt.None?
      then st.(rows := st.rows[id := row]) else st
  }

  /** `Publishes`, and new rows may have appeared. */
  ghost predicate Evolves(st: Store, after: Store) {
    && st.broker <= after.broker
    && forall id :: id in st.rows ==>
         && id in after.rows && after.rows[id].payload == st.rows[id].payload && after.rows[id].key == st.rows[id].key
         && (st.rows[id].status == PUBLISHED ==> after.rows[id] == st.rows[id])
  }

  lemma {:induction false} ApplyKeepsInv(st: Store, delay: int, op: Op)
    requires OutboxInv(st)
    ensures OutboxInv(Apply(st, delay, op)) && Evolves(st, Apply(st, delay, op))
  {
    match op
    case PublishBatch(_, _, _, now, calls, abort) =>
      hide OutboxInv, AfterRows;
      var ids := Locked(st, op);
      if abort.None? {
        RowsKeepInv(st, ids, now, delay, calls);
      } else {
        var handled := ids[..Min(abort.value, |ids|)];
        RowsKeepInv(st, handled, now, delay, calls);
        RollbackKeepsInv(st, AfterRows(st, handled, now, delay, calls));
      }
    case PublishOne(id, now, call, aborts) =>
      hide OutboxInv, AfterRow;
      if id in st.rows {
        RowKeepsInv(st, id, now, delay, call);
        RollbackKeepsInv(st, AfterRow(st, id, now, delay, call));
      }
    case Announce(id, row) =>
      AnnounceKeepsInv(st, id, row);
  }

  lemma {:induction false} AnnounceKeepsInv(st: Store, id: Id, row: Row)
    requires OutboxInv(st)
    ensures id !in st.rows && RowAgrees(row) && row.status == PENDING ==> OutboxInv(st.(rows := st.rows[id := row]))
  {
    hide WasSent, HasRow;
    if id !in st.rows {
      var rows := st.rows[id := row];
      forall k | 0 <= k < |st.broker|
        ensures HasRow(rows, st.broker[k])
      {
        RowStays(st.rows, rows, st.broker[k]);
      }
    }
  }

  ghost function ApplyAll(st: Store, delay: int, ops: seq<Op>): Store
    decreases |ops|
  {
    if ops == [] then st else ApplyAll(Apply(st, delay, ops[0]), delay, ops[1..])
  }

  /**
   Outbox safety over every run of publishing transactions, committed or rolled back at any point:
   `PUBLISHED` is absorbing and means that the broker has the row's own message, and the broker has
   no message that no row announced.
   */
  lemma {:induction false} RunsAreSafe(st: Store, delay: int, ops: seq<Op>)
    requires OutboxInv(st)
    ensures OutboxInv(ApplyAll(st, delay, ops)) && Evolves(st, ApplyAll(st, delay, ops))
    decreases |ops|
  {
    hide OutboxInv, Apply;
    if ops != [] {
      ApplyKeepsInv(st, delay, ops[0]);
      RunsAreSafe(Apply(st, delay, ops[0]), delay, ops[1..]);
    }
  }

  // ----- Draining -----

  ghost function WithStatus(st: Store, status: RowStatus): set<Id> {
    set id | id in st.rows && st.rows[id].status == status
  }

  function SettledStatus(row: Row, call: Call): RowStatus {
    if row.status == PUBLISHED || (call == Delivers && row.payload.Some?) then PUBLISHED else FAILED
  }

  /** A row that was published keeps its time; one that failed may be tried again after the delay. */
  predicate SettledRow(row: Row, after: Row, now: L.Instant, delay: int, call: Call) {
    && after.status == SettledStatus(row, call)
    && (row.status == PUBLISHED ==> after == row)
    && (row.status != PUBLISHED && after.status == PUBLISHED ==>
        after.publishedAt == Some(now) && after.availableAt == row.availableAt)
    && (after.status == FAILED ==> after.publishedAt == None && after.availableAt == now + delay)
  }

  /** What a committed transaction does to each row. */
  lemma {:induction false} RowIsSettled(st: Store, ids: seq<Id>, now: L.Instant, delay: int, calls: Id -> Call, id: Id)
    requires InRows(st, ids) && Distinct(ids) && id in st.rows
    ensures id !in ids ==> AfterRows(st, ids, now, delay, calls).rows[id] == st.rows[id]
    ensures id in ids ==> SettledRow(st.rows[id], AfterRows(st, ids, now, delay, calls).rows[id], now, delay, calls(id))
  {
    hide AfterRow;
    if ids != [] {
      var n := |ids| - 1;
      RowIsSettled(st, ids[..n], now, delay, calls, id);
      assert ids == ids[..n] + [ids[n]];
      StatusAfterRow(AfterRows(st, ids[..n], now, delay, calls), ids[n], now, delay, calls(ids[n]), id);
      if id == ids[n] {
        assert id !in ids[..n];
      }
    }
  }

  lemma StatusAfterRow(st: Store, id: Id, now: L.Instant, delay: int, call: Call, x: Id)
    requires id in st.rows && x in st.rows
    ensures AfterRow(st, id, now, delay, call).rows.Keys == st.rows.Keys
    ensures x != id ==> AfterRow(st, id, now, delay, call).rows[x] == st.rows[x]
    ensures x == id ==> SettledRow(st.rows[id], AfterRow(st, id, now, delay, call).rows[x], now, delay, call)
  {
  }

  /** The rows of a transaction whose message reaches the broker, in order. */
  function SentBy(st: Store, ids: seq<Id>, calls: Id -> Call): seq<Sent>
    requires InRows(st, ids)
  {
    if ids == [] then []
    else
      var last := ids[|ids| - 1];
      var row := st.rows[last];
      SentBy(st, ids[..|ids| - 1], calls) +
      if row.status != PUBLISHED && row.payload.Some? && calls(last) != RaisesBefore
        then [Sent(row.payload.value, row.key)] else []
  }

  /** A transaction over distinct rows sends each unpublished row at most once, in order, and nothing else. */
  lemma {:induction false} SendsEachRowOnce(st: Store, ids: seq<Id>, now: L.Instant, delay: int, calls: Id -> Call)
    requires InRows(st, ids) && Distinct(ids)
    ensures AfterRows(st, ids, now, delay, calls).broker == st.broker + SentBy(st, ids, calls)
  {
    hide SetStatus;
    if ids != [] {
      var n := |ids| - 1;
      SendsEachRowOnce(st, ids[..n], now, delay, calls);
      assert ids[n] !in ids[..n];
      RowIsSettled(st, ids[..n], now, delay, calls, ids[n]);
      var before := AfterRows(st, ids[..n], now, delay, calls);
      BrokerAfterRow(before, ids[n], now, delay, calls(ids[n]));
    }
  }

  lemma BrokerAfterRow(st: Store, id: Id, now: L.Instant, delay: int, call: Call)
    requires id in st.rows
    ensures AfterRow(st, id, now, delay, call).broker == st.broker +
            if st.rows[id].status != PUBLISHED && st.rows[id].payload.Some? && call != RaisesBefore
            then [Sent(st.rows[id].payload.value, st.rows[id].key)] else []
  {
  }

  /** A committed `publish_pending(limit)` with no row locked takes min(limit, N) rows out of N pending ones. */
  lemma {:induction false} CommittedBatchDrains(st: Store, delay: int, op: Op)
    requires OutboxInv(st) && op.PublishBatch? && op.status == PENDING && op.locked == {} && op.abort.None?
    ensures |WithStatus(Apply(st, delay, op), PENDING)| == Max(0, |WithStatus(st, PENDING)| - op.limit)
  {
    hide AfterRows, Batch;
    var ids := Locked(st, op);
    var pending := WithStatus(st, PENDING);
    assert Eligible(st.rows, PENDING, {}) == pending;
    BatchIsOldest(st.rows, PENDING, op.limit, {});
    var after := Apply(st, delay, op);
    assert after == AfterRows(st, ids, op.now, delay, op.calls);
    forall id | id in st.rows
      ensures id in WithStatus(after, PENDING) <==> id in pending && id !in ids
    {
      RowIsSettled(st, ids, op.now, delay, op.calls, id);
    }
    assert WithStatus(after, PENDING) == pending - Members(ids);
    DistinctSize(ids);
    assert Members(ids) <= pending;
  }

  ghost predicate DrainRound(op: Op, limit: nat) {
    op.PublishBatch? && op.status == PENDING && op.limit == limit && op.locked == {} && op.abort.None?
  }

  /** `k` committed rounds drain N pending rows to max(0, N - k * limit), whatever the broker answers. */
  lemma {:induction false} RoundsDrain(st: Store, delay: int, limit: nat, ops: seq<Op>)
    requires OutboxInv(st) && forall k :: 0 <= k < |ops| ==> DrainRound(ops[k], limit)
    ensures |WithStatus(ApplyAll(st, delay, ops), PENDING)| == Max(0, |WithStatus(st, PENDING)| - |ops| * limit)
    decreases |ops|
  {
    hide OutboxInv, Apply;
    if ops != [] {
      assert DrainRound(ops[0], limit);
      ApplyKeepsInv(st, delay, ops[0]);
      CommittedBatchDrains(st, delay, ops[0]);
      RoundsDrain(Apply(st, delay, ops[0]), delay, limit, ops[1..]);
      assert |ops| * limit == (|ops| - 1) * limit + limit;
      assert (|ops| - 1) * limit >= 0;
    }
  }
}
