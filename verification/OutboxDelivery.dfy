/** How often the broker gets a row's message: at least once in general, and exactly when exactly once. */
module OutboxDelivery {
  import opened Common
  import opened Ordering
  import opened OutboxModel

  /** `idempotency_key TEXT NOT NULL UNIQUE` */
  ghost predicate DistinctKeys(rows: map<Id, Row>) {
    forall a, b :: a in rows && b in rows && rows[a].key == rows[b].key ==> a == b
  }

  /** The number of copies of the row's message that the broker has. */
  ghost function Copies(st: Store, id: Id): nat
    requires id in st.rows
  {
    if st.rows[id].payload.None? then 0 else multiset(st.broker)[MessageOf(st.rows[id])]
  }

  function MessageOf(row: Row): Sent
    requires row.payload.Some?
  {
    Sent(row.payload.value, row.key)
  }

  function PublishedCount(row: Row): nat {
    if row.status == PUBLISHED then 1 else 0
  }

  /** The row is not yet published and its message reaches the broker when it is handled with this answer. */
  predicate Sends(row: Row, call: Call) {
    row.status != PUBLISHED && row.payload.Some? && call != RaisesBefore
  }

  // ----- What one operation takes -----

  /** The rows that an operation handles before it commits or rolls back, in order. */
  ghost function Handled(st: Store, op: Op): (ids: seq<Id>)
    ensures InRows(st, ids) && Distinct(ids)
  {
    match op
    case PublishBatch(status, limit, locked, _, _, abort) =>
      BatchIsOldest(st.rows, status, limit, locked);
      var ids := Locked(st, op);
      if abort.None? then ids else ids[..Min(abort.value, |ids|)]
    case PublishOne(id, _, _, _) => if id in st.rows then [id] else []
    case Announce(_, _) => []
  }

  function AnswerTo(op: Op, id: Id): Call
    requires !op.Announce?
  {
    if op.PublishBatch? then op.calls(id) else op.call
  }

  function RollsBack(op: Op): bool
    requires !op.Announce?
  {
    if op.PublishBatch? then op.abort.Some? else op.aborts
  }

  /** The operation sends this row's message. */
  ghost predicate SendsRow(st: Store, op: Op, id: Id)
    requires id in st.rows
  {
    !op.Announce? && id in Handled(st, op) && Sends(st.rows[id], AnswerTo(op, id))
  }

  /** The operation sends this row's message without leaving the row published. */
  ghost predicate Forgets(st: Store, op: Op, id: Id)
    requires id in st.rows
  {
    SendsRow(st, op, id) && (RollsBack(op) || AnswerTo(op, id) == RaisesAfter)
  }

  /** A new row has a key of its own. */
  predicate Announceable(st: Store, op: Op) {
    op.Announce? && op.id !in st.rows ==> forall x :: x in st.rows ==> st.rows[x].key != op.row.key
  }

  // ----- Counting copies -----

  lemma SentBySnoc(st: Store, ids: seq<Id>, calls: Id -> Call)
    requires InRows(st, ids) && ids != []
    ensures var last := ids[|ids| - 1];
            SentBy(st, ids, calls) ==
            SentBy(st, ids[..|ids| - 1], calls) + if Sends(st.rows[last], calls(last)) then [MessageOf(st.rows[last])]
              else []
  {
  }

  lemma {:induction false} SentByCounts(st: Store, ids: seq<Id>, calls: Id -> Call, id: Id)
    requires InRows(st, ids) && Distinct(ids) && DistinctKeys(st.rows) && id in st.rows && st.rows[id].payload.Some?
    ensures multiset(SentBy(st, ids, calls))[MessageOf(st.rows[id])] ==
            if id in ids && Sends(st.rows[id], calls(id)) then 1 else 0
  {
    if ids != [] {
      hide SentBy, Sends;
      var n := |ids| - 1;
      var last := ids[n];
      SentByCounts(st, ids[..n], calls, id);
      SentBySnoc(st, ids, calls);
      assert ids == ids[..n] + [last] && last !in ids[..n];
      assert Sends(st.rows[last], calls(last)) ==> st.rows[last].payload.Some? by {
        SendsDecodes(st.rows[last], calls(last));
      }
      assert last != id ==> st.rows[last].key != st.rows[id].key;
    }
  }

  lemma SendsDecodes(row: Row, call: Call)
    ensures Sends(row, call) ==> row.payload.Some?
  {
  }

  /** What an operation adds to the broker, in order. */
  lemma {:induction false} BrokerAfter(st: Store, delay: int, op: Op)
    requires !op.Announce?
    ensures Apply(st, delay, op).broker == st.broker + SentBy(st, Handled(st, op), id => AnswerTo(op, id))
  {
    match op
    case PublishBatch(status, limit, locked, now, calls, abort) =>
      hide Batch, AfterRows;
      SendsEachRowOnce(st, Handled(st, op), now, delay, calls);
      SameAnswers(st, Handled(st, op), calls, id => AnswerTo(op, id));
    case PublishOne(id, now, call, aborts) =>
      if id in st.rows {
        BrokerAfterRow(st, id, now, delay, call);
        assert [id][..0] == [];
        assert SentBy(st, [], x => AnswerTo(op, x)) == [];
      }
  }

  lemma {:induction false} SameAnswers(st: Store, ids: seq<Id>, calls: Id -> Call, answers: Id -> Call)
    requires InRows(st, ids) && forall id :: calls(id) == answers(id)
    ensures SentBy(st, ids, calls) == SentBy(st, ids, answers)
  {
    if ids != [] {
      SameAnswers(st, ids[..|ids| - 1], calls, answers);
    }
  }

  /** What an operation does to a row that was there before. */
  lemma {:induction false} RowAfter(st: Store, delay: int, op: Op, id: Id)
    requires OutboxInv(st) && id in st.rows
    ensures var t := Apply(st, delay, op);
            && id in t.rows && t.rows[id].payload == st.rows[id].payload && t.rows[id].key == st.rows[id].key
            && (t.rows[id].status == PUBLISHED <==>
                st.rows[id].status == PUBLISHED || (SendsRow(st, op, id) && !Forgets(st, op, id)))
  {
    hide OutboxInv, AfterRow, AfterRows, Batch;
    ApplyKeepsInv(st, delay, op);
    match op
    case PublishBatch(status, limit, locked, now, calls, abort) =>
      RowIsSettled(st, Handled(st, op), now, delay, calls, id);
    case PublishOne(x, now, call, aborts) =>
      if x in st.rows {
        StatusAfterRow(st, x, now, delay, call, id);
      }
    case Announce(_, _) =>
  }

  /**
   One operation adds one copy of a row's message exactly when it sends the row. So it sends a message
   again if and only if the row was sent before, is still not `PUBLISHED`, and is taken with a payload
   that decodes and a call that does not fail before the broker has it.
   */
  lemma {:induction false} CopiesAfter(st: Store, delay: int, op: Op, id: Id)
    requires OutboxInv(st) && DistinctKeys(st.rows) && id in st.rows
    ensures id in Apply(st, delay, op).rows
    ensures Copies(Apply(st, delay, op), id) == Copies(st, id) + if SendsRow(st, op, id) then 1 else 0
  {
    hide OutboxInv, Apply, DistinctKeys;
    RowAfter(st, delay, op, id);
    var t := Apply(st, delay, op);
    if op.Announce? {
      AnnounceSendsNothing(st, delay, op);
    } else if st.rows[id].payload.Some? {
      BrokerAfter(st, delay, op);
      SentByCounts(st, Handled(st, op), x => AnswerTo(op, x), id);
    }
  }

  lemma AnnounceSendsNothing(st: Store, delay: int, op: Op)
    requires op.Announce?
    ensures Apply(st, delay, op).broker == st.broker
  {
  }

  // ----- Exactly once -----

  /** The broker has a row's message once if the row is published, and not at all otherwise. */
  ghost predicate ExactlyOnce(st: Store) {
    forall id :: id in st.rows ==> Copies(st, id) == PublishedCount(st.rows[id])
  }

  /** No row's message is sent by a transaction that rolls back, or with an answer that got lost. */
  ghost predicate Remembers(st: Store, op: Op) {
    forall id :: id in st.rows ==> !Forgets(st, op, id)
  }

  ghost predicate AllRemember(st: Store, delay: int, ops: seq<Op>)
    decreases |ops|
  {
    ops == [] || (Remembers(st, ops[0]) && AllRemember(Apply(st, delay, ops[0]), delay, ops[1..]))
  }

  /** New rows bring keys of their own, as the unique constraint demands. */
  ghost predicate KeysUnique(st: Store, delay: int, ops: seq<Op>)
    decreases |ops|
  {
    ops == [] || (Announceable(st, ops[0]) && KeysUnique(Apply(st, delay, ops[0]), delay, ops[1..]))
  }

  ghost predicate Delivery(st: Store) {
    OutboxInv(st) && DistinctKeys(st.rows)
  }

  lemma {:induction false} ApplyKeepsDelivery(st: Store, delay: int, op: Op)
    requires Delivery(st) && Announceable(st, op)
    ensures Delivery(Apply(st, delay, op))
  {
    hide OutboxInv, Apply;
    ApplyKeepsInv(st, delay, op);
    var t := Apply(st, delay, op);
    RowsOf(st, delay, op);
    forall a, b | a in t.rows && b in t.rows && t.rows[a].key == t.rows[b].key
      ensures a == b
    {
      if a in st.rows { RowAfter(st, delay, op, a); }
      if b in st.rows { RowAfter(st, delay, op, b); }
    }
  }

  lemma {:induction false} RowsOf(st: Store, delay: int, op: Op)
    requires OutboxInv(st)
    ensures forall id :: id in Apply(st, delay, op).rows && id !in st.rows ==>
              op.Announce? && id == op.id && Apply(st, delay, op).rows[id] == op.row && op.row.status == PENDING
  {
    hide OutboxInv, AfterRow, AfterRows, Batch;
    match op
    case PublishBatch(status, limit, locked, now, calls, abort) =>
      RowKeys(st, Handled(st, op), now, delay, calls);
    case PublishOne(x, now, call, aborts) =>
      if x in st.rows { StatusAfterRow(st, x, now, delay, call, x); }
    case Announce(_, _) =>
  }

  lemma RowKeys(st: Store, ids: seq<Id>, now: int, delay: int, calls: Id -> Call)
    requires InRows(st, ids)
    ensures AfterRows(st, ids, now, delay, calls).rows.Keys == st.rows.Keys
  {
  }

  /** A row that has just been announced has no copy yet. */
  lemma {:induction false} NewRowUnsent(st: Store, delay: int, op: Op)
    requires Delivery(st) && Announceable(st, op) && op.Announce? && op.id !in st.rows
             && op.id in Apply(st, delay, op).rows
    ensures Copies(Apply(st, delay, op), op.id) == 0 && PublishedCount(Apply(st, delay, op).rows[op.id]) == 0
  {
    var t := Apply(st, delay, op);
    if t.rows[op.id].payload.Some? {
      var m := MessageOf(t.rows[op.id]);
      forall k | 0 <= k < |st.broker|
        ensures st.broker[k] != m
      {
        assert HasRow(st.rows, st.broker[k]);
      }
      assert m !in st.broker;
    }
  }

  /** The copies beyond what the row's status accounts for never disappear. */
  ghost function Surplus(st: Store, id: Id): int
    requires id in st.rows
  {
    Copies(st, id) - PublishedCount(st.rows[id])
  }

  /** A row's surplus grows by one exactly when an operation forgets that it sent it. */
  lemma {:induction false} SurplusAfter(st: Store, delay: int, op: Op, id: Id)
    requires Delivery(st) && id in st.rows
    ensures id in Apply(st, delay, op).rows
    ensures Surplus(Apply(st, delay, op), id) == Surplus(st, id) + if Forgets(st, op, id) then 1 else 0
  {
    hide OutboxInv, Apply, Copies, Handled;
    CopiesAfter(st, delay, op, id);
    RowAfter(st, delay, op, id);
  }

  lemma {:induction false} NewRowSurplus(st: Store, delay: int, op: Op, id: Id)
    requires Delivery(st) && Announceable(st, op) && id in Apply(st, delay, op).rows && id !in st.rows
    ensures Surplus(Apply(st, delay, op), id) == 0
  {
    hide Apply, Copies, OutboxInv;
    RowsOf(st, delay, op);
    NewRowUnsent(st, delay, op);
  }

  lemma {:induction false} SurplusIsMonotone(st: Store, delay: int, ops: seq<Op>, id: Id)
    requires Delivery(st) && KeysUnique(st, delay, ops) && id in st.rows
    ensures id in ApplyAll(st, delay, ops).rows && Surplus(ApplyAll(st, delay, ops), id) >= Surplus(st, id)
    decreases |ops|
  {
    hide Delivery, Apply, Surplus, Announceable;
    if ops != [] {
      SurplusAfter(st, delay, ops[0], id);
      ApplyKeepsDelivery(st, delay, ops[0]);
      SurplusIsMonotone(Apply(st, delay, ops[0]), delay, ops[1..], id);
    }
  }

  lemma {:induction false} ExactlyOnceAfter(st: Store, delay: int, op: Op)
    requires Delivery(st) && Announceable(st, op) && ExactlyOnce(st)
    ensures ExactlyOnce(Apply(st, delay, op)) <==> Remembers(st, op)
  {
    hide Delivery, Apply, Announceable, Copies, Forgets;
    var t := Apply(st, delay, op);
    forall id | id in t.rows
      ensures Copies(t, id) - PublishedCount(t.rows[id]) == if id in st.rows && Forgets(st, op, id) then 1 else 0
    {
      if id in st.rows {
        assert Copies(st, id) == PublishedCount(st.rows[id]);
        SurplusAfter(st, delay, op, id);
      } else {
        NewRowSurplus(st, delay, op, id);
      }
    }
    if id :| id in st.rows && Forgets(st, op, id) {
      SurplusAfter(st, delay, op, id);
      assert Copies(t, id) == PublishedCount(t.rows[id]) + 1;
    }
  }

  /**
   Over any run from a store in which every published row was sent once and no other row was: the
   broker ends with each row's message once if it is `PUBLISHED` and not at all otherwise, if and only
   if no transaction rolled back after sending and no `publish` raised after the broker had the message.
   */
  lemma {:induction false} ExactlyOnceExactlyWhen(st: Store, delay: int, ops: seq<Op>)
    requires Delivery(st) && KeysUnique(st, delay, ops) && ExactlyOnce(st)
    ensures ExactlyOnce(ApplyAll(st, delay, ops)) <==> AllRemember(st, delay, ops)
    decreases |ops|
  {
    hide Delivery, Apply, Announceable, Copies, Forgets;
    if ops != [] {
      var t, rest := Apply(st, delay, ops[0]), ops[1..];
      ExactlyOnceAfter(st, delay, ops[0]);
      ApplyKeepsDelivery(st, delay, ops[0]);
      if Remembers(st, ops[0]) {
        ExactlyOnceExactlyWhen(t, delay, rest);
      } else {
        var id :| id in st.rows && Forgets(st, ops[0], id);
        assert Copies(st, id) == PublishedCount(st.rows[id]);
        SurplusAfter(st, delay, ops[0], id);
        SurplusIsMonotone(t, delay, rest, id);
      }
    }
  }

  // ----- Both ways of sending twice -----

  /** The transaction rolls back after the broker has the message, and the next one sends it again. */
  lemma {:induction false} RollbackSendsTwice(st: Store, delay: int, id: Id, now: int)
    requires id in st.rows && st.rows[id].status != PUBLISHED && st.rows[id].payload.Some?
    ensures var m := MessageOf(st.rows[id]);
            ApplyAll(st, delay, [PublishOne(id, now, Delivers, true), PublishOne(id, now, Delivers, false)]).broker
              == st.broker + [m, m]
  {
    ApplyTwo(st, delay, PublishOne(id, now, Delivers, true), PublishOne(id, now, Delivers, false));
  }

  /** `publish` raises although the broker has the message; the row is `FAILED`, and a retry sends it again. */
  lemma {:induction false} LostAnswerSendsTwice(st: Store, delay: int, id: Id, now: int)
    requires id in st.rows && st.rows[id].status != PUBLISHED && st.rows[id].payload.Some?
    ensures var m := MessageOf(st.rows[id]);
            ApplyAll(st, delay, [PublishOne(id, now, RaisesAfter, false),
                                 PublishOne(id, now, Delivers, false)]).broker == st.broker + [m, m]
  {
    ApplyTwo(st, delay, PublishOne(id, now, RaisesAfter, false), PublishOne(id, now, Delivers, false));
  }

  lemma {:induction false} ApplyTwo(st: Store, delay: int, a: Op, b: Op)
    ensures ApplyAll(st, delay, [a, b]) == Apply(Apply(st, delay, a), delay, b)
  {
    hide Apply;
    assert [a, b][1..] == [b] && [b][1..] == [];
    assert ApplyAll(st, delay, [a, b]) == ApplyAll(Apply(st, delay, a), delay, [b]);
    assert ApplyAll(Apply(st, delay, a), delay, [b]) == ApplyAll(Apply(Apply(st, delay, a), delay, b), delay, []);
  }
}
