/** `OutboxPublishService` and `OutboxRecoveryService` in imperative form. */
module OutboxService {
  import opened Common
  import opened Ordering
  import opened OutboxModel
  import L = LeaseTables

  datatype BatchOutcome = LimitOutOfRange | BatchRolledBack | BatchSettled(results: seq<PublishResult>)

  datatype EventOutcome = EventNotFound | EventRolledBack | EventSettled(result: PublishResult)

  class OutboxPublishService {
    var rows: map<Id, Row>
    var broker: seq<Sent>
    const retryDelay: int

    function St(): Store
      reads this
    {
      Store(rows, broker)
    }

    constructor (rows: map<Id, Row>, broker: seq<Sent>, retryDelay: int)
      requires retryDelay > 0
      ensures St() == Store(rows, broker) && this.retryDelay == retryDelay
    {
      this.rows, this.broker, this.retryDelay := rows, broker, retryDelay;
    }

    /** `_settle_failed` */
    method SettleFailed(id: Id, now: L.Instant, category: FailureCategory) returns (r: PublishResult)
      requires id in rows
      modifies this`rows
      ensures St() == SetStatus(old(St()), id, FAILED, now + retryDelay, None)
      ensures r == PublishResult(id, old(rows)[id].status, RESULT_FAILED, Some(category))
    {
      r := PublishResult(id, rows[id].status, RESULT_FAILED, Some(category));
      rows := rows[id := rows[id].(status := FAILED, publishedAt := None, availableAt := now + retryDelay)];
    }

    /** `_publish_locked_rows` */
    method PublishLockedRows(ids: seq<Id>, now: L.Instant, calls: Id -> Call) returns (results: seq<PublishResult>)
      requires InRows(St(), ids)
      modifies this
      ensures St() == AfterRows(old(St()), ids, now, retryDelay, calls)
      ensures results == RowResults(old(St()), ids, now, retryDelay, calls)
    {
      results := [];
      for n := 0 to |ids|
        invariant St() == AfterRows(old(St()), ids[..n], now, retryDelay, calls)
        invariant results == RowResults(old(St()), ids[..n], now, retryDelay, calls)
      {
        assert ids[..n + 1][..n] == ids[..n] && ids[..n + 1][n] == ids[n];
        ghost var before := St();
        var r := PublishRow(ids[n], now, calls(ids[n]));
        results := results + [r];
      }
      assert ids[..|ids|] == ids;
    }

    method PublishRow(id: Id, now: L.Instant, call: Call) returns (r: PublishResult)
      requires id in rows
      modifies this
      ensures St() == AfterRow(old(St()), id, now, retryDelay, call)
      ensures r == RowResult(old(St()), id, call)
    {
      var row := rows[id];
      if row.status == PUBLISHED {
        return PublishResult(id, row.status, RESULT_NO_OP, None);
      }
      if row.payload.None? {
        r := SettleFailed(id, now, INVALID_EVENT);
        return;
      }
      if call != RaisesBefore {
        broker := broker + [Sent(row.payload.value, row.key)];
      }
      if call != Delivers {
        r := SettleFailed(id, now, PUBLISH_ERROR);
        return;
      }
      rows := rows[id := row.(status := PUBLISHED, publishedAt := Some(now))];
      r := PublishResult(id, row.status, RESULT_PUBLISHED, None);
    }

    /** `publish_event`; `aborts` says that the transaction fails to commit. */
    method PublishEvent(id: Id, now: L.Instant, call: Call, aborts: bool) returns (r: EventOutcome)
      modifies this
      ensures St() == Apply(old(St()), retryDelay, PublishOne(id, now, call, aborts))
      ensures r == if id !in old(rows) then EventNotFound
                   else if aborts then EventRolledBack else EventSettled(RowResult(old(St()), id, call))
    {
      if id !in rows {
        return EventNotFound;
      }
      var committed := rows;
      var result := PublishRow(id, now, call);
      if aborts {
        rows := committed;
        return EventRolledBack;
      }
      return EventSettled(result);
    }

    /** `_publish_status`: a batch by status; `abort` says after how many rows the transaction rolls back. */
    method PublishStatus(status: RowStatus, limit: int, locked: set<Id>, now: L.Instant, calls: Id -> Call,
                         abort: Option<nat>)
      returns (r: BatchOutcome)
      modifies this
      ensures !(1 <= limit <= 100) ==> r == LimitOutOfRange && St() == old(St())
      ensures 1 <= limit <= 100 ==>
                && St() == Apply(old(St()), retryDelay, PublishBatch(status, limit, locked, now, calls, abort))
                && r == if abort.Some? then BatchRolledBack
                        else BatchSettled(RowResults(old(St()), Batch(old(rows), status, limit, locked), now,
                                                     retryDelay, calls))
    {
      if !(1 <= limit <= 100) {
        return LimitOutOfRange;
      }
      var ids := Batch(rows, status, limit, locked);
      assert InRows(St(), ids);
      if abort.None? {
        var results := PublishLockedRows(ids, now, calls);
        return BatchSettled(results);
      }
      var committed := rows;
      var handled := ids[..Min(abort.value, |ids|)];
      var lost := PublishLockedRows(handled, now, calls);
      rows := committed;
      return BatchRolledBack;
    }
  }

  // ----- Summaries -----

  datatype Summary = Summary(selected: nat, published: nat, failed: nat, noOp: nat, categories: seq<FailureCategory>)

  function Count(results: seq<PublishResult>, code: ResultCode): (n: nat)
    ensures n <= |results|
  {
    if results == [] then 0
    else Count(results[..|results| - 1], code) + if results[|results| - 1].code == code then 1 else 0
  }

  predicate HasCategory(results: seq<PublishResult>, category: FailureCategory) {
    exists k :: 0 <= k < |results| && results[k].failure == Some(category)
  }

  /** `_summary`; the two category names sort as they are listed here. */
  function Summarize(results: seq<PublishResult>): Summary {
    Summary(|results|, Count(results, RESULT_PUBLISHED), Count(results, RESULT_FAILED), Count(results, RESULT_NO_OP),
            (if HasCategory(results, INVALID_EVENT) then [INVALID_EVENT] else []) +
            (if HasCategory(results, PUBLISH_ERROR) then [PUBLISH_ERROR] else []))
  }

  lemma {:induction false} CountsAddUp(results: seq<PublishResult>)
    ensures |results| == Count(results, RESULT_PUBLISHED) + Count(results, RESULT_FAILED) + Count(results, RESULT_NO_OP)
  {
    if results != [] {
      CountsAddUp(results[..|results| - 1]);
    }
  }

  lemma {:induction false} CountZero(results: seq<PublishResult>, code: ResultCode)
    ensures Count(results, code) == 0 <==> forall k :: 0 <= k < |results| ==> results[k].code != code
  {
    if results != [] {
      var n := |results| - 1;
      CountZero(results[..n], code);
      assert forall k :: 0 <= k < n ==> results[..n][k] == results[k];
    }
  }

  /**
   What a result says about its row as it was before: a payload that does not decode is an invalid event,
   of which nothing is sent; a publisher that raises is a publishing error, whether the broker has the
   message or not; and a row that is published already is left alone.
   */
  predicate Answers(r: PublishResult, row: Row, call: Call, sent: seq<Sent>) {
    && r.previous == row.status
    && (r.code == RESULT_NO_OP <==> row.status == PUBLISHED)
    && (r.code == RESULT_PUBLISHED <==> row.status != PUBLISHED && row.payload.Some? && call == Delivers)
    && (r.failure == Some(INVALID_EVENT) <==> row.status != PUBLISHED && row.payload.None?)
    && (r.failure == Some(PUBLISH_ERROR) <==> row.status != PUBLISHED && row.payload.Some? && call != Delivers)
    && (r.failure == Some(INVALID_EVENT) || r.code == RESULT_NO_OP ==> sent == [])
    && (r.code == RESULT_PUBLISHED ==> sent == [Sent(row.payload.value, row.key)])
  }

  lemma {:induction false} ResultsAnswer(st: Store, ids: seq<Id>, now: L.Instant, delay: int, calls: Id -> Call,
                                         k: nat)
    requires InRows(st, ids) && k < |ids|
    ensures var r := RowResults(st, ids, now, delay, calls)[k];
            && r.id == ids[k] && (r.code == RESULT_FAILED <==> r.failure.Some?)
            && (r.code == RESULT_NO_OP <==> r.previous == PUBLISHED)
            && (Distinct(ids) ==> Answers(r, st.rows[ids[k]], calls(ids[k]), SentBy(st, [ids[k]], calls)))
  {
    hide AfterRows, AfterRow, RowResults, Answers, SentBy;
    var n := |ids| - 1;
    ResultsLast(st, ids, now, delay, calls);
    var before := AfterRows(st, ids[..n], now, delay, calls);
    RowAnswers(st, before, ids[n], calls);
    if k < n {
      ResultsAnswer(st, ids[..n], now, delay, calls, k);
    } else if Distinct(ids) {
      RowIsSettled(st, ids[..n], now, delay, calls, ids[n]);
      assert ids[n] !in ids[..n];
    }
  }

  lemma RowAnswers(st: Store, before: Store, id: Id, calls: Id -> Call)
    requires id in before.rows && id in st.rows
    ensures var r := RowResult(before, id, calls(id));
            && r.id == id && (r.code == RESULT_FAILED <==> r.failure.Some?)
            && (r.code == RESULT_NO_OP <==> r.previous == PUBLISHED)
            && (before.rows[id] == st.rows[id] ==> Answers(r, st.rows[id], calls(id), SentBy(st, [id], calls)))
  {
    assert [id][..0] == [] && [id][0] == id;
  }

  lemma ResultsLast(st: Store, ids: seq<Id>, now: L.Instant, delay: int, calls: Id -> Call)
    requires InRows(st, ids) && ids != []
    ensures var n := |ids| - 1;
            && ids[n] in AfterRows(st, ids[..n], now, delay, calls).rows
            && RowResults(st, ids, now, delay, calls) ==
               RowResults(st, ids[..n], now, delay, calls)
               + [RowResult(AfterRows(st, ids[..n], now, delay, calls), ids[n], calls(ids[n]))]
  {
    hide RowResult;
  }

  lemma {:induction false} PublishedGrows(st: Store, ids: seq<Id>, now: L.Instant, delay: int, calls: Id -> Call)
    requires InRows(st, ids)
    ensures |WithStatus(AfterRows(st, ids, now, delay, calls), PUBLISHED)| ==
            |WithStatus(st, PUBLISHED)| + Count(RowResults(st, ids, now, delay, calls), RESULT_PUBLISHED)
  {
    if ids != [] {
      var n := |ids| - 1;
      PublishedGrows(st, ids[..n], now, delay, calls);
      var before := AfterRows(st, ids[..n], now, delay, calls);
      RowGrowsPublished(before, ids[n], now, delay, calls(ids[n]));
      assert RowResults(st, ids, now, delay, calls)[..n] == RowResults(st, ids[..n], now, delay, calls);
    }
  }

  lemma {:induction false} RowGrowsPublished(st: Store, id: Id, now: L.Instant, delay: int, call: Call)
    requires id in st.rows
    ensures |WithStatus(AfterRow(st, id, now, delay, call), PUBLISHED)| ==
            |WithStatus(st, PUBLISHED)| + if RowResult(st, id, call).code == RESULT_PUBLISHED then 1 else 0
  {
    hide AfterRow;
    var after := AfterRow(st, id, now, delay, call);
    StatusAfterRow(st, id, now, delay, call, id);
    forall x | x in st.rows
      ensures after.rows[x].status == if x == id then SettledStatus(st.rows[id], call) else st.rows[x].status
    {
      StatusAfterRow(st, id, now, delay, call, x);
    }
    if RowResult(st, id, call).code == RESULT_PUBLISHED {
      assert WithStatus(after, PUBLISHED) == WithStatus(st, PUBLISHED) + {id};
    } else {
      assert WithStatus(after, PUBLISHED) == WithStatus(st, PUBLISHED);
    }
  }

  /** The categories are those of the results, each once, and invalid events come first. */
  predicate ListsCategories(categories: seq<FailureCategory>, results: seq<PublishResult>) {
    && (forall i, j :: 0 <= i < j < |categories| ==> categories[i] == INVALID_EVENT && categories[j] == PUBLISH_ERROR)
    && (INVALID_EVENT in categories <==> exists r :: r in results && r.failure == Some(INVALID_EVENT))
    && (PUBLISH_ERROR in categories <==> exists r :: r in results && r.failure == Some(PUBLISH_ERROR))
  }

  lemma {:induction false} CategoriesMeanFailures(results: seq<PublishResult>)
    requires forall k :: 0 <= k < |results| ==> (results[k].code == RESULT_FAILED <==> results[k].failure.Some?)
    ensures Summarize(results).categories == [] <==> Summarize(results).failed == 0
    ensures ListsCategories(Summarize(results).categories, results)
  {
    CountZero(results, RESULT_FAILED);
    forall r, c | r in results && r.failure == Some(c)
      ensures HasCategory(results, c) && Count(results, RESULT_FAILED) != 0
    {
      var k :| 0 <= k < |results| && results[k] == r;
    }
    if Count(results, RESULT_FAILED) != 0 {
      var k :| 0 <= k < |results| && results[k].code == RESULT_FAILED;
      match results[k].failure.value case INVALID_EVENT => case PUBLISH_ERROR =>
    }
  }

  /**
   The summary of a committed transaction is its accounting: every selected row is counted once,
   `published` is the number of rows that became published, the categories are those of the rows that
   failed, each once and invalid events first, and a batch taken by status `PENDING` or `FAILED` has no no-op.
   */
  lemma {:induction false} SummaryAccounts(st: Store, ids: seq<Id>, now: L.Instant, delay: int, calls: Id -> Call)
    requires InRows(st, ids)
    ensures var s := Summarize(RowResults(st, ids, now, delay, calls));
            && s.selected == |ids| == s.published + s.failed + s.noOp
            && |WithStatus(AfterRows(st, ids, now, delay, calls), PUBLISHED)|
               == |WithStatus(st, PUBLISHED)| + s.published
            && (s.categories == [] <==> s.failed == 0)
            && ListsCategories(s.categories, RowResults(st, ids, now, delay, calls))
    ensures Distinct(ids) && (forall k :: 0 <= k < |ids| ==> st.rows[ids[k]].status != PUBLISHED) ==>
              Summarize(RowResults(st, ids, now, delay, calls)).noOp == 0
  {
    hide RowResults, AfterRows, WithStatus, Count, HasCategory;
    var results := RowResults(st, ids, now, delay, calls);
    CountsAddUp(results);
    PublishedGrows(st, ids, now, delay, calls);
    forall k | 0 <= k < |results|
      ensures results[k].code == RESULT_FAILED <==> results[k].failure.Some?
      ensures results[k].code == RESULT_NO_OP <==> results[k].previous == PUBLISHED
      ensures Distinct(ids) ==> results[k].previous == st.rows[ids[k]].status
    {
      ResultsAnswer(st, ids, now, delay, calls, k);
    }
    CategoriesMeanFailures(results);
    CountZero(results, RESULT_NO_OP);
  }

  // ----- Operator recovery -----

  datatype RecoveryAction = RETRY_EVENT | RETRY_PENDING | RETRY_FAILED

  datatype RecoveryOutcome = NOT_FOUND | COMPLETED | OF_EVENT(code: ResultCode)

  datatype AuditRecord = AuditRecord(action: RecoveryAction, ids: seq<Id>, summary: Summary, outcome: RecoveryOutcome)

  /** An audit record counts every row it names, except the one that was not found. */
  predicate Balanced(a: AuditRecord) {
    && a.summary.selected == |a.ids|
    && a.summary.published + a.summary.failed + a.summary.noOp == if a.outcome == NOT_FOUND then 0 else |a.ids|
  }

  function ResultIds(results: seq<PublishResult>): seq<Id> {
    seq(|results|, k requires 0 <= k < |results| => results[k].id)
  }

  lemma {:induction false} ResultsNameRows(st: Store, ids: seq<Id>, now: L.Instant, delay: int, calls: Id -> Call)
    requires InRows(st, ids)
    ensures ResultIds(RowResults(st, ids, now, delay, calls)) == ids
  {
    hide RowResults;
    forall k | 0 <= k < |ids|
      ensures RowResults(st, ids, now, delay, calls)[k].id == ids[k]
    {
      ResultsAnswer(st, ids, now, delay, calls, k);
    }
  }

  class OutboxRecoveryService {
    const publisher: OutboxPublishService
    var audit: seq<AuditRecord>

    ghost predicate Valid()
      reads this
    {
      forall k :: 0 <= k < |audit| ==> Balanced(audit[k])
    }

    constructor (publisher: OutboxPublishService)
      ensures Valid() && this.publisher == publisher && audit == []
    {
      this.publisher := publisher;
      audit := [];
    }

    /** `retry_event`; a transaction that fails to commit raises and leaves no audit record. */
    method RetryEvent(id: Id, now: L.Instant, call: Call, aborts: bool) returns (r: EventOutcome)
      requires Valid()
      modifies this`audit, publisher
      ensures Valid() && publisher.St()
              == Apply(old(publisher.St()), publisher.retryDelay, PublishOne(id, now, call, aborts))
      ensures r.EventRolledBack? ==> audit == old(audit)
      ensures r.EventNotFound? ==>
                audit == old(audit) + [AuditRecord(RETRY_EVENT, [id], Summary(1, 0, 0, 0, []), NOT_FOUND)]
      ensures r.EventSettled? ==>
                r.result.id == id && audit
                  == old(audit) + [AuditRecord(RETRY_EVENT, [id], Summarize([r.result]), OF_EVENT(r.result.code))]
    {
      r := publisher.PublishEvent(id, now, call, aborts);
      if r.EventNotFound? {
        audit := audit + [AuditRecord(RETRY_EVENT, [id], Summary(1, 0, 0, 0, []), NOT_FOUND)];
      }
      if r.EventSettled? {
        CountsAddUp([r.result]);
        audit := audit + [AuditRecord(RETRY_EVENT, [id], Summarize([r.result]), OF_EVENT(r.result.code))];
      }
    }

    /** `retry_pending` and `retry_failed`. */
    method RetryBatch(action: RecoveryAction, limit: int, locked: set<Id>, now: L.Instant, calls: Id -> Call,
                      abort: Option<nat>)
      returns (r: BatchOutcome)
      requires Valid() && action != RETRY_EVENT
      modifies this`audit, publisher
      ensures Valid()
      ensures r.BatchSettled? <==> 1 <= limit <= 100 && abort.None?
      ensures !r.BatchSettled? ==> audit == old(audit)
      ensures r.BatchSettled? ==>
                var status := if action == RETRY_PENDING then PENDING else FAILED;
                var ids := Batch(old(publisher.rows), status, limit, locked);
                && publisher.St() == AfterRows(old(publisher.St()), ids, now, publisher.retryDelay, calls)
                && r.results == RowResults(old(publisher.St()), ids, now, publisher.retryDelay, calls)
                && audit == old(audit) + [AuditRecord(action, ids, Summarize(r.results), COMPLETED)]
    {
      hide AfterRows, RowResults, Batch, Count, HasCategory;
      var status := if action == RETRY_PENDING then PENDING else FAILED;
      r := publisher.PublishStatus(status, limit, locked, now, calls, abort);
      if r.BatchSettled? {
        CountsAddUp(r.results);
        var ids := ResultIds(r.results);
        ResultsNameRows(old(publisher.St()), Batch(old(publisher.rows), status, limit, locked), now,
                        publisher.retryDelay, calls);
        audit := audit + [AuditRecord(action, ids, Summarize(r.results), COMPLETED)];
      }
    }
  }
}
