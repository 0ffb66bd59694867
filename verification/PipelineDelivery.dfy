/** How often the composed system puts a job's message into the broker. */
module PipelineDelivery {
  import opened Common
  import opened Pipeline
  import D = OutboxDelivery
  import G = IngestionProofs
  import I = IngestionModel
  import L = LeaseTables
  import O = OutboxModel
  import P = LeaseProtocol
  import R = IngestionRuns

  lemma RunKeyInjective(a: Id, b: Id)
    requires I.RunKey(a) == I.RunKey(b)
    ensures a == b
  {
    assert I.RunKey(a)[8..] == a && I.RunKey(b)[8..] == b;
  }

  /** The keys that ingestion derives from its runs are the unique ones that the outbox needs. */
  lemma {:induction false} KeysAreDistinct(db: I.Db)
    requires R.DbInv(db)
    ensures D.DistinctKeys(db.outbox)
  {
    hide G.LogInv, G.IncidentInv, R.DeliveriesAgree, L.Coupled;
    forall a, b | a in db.outbox && b in db.outbox && db.outbox[a].key == db.outbox[b].key
      ensures a == b
    {
      assert G.OutboxRowFine(db.incidents, db.work, db.outbox[a])
             && G.OutboxRowFine(db.incidents, db.work, db.outbox[b]);
      RunKeyInjective(db.outbox[a].payload.value.run, db.outbox[b].payload.value.run);
    }
  }

  lemma {:induction false} WorldDelivers(w: World)
    requires WorldInv(w)
    ensures D.Delivery(Outbox(w))
  {
    hide R.DbInv, O.OutboxInv, P.Inv, WorkersRest;
    KeysAreDistinct(w.db);
  }

  /** The step sends this row's message without leaving the row published. */
  ghost predicate Forgets(w: World, step: Step, id: Id)
    requires id in w.db.outbox
  {
    step.Publish? && !step.op.Announce? && D.Forgets(Outbox(w), step.op, id)
  }

  ghost predicate Remembers(w: World, step: Step) {
    forall id :: id in w.db.outbox ==> !Forgets(w, step, id)
  }

  /** Rows that ingestion adds were never sent, and the others keep their copies. */
  lemma {:induction false} GrowthSurplus(outbox: map<Id, O.Row>, after: map<Id, O.Row>, broker: seq<O.Sent>, id: Id)
    requires O.OutboxInv(O.Store(outbox, broker)) && OutboxGrows(outbox, after) && D.DistinctKeys(after) && id in after
    ensures id in outbox ==> D.Surplus(O.Store(after, broker), id) == D.Surplus(O.Store(outbox, broker), id)
    ensures id !in outbox ==> D.Surplus(O.Store(after, broker), id) == 0
  {
    if id !in outbox && after[id].payload.Some? {
      forall k | 0 <= k < |broker|
        ensures broker[k] != D.MessageOf(after[id])
      {
        assert O.HasRow(outbox, broker[k]);
        var x :| x in outbox && O.SentFrom(outbox[x], broker[k]);
        assert after[x] == outbox[x];
      }
      assert D.MessageOf(after[id]) !in broker;
    }
  }

  lemma WorldHasDb(w: World)
    requires WorldInv(w)
    ensures R.DbInv(w.db)
  {
    hide R.DbInv, O.OutboxInv, P.Inv, WorkersRest;
  }

  /** What any step of the system does to the surplus copies of a row. */
  lemma {:induction false} StepSurplus(n: I.Normalizer, w: World, delay: int, step: Step, id: Id)
    requires WorldInv(w)
    ensures var t := Apply(n, w, delay, step);
            && w.db.outbox.Keys <= t.db.outbox.Keys
            && (id in w.db.outbox ==>
                  D.Surplus(Outbox(t), id) == D.Surplus(Outbox(w), id) + if Forgets(w, step, id) then 1 else 0)
            && (id in t.db.outbox && id !in w.db.outbox ==> D.Surplus(Outbox(t), id) == 0)
  {
    hide R.DbInv, O.OutboxInv, P.Inv, P.Step, WorkersRest, R.Deliver, O.Apply, D.Surplus, I.FreshIds, D.SendsRow,
         D.DistinctKeys, D.Handled;
    WorldDelivers(w);
    match step
    case Webhook(r) =>
      if I.FreshIds(n, w.db, r) {
        DeliverGrows(n, w.db, r);
        R.DeliverKeepsInv(n, w.db, r);
        KeysAreDistinct(R.Deliver(n, w.db, r));
        if id in R.Deliver(n, w.db, r).outbox {
          GrowthSurplus(w.db.outbox, R.Deliver(n, w.db, r).outbox, w.broker, id);
        }
      }
    case Publish(op) =>
      if !op.Announce? {
        PublishSameAnnouncements(Outbox(w), delay, op);
        if id in w.db.outbox {
          D.SurplusAfter(Outbox(w), delay, op, id);
        }
      }
    case _ =>
  }

  ghost predicate AllRemember(n: I.Normalizer, w: World, delay: int, steps: seq<Step>)
    requires WorldInv(w)
    decreases |steps|
  {
    steps == [] ||
    (ApplyKeepsInv(n, w, delay, steps[0]);
     Remembers(w, steps[0]) && AllRemember(n, Apply(n, w, delay, steps[0]), delay, steps[1..]))
  }

  lemma ApplyAllUnfolds(n: I.Normalizer, w: World, delay: int, steps: seq<Step>)
    requires WorldInv(w) && steps != []
    ensures R.DbInv(w.db) && WorldInv(Apply(n, w, delay, steps[0]))
    ensures ApplyAll(n, w, delay, steps) == ApplyAll(n, Apply(n, w, delay, steps[0]), delay, steps[1..])
  {
    hide WorldInv, Apply, R.DbInv;
    WorldHasDb(w);
    ApplyKeepsInv(n, w, delay, steps[0]);
  }

  lemma {:induction false} SurplusIsMonotone(n: I.Normalizer, w: World, delay: int, steps: seq<Step>, id: Id)
    requires WorldInv(w) && id in w.db.outbox
    ensures id in ApplyAll(n, w, delay, steps).db.outbox
    ensures D.Surplus(Outbox(ApplyAll(n, w, delay, steps)), id) >= D.Surplus(Outbox(w), id)
    decreases |steps|
  {
    hide WorldInv, Apply, D.Surplus, Forgets, R.DbInv;
    if steps != [] {
      hide ApplyAll;
      ApplyAllUnfolds(n, w, delay, steps);
      StepSurplus(n, w, delay, steps[0], id);
      SurplusIsMonotone(n, Apply(n, w, delay, steps[0]), delay, steps[1..], id);
    }
  }

  lemma ExactlyOnceIsNoSurplus(w: World)
    ensures D.ExactlyOnce(Outbox(w)) <==> forall id :: id in w.db.outbox ==> D.Surplus(Outbox(w), id) == 0
  {
    hide D.Copies;
    assert forall id :: id in w.db.outbox ==>
           D.Surplus(Outbox(w), id) == D.Copies(Outbox(w), id) - D.PublishedCount(Outbox(w).rows[id]);
  }

  lemma {:induction false} DeliveryFrom(n: I.Normalizer, w: World, delay: int, steps: seq<Step>)
    requires WorldInv(w) && D.ExactlyOnce(Outbox(w))
    ensures D.ExactlyOnce(Outbox(ApplyAll(n, w, delay, steps))) <==> AllRemember(n, w, delay, steps)
    decreases |steps|
  {
    hide WorldInv, Apply, D.Surplus, Forgets, D.ExactlyOnce, R.DbInv;
    ExactlyOnceIsNoSurplus(w);
    if steps != [] {
      WorldHasDb(w);
      var t, rest := Apply(n, w, delay, steps[0]), steps[1..];
      ApplyKeepsInv(n, w, delay, steps[0]);
      if Remembers(w, steps[0]) {
        forall id | id in t.db.outbox
          ensures D.Surplus(Outbox(t), id) == 0
        {
          StepSurplus(n, w, delay, steps[0], id);
        }
        ExactlyOnceIsNoSurplus(t);
        DeliveryFrom(n, t, delay, rest);
      } else {
        var id :| id in w.db.outbox && Forgets(w, steps[0], id);
        StepSurplus(n, w, delay, steps[0], id);
        SurplusIsMonotone(n, t, delay, rest, id);
        ExactlyOnceIsNoSurplus(ApplyAll(n, w, delay, steps));
      }
    }
  }

  ghost predicate RememberingRun(n: I.Normalizer, start: World, delay: int, steps: seq<Step>)
    requires InitialWorld(start)
  {
    InitialIsInv(start);
    AllRemember(n, start, delay, steps)
  }

  /**
   In every run of the pipeline from its start, the broker ends with the message of each job once if
   its outbox row is `PUBLISHED` and not at all otherwise, if and only if no publishing transaction
   rolled back after sending and no `publish` raised after the broker had the message.
   */
  lemma {:induction false} ExactlyOnceExactlyWhen(n: I.Normalizer, w: World, delay: int, steps: seq<Step>)
    requires InitialWorld(w)
    ensures D.ExactlyOnce(Outbox(RunFrom(n, w, delay, steps))) <==> RememberingRun(n, w, delay, steps)
  {
    hide WorldInv;
    InitialIsInv(w);
    DeliveryFrom(n, w, delay, steps);
  }
}
