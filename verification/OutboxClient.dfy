/** The client's calls as runs of the outbox protocol. */
module OutboxClient {
  import opened Common
  import opened Outbox
  import opened OutboxRuns

  ghost predicate Steps(trace: seq<World>) {
    0 < |trace| && forall i :: 0 <= i < |trace| - 1 ==> StepAt(trace, i)
  }

  /** `w'` follows from `w` by some number of steps. */
  ghost predicate Reaches(w: World, w': World) {
    exists trace: seq<World> :: Steps(trace) && trace[0] == w && trace[|trace| - 1] == w'
  }

  /** The world's outbox of `t` is this store, and its event table this registry. */
  ghost predicate Shows(w: World, t: TransferId, store: OutboxStore, registry: EventTables)
    reads store, registry
  {
    t in w.outboxes && w.outboxes[t] == store.Abs() && w.tables == registry.Abs()
  }

  lemma ReachesSelf(w: World)
    ensures Reaches(w, w)
  {
    assert Steps([w]);
  }

  lemma Advance(w: World, w': World, w'': World)
    requires Inv(w') && Reaches(w, w') && Step(w', w'')
    ensures Inv(w'') && Reaches(w, w'')
  {
    StepKeeps(w', w'');
    hide Step, Inv;
    var trace: seq<World> :| Steps(trace) && trace[0] == w && trace[|trace| - 1] == w';
    var longer := trace + [w''];
    forall i | 0 <= i < |longer| - 1
      ensures StepAt(longer, i)
    {
      if i < |trace| - 1 {
        assert StepAt(trace, i);
      }
    }
    assert Steps(longer) && longer[0] == w && longer[|longer| - 1] == w'';
  }

  lemma SendAndDeliver(w: World, t: TransferId, tables: Tables) returns (w': World)
    requires Inv(w) && t in w.outboxes && w.outboxes[t].Valid() && Pending(w.outboxes[t]) != []
    requires Some(tables) == Ingest(w.tables, t, Pending(w.outboxes[t]), |Pending(w.outboxes[t])|)
    ensures Inv(w') && Reaches(w, w')
    ensures w'.outboxes == w.outboxes && w'.tables == tables && (t, Ids(Pending(w.outboxes[t]))) in w'.replies
  {
    var batch := Pending(w.outboxes[t]);
    var sent := w.(requests := w.requests + {(t, batch)});
    w' := sent.(tables := tables, replies := w.replies + {(t, Ids(batch))});
    hide Inv, Ingest, Reaches;
    ReachesSelf(w);
    SendIsStep(w, sent, t);
    Advance(w, w, sent);
    DeliverIsStep(sent, w', t, batch);
    Advance(w, sent, w');
  }

  lemma SendIsStep(w: World, w': World, t: TransferId)
    requires SendStep(w, w', t)
    ensures Step(w, w')
  {
  }

  lemma DeliverIsStep(w: World, w': World, t: TransferId, batch: seq<Event>)
    requires DeliverStep(w, w', t, batch)
    ensures Step(w, w')
  {
    hide Ingest;
  }

  lemma AcknowledgeIsStep(w: World, w': World, t: TransferId, ids: seq<EventId>)
    requires AcknowledgeStep(w, w', t, ids)
    ensures Step(w, w')
  {
  }

  lemma RecordIsStep(w: World, w': World, t: TransferId, event: Event)
    requires RecordStep(w, w', t, event)
    ensures Step(w, w')
  {
  }

  /** What a sync does is a run: nothing, or a batch sent and delivered, or also acknowledged. */
  lemma SyncIsRun(w: World, t: TransferId, local: LocalEvents, tables: Tables, acknowledged: bool) returns (w': World)
    requires Inv(w) && t in w.outboxes && w.outboxes[t].Valid()
    requires var batch := Pending(w.outboxes[t]);
      && local == (if acknowledged then Acknowledged(w.outboxes[t], Ids(batch)) else w.outboxes[t])
      && (tables == w.tables || Some(tables) == Ingest(w.tables, t, batch, |batch|))
      && (acknowledged ==> Some(tables) == Ingest(w.tables, t, batch, |batch|))
    ensures Inv(w') && Reaches(w, w') && w'.outboxes == w.outboxes[t := local] && w'.tables == tables
  {
    var batch := Pending(w.outboxes[t]);
    hide Inv, Reaches, Pending;
    ReachesSelf(w);
    if batch == [] {
      NothingAcknowledged(w.outboxes[t]);
      assert Ids(batch) == [] && Ingest(w.tables, t, [], 0) == Some(w.tables);
      assert w.outboxes[t := w.outboxes[t]] == w.outboxes;
      w' := w;
    } else if acknowledged {
      hide Ingest;
      var delivered := SendAndDeliver(w, t, tables);
      w' := delivered.(outboxes := w.outboxes[t := local]);
      AcknowledgeIsStep(delivered, w', t, Ids(batch));
      Advance(w, delivered, w');
    } else if tables == w.tables {
      assert w.outboxes[t := w.outboxes[t]] == w.outboxes;
      w' := w;
    } else {
      hide Ingest;
      assert w.outboxes[t := w.outboxes[t]] == w.outboxes;
      w' := SendAndDeliver(w, t, tables);
    }
  }

  lemma OutboxValid(w: World, t: TransferId)
    requires Inv(w) && t in w.outboxes
    ensures w.outboxes[t].Valid()
  {
    assert TransferOk(w, t);
  }

  /** Recording a new event is a step. */
  method Record(store: OutboxStore, registry: EventTables, t: TransferId, event: Event, ghost w: World)
    returns (ghost w': World)
    requires Inv(w) && Shows(w, t, store, registry) && Unused(w, event.id)
    modifies store
    ensures Inv(w') && Reaches(w, w') && Shows(w', t, store, registry)
    ensures w' == w.(outboxes := w.outboxes[t := WithEvent(w.outboxes[t], event)])
  {
    store.RecordTransferEvent(event);
    w' := w.(outboxes := w.outboxes[t := WithEvent(w.outboxes[t], event)]);
    hide Inv, Reaches;
    ReachesSelf(w);
    RecordIsStep(w, w', t, event);
    Advance(w, w, w');
  }

  /** Sending a batch is a run, whatever is lost on the way, and leaves the other transfers alone. */
  method Sync(store: OutboxStore, registry: EventTables, t: TransferId, ghost w: World)
    returns (sent: Option<nat>, ghost w': World)
    requires Inv(w) && Shows(w, t, store, registry)
    modifies store, registry
    ensures Inv(w') && Reaches(w, w') && Shows(w', t, store, registry)
    ensures w'.outboxes == w.outboxes[t := store.Abs()]
    ensures sent.Some? ==>
      && sent.value == |Pending(w.outboxes[t])|
      && store.Abs() == Acknowledged(w.outboxes[t], Ids(Pending(w.outboxes[t])))
  {
    OutboxValid(w, t);
    hide Inv, Reaches, Pending, Ingest, Acknowledged;
    sent := store.SyncTransferEvents(registry, t);
    w' := SyncIsRun(w, t, store.Abs(), registry.Abs(), sent.Some?);
  }
}
