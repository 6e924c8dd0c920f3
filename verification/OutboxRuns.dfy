/** Every run of recording, sending, delivering and acknowledging events. Requests and replies
    may be lost, delayed, reordered and delivered any number of times. */
module OutboxRuns {
  import opened Common
  import opened Outbox

  datatype World = World(
    outboxes: map<TransferId, LocalEvents>,
    tables: Tables,
    requests: set<(TransferId, seq<Event>)>,
    replies: set<(TransferId, seq<EventId>)>)

  /** No event has this id. */
  ghost predicate Unused(w: World, id: EventId) {
    forall t, i :: t in w.outboxes && 0 <= i < |w.outboxes[t].events| ==> w.outboxes[t].events[i].id != id
  }

  ghost predicate RecordStep(w: World, w': World, t: TransferId, event: Event) {
    && t in w.outboxes && Unused(w, event.id)
    && w' == w.(outboxes := w.outboxes[t := WithEvent(w.outboxes[t], event)])
  }

  ghost predicate SendStep(w: World, w': World, t: TransferId) {
    && t in w.outboxes && w.outboxes[t].Valid() && Pending(w.outboxes[t]) != []
    && w' == w.(requests := w.requests + {(t, Pending(w.outboxes[t]))})
  }

  ghost predicate DeliverStep(w: World, w': World, t: TransferId, batch: seq<Event>) {
    && (t, batch) in w.requests
    && match Ingest(w.tables, t, batch, |batch|)
       case Some(tables) => w' == w.(tables := tables, replies := w.replies + {(t, Ids(batch))})
       case None => w' == w
  }

  ghost predicate AcknowledgeStep(w: World, w': World, t: TransferId, ids: seq<EventId>) {
    && (t, ids) in w.replies && t in w.outboxes && w.outboxes[t].Valid()
    && w' == w.(outboxes := w.outboxes[t := Acknowledged(w.outboxes[t], ids)])
  }

  ghost predicate Step(w: World, w': World) {
    || (exists t, event :: RecordStep(w, w', t, event))
    || (exists t :: SendStep(w, w', t))
    || (exists t, batch :: DeliverStep(w, w', t, batch))
    || (exists t, ids :: AcknowledgeStep(w, w', t, ids))
  }

  ghost predicate Init(w: World) {
    && (forall t :: t in w.outboxes ==> w.outboxes[t] == LocalEvents([], []))
    && w.tables == Tables(map[], []) && w.requests == {} && w.replies == {}
  }

  // ---- The invariant ----

  /** How many leading events are marked synced. */
  function AckedFrom(synced: seq<bool>, i: nat): (count: nat)
    requires i <= |synced|
    ensures i <= count <= |synced|
    ensures forall j :: i <= j < count ==> synced[j]
    ensures count < |synced| ==> !synced[count]
    decreases |synced| - i
  {
    if i == |synced| || !synced[i] then i else AckedFrom(synced, i + 1)
  }

  function Acked(local: LocalEvents): nat {
    AckedFrom(local.synced, 0)
  }

  /** The synced events are a prefix. */
  ghost predicate Prefixed(local: LocalEvents) {
    local.Valid() && forall i :: 0 <= i < |local.synced| ==> (local.synced[i] <==> i < Acked(local))
  }

  /** A transfer's events in the first `n` log entries. */
  function RecordedUpTo(log: seq<(TransferId, Event)>, t: TransferId, n: nat): seq<Event>
    requires n <= |log|
  {
    if n == 0 then []
    else RecordedUpTo(log, t, n - 1) + if log[n - 1].0 == t then [log[n - 1].1] else []
  }

  function RecordedOf(tables: Tables, t: TransferId): seq<Event> {
    RecordedUpTo(tables.log, t, |tables.log|)
  }

  /** The event table and the log hold the same events. */
  ghost predicate TablesAgree(tables: Tables) {
    && (forall id :: id in tables.known ==> tables.known[id] in tables.log && tables.known[id].1.id == id)
    && (forall i :: 0 <= i < |tables.log| ==>
         tables.log[i].1.id in tables.known && tables.known[tables.log[i].1.id] == tables.log[i])
  }

  ghost predicate IdsUnique(outboxes: map<TransferId, LocalEvents>) {
    forall t, i, t', i' ::
      (t in outboxes && 0 <= i < |outboxes[t].events| && t' in outboxes && 0 <= i' < |outboxes[t'].events|
       && outboxes[t].events[i].id == outboxes[t'].events[i'].id) ==>
        t == t' && i == i'
  }

  ghost predicate SliceAt(events: seq<Event>, batch: seq<Event>, i: nat) {
    i + |batch| <= |events| && batch == events[i..i + |batch|]
  }

  /** The batch is a stretch of the events that starts no later than `from` and ends by `to`. */
  ghost predicate Stretch(events: seq<Event>, batch: seq<Event>, from: nat, to: nat) {
    exists i: nat :: SliceAt(events, batch, i) && i <= from && i + |batch| <= to
  }

  /** What was acknowledged is recorded, and what is recorded is a prefix of the local events. */
  ghost predicate TransferOk(w: World, t: TransferId)
    requires t in w.outboxes
  {
    && Prefixed(w.outboxes[t])
    && Acked(w.outboxes[t]) <= |RecordedOf(w.tables, t)|
    && RecordedOf(w.tables, t) <= w.outboxes[t].events
  }

  ghost predicate RequestOk(w: World, t: TransferId, batch: seq<Event>) {
    t in w.outboxes && Stretch(w.outboxes[t].events, batch, Acked(w.outboxes[t]), |w.outboxes[t].events|)
  }

  ghost predicate ReplyOk(w: World, t: TransferId, ids: seq<EventId>) {
    t in w.outboxes && exists batch ::
      ids == Ids(batch) && Stretch(w.outboxes[t].events, batch, Acked(w.outboxes[t]), |RecordedOf(w.tables, t)|)
  }

  ghost predicate Inv(w: World) {
    && IdsUnique(w.outboxes)
    && TablesAgree(w.tables)
    && (forall t :: t in w.outboxes ==> TransferOk(w, t))
    && (forall t :: RecordedOf(w.tables, t) != [] ==> t in w.outboxes)
    && (forall t, batch :: (t, batch) in w.requests ==> RequestOk(w, t, batch))
    && (forall t, ids :: (t, ids) in w.replies ==> ReplyOk(w, t, ids))
  }

  // ---- Small facts ----

  lemma {:induction false} AckedIs(synced: seq<bool>, i: nat, count: nat)
    requires i <= count <= |synced|
    requires forall j :: i <= j < count ==> synced[j]
    requires count < |synced| ==> !synced[count]
    ensures AckedFrom(synced, i) == count
    decreases count - i
  {
    if i == count {
    } else {
      AckedIs(synced, i + 1, count);
    }
  }

  lemma StretchWider(events: seq<Event>, more: seq<Event>, batch: seq<Event>, from: nat, to: nat, from': nat, to': nat)
    requires Stretch(events, batch, from, to) && from <= from' && to <= to' && events <= more
    ensures Stretch(more, batch, from', to')
  {
    var i: nat :| SliceAt(events, batch, i) && i <= from && i + |batch| <= to;
    assert SliceAt(more, batch, i);
  }

  lemma {:induction false} RecordedMembers(log: seq<(TransferId, Event)>, t: TransferId, n: nat, event: Event)
    requires n <= |log|
    ensures event in RecordedUpTo(log, t, n) <==> (t, event) in log[..n]
  {
    if n == 0 {
    } else {
      RecordedMembers(log, t, n - 1, event);
      assert log[..n] == log[..n - 1] + [log[n - 1]];
      assert log[n - 1] == (log[n - 1].0, log[n - 1].1);
    }
  }

  lemma {:induction false} RecordedPrefix(log: seq<(TransferId, Event)>, entry: (TransferId, Event), t: TransferId, n: nat)
    requires n <= |log|
    ensures RecordedUpTo(log + [entry], t, n) == RecordedUpTo(log, t, n)
  {
    if n == 0 {
    } else {
      RecordedPrefix(log, entry, t, n - 1);
    }
  }

  /** The outboxes grew: events were added or marks were set, and nothing was lost. */
  ghost predicate OutboxGrew(local: LocalEvents, local': LocalEvents) {
    local.events <= local'.events && Acked(local) <= Acked(local')
  }

  /** Requests and replies stay good while outboxes and records only grow. */
  lemma MessagesStay(w: World, w': World)
    requires Inv(w)
    requires w'.outboxes.Keys == w.outboxes.Keys
    requires forall t :: t in w.outboxes ==> OutboxGrew(w.outboxes[t], w'.outboxes[t])
    requires forall t :: RecordedOf(w.tables, t) <= RecordedOf(w'.tables, t)
    ensures forall t, batch :: (t, batch) in w.requests ==> RequestOk(w', t, batch)
    ensures forall t, ids :: (t, ids) in w.replies ==> ReplyOk(w', t, ids)
  {
    hide AckedFrom, RecordedUpTo;
    forall t, batch | (t, batch) in w.requests
      ensures RequestOk(w', t, batch)
    {
      assert RequestOk(w, t, batch) && OutboxGrew(w.outboxes[t], w'.outboxes[t]);
      StretchWider(w.outboxes[t].events, w'.outboxes[t].events, batch, Acked(w.outboxes[t]), |w.outboxes[t].events|,
                   Acked(w'.outboxes[t]), |w'.outboxes[t].events|);
    }
    forall t, ids | (t, ids) in w.replies
      ensures ReplyOk(w', t, ids)
    {
      assert ReplyOk(w, t, ids) && OutboxGrew(w.outboxes[t], w'.outboxes[t]);
      var batch :| ids == Ids(batch)
        && Stretch(w.outboxes[t].events, batch, Acked(w.outboxes[t]), |RecordedOf(w.tables, t)|);
      StretchWider(w.outboxes[t].events, w'.outboxes[t].events, batch, Acked(w.outboxes[t]), |RecordedOf(w.tables, t)|,
                   Acked(w'.outboxes[t]), |RecordedOf(w'.tables, t)|);
    }
  }

  // ---- Recording ----

  lemma RecordGrows(local: LocalEvents, event: Event)
    requires Prefixed(local)
    ensures OutboxGrew(local, WithEvent(local, event)) && Prefixed(WithEvent(local, event))
    ensures Acked(WithEvent(local, event)) == Acked(local)
  {
    AckedIs(WithEvent(local, event).synced, 0, Acked(local));
  }

  lemma RecordUnique(w: World, w': World, t: TransferId, event: Event)
    requires IdsUnique(w.outboxes) && RecordStep(w, w', t, event)
    ensures IdsUnique(w'.outboxes)
  {
  }

  lemma SameEventsUnique(outboxes: map<TransferId, LocalEvents>, outboxes': map<TransferId, LocalEvents>)
    requires IdsUnique(outboxes) && outboxes'.Keys == outboxes.Keys
    requires forall t :: t in outboxes ==> outboxes'[t].events == outboxes[t].events
    ensures IdsUnique(outboxes')
  {
  }

  lemma RecordKeeps(w: World, w': World, t: TransferId, event: Event)
    requires Inv(w) && RecordStep(w, w', t, event)
    ensures Inv(w')
  {
    hide AckedFrom, RecordedUpTo, IdsUnique, TablesAgree;
    RecordUnique(w, w', t, event);
    assert TransferOk(w, t);
    RecordGrows(w.outboxes[t], event);
    forall u | u in w.outboxes
      ensures OutboxGrew(w.outboxes[u], w'.outboxes[u]) && TransferOk(w', u)
    {
      assert TransferOk(w, u);
    }
    MessagesStay(w, w');
  }

  // ---- Sending ----

  lemma {:induction false} PendingIsSlice(local: LocalEvents, i: nat, limit: nat)
    requires Prefixed(local) && Acked(local) <= i <= |local.events|
    ensures PendingFrom(local, i, limit) == local.events[i..Min(i + limit, |local.events|)]
    decreases |local.events| - i
  {
    if i < |local.events| && 0 < limit {
      PendingIsSlice(local, i + 1, limit - 1);
    }
  }

  lemma {:induction false} PendingSkipsAcked(local: LocalEvents, i: nat, limit: nat)
    requires Prefixed(local) && i <= Acked(local)
    ensures PendingFrom(local, i, limit) == PendingFrom(local, Acked(local), limit)
    decreases Acked(local) - i
  {
    if i < Acked(local) {
      PendingSkipsAcked(local, i + 1, limit);
      if limit == 0 {
        assert PendingFrom(local, Acked(local), 0) == [];
      }
    }
  }

  lemma SendKeeps(w: World, w': World, t: TransferId)
    requires Inv(w) && SendStep(w, w', t)
    ensures Inv(w')
  {
    hide AckedFrom, RecordedUpTo;
    assert TransferOk(w, t);
    var local := w.outboxes[t];
    var batch := Pending(local);
    PendingSkipsAcked(local, 0, BATCH_LIMIT);
    PendingIsSlice(local, Acked(local), BATCH_LIMIT);
    assert SliceAt(local.events, batch, Acked(local));
    assert RequestOk(w', t, batch);
    MessagesStay(w, w');
    forall u | u in w'.outboxes
      ensures TransferOk(w', u)
    {
      assert TransferOk(w, u);
    }
  }

  // ---- Delivering ----

  /** One event of the stretch: already recorded, or the next to be recorded. */
  lemma IngestNext(w: World, tables: Tables, t: TransferId, m: nat)
    requires IdsUnique(w.outboxes) && t in w.outboxes && m < |w.outboxes[t].events|
    requires TablesAgree(tables)
    requires forall u :: u in w.outboxes ==> RecordedOf(tables, u) <= w.outboxes[u].events
    requires forall u :: RecordedOf(tables, u) != [] ==> u in w.outboxes
    requires m <= |RecordedOf(tables, t)|
    ensures var next := IngestOne(tables, t, w.outboxes[t].events[m]);
      && next.Some? && TablesAgree(next.value)
      && RecordedOf(next.value, t) == w.outboxes[t].events[..Max(|RecordedOf(tables, t)|, m + 1)]
      && (forall u :: u != t ==> RecordedOf(next.value, u) == RecordedOf(tables, u))
  {
    var events := w.outboxes[t].events;
    var event := events[m];
    var recorded := RecordedOf(tables, t);
    if m < |recorded| {
      assert recorded[m] == event;
      RecordedMembers(tables.log, t, |tables.log|, event);
      assert tables.log[..|tables.log|] == tables.log;
      assert events[..|recorded|] == recorded;
    } else {
      NewEvent(w, tables, t, m);
      var entry := (t, event);
      forall u
        ensures RecordedOf(IngestOne(tables, t, event).value, u)
             == RecordedOf(tables, u) + if u == t then [event] else []
      {
        RecordedPrefix(tables.log, entry, u, |tables.log|);
      }
      assert events[..m + 1] == events[..m] + [event];
      AgreeAfterAppend(tables, t, event);
    }
  }

  /** A recorded event has another id than an unrecorded one. */
  lemma RecordedElsewhere(w: World, u: TransferId, recorded: seq<Event>, event: Event, t: TransferId, m: nat)
    requires IdsUnique(w.outboxes) && t in w.outboxes && u in w.outboxes && m < |w.outboxes[t].events|
    requires recorded <= w.outboxes[u].events && event in recorded
    requires u == t ==> |recorded| <= m
    ensures event.id != w.outboxes[t].events[m].id
  {
    var k :| 0 <= k < |recorded| && recorded[k] == event;
    assert w.outboxes[u].events[k] == event;
  }

  /** The first unrecorded event's id is in no table. */
  lemma NewEvent(w: World, tables: Tables, t: TransferId, m: nat)
    requires IdsUnique(w.outboxes) && t in w.outboxes && m < |w.outboxes[t].events|
    requires TablesAgree(tables) && |RecordedOf(tables, t)| <= m
    requires forall u :: u in w.outboxes ==> RecordedOf(tables, u) <= w.outboxes[u].events
    requires forall u :: RecordedOf(tables, u) != [] ==> u in w.outboxes
    ensures w.outboxes[t].events[m].id !in tables.known
  {
    hide RecordedUpTo;
    var id := w.outboxes[t].events[m].id;
    if id in tables.known {
      var (u, event) := tables.known[id];
      assert tables.log[..|tables.log|] == tables.log;
      RecordedMembers(tables.log, u, |tables.log|, event);
      RecordedElsewhere(w, u, RecordedOf(tables, u), event, t, m);
    }
  }

  lemma AgreeAfterAppend(tables: Tables, t: TransferId, event: Event)
    requires TablesAgree(tables) && event.id !in tables.known
    ensures TablesAgree(IngestOne(tables, t, event).value)
  {
    var next := IngestOne(tables, t, event).value;
    assert next.log[|tables.log|] == (t, event);
    forall id | id in next.known
      ensures next.known[id] in next.log && next.known[id].1.id == id
    {
    }
  }

  /** A delivered stretch is recorded up to its end, wherever the record stood, without conflict. */
  lemma {:induction false} IngestStretch(w: World, t: TransferId, batch: seq<Event>, i: nat, k: nat)
    requires Inv(w) && t in w.outboxes && k <= |batch|
    requires i <= |RecordedOf(w.tables, t)| && SliceAt(w.outboxes[t].events, batch, i)
    ensures var result := Ingest(w.tables, t, batch, k);
      && result.Some? && TablesAgree(result.value)
      && RecordedOf(result.value, t) == w.outboxes[t].events[..Max(|RecordedOf(w.tables, t)|, i + k)]
      && (forall u :: u != t ==> RecordedOf(result.value, u) == RecordedOf(w.tables, u))
  {
    hide AckedFrom, RecordedUpTo, Stretch;
    assert TransferOk(w, t);
    var events := w.outboxes[t].events;
    if k == 0 {
      assert events[..|RecordedOf(w.tables, t)|] == RecordedOf(w.tables, t);
    } else {
      IngestStretch(w, t, batch, i, k - 1);
      var before := Ingest(w.tables, t, batch, k - 1).value;
      forall u | u in w.outboxes
        ensures RecordedOf(before, u) <= w.outboxes[u].events
      {
        assert TransferOk(w, u);
      }
      assert batch[k - 1] == events[i + k - 1];
      IngestNext(w, before, t, i + k - 1);
    }
  }

  lemma DeliverKeeps(w: World, w': World, t: TransferId, batch: seq<Event>)
    requires Inv(w) && DeliverStep(w, w', t, batch)
    ensures Inv(w') && Ingest(w.tables, t, batch, |batch|).Some?
  {
    hide AckedFrom, RecordedUpTo, Ingest, IdsUnique, TablesAgree;
    assert RequestOk(w, t, batch) && TransferOk(w, t);
    var events := w.outboxes[t].events;
    var i: nat :| SliceAt(events, batch, i) && i <= Acked(w.outboxes[t]) && i + |batch| <= |events|;
    IngestStretch(w, t, batch, i, |batch|);
    var recorded := RecordedOf(w.tables, t);
    assert recorded == events[..|recorded|];
    forall u
      ensures RecordedOf(w.tables, u) <= RecordedOf(w'.tables, u)
      ensures u in w.outboxes ==> TransferOk(w', u)
    {
      if u in w.outboxes {
        assert TransferOk(w, u);
      }
    }
    MessagesStay(w, w');
    assert Stretch(events, batch, Acked(w.outboxes[t]), |RecordedOf(w'.tables, t)|);
    assert ReplyOk(w', t, Ids(batch));
  }

  // ---- Acknowledging ----

  /** Acknowledging a stretch that starts in the synced prefix extends that prefix. */
  lemma AcknowledgeStretch(w: World, t: TransferId, batch: seq<Event>, i: nat)
    requires IdsUnique(w.outboxes) && t in w.outboxes && Prefixed(w.outboxes[t])
    requires i <= Acked(w.outboxes[t]) && SliceAt(w.outboxes[t].events, batch, i)
    ensures var local' := Acknowledged(w.outboxes[t], Ids(batch));
      && Prefixed(local') && Acked(local') == Max(Acked(w.outboxes[t]), i + |batch|)
  {
    var local := w.outboxes[t];
    var ids := Ids(batch);
    var local' := Acknowledged(local, ids);
    assert forall k :: 0 <= k < |ids| ==> ids[k] == local.events[i + k].id;
    forall j | 0 <= j < |local.events|
      ensures local.events[j].id in ids <==> i <= j < i + |batch|
    {
      if i <= j < i + |batch| {
        assert ids[j - i] == local.events[j].id;
      }
    }
    AckedIs(local'.synced, 0, Max(Acked(local), i + |batch|));
  }

  lemma AcknowledgeKeeps(w: World, w': World, t: TransferId, ids: seq<EventId>)
    requires Inv(w) && AcknowledgeStep(w, w', t, ids)
    ensures Inv(w')
  {
    hide AckedFrom, RecordedUpTo, IdsUnique, TablesAgree;
    SameEventsUnique(w.outboxes, w'.outboxes);
    assert ReplyOk(w, t, ids) && TransferOk(w, t);
    var events := w.outboxes[t].events;
    var batch :| ids == Ids(batch) && Stretch(events, batch, Acked(w.outboxes[t]), |RecordedOf(w.tables, t)|);
    var i: nat :| SliceAt(events, batch, i) && i <= Acked(w.outboxes[t]) && i + |batch| <= |RecordedOf(w.tables, t)|;
    AcknowledgeStretch(w, t, batch, i);
    forall u | u in w.outboxes
      ensures OutboxGrew(w.outboxes[u], w'.outboxes[u]) && TransferOk(w', u)
    {
      assert TransferOk(w, u);
    }
    MessagesStay(w, w');
  }

  // ---- Runs ----

  lemma StepKeeps(w: World, w': World)
    requires Inv(w) && Step(w, w')
    ensures Inv(w')
  {
    hide Inv, RecordStep, SendStep, DeliverStep, AcknowledgeStep;
    if t, event :| RecordStep(w, w', t, event) {
      RecordKeeps(w, w', t, event);
    } else if t :| SendStep(w, w', t) {
      SendKeeps(w, w', t);
    } else if t, batch :| DeliverStep(w, w', t, batch) {
      DeliverKeeps(w, w', t, batch);
    } else {
      var t, ids :| AcknowledgeStep(w, w', t, ids);
      AcknowledgeKeeps(w, w', t, ids);
    }
  }

  lemma InitInv(w: World)
    requires Init(w)
    ensures Inv(w)
  {
    forall t | t in w.outboxes
      ensures TransferOk(w, t)
    {
      AckedIs([], 0, 0);
    }
  }

  ghost predicate StepAt(trace: seq<World>, i: nat)
    requires i + 1 < |trace|
  {
    Step(trace[i], trace[i + 1])
  }

  ghost predicate Run(trace: seq<World>) {
    0 < |trace| && Init(trace[0]) && forall i :: 0 <= i < |trace| - 1 ==> StepAt(trace, i)
  }

  lemma {:induction false} RunInv(trace: seq<World>, k: nat)
    requires Run(trace) && k < |trace|
    ensures Inv(trace[k])
  {
    hide Inv, Step;
    if k == 0 {
      InitInv(trace[0]);
    } else {
      RunInv(trace, k - 1);
      assert StepAt(trace, k - 1);
      StepKeeps(trace[k - 1], trace[k]);
    }
  }

  /** At every moment of every run: what a transfer has acknowledged is a prefix of what the
      Registry recorded for it, which is a prefix of its own events and holds none twice. */
  lemma ExactlyOnceInOrder(trace: seq<World>, k: nat, t: TransferId)
    requires Run(trace) && k < |trace| && t in trace[k].outboxes
    ensures var local := trace[k].outboxes[t];
      var recorded := RecordedOf(trace[k].tables, t);
      && Prefixed(local)
      && local.events[..Acked(local)] <= recorded <= local.events
      && (forall i, j :: 0 <= i < j < |recorded| ==> recorded[i].id != recorded[j].id)
  {
    RunInv(trace, k);
    assert TransferOk(trace[k], t);
  }

  /** No batch that Courier sends is ever refused as a conflict. */
  lemma NeverRefused(trace: seq<World>, k: nat, t: TransferId, batch: seq<Event>)
    requires Run(trace) && k < |trace| && (t, batch) in trace[k].requests
    ensures Ingest(trace[k].tables, t, batch, |batch|).Some?
  {
    RunInv(trace, k);
    var w := trace[k];
    var result := Ingest(w.tables, t, batch, |batch|);
    if result.Some? {
    } else {
      DeliverKeeps(w, w, t, batch);
    }
  }
}
