/** The durable event outbox: at-least-once sends that the Registry records once and in order. */
module Outbox {
  import opened Common

  type TransferId = nat
  type EventId = nat

  datatype Event = Event(id: EventId, payload: string)

  const BATCH_LIMIT: nat := 100

  // ---- The Registry's side ----

  /** The event table, by event id, and the audit log, in recording order. */
  datatype Tables = Tables(known: map<EventId, (TransferId, Event)>, log: seq<(TransferId, Event)>)

  /** Recording the first `k` events of a batch; nothing when one of them conflicts. */
  function Ingest(tables: Tables, transfer: TransferId, batch: seq<Event>, k: nat): Option<Tables>
    requires k <= |batch|
  {
    if k == 0 then Some(tables)
    else
      var before := Ingest(tables, transfer, batch, k - 1);
      if before.None? then None else IngestOne(before.value, transfer, batch[k - 1])
  }

  function IngestOne(tables: Tables, transfer: TransferId, event: Event): Option<Tables> {
    if event.id !in tables.known then
      Some(Tables(tables.known[event.id := (transfer, event)], tables.log + [(transfer, event)]))
    else if tables.known[event.id] == (transfer, event) then Some(tables)
    else None
  }

  function Ids(events: seq<Event>): (ids: seq<EventId>)
    ensures |ids| == |events|
    ensures forall i :: 0 <= i < |ids| ==> ids[i] == events[i].id
  {
    seq(|events|, i requires 0 <= i < |events| => events[i].id)
  }

  lemma {:induction false} IngestStops(tables: Tables, transfer: TransferId, batch: seq<Event>, j: nat, k: nat)
    requires j <= k <= |batch| && Ingest(tables, transfer, batch, j).None?
    ensures Ingest(tables, transfer, batch, k).None?
    decreases k - j
  {
    if j == k {
    } else {
      IngestStops(tables, transfer, batch, j, k - 1);
    }
  }

  class EventTables {
    var known: map<EventId, (TransferId, Event)>
    var log: seq<(TransferId, Event)>

    function Abs(): Tables
      reads this
    {
      Tables(known, log)
    }

    constructor ()
      ensures Abs() == Tables(map[], [])
    {
      known, log := map[], [];
    }

    /** Records a batch in one transaction. Either every event is now recorded, new ones in
        order, and all are acknowledged, or the tables are as they were. */
    method IngestEvents(transfer: TransferId, batch: seq<Event>) returns (acknowledged: Option<seq<EventId>>)
      modifies this
      ensures var result := Ingest(old(Abs()), transfer, batch, |batch|);
        if 1 <= |batch| <= BATCH_LIMIT && result.Some? then
          acknowledged == Some(Ids(batch)) && Abs() == result.value
        else
          acknowledged == None && Abs() == old(Abs())
    {
      if !(1 <= |batch| <= BATCH_LIMIT) {
        return None;
      }
      var startKnown, startLog := known, log;
      var ids: seq<EventId> := [];
      var k := 0;
      while k < |batch|
        invariant 0 <= k <= |batch| && ids == Ids(batch)[..k]
        invariant Ingest(Tables(startKnown, startLog), transfer, batch, k) == Some(Abs())
      {
        var event := batch[k];
        if event.id in known {
          if known[event.id] != (transfer, event) {
            assert Ingest(Tables(startKnown, startLog), transfer, batch, k + 1) == None;
            IngestStops(Tables(startKnown, startLog), transfer, batch, k + 1, |batch|);
            known, log := startKnown, startLog;
            return None;
          }
        } else {
          known, log := known[event.id := (transfer, event)], log + [(transfer, event)];
        }
        ids := ids + [event.id];
        k := k + 1;
      }
      assert Ids(batch)[..k] == Ids(batch);
      return Some(ids);
    }
  }

  // ---- The client's side ----

  /** One transfer's events in sequence order, and which of them are marked synced. */
  datatype LocalEvents = LocalEvents(events: seq<Event>, synced: seq<bool>)
  {
    ghost predicate Valid() {
      |events| == |synced|
    }
  }

  /** The unsynced events from position `i` on, at most `limit` of them. */
  function PendingFrom(local: LocalEvents, i: nat, limit: nat): seq<Event>
    requires local.Valid() && i <= |local.events|
    decreases |local.events| - i
  {
    if i == |local.events| || limit == 0 then []
    else if local.synced[i] then PendingFrom(local, i + 1, limit)
    else [local.events[i]] + PendingFrom(local, i + 1, limit - 1)
  }

  function Pending(local: LocalEvents): seq<Event>
    requires local.Valid()
  {
    PendingFrom(local, 0, BATCH_LIMIT)
  }

  /** A batch that is not full leaves no unsynced event out. */
  lemma {:induction false} PendingComplete(local: LocalEvents, i: nat, limit: nat)
    requires local.Valid() && i <= |local.events|
    ensures |PendingFrom(local, i, limit)| <= limit
    ensures |PendingFrom(local, i, limit)| < limit ==>
      forall j :: i <= j < |local.events| && !local.synced[j] ==> local.events[j] in PendingFrom(local, i, limit)
    decreases |local.events| - i
  {
    if i == |local.events| || limit == 0 {
      assert PendingFrom(local, i, limit) == [];
    } else if local.synced[i] {
      PendingComplete(local, i + 1, limit);
    } else {
      PendingComplete(local, i + 1, limit - 1);
    }
  }

  function Acknowledged(local: LocalEvents, ids: seq<EventId>): LocalEvents
    requires local.Valid()
  {
    local.(synced := seq(|local.events|, i requires 0 <= i < |local.events| => local.synced[i] || local.events[i].id in ids))
  }

  function WithEvent(local: LocalEvents, event: Event): LocalEvents {
    LocalEvents(local.events + [event], local.synced + [false])
  }

  class OutboxStore {
    var events: seq<Event>
    var synced: seq<bool>

    function Abs(): LocalEvents
      reads this
    {
      LocalEvents(events, synced)
    }

    constructor ()
      ensures Abs() == LocalEvents([], [])
    {
      events, synced := [], [];
    }

    method RecordTransferEvent(event: Event)
      modifies this
      ensures Abs() == WithEvent(old(Abs()), event)
    {
      events, synced := events + [event], synced + [false];
    }

    method PendingTransferEvents() returns (batch: seq<Event>)
      requires Abs().Valid()
      ensures batch == Pending(Abs()) && |batch| <= 100
      ensures |batch| < 100 ==> forall i :: 0 <= i < |events| && !synced[i] ==> events[i] in batch
    {
      PendingComplete(Abs(), 0, BATCH_LIMIT);
      batch := [];
      var i := 0;
      while i < |events| && |batch| < BATCH_LIMIT
        invariant 0 <= i <= |events| && |batch| <= BATCH_LIMIT
        invariant Pending(Abs()) == batch + PendingFrom(Abs(), i, BATCH_LIMIT - |batch|)
      {
        if !synced[i] {
          batch := batch + [events[i]];
        }
        i := i + 1;
      }
    }

    method AcknowledgeTransferEvents(ids: seq<EventId>)
      requires Abs().Valid()
      modifies this
      ensures Abs() == Acknowledged(old(Abs()), ids)
    {
      ghost var before := Abs();
      var k := 0;
      while k < |ids|
        invariant 0 <= k <= |ids| && events == before.events && |synced| == |events|
        invariant forall i :: 0 <= i < |events| ==> (synced[i] <==> before.synced[i] || events[i].id in ids[..k])
      {
        assert ids[..k + 1] == ids[..k] + [ids[k]];
        synced := seq(|synced|, i requires 0 <= i < |synced| && |synced| == |events| reads this =>
          synced[i] || events[i].id == ids[k]);
        k := k + 1;
      }
      assert ids[..k] == ids;
    }

    /** Sends one batch. Without a matching reply nothing is marked, and the whole batch goes out
        again next time. */
    method SyncTransferEvents(registry: EventTables, transfer: TransferId) returns (sent: Option<nat>)
      requires Abs().Valid()
      modifies this, registry
      ensures registry.Abs() == old(registry.Abs())
           || Some(registry.Abs()) == Ingest(old(registry.Abs()), transfer, Pending(old(Abs())), |Pending(old(Abs()))|)
      ensures sent.Some? ==>
        && sent.value == |Pending(old(Abs()))|
        && Abs() == Acknowledged(old(Abs()), Ids(Pending(old(Abs()))))
        && Some(registry.Abs()) == Ingest(old(registry.Abs()), transfer, Pending(old(Abs())), |Pending(old(Abs()))|)
      ensures sent.None? ==> Abs() == old(Abs())
    {
      var batch := PendingTransferEvents();
      if batch == [] {
        NothingAcknowledged(Abs());
        return Some(0);
      }
      var delivered: bool, heard: bool := *, *;
      if !delivered {
        return None;
      }
      var reply := registry.IngestEvents(transfer, batch);
      if !heard || reply.None? || reply.value != Ids(batch) {
        return None;
      }
      AcknowledgeTransferEvents(reply.value);
      return Some(|reply.value|);
    }
  }

  lemma NothingAcknowledged(local: LocalEvents)
    requires local.Valid()
    ensures Acknowledged(local, []) == local
  {
  }
}
