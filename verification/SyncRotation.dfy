/** The rotation that picks, every few seconds, which transfers' pending events to send. */
module SyncRotation {
  import opened Common

  type TransferId = nat

  const BATCH: nat := 20

  /** Ids come from the primary key in ascending order. */
  ghost predicate Ascending(ids: seq<TransferId>) {
    forall i, j :: 0 <= i < j < |ids| ==> ids[i] < ids[j]
  }

  predicate Follows(after: Option<TransferId>, id: TransferId) {
    after.None? || after.value < id
  }

  /** How many of the first `n` ids the cursor has passed. */
  function Passed(ids: seq<TransferId>, after: Option<TransferId>, n: nat): (p: nat)
    requires n <= |ids|
    ensures p <= n
  {
    if n == 0 then 0
    else Passed(ids, after, n - 1) + if Follows(after, ids[n - 1]) then 0 else 1
  }

  function Position(ids: seq<TransferId>, after: Option<TransferId>): (p: nat)
    ensures p <= |ids|
  {
    Passed(ids, after, |ids|)
  }

  /** The passed ids come first. */
  lemma {:induction false} PassedSplits(ids: seq<TransferId>, after: Option<TransferId>, n: nat)
    requires n <= |ids| && Ascending(ids)
    ensures forall i :: 0 <= i < n ==> (Follows(after, ids[i]) <==> Passed(ids, after, n) <= i)
  {
    if n == 0 {
    } else {
      PassedSplits(ids, after, n - 1);
      if 1 < n {
        assert ids[n - 2] < ids[n - 1];
      }
    }
  }

  /** At most `BATCH` pending ids behind the cursor, lowest first. */
  ghost predicate IsBatch(pending: seq<TransferId>, after: Option<TransferId>, batch: seq<TransferId>) {
    var p := Position(pending, after);
    batch == pending[p..Min(p + BATCH, |pending|)]
  }

  /** The indexed query over transfers that have unsynced events. */
  method TransfersWithPendingEvents(pending: seq<TransferId>, after: Option<TransferId>)
    returns (batch: seq<TransferId>)
    requires Ascending(pending)
    ensures IsBatch(pending, after, batch)
  {
    PassedSplits(pending, after, |pending|);
    ghost var p := Position(pending, after);
    batch := [];
    var i := 0;
    while i < |pending| && |batch| < BATCH
      invariant 0 <= i <= |pending| && |batch| <= BATCH
      invariant batch == if i <= p then [] else pending[p..i]
    {
      if Follows(after, pending[i]) {
        batch := batch + [pending[i]];
      }
      i := i + 1;
    }
  }

  /** One successful round: which transfers it visits and the cursor it leaves. */
  ghost predicate Round(pending: seq<TransferId>, after: Option<TransferId>,
                        visited: seq<TransferId>, next: Option<TransferId>) {
    && (exists batch :: IsBatch(pending, after, batch)
          && if batch == [] && after.Some? then IsBatch(pending, None, visited) else visited == batch)
    && next == if visited == [] then None else Some(visited[|visited| - 1])
  }

  method SyncPendingTransferEvents(pending: seq<TransferId>, after: Option<TransferId>)
    returns (visited: seq<TransferId>, next: Option<TransferId>)
    requires Ascending(pending)
    ensures Round(pending, after, visited, next)
  {
    visited := TransfersWithPendingEvents(pending, after);
    ghost var batch := visited;
    if visited == [] && after.Some? {
      visited := TransfersWithPendingEvents(pending, None);
    }
    next := if visited == [] then None else Some(visited[|visited| - 1]);
  }

  /** The rounds of one run: what was pending, where the cursor stood, what was visited. */
  datatype Rounds = Rounds(pending: seq<seq<TransferId>>, cursor: seq<Option<TransferId>>, visited: seq<seq<TransferId>>)
  {
    ghost predicate Valid() {
      && |cursor| == |pending| + 1 && |visited| == |pending|
      && (forall r :: 0 <= r < |pending| ==> Ascending(pending[r]))
      && (forall r :: 0 <= r < |pending| ==> Round(pending[r], cursor[r], visited[r], cursor[r + 1]))
    }
  }

  // ---- A fixed set of pending transfers ----

  /** The round, counted from a cursor at position `p`, that visits position `q` of `n`. */
  function Wait(n: nat, p: nat, q: nat): nat
    requires p <= n && q < n
  {
    if p <= q then (q - p) / BATCH else (n - p + BATCH - 1) / BATCH + q / BATCH
  }

  lemma PositionOf(ids: seq<TransferId>, after: Option<TransferId>, i: nat)
    requires Ascending(ids) && i < |ids|
    ensures after == Some(ids[i]) ==> Position(ids, after) == i + 1
    ensures after == None ==> Position(ids, after) == 0
  {
    PassedSplits(ids, after, |ids|);
    var p := Position(ids, after);
    if after == Some(ids[i]) && i + 1 < |ids| {
      assert Follows(after, ids[i + 1]);
    }
    assert after == None ==> Follows(after, ids[0]);
  }

  /** One round with the set `ids` pending: the cursor's position moves on by a batch. */
  lemma RoundMoves(ids: seq<TransferId>, after: Option<TransferId>, visited: seq<TransferId>, next: Option<TransferId>)
    requires Ascending(ids) && 0 < |ids| && Round(ids, after, visited, next)
    ensures var p := Position(ids, after);
      var start := if p == |ids| then 0 else p;
      && Position(ids, next) == Min(start + BATCH, |ids|)
      && visited == ids[start..Position(ids, next)]
  {
    var p := Position(ids, after);
    PositionOf(ids, None, 0);
    var start := if p == |ids| then 0 else p;
    if after == None {
      assert p == 0;
    }
    assert visited == ids[start..Min(start + BATCH, |ids|)];
    PositionOf(ids, next, Min(start + BATCH, |ids|) - 1);
  }

  /** A round that leaves position `q` out shortens its wait by one. */
  lemma WaitShrinks(n: nat, p: nat, p': nat, q: nat)
    requires p <= n && q < n
    requires var start := if p == n then 0 else p; p' == Min(start + BATCH, n) && !(start <= q < p')
    ensures Wait(n, p', q) == Wait(n, p, q) - 1
  {
  }

  lemma WaitOver(n: nat, p: nat, q: nat)
    requires p <= n && q < n
    requires var start := if p == n then 0 else p; start <= q < start + BATCH
    ensures Wait(n, p, q) == 0
  {
  }

  lemma RoundAt(run: Rounds, ids: seq<TransferId>, r: nat)
    requires run.Valid() && Ascending(ids) && 0 < |ids| && r < |run.pending|
    requires forall k :: 0 <= k < |run.pending| ==> run.pending[k] == ids
    ensures |run.cursor| == |run.pending| + 1 == |run.visited| + 1
    ensures var p, next := Position(ids, run.cursor[r]), Position(ids, run.cursor[r + 1]);
      var start := if p == |ids| then 0 else p;
      && next == Min(start + BATCH, |ids|) <= start + BATCH
      && run.visited[r] == ids[start..next]
  {
    assert Round(run.pending[r], run.cursor[r], run.visited[r], run.cursor[r + 1]);
    RoundMoves(ids, run.cursor[r], run.visited[r], run.cursor[r + 1]);
    hide Round, Position, Ascending;
  }

  lemma {:induction false} VisitedAfterWait(run: Rounds, ids: seq<TransferId>, r: nat, q: nat)
    requires run.Valid() && Ascending(ids) && q < |ids|
    requires forall k :: 0 <= k < |run.pending| ==> run.pending[k] == ids
    requires r < |run.cursor| && r + Wait(|ids|, Position(ids, run.cursor[r]), q) < |run.pending|
    ensures ids[q] in run.visited[r + Wait(|ids|, Position(ids, run.cursor[r]), q)]
    decreases Wait(|ids|, Position(ids, run.cursor[r]), q)
  {
    hide *;
    var p := Position(ids, run.cursor[r]);
    RoundAt(run, ids, r);
    var start := if p == |ids| then 0 else p;
    var p' := Position(ids, run.cursor[r + 1]);
    if start <= q < p' {
      WaitOver(|ids|, p, q);
      assert run.visited[r][q - start] == ids[q];
    } else {
      WaitShrinks(|ids|, p, p', q);
      VisitedAfterWait(run, ids, r + 1, q);
    }
  }

  /** From any cursor, one full rotation visits every one of `n` pending transfers. */
  lemma RotationIsFair(run: Rounds, ids: seq<TransferId>, id: TransferId)
    requires run.Valid() && Ascending(ids) && id in ids
    requires forall k :: 0 <= k < |run.pending| ==> run.pending[k] == ids
    requires (|ids| + BATCH - 1) / BATCH + 1 <= |run.pending|
    ensures exists r :: 0 <= r < (|ids| + BATCH - 1) / BATCH + 1 && id in run.visited[r]
  {
    var q :| 0 <= q < |ids| && ids[q] == id;
    var wait := Wait(|ids|, Position(ids, run.cursor[0]), q);
    assert wait < (|ids| + BATCH - 1) / BATCH + 1;
    VisitedAfterWait(run, ids, 0, q);
  }

  // ---- Transfers that come and go ----

  /** Only the transfers `all` ever have pending events. */
  ghost predicate Among(all: seq<TransferId>, pending: seq<TransferId>) {
    forall i :: 0 <= i < |pending| ==> pending[i] in all
  }

  /** Each id passed by an ascending walk through `all` moves the position on by one at least. */
  lemma {:induction false} WalkAdvances(all: seq<TransferId>, after: Option<TransferId>, walk: seq<TransferId>, k: nat)
    requires Ascending(all) && Ascending(walk) && Among(all, walk) && k < |walk|
    requires Follows(after, walk[0])
    ensures Position(all, after) + k + 1 <= Position(all, Some(walk[k]))
  {
    var before := if k == 0 then after else Some(walk[k - 1]);
    if 0 < k {
      WalkAdvances(all, after, walk, k - 1);
    }
    var i :| 0 <= i < |all| && all[i] == walk[k];
    PositionOf(all, Some(walk[k]), i);
    PassedSplits(all, before, |all|);
    assert Follows(before, all[i]);
  }

  /** A bound on the rounds that can pass before position `q` of `n` is visited. */
  function LongestWait(n: nat, p: nat, q: nat): nat
    requires p <= n && q < n
  {
    if p <= q then (q - p) / BATCH else n - p + q / BATCH
  }

  lemma BatchParts(pending: seq<TransferId>, after: Option<TransferId>, batch: seq<TransferId>)
    requires Ascending(pending) && IsBatch(pending, after, batch)
    ensures Ascending(batch)
    ensures forall x :: x in batch ==> x in pending
    ensures batch != [] ==> Follows(after, batch[0])
    ensures forall x :: x in pending && Follows(after, x) && x !in batch ==>
      |batch| == BATCH && batch[BATCH - 1] < x
    ensures batch == [] ==> forall x :: x in pending ==> !Follows(after, x)
  {
    PassedSplits(pending, after, |pending|);
    var p := Position(pending, after);
    assert forall k :: p <= k < Min(p + BATCH, |pending|) ==> pending[k] == batch[k - p];
  }

  /** What one round does when other transfers may have come or gone: it goes on from the
      cursor or, when nothing is left there, from the start. */
  lemma RoundParts(pending: seq<TransferId>, after: Option<TransferId>, visited: seq<TransferId>,
                   next: Option<TransferId>, x: TransferId) returns (from: Option<TransferId>)
    requires Ascending(pending) && x in pending && x !in visited && Round(pending, after, visited, next)
    ensures from == after || (from == None && !Follows(after, x))
    ensures visited != [] && Ascending(visited) && Follows(from, visited[0])
    ensures forall y :: y in visited ==> y in pending
    ensures next == Some(visited[|visited| - 1])
    ensures Follows(from, x) ==> |visited| == BATCH && Follows(next, x)
  {
    var batch :| IsBatch(pending, after, batch)
      && if batch == [] && after.Some? then IsBatch(pending, None, visited) else visited == batch;
    BatchParts(pending, after, batch);
    from := if batch == [] then None else after;
    hide IsBatch;
    if from != after || batch == [] {
      BatchParts(pending, None, visited);
    }
  }

  lemma AmongInherited(all: seq<TransferId>, pending: seq<TransferId>, visited: seq<TransferId>)
    requires Among(all, pending) && forall y :: y in visited ==> y in pending
    ensures Among(all, visited)
  {
    forall i | 0 <= i < |visited|
      ensures visited[i] in all
    {
      assert visited[i] in pending;
      var j :| 0 <= j < |pending| && pending[j] == visited[i];
      assert pending[j] in all;
    }
  }

  /** A round that does not visit a pending transfer brings it nearer. */
  lemma MissedComesNearer(all: seq<TransferId>, pending: seq<TransferId>, after: Option<TransferId>,
                          visited: seq<TransferId>, next: Option<TransferId>, q: nat)
    requires Ascending(all) && Ascending(pending) && Among(all, pending) && q < |all|
    requires all[q] in pending && all[q] !in visited
    requires Round(pending, after, visited, next)
    ensures LongestWait(|all|, Position(all, next), q) < LongestWait(|all|, Position(all, after), q)
  {
    var from := RoundParts(pending, after, visited, next, all[q]);
    hide Round, IsBatch, Passed;
    AmongInherited(all, pending, visited);
    WalkAdvances(all, from, visited, |visited| - 1);
    hide Position;
    PositionOf(all, None, 0);
    Splits(all, after, q);
    Splits(all, from, q);
    Splits(all, next, q);
  }

  lemma Splits(ids: seq<TransferId>, after: Option<TransferId>, q: nat)
    requires Ascending(ids) && q < |ids|
    ensures Follows(after, ids[q]) <==> Position(ids, after) <= q
  {
    PassedSplits(ids, after, |ids|);
  }

  lemma {:induction false} VisitedWithinWait(run: Rounds, all: seq<TransferId>, r: nat, q: nat)
    requires run.Valid() && Ascending(all) && q < |all|
    requires forall k :: 0 <= k < |run.pending| ==> Among(all, run.pending[k]) && all[q] in run.pending[k]
    requires r < |run.cursor| && r + LongestWait(|all|, Position(all, run.cursor[r]), q) < |run.pending|
    ensures exists k :: r <= k <= r + LongestWait(|all|, Position(all, run.cursor[r]), q) && all[q] in run.visited[k]
    decreases LongestWait(|all|, Position(all, run.cursor[r]), q)
  {
    if all[q] !in run.visited[r] {
      MissedComesNearer(all, run.pending[r], run.cursor[r], run.visited[r], run.cursor[r + 1], q);
      VisitedWithinWait(run, all, r + 1, q);
    }
  }

  /** However the other transfers come and go, one of `n` transfers that stays pending is
      visited within `n` rounds. */
  lemma NoTransferStarves(run: Rounds, all: seq<TransferId>, id: TransferId)
    requires run.Valid() && Ascending(all) && id in all
    requires forall k :: 0 <= k < |run.pending| ==> Among(all, run.pending[k]) && id in run.pending[k]
    requires |all| <= |run.pending|
    ensures exists r :: 0 <= r < |all| && id in run.visited[r]
  {
    var q :| 0 <= q < |all| && all[q] == id;
    VisitedWithinWait(run, all, 0, q);
  }
}
