/** Listings of any length: exactly when a fresh plan is safe if a later listing may show more
    parts than an earlier one. */
module PageGrowth {
  import opened Common
  import opened Planner
  import opened Replan
  import opened UploadProtocol

  // ---- Runs in which a listing may grow ----

  /** A later listing may show fewer parts or more. */
  ghost predicate AnyPageStep(w: World, w': World) {
    w' == w.(pageLimit := w'.pageLimit)
  }

  /** The listing passes reconciliation's check when it gives the sizes of the parts in `sized`. */
  ghost predicate ListingPasses(w: World, sized: set<nat>)
    requires w.Open()
  {
    && ListingPlanned(w.rows, w.Remote(), w.pageLimit)
    && forall i :: 0 <= i < |w.rows| && w.rows[i].partNumber in sized && Listed(w.Remote(), w.pageLimit, w.rows[i].partNumber) ==>
         |w.Remote()[w.rows[i].partNumber].bytes| == w.rows[i].sourceLength
  }

  ghost predicate CheckedReconcileStep(w: World, w': World, sized: set<nat>) {
    ReconcileStep(w, w') && ListingPasses(w, sized)
  }

  ghost predicate GrowingStep(s: Setup, w: World, w': World) {
    || Moves(s, w, w')
    || (exists sized :: CheckedReconcileStep(w, w', sized))
    || AnyPageStep(w, w')
  }

  ghost predicate GrowingStepAt(s: Setup, trace: seq<World>, i: nat)
    requires i + 1 < |trace|
  {
    GrowingStep(s, trace[i], trace[i + 1])
  }

  ghost predicate GrowingRun(s: Setup, trace: seq<World>) {
    0 < |trace| && forall i :: 0 <= i < |trace| - 1 ==> GrowingStepAt(s, trace, i)
  }

  ghost predicate Safe(s: Setup, w: World) {
    w.published.Some? ==> w.published.value == s.source
  }

  /** Whatever each listing shows, an upload that starts with these rows publishes the source or nothing. */
  ghost predicate AlwaysSafe(s: Setup, rows: seq<PartRecord>) {
    forall trace: seq<World> :: GrowingRun(s, trace) && Init(s, trace[0]) && trace[0].rows == rows ==>
      Safe(s, trace[|trace| - 1])
  }

  // ---- The condition ----

  predicate OverTarget(rows: seq<PartRecord>, p: nat) {
    exists i :: p <= i < |rows| && rows[i].sourceLength > DEFAULT_LIMITS.targetPartSize
  }

  /** Cutting everything after the first `p` parts again leaves every range as it is. */
  ghost predicate RecutKeeps(rows: seq<PartRecord>, fileId: FileId, fileSize: u64, p: nat)
    requires p < |rows|
  {
    && p <= DEFAULT_LIMITS.maximumParts && rows[p].sourceOffset <= fileSize
    && var r := PlanParts(fileId, fileSize - rows[p].sourceOffset, TailLimits(p));
    r.Success? && SameTail(rows, p, r.value)
  }

  ghost predicate SameTail(rows: seq<PartRecord>, p: nat, tail: seq<PartRecord>) {
    && |rows| == p + |tail|
    && forall j :: 0 <= j < |tail| ==> tail[j].sourceLength == rows[p + j].sourceLength
  }

  /** So does every re-cut that a number of confirmed parts can ask for. */
  ghost predicate RecutsKeep(rows: seq<PartRecord>, fileId: FileId, fileSize: u64) {
    forall p: nat :: p < |rows| && OverTarget(rows, p) ==> RecutKeeps(rows, fileId, fileSize, p)
  }

  /** Plans of equal lengths have equal ranges. */
  ghost predicate SameLengths(a: seq<PartRecord>, b: seq<PartRecord>) {
    |a| == |b| && forall i :: 0 <= i < |a| ==> a[i].sourceLength == b[i].sourceLength
  }

  lemma {:induction false} SameOffset(a: seq<PartRecord>, b: seq<PartRecord>, k: nat, size: nat)
    requires Covers(a, 0, size) && Covers(b, 0, size) && k < |a| && k < |b|
    requires forall i :: 0 <= i < k ==> a[i].sourceLength == b[i].sourceLength
    ensures a[k].sourceOffset == b[k].sourceOffset
  {
    if k == 0 {
      assert a[0].sourceOffset == 0 == b[0].sourceOffset;
    } else {
      SameOffset(a, b, k - 1, size);
      assert Adjacent(a, k - 1) && Adjacent(b, k - 1);
    }
  }

  lemma SameLengthsSameRanges(a: seq<PartRecord>, b: seq<PartRecord>, fileId: FileId, size: nat)
    requires Numbered(a, fileId, 0) && Numbered(b, fileId, 0) && Covers(a, 0, size) && Covers(b, 0, size)
    requires SameLengths(a, b)
    ensures SameRanges(a, b)
  {
    forall i | 0 <= i < |a|
      ensures SameRange(a[i], b[i])
    {
      SameOffset(a, b, i, size);
    }
  }

  /** A re-cut after `p` confirmed parts keeps the lengths exactly when it keeps the tail's. */
  lemma RecutLengths(rows: seq<PartRecord>, done: seq<PartRecord>, fileId: FileId, fileSize: u64, later: seq<PartRecord>)
    requires PlanOk(done, fileId, fileSize, DEFAULT_LIMITS) && SameRanges(rows, done)
    requires NeedsReplan(done) && IsReplan(done, fileId, fileSize, later)
    ensures ConfirmedPrefix(done) < |rows| && OverTarget(rows, ConfirmedPrefix(done))
    ensures SameLengths(done, later) <==> RecutKeeps(rows, fileId, fileSize, ConfirmedPrefix(done))
  {
    NeedsReplanInside(done, fileId, fileSize);
    hide PlanParts, PlanOk, Covers, NeedsReplan, ConfirmedPrefix, TailPlan;
    var p := ConfirmedPrefix(done);
    var tail := TailPlan(done, fileId, fileSize).value;
    assert SameRange(rows[p], done[p]);
    var big :| p <= big < |done| && done[big].sourceLength > DEFAULT_LIMITS.targetPartSize;
    assert SameRange(rows[big], done[big]);
    assert Joins(done, p, tail, later);
    hide Joins;
    JoinsLengths(rows, done, p, tail, later);
  }

  lemma JoinsLengths(rows: seq<PartRecord>, done: seq<PartRecord>, p: nat, tail: seq<PartRecord>, later: seq<PartRecord>)
    requires SameRanges(rows, done) && Joins(done, p, tail, later)
    ensures SameLengths(done, later) <==> SameTail(rows, p, tail)
  {
    forall i | p <= i < |later|
      ensures later[i].sourceLength == tail[i - p].sourceLength
    {
      assert IsShifted(tail[i - p], p, done[p].sourceOffset, later[i]);
    }
    forall i | 0 <= i < |done|
      ensures done[i].sourceLength == rows[i].sourceLength
    {
      assert SameRange(rows[i], done[i]);
    }
    if SameLengths(done, later) {
      forall j | 0 <= j < |tail|
        ensures tail[j].sourceLength == rows[p + j].sourceLength
      {
        assert done[p + j].sourceLength == later[p + j].sourceLength;
      }
    }
    if SameTail(rows, p, tail) {
      forall i | 0 <= i < |done|
        ensures done[i].sourceLength == later[i].sourceLength
      {
        assert p <= i ==> tail[i - p].sourceLength == rows[p + (i - p)].sourceLength;
      }
    }
  }

  // ---- When re-cuts keep the ranges, nothing goes wrong ----

  /** The world as it would be with a page that holds every part. */
  function FullPage(w: World): World {
    w.(pageLimit := MAXIMUM_PART_NUMBER)
  }

  /** Every accepted part matches the plan, listed or not, and the ranges are the first ones. */
  ghost predicate KeptInv(s: Setup, rows: seq<PartRecord>, w: World) {
    Inv(s, FullPage(w)) && SameRanges(rows, w.rows)
  }

  lemma AnyPageMatches(s: Setup, w: World, limit: nat)
    requires Inv(s, FullPage(w))
    ensures Inv(s, w.(pageLimit := limit))
  {
    hide PlanOk, CountBelow;
    var x := w.(pageLimit := limit);
    if x.Open() {
      forall n: nat | Listed(x.Remote(), limit, n)
        ensures 1 <= n <= |x.rows| && x.Remote()[n].bytes == Range(s.source, x.rows[n - 1])
      {
        assert FullPage(w).Remote() == x.Remote();
        FullListingMatches(s, FullPage(w), n);
      }
    }
  }

  lemma RangesChain(a: seq<PartRecord>, b: seq<PartRecord>, c: seq<PartRecord>)
    requires SameRanges(a, b) && SameRanges(b, c)
    ensures SameRanges(a, c)
  {
    forall i | 0 <= i < |a|
      ensures SameRange(a[i], c[i])
    {
      assert SameRange(a[i], b[i]) && SameRange(b[i], c[i]);
    }
  }

  /** Rows that keep their ranges and stay honest keep the invariant. */
  lemma KeptRows(s: Setup, rows: seq<PartRecord>, w: World, w': World)
    requires KeptInv(s, rows, w) && SameRanges(w.rows, w'.rows) && RowsHonest(s.source, w'.rows)
    requires w' == w.(rows := w'.rows, reply := w'.reply) && (w'.reply == w.reply || w'.reply == None)
    ensures KeptInv(s, rows, w')
  {
    hide Inv, SameRanges, RowsHonest;
    RowsKeep(s, FullPage(w), FullPage(w'));
    RangesChain(rows, w.rows, w'.rows);
  }

  lemma KeptReconcile(s: Setup, rows: seq<PartRecord>, w: World, w': World)
    requires KeptInv(s, rows, w) && ReconcileStep(w, w')
    ensures KeptInv(s, rows, w')
  {
    AnyPageMatches(s, w, w.pageLimit);
    assert w.(pageLimit := w.pageLimit) == w;
    ReconcileKeeps(s, w, w');
    assert RowsHonest(s.source, w'.rows);
    hide Inv, RowsHonest, KeptInv, SameRanges;
    KeptRows(s, rows, w, w');
  }

  lemma KeptReplan(s: Setup, rows: seq<PartRecord>, w: World, w': World)
    requires s.Valid() && RecutsKeep(rows, s.fileId, |s.source|) && KeptInv(s, rows, w) && ReplanStep(s, w, w')
    ensures KeptInv(s, rows, w')
  {
    assert PlanOk(w.rows, s.fileId, |s.source|, DEFAULT_LIMITS) && RowsHonest(s.source, w.rows);
    hide Inv, Range, RecutKeeps, SameRanges;
    ReplanCloses(w.rows, s.fileId, |s.source|, w'.rows);
    RecutLengths(rows, w.rows, s.fileId, |s.source|, w'.rows);
    SameLengthsSameRanges(w.rows, w'.rows, s.fileId, |s.source|);
    hide PlanOk, NeedsReplan, IsReplan, Uniform;
    forall i | 0 <= i < |w'.rows|
      ensures RowHonest(s.source, w'.rows[i])
    {
      if ConfirmedPrefix(w.rows) <= i {
        assert IsFresh(w'.rows[i]);
      } else {
        assert RowHonest(s.source, w.rows[i]);
      }
    }
    KeptRows(s, rows, w, w');
  }

  lemma KeptMove(s: Setup, rows: seq<PartRecord>, w: World, w': World)
    requires KeptInv(s, rows, w) && Moves(s, w, w') && !ReplanStep(s, w, w')
    ensures KeptInv(s, rows, w')
  {
    RangesStay(s, rows, w, w');
    hide Inv, Range, CompletionAccepted, SameRanges;
    var x, x' := FullPage(w), FullPage(w');
    if id :| BeginStep(w, w', id) {
      BeginBindKeep(s, x, x', id);
    } else if id :| BindStep(w, w', id) {
      BeginBindKeep(s, x, x', id);
    } else if n, etag, heard :| PutStep(s, w, w', n, etag, heard) {
      PutKeeps(s, x, x', n, etag, heard);
    } else if ConfirmStep(w, w') {
      ConfirmKeeps(s, x, x');
    } else if n :| FailStep(w, w', n) {
      FailKeeps(s, x, x', n);
    } else if CompleteStep(w, w') {
      SameCompletion(w, w');
      CompleteKeeps(s, x, x');
    } else if CrashStep(w, w') {
      CrashKeeps(s, x, x');
    }
  }

  lemma RangesStay(s: Setup, rows: seq<PartRecord>, w: World, w': World)
    requires SameRanges(rows, w.rows) && Moves(s, w, w') && !ReplanStep(s, w, w')
    ensures SameRanges(rows, w'.rows)
  {
    hide Range, ReplanStep, CompletionAccepted;
    forall i | 0 <= i < |rows|
      ensures |w'.rows| == |rows| && SameRange(rows[i], w'.rows[i])
    {
      assert SameRange(rows[i], w.rows[i]);
    }
  }

  lemma SameCompletion(w: World, w': World)
    requires CompleteStep(w, w')
    ensures CompleteStep(FullPage(w), FullPage(w'))
  {
  }

  lemma KeptStep(s: Setup, rows: seq<PartRecord>, w: World, w': World)
    requires s.Valid() && RecutsKeep(rows, s.fileId, |s.source|) && KeptInv(s, rows, w) && GrowingStep(s, w, w')
    ensures KeptInv(s, rows, w')
  {
    hide RecutsKeep, Inv, SameRanges, Moves, ReplanStep;
    if ReplanStep(s, w, w') {
      KeptReplan(s, rows, w, w');
    } else if Moves(s, w, w') {
      KeptMove(s, rows, w, w');
    } else if sized :| CheckedReconcileStep(w, w', sized) {
      KeptReconcile(s, rows, w, w');
    } else {
      assert FullPage(w') == FullPage(w);
    }
  }

  lemma {:induction false} KeptRun(s: Setup, trace: seq<World>, k: nat)
    requires GrowingRun(s, trace) && Init(s, trace[0]) && k < |trace|
    requires s.Valid() && RecutsKeep(trace[0].rows, s.fileId, |s.source|)
    ensures KeptInv(s, trace[0].rows, trace[k])
  {
    hide GrowingStep, RecutsKeep, Inv, Init;
    if k == 0 {
      StartsFull(s, trace[0]);
    } else {
      KeptRun(s, trace, k - 1);
      assert GrowingStepAt(s, trace, k - 1);
      KeptStep(s, trace[0].rows, trace[k - 1], trace[k]);
    }
  }

  lemma StartsFull(s: Setup, w: World)
    requires Init(s, w)
    ensures KeptInv(s, w.rows, w)
  {
    InitInv(s, FullPage(w));
    hide Inv, PlanOk;
  }

  lemma KeptIsSafe(s: Setup, rows: seq<PartRecord>)
    requires s.Valid() && RecutsKeep(rows, s.fileId, |s.source|)
    ensures AlwaysSafe(s, rows)
  {
    forall trace: seq<World> | GrowingRun(s, trace) && Init(s, trace[0]) && trace[0].rows == rows
      ensures Safe(s, trace[|trace| - 1])
    {
      hide GrowingRun, RecutsKeep, Init;
      KeptRun(s, trace, |trace| - 1);
    }
  }

  // ---- When a re-cut changes a range, something can go wrong ----

  ghost predicate GrowingReaches(s: Setup, w: World, w': World) {
    exists trace: seq<World> :: GrowingRun(s, trace) && trace[0] == w && trace[|trace| - 1] == w'
  }

  lemma GrowsSelf(s: Setup, w: World)
    ensures GrowingReaches(s, w, w)
  {
    assert GrowingRun(s, [w]);
  }

  lemma GrowsStep(s: Setup, w: World, w': World, w'': World)
    requires GrowingReaches(s, w, w') && GrowingStep(s, w', w'')
    ensures GrowingReaches(s, w, w'')
  {
    hide GrowingStep;
    var trace: seq<World> :| GrowingRun(s, trace) && trace[0] == w && trace[|trace| - 1] == w';
    var longer := trace + [w''];
    forall i | 0 <= i < |longer| - 1
      ensures GrowingStepAt(s, longer, i)
    {
      if i < |trace| - 1 {
        assert GrowingStepAt(s, trace, i);
      }
    }
    assert GrowingRun(s, longer) && longer[0] == w && longer[|longer| - 1] == w'';
  }

  /** What the store answers for a part. */
  function Sent(s: Setup, row: PartRecord): ETag {
    ETag(Range(s.source, row), 0)
  }

  function SentPart(s: Setup, rows: seq<PartRecord>, n: nat): ETag
    requires 1 <= n <= |rows|
  {
    Sent(s, rows[n - 1])
  }

  /** The first `k` parts of the first plan. */
  function OldParts(s: Setup, rows: seq<PartRecord>, k: nat): RemoteParts
    requires k <= |rows|
  {
    map n | 1 <= n <= k :: SentPart(s, rows, n)
  }

  function HeldPart(s: Setup, rows: seq<PartRecord>, later: seq<PartRecord>, n: nat, m: nat): ETag
    requires n <= |rows| && 1 <= m <= |later|
  {
    if m <= n then Sent(s, rows[m - 1]) else Sent(s, later[m - 1])
  }

  /** The first `n` parts of the first plan, and those from `n` to `k` of the later one. */
  function MixedParts(s: Setup, rows: seq<PartRecord>, later: seq<PartRecord>, n: nat, k: nat): RemoteParts
    requires n <= |rows| && k <= |later|
  {
    map m | 1 <= m <= k :: HeldPart(s, rows, later, n, m)
  }

  function Open(rows: seq<PartRecord>, parts: RemoteParts, page: nat): World {
    World(rows, Some(0), map[0 := parts], 1, None, None, page)
  }

  function Marked(row: PartRecord, etag: ETag): PartRecord {
    row.(status := Complete, etag := Some(etag))
  }

  /** The rows after a listing that shows the first `p` parts. */
  function Done(s: Setup, rows: seq<PartRecord>, p: nat): seq<PartRecord> {
    seq(|rows|, i requires 0 <= i < |rows| => if i < p then Marked(rows[i], Sent(s, rows[i])) else rows[i])
  }

  // -- Sending the old parts --

  lemma {:induction false} CountsUp(parts: RemoteParts, k: nat, m: nat)
    requires (forall n :: n in parts <==> 1 <= n <= k) && 1 <= m <= k + 1
    ensures CountBelow(parts, m) == m - 1
  {
    if m == 1 {
      assert CountBelow(parts, 0) == 0;
    } else {
      CountsUp(parts, k, m - 1);
    }
  }

  /** A page of `page` parts shows the first ones. */
  lemma ShowsFirst(parts: RemoteParts, k: nat, page: nat)
    requires forall n :: n in parts <==> 1 <= n <= k
    ensures forall n: nat :: Listed(parts, page, n) <==> 1 <= n <= k && n <= page
  {
    forall n: nat
      ensures Listed(parts, page, n) <==> 1 <= n <= k && n <= page
    {
      if 1 <= n <= k {
        CountsUp(parts, k, n);
      }
    }
  }

  lemma PutIsMove(s: Setup, w: World, w': World, n: nat)
    requires 1 <= n <= |w.rows| && PutStep(s, w, w', n, Sent(s, w.rows[n - 1]), false)
    ensures GrowingStep(s, w, w')
  {
  }

  lemma SendsPart(s: Setup, rows: seq<PartRecord>, parts: RemoteParts, page: nat, n: nat)
    requires 1 <= n <= |rows| <= MAXIMUM_PART_NUMBER
    ensures GrowingStep(s, Open(rows, parts, page), Open(rows, WithPart(parts, n, Sent(s, rows[n - 1])), page))
  {
    hide Range, GrowingStep;
    PutIsMove(s, Open(rows, parts, page), Open(rows, WithPart(parts, n, Sent(s, rows[n - 1])), page), n);
  }

  function Fresh(rows: seq<PartRecord>, page: nat): World {
    World(rows, None, map[], 0, None, None, page)
  }

  lemma OpenIsMove(s: Setup, w: World, w': World, id: UploadId)
    requires BeginStep(w, w', id) || BindStep(w, w', id)
    ensures GrowingStep(s, w, w')
  {
  }

  lemma Opens(s: Setup, rows: seq<PartRecord>, page: nat)
    ensures GrowingReaches(s, Fresh(rows, page), Open(rows, OldParts(s, rows, 0), page))
  {
    hide GrowingStep, GrowingReaches, Sent;
    var w, begun := Fresh(rows, page), World(rows, None, map[0 := map[]], 1, None, None, page);
    assert OldParts(s, rows, 0) == map[];
    GrowsSelf(s, w);
    OpenIsMove(s, w, begun, 0);
    GrowsStep(s, w, w, begun);
    OpenIsMove(s, begun, Open(rows, map[], page), 0);
    GrowsStep(s, w, begun, Open(rows, map[], page));
  }

  lemma {:induction false} SendsOld(s: Setup, rows: seq<PartRecord>, page: nat, k: nat)
    requires k <= |rows| <= MAXIMUM_PART_NUMBER
    ensures GrowingReaches(s, Fresh(rows, page), Open(rows, OldParts(s, rows, k), page))
  {
    hide GrowingStep, GrowingReaches, Sent;
    if k == 0 {
      Opens(s, rows, page);
    } else {
      SendsOld(s, rows, page, k - 1);
      SendsPart(s, rows, OldParts(s, rows, k - 1), page, k);
      assert OldParts(s, rows, k) == WithPart(OldParts(s, rows, k - 1), k, Sent(s, rows[k - 1]));
      GrowsStep(s, Fresh(rows, page), Open(rows, OldParts(s, rows, k - 1), page), Open(rows, OldParts(s, rows, k), page));
    }
  }

  // -- The listing of the first `p` parts, and the re-cut --

  lemma ReconcileIsGrowing(s: Setup, w: World, w': World, sized: set<nat>)
    requires CheckedReconcileStep(w, w', sized)
    ensures GrowingStep(s, w, w')
  {
  }

  lemma ListsFirst(s: Setup, rows: seq<PartRecord>, p: nat, n: nat)
    requires PlanOk(rows, s.fileId, |s.source|, DEFAULT_LIMITS) && AllFresh(rows, 0) && p < n <= |rows|
    ensures CheckedReconcileStep(Open(rows, OldParts(s, rows, n), p), Open(Done(s, rows, p), OldParts(s, rows, n), p), {})
    ensures AgreesWithListing(Done(s, rows, p), OldParts(s, rows, n), p)
  {
    assert Numbered(rows, s.fileId, 0);
    var parts := OldParts(s, rows, n);
    ShowsFirst(parts, n, p);
    hide PlanOk, CountBelow, Sent, Listed;
    forall i | 0 <= i < |rows|
      ensures Done(s, rows, p)[i] == ReconciledRow(rows[i], parts, p)
      ensures Done(s, rows, p)[i].status == Complete <==> Listed(parts, p, i + 1)
    {
      assert IsFresh(rows[i]) && rows[i].partNumber == i + 1;
    }
    assert ListingPlanned(rows, parts, p) by {
      forall m: nat | Listed(parts, p, m)
        ensures Plans(rows, m)
      {
        assert rows[m - 1].partNumber == m;
      }
    }
  }

  /** The rows with their first `p` parts confirmed are a plan that asks for the re-cut. */
  lemma AsksForRecut(s: Setup, rows: seq<PartRecord>, p: nat)
    requires PlanOk(rows, s.fileId, |s.source|, DEFAULT_LIMITS) && AllFresh(rows, 0)
    requires p < |rows| && OverTarget(rows, p)
    ensures SameRanges(rows, Done(s, rows, p)) && PlanOk(Done(s, rows, p), s.fileId, |s.source|, DEFAULT_LIMITS)
    ensures ConfirmedPrefix(Done(s, rows, p)) == p && NeedsReplan(Done(s, rows, p))
  {
    var done := Done(s, rows, p);
    SameRangesKeepPlan(rows, done, s.fileId, |s.source|);
    hide PlanOk, Sent;
    forall i | p <= i < |rows|
      ensures done[i].status != Complete
    {
      assert IsFresh(rows[i]);
    }
    ConfirmedPrefixUnique(done, p);
    var big :| p <= big < |rows| && rows[big].sourceLength > DEFAULT_LIMITS.targetPartSize;
    assert done[big].sourceLength > DEFAULT_LIMITS.targetPartSize;
  }

  /** A tail moved behind the parts that stay. */
  function Shifted(part: PartRecord, parts: nat, bytes: nat): PartRecord
    requires part.partNumber + parts <= U32_MAX && part.sourceOffset + bytes <= U64_MAX
  {
    part.(partNumber := part.partNumber + parts, sourceOffset := part.sourceOffset + bytes)
  }

  lemma TailInside(tail: seq<PartRecord>, fileId: FileId, p: nat, start: nat, end: u64, j: nat)
    requires start <= end && Covers(tail, 0, end - start) && Numbered(tail, fileId, 0) && j < |tail|
    requires p + |tail| <= U32_MAX
    ensures tail[j].partNumber + p <= U32_MAX && tail[j].sourceOffset + start <= U64_MAX
  {
    OffsetsBounded(tail, j, end - start);
  }

  /** Every re-cut that is asked for has a result. */
  lemma RecutExists(done: seq<PartRecord>, fileId: FileId, fileSize: u64) returns (later: seq<PartRecord>)
    requires PlanOk(done, fileId, fileSize, DEFAULT_LIMITS) && NeedsReplan(done)
    ensures IsReplan(done, fileId, fileSize, later)
  {
    TailPlanFacts(done, fileId, fileSize);
    hide PlanParts, NeedsReplan, Uniform, AllFresh;
    var p := ConfirmedPrefix(done);
    var tail, start := TailPlan(done, fileId, fileSize).value, done[p].sourceOffset;
    forall j | 0 <= j < |tail|
      ensures tail[j].partNumber + p <= U32_MAX && tail[j].sourceOffset + start <= U64_MAX
    {
      TailInside(tail, fileId, p, start, fileSize, j);
    }
    hide PlanOk, TailPlan, ConfirmedPrefix;
    later := done[..p] + seq(|tail|, j requires 0 <= j < |tail| => Shifted(tail[j], p, start));
    forall i | p <= i < |later|
      ensures IsShifted(tail[i - p], p, start, later[i])
    {
      assert later[i] == Shifted(tail[i - p], p, start);
    }
    assert Joins(done, p, tail, later);
  }

  lemma ReplanIsGrowing(s: Setup, w: World, w': World)
    requires ReplanStep(s, w, w')
    ensures GrowingStep(s, w, w')
  {
  }

  // -- The first range that changes --

  /** The last part is not empty, as in every plan that the planner makes for a nonempty file. */
  predicate Trimmed(rows: seq<PartRecord>, size: nat) {
    0 < size && rows != [] ==> 0 < rows[|rows| - 1].sourceLength
  }

  /** Plans of different lengths first differ in a part that both have. */
  lemma {:induction false} FirstChange(a: seq<PartRecord>, b: seq<PartRecord>, size: nat, k: nat) returns (d: nat)
    requires Covers(a, 0, size) && Covers(b, 0, size) && Trimmed(a, size) && Trimmed(b, size) && 0 < size
    requires !SameLengths(a, b) && k <= |a| && k <= |b|
    requires forall i :: 0 <= i < k ==> a[i].sourceLength == b[i].sourceLength
    ensures k <= d < |a| && d < |b| && a[d].sourceLength != b[d].sourceLength
    ensures forall i :: 0 <= i < d ==> a[i].sourceLength == b[i].sourceLength
    decreases |a| - k
  {
    if k == |a| {
      NothingBehind(a, b, size);
    } else if k == |b| {
      NothingBehind(b, a, size);
    }
    if a[k].sourceLength != b[k].sourceLength {
      d := k;
    } else {
      d := FirstChange(a, b, size, k + 1);
    }
  }

  /** A plan that another one starts with ends where it ends. */
  lemma NothingBehind(a: seq<PartRecord>, b: seq<PartRecord>, size: nat)
    requires Covers(a, 0, size) && Covers(b, 0, size) && Trimmed(b, size) && 0 < size && |a| <= |b|
    requires forall i :: 0 <= i < |a| ==> a[i].sourceLength == b[i].sourceLength
    ensures |a| == |b|
  {
    SameOffset(a, b, |a| - 1, size);
    if |a| < |b| {
      assert Adjacent(b, |a| - 1);
      assert b[|a|].sourceOffset == size;
      OffsetsOrdered(b, |a|, |b| - 1, size);
      assert false;
    }
  }

  // -- The new parts, the full listing and the completion --

  lemma {:induction false} SendsNew(s: Setup, rows: seq<PartRecord>, later: seq<PartRecord>, page: nat, n: nat, k: nat)
    requires n <= k <= |later| <= MAXIMUM_PART_NUMBER && n <= |rows|
    ensures GrowingReaches(s, Open(later, MixedParts(s, rows, later, n, n), page), Open(later, MixedParts(s, rows, later, n, k), page))
    decreases k
  {
    hide GrowingStep, GrowingReaches, Sent;
    var start := Open(later, MixedParts(s, rows, later, n, n), page);
    if k == n {
      GrowsSelf(s, start);
    } else {
      SendsNew(s, rows, later, page, n, k - 1);
      SendsPart(s, later, MixedParts(s, rows, later, n, k - 1), page, k);
      assert MixedParts(s, rows, later, n, k) == WithPart(MixedParts(s, rows, later, n, k - 1), k, Sent(s, later[k - 1]));
      GrowsStep(s, start, Open(later, MixedParts(s, rows, later, n, k - 1), page), Open(later, MixedParts(s, rows, later, n, k), page));
    }
  }

  /** The store holds exactly the parts `1` to `n`. */
  ghost predicate HoldsUpTo(parts: RemoteParts, n: nat) {
    forall m :: m in parts <==> 1 <= m <= n
  }

  /** The rows once everything the store holds is listed. */
  ghost function AllMarked(rows: seq<PartRecord>, parts: RemoteParts): seq<PartRecord>
    requires HoldsUpTo(parts, |rows|)
  {
    seq(|rows|, i requires 0 <= i < |rows| => Marked(rows[i], parts[i + 1]))
  }

  lemma ListsAll(rows: seq<PartRecord>, parts: RemoteParts, fileId: FileId)
    requires Numbered(rows, fileId, 0) && |rows| <= MAXIMUM_PART_NUMBER
    requires HoldsUpTo(parts, |rows|)
    ensures CheckedReconcileStep(Open(rows, parts, MAXIMUM_PART_NUMBER), Open(AllMarked(rows, parts), parts, MAXIMUM_PART_NUMBER), {})
  {
    ShowsFirst(parts, |rows|, MAXIMUM_PART_NUMBER);
    hide CountBelow, Listed;
    forall i | 0 <= i < |rows|
      ensures AllMarked(rows, parts)[i] == ReconciledRow(rows[i], parts, MAXIMUM_PART_NUMBER)
    {
      assert rows[i].partNumber == i + 1;
    }
    assert ListingPlanned(rows, parts, MAXIMUM_PART_NUMBER) by {
      forall m: nat | Listed(parts, MAXIMUM_PART_NUMBER, m)
        ensures Plans(rows, m)
      {
        assert rows[m - 1].partNumber == m;
      }
    }
  }

  function Published(rows: seq<PartRecord>, page: nat): World {
    World(rows, Some(0), map[], 1, Some(Assembled(rows, |rows|)), None, page)
  }

  lemma Completes(s: Setup, rows: seq<PartRecord>, parts: RemoteParts, page: nat)
    requires Numbered(rows, s.fileId, 0) && HoldsUpTo(parts, |rows|)
    ensures GrowingStep(s, Open(AllMarked(rows, parts), parts, page), Published(AllMarked(rows, parts), page))
  {
    hide Assembled;
    assert CompleteStep(Open(AllMarked(rows, parts), parts, page), Published(AllMarked(rows, parts), page));
    hide CompleteStep, AllMarked;
  }

  /** The length of what is published: one old part makes the difference. */
  lemma {:induction false} AssembledLength(rows: seq<PartRecord>, marked: seq<PartRecord>, size: nat, d: nat, length: nat, k: nat)
    requires Covers(rows, 0, size) && 0 < k <= |rows| == |marked| && d < |rows|
    requires forall i :: 0 <= i < |rows| ==>
      marked[i].etag.Some? && |marked[i].etag.value.bytes| == if i == d then length else rows[i].sourceLength
    ensures |Assembled(marked, k)| == rows[k - 1].End() + if d < k then length - rows[d].sourceLength else 0
  {
    if k == 1 {
      assert Assembled(marked, 0) == [];
    } else {
      AssembledLength(rows, marked, size, d, length, k - 1);
      assert Adjacent(rows, k - 2);
    }
  }

  lemma SentLength(s: Setup, rows: seq<PartRecord>, i: nat)
    requires Covers(rows, 0, |s.source|) && i < |rows|
    ensures |Sent(s, rows[i]).bytes| == rows[i].sourceLength
  {
    OffsetsBounded(rows, i, |s.source|);
  }

  /** With one part left over from the first plan, the object has the wrong length. */
  lemma PublishesWrongLength(s: Setup, rows: seq<PartRecord>, later: seq<PartRecord>, d: nat, parts: RemoteParts)
    requires Covers(rows, 0, |s.source|) && Covers(later, 0, |s.source|) && d < |rows| && d < |later|
    requires forall i :: 0 <= i < d ==> rows[i].sourceLength == later[i].sourceLength
    requires rows[d].sourceLength != later[d].sourceLength
    requires parts == MixedParts(s, rows, later, d + 1, |later|) && HoldsUpTo(parts, |later|)
    ensures !Safe(s, Published(AllMarked(later, parts), MAXIMUM_PART_NUMBER))
  {
    hide *;
    MixedHeld(s, rows, later, d + 1);
    var marked := AllMarked(later, parts);
    MarkedHeld(later, parts);
    forall i | 0 <= i < |later|
      ensures marked[i].etag.Some?
      ensures |marked[i].etag.value.bytes| == if i == d then rows[d].sourceLength else later[i].sourceLength
    {
      HeldLength(s, rows, later, d, i);
    }
    AssembledLength(later, marked, |s.source|, d, rows[d].sourceLength, |later|);
    LastEnd(later, |s.source|);
    WrongLength(s, marked);
  }

  lemma MixedHeld(s: Setup, rows: seq<PartRecord>, later: seq<PartRecord>, n: nat)
    requires n <= |rows|
    ensures var parts := MixedParts(s, rows, later, n, |later|);
      HoldsUpTo(parts, |later|) && forall m :: m in parts ==> parts[m] == HeldPart(s, rows, later, n, m)
  {
    hide HeldPart;
  }

  lemma MarkedHeld(rows: seq<PartRecord>, parts: RemoteParts)
    requires HoldsUpTo(parts, |rows|)
    ensures |AllMarked(rows, parts)| == |rows|
    ensures forall i :: 0 <= i < |rows| ==> i + 1 in parts && AllMarked(rows, parts)[i].etag == Some(parts[i + 1])
  {
  }

  lemma LastEnd(rows: seq<PartRecord>, size: nat)
    requires Covers(rows, 0, size)
    ensures 0 < |rows| && rows[|rows| - 1].End() == size
  {
  }

  lemma WrongLength(s: Setup, marked: seq<PartRecord>)
    requires |Assembled(marked, |marked|)| != |s.source|
    ensures !Safe(s, Published(marked, MAXIMUM_PART_NUMBER))
  {
    hide Assembled;
  }

  lemma HeldLength(s: Setup, rows: seq<PartRecord>, later: seq<PartRecord>, d: nat, i: nat)
    requires Covers(rows, 0, |s.source|) && Covers(later, 0, |s.source|) && d < |rows| && i < |later|
    requires forall j :: 0 <= j < d && j < |later| ==> rows[j].sourceLength == later[j].sourceLength
    ensures |HeldPart(s, rows, later, d + 1, i + 1).bytes| == if i == d then rows[d].sourceLength else later[i].sourceLength
  {
    hide Sent;
    if i <= d {
      SentLength(s, rows, i);
    } else {
      SentLength(s, later, i);
    }
  }

  lemma AnyPageIsGrowing(s: Setup, rows: seq<PartRecord>, parts: RemoteParts, page: nat)
    ensures GrowingStep(s, Open(rows, parts, page), Open(rows, parts, MAXIMUM_PART_NUMBER))
  {
    assert AnyPageStep(Open(rows, parts, page), Open(rows, parts, MAXIMUM_PART_NUMBER));
  }

  /** From the fresh plan to the re-cut one: parts `1` to `n` are sent, `p` of them are listed. */
  lemma ReachesRecut(s: Setup, rows: seq<PartRecord>, p: nat, n: nat, later: seq<PartRecord>)
    requires s.Valid() && PlanOk(rows, s.fileId, |s.source|, DEFAULT_LIMITS) && AllFresh(rows, 0)
    requires p < n <= |rows| && OverTarget(rows, p)
    requires IsReplan(Done(s, rows, p), s.fileId, |s.source|, later)
    ensures GrowingReaches(s, Fresh(rows, p), Open(later, OldParts(s, rows, n), p))
  {
    var start, sent := Fresh(rows, p), Open(rows, OldParts(s, rows, n), p);
    var listed, recut := Open(Done(s, rows, p), OldParts(s, rows, n), p), Open(later, OldParts(s, rows, n), p);
    hide *;
    AtMostAll(rows, s);
    SendsOld(s, rows, p, n);
    ListsFirst(s, rows, p, n);
    ReconcileIsGrowing(s, sent, listed, {});
    GrowsStep(s, start, sent, listed);
    AsksForRecut(s, rows, p);
    Recuts(s, Done(s, rows, p), OldParts(s, rows, n), p, later);
    ReplanIsGrowing(s, listed, recut);
    GrowsStep(s, start, listed, recut);
  }

  lemma AtMostAll(rows: seq<PartRecord>, s: Setup)
    requires PlanOk(rows, s.fileId, |s.source|, DEFAULT_LIMITS)
    ensures 0 < |rows| <= MAXIMUM_PART_NUMBER && Covers(rows, 0, |s.source|) && Numbered(rows, s.fileId, 0)
  {
  }

  lemma Recuts(s: Setup, done: seq<PartRecord>, parts: RemoteParts, page: nat, later: seq<PartRecord>)
    requires s.Valid() && AgreesWithListing(done, parts, page) && NeedsReplan(done)
    requires IsReplan(done, s.fileId, |s.source|, later)
    ensures ReplanStep(s, Open(done, parts, page), Open(later, parts, page))
  {
    hide AgreesWithListing, NeedsReplan, IsReplan;
  }

  /** From there to the published object: everything but part `n` is sent again, and all is listed. */
  lemma ReachesPublished(s: Setup, rows: seq<PartRecord>, later: seq<PartRecord>, page: nat, n: nat)
    requires PlanOk(later, s.fileId, |s.source|, DEFAULT_LIMITS) && n <= |rows| && n <= |later|
    ensures var parts := MixedParts(s, rows, later, n, |later|);
      && HoldsUpTo(parts, |later|)
      && GrowingReaches(s, Open(later, MixedParts(s, rows, later, n, n), page), Published(AllMarked(later, parts), MAXIMUM_PART_NUMBER))
  {
    hide *;
    AtMostAll(later, s);
    MixedHeld(s, rows, later, n);
    var parts := MixedParts(s, rows, later, n, |later|);
    var start, sent := Open(later, MixedParts(s, rows, later, n, n), page), Open(later, parts, page);
    var full, listed := Open(later, parts, MAXIMUM_PART_NUMBER), Open(AllMarked(later, parts), parts, MAXIMUM_PART_NUMBER);
    SendsNew(s, rows, later, page, n, |later|);
    AnyPageIsGrowing(s, later, parts, page);
    GrowsStep(s, start, sent, full);
    ListsAll(later, parts, s.fileId);
    ReconcileIsGrowing(s, full, listed, {});
    GrowsStep(s, start, full, listed);
    Completes(s, later, parts, MAXIMUM_PART_NUMBER);
    GrowsStep(s, start, listed, Published(AllMarked(later, parts), MAXIMUM_PART_NUMBER));
  }

  lemma GrowsChain(s: Setup, w: World, w': World, w'': World)
    requires GrowingReaches(s, w, w') && GrowingReaches(s, w', w'')
    ensures GrowingReaches(s, w, w'')
  {
    hide GrowingStep;
    var a: seq<World> :| GrowingRun(s, a) && a[0] == w && a[|a| - 1] == w';
    var b: seq<World> :| GrowingRun(s, b) && b[0] == w' && b[|b| - 1] == w'';
    var longer := a + b[1..];
    forall i | 0 <= i < |longer| - 1
      ensures GrowingStepAt(s, longer, i)
    {
      if i < |a| - 1 {
        assert GrowingStepAt(s, a, i);
      } else {
        assert GrowingStepAt(s, b, i - (|a| - 1));
      }
    }
    assert GrowingRun(s, longer) && longer[0] == w && longer[|longer| - 1] == w'';
  }

  lemma ReachedUnsafe(s: Setup, w: World, w': World)
    requires Init(s, w) && GrowingReaches(s, w, w') && !Safe(s, w')
    ensures !AlwaysSafe(s, w.rows)
  {
    hide GrowingRun, Init, Safe;
  }

  lemma SameOldParts(s: Setup, rows: seq<PartRecord>, later: seq<PartRecord>, n: nat)
    requires n <= |rows| && n <= |later|
    ensures MixedParts(s, rows, later, n, n) == OldParts(s, rows, n)
  {
    hide Sent;
  }

  lemma FreshIsInit(s: Setup, rows: seq<PartRecord>, page: nat)
    requires s.Valid() && PlanOk(rows, s.fileId, |s.source|, DEFAULT_LIMITS) && AllFresh(rows, 0)
    ensures Init(s, Fresh(rows, page))
  {
    hide PlanOk;
  }

  /** A re-cut that changes a range leads to a run that publishes the wrong object. */
  lemma ChangedIsUnsafe(s: Setup, rows: seq<PartRecord>, p: nat)
    requires s.Valid() && PlanOk(rows, s.fileId, |s.source|, DEFAULT_LIMITS) && AllFresh(rows, 0)
    requires Trimmed(rows, |s.source|) && p < |rows| && OverTarget(rows, p)
    requires !RecutKeeps(rows, s.fileId, |s.source|, p)
    ensures !AlwaysSafe(s, rows)
  {
    hide *;
    SourceFits(s);
    var done := Done(s, rows, p);
    AsksForRecut(s, rows, p);
    var later := RecutExists(done, s.fileId, |s.source|);
    ReplanCloses(done, s.fileId, |s.source|, later);
    var d := FirstChanged(s, rows, p, later);
    AtMostAll(rows, s);
    AtMostAll(later, s);
    ReachesRecut(s, rows, p, d + 1, later);
    SameOldParts(s, rows, later, d + 1);
    ReachesPublished(s, rows, later, p, d + 1);
    var parts := MixedParts(s, rows, later, d + 1, |later|);
    GrowsChain(s, Fresh(rows, p), Open(later, OldParts(s, rows, d + 1), p), Published(AllMarked(later, parts), MAXIMUM_PART_NUMBER));
    PublishesWrongLength(s, rows, later, d, parts);
    FreshIsInit(s, rows, p);
    FreshRows(rows, p);
    ReachedUnsafe(s, Fresh(rows, p), Published(AllMarked(later, parts), MAXIMUM_PART_NUMBER));
  }

  lemma FreshRows(rows: seq<PartRecord>, page: nat)
    ensures Fresh(rows, page).rows == rows
  {
  }

  /** Where the re-cut after `p` parts first changes a range: at a part that both plans have. */
  lemma FirstChanged(s: Setup, rows: seq<PartRecord>, p: nat, later: seq<PartRecord>) returns (d: nat)
    requires s.Valid() && PlanOk(rows, s.fileId, |s.source|, DEFAULT_LIMITS) && AllFresh(rows, 0)
    requires Trimmed(rows, |s.source|) && p < |rows| && OverTarget(rows, p)
    requires !RecutKeeps(rows, s.fileId, |s.source|, p) && IsReplan(Done(s, rows, p), s.fileId, |s.source|, later)
    ensures p <= d < |rows| && d < |later| && rows[d].sourceLength != later[d].sourceLength
    ensures forall i :: 0 <= i < d ==> rows[i].sourceLength == later[i].sourceLength
  {
    hide *;
    SourceFits(s);
    var done := Done(s, rows, p);
    AsksForRecut(s, rows, p);
    NeedsReplanInside(done, s.fileId, |s.source|);
    ReplanCloses(done, s.fileId, |s.source|, later);
    LaterTrimmed(done, s.fileId, |s.source|, later);
    RecutLengths(rows, done, s.fileId, |s.source|, later);
    DoneLengths(s, rows, p);
    SameLengthsBack(rows, done, later);
    AtMostAll(rows, s);
    AtMostAll(later, s);
    NotEmptied(done, s.fileId, |s.source|);
    d := FirstChange(rows, later, |s.source|, p);
  }

  lemma SourceFits(s: Setup)
    requires s.Valid()
    ensures |s.source| <= U64_MAX
  {
  }

  lemma NotEmptied(done: seq<PartRecord>, fileId: FileId, fileSize: u64)
    requires PlanOk(done, fileId, fileSize, DEFAULT_LIMITS) && NeedsReplan(done)
    ensures 0 < fileSize
  {
    NeedsReplanInside(done, fileId, fileSize);
    hide PlanOk, NeedsReplan, TailPlan;
  }

  lemma DoneLengths(s: Setup, rows: seq<PartRecord>, p: nat)
    ensures |Done(s, rows, p)| == |rows|
    ensures forall i :: 0 <= i < |rows| ==> Done(s, rows, p)[i].sourceLength == rows[i].sourceLength
  {
    hide Sent;
  }

  lemma SameLengthsBack(rows: seq<PartRecord>, done: seq<PartRecord>, later: seq<PartRecord>)
    requires |done| == |rows| && forall i :: 0 <= i < |rows| ==> done[i].sourceLength == rows[i].sourceLength
    ensures SameLengths(done, later) <==> SameLengths(rows, later)
  {
  }

  /** A re-cut plan ends with a nonempty part. */
  lemma LaterTrimmed(done: seq<PartRecord>, fileId: FileId, fileSize: u64, later: seq<PartRecord>)
    requires PlanOk(done, fileId, fileSize, DEFAULT_LIMITS) && NeedsReplan(done) && IsReplan(done, fileId, fileSize, later)
    ensures Trimmed(later, fileSize)
  {
    NeedsReplanInside(done, fileId, fileSize);
    hide PlanOk, NeedsReplan, Covers;
    var p := ConfirmedPrefix(done);
    var tail := TailPlan(done, fileId, fileSize).value;
    PlanPartsSucceeds(fileId, fileSize - done[p].sourceOffset, TailLimits(p));
    hide PlanParts, TailPlan, ConfirmedPrefix;
    assert IsShifted(tail[|tail| - 1], p, done[p].sourceOffset, later[|later| - 1]);
  }

  /** However much of its parts each listing shows, and whether or not it gives their sizes: every
      run from a fresh plan publishes the source or nothing, exactly when every re-cut that the
      plan can come to ask for leaves its ranges as they are. */
  lemma SafeExactly(s: Setup, rows: seq<PartRecord>)
    requires s.Valid() && PlanOk(rows, s.fileId, |s.source|, DEFAULT_LIMITS) && AllFresh(rows, 0)
    requires Trimmed(rows, |s.source|)
    ensures AlwaysSafe(s, rows) <==> RecutsKeep(rows, s.fileId, |s.source|)
  {
    hide PlanOk, AllFresh, Trimmed, AlwaysSafe, OverTarget, RecutKeeps;
    if RecutsKeep(rows, s.fileId, |s.source|) {
      KeptIsSafe(s, rows);
    } else {
      var p: nat :| p < |rows| && OverTarget(rows, p) && !RecutKeeps(rows, s.fileId, |s.source|, p);
      ChangedIsUnsafe(s, rows, p);
    }
  }

  // ---- Which plans keep their ranges ----

  predicate AllSmall(rows: seq<PartRecord>) {
    forall i :: 0 <= i < |rows| ==> rows[i].sourceLength <= DEFAULT_LIMITS.targetPartSize
  }

  /** Plans with no part over the target are never cut again. */
  lemma SmallPlansKeep(rows: seq<PartRecord>, fileId: FileId, fileSize: u64)
    requires AllSmall(rows)
    ensures RecutsKeep(rows, fileId, fileSize)
  {
    hide RecutKeeps;
  }

  /** Every file of at most 10,000 parts of the target size is planned that way. */
  lemma DefaultPlanSmall(fileId: FileId, fileSize: u64)
    requires fileSize <= DEFAULT_LIMITS.targetPartSize * DEFAULT_LIMITS.maximumParts
    ensures PlanParts(fileId, fileSize, DEFAULT_LIMITS).Success? && AllSmall(PlanParts(fileId, fileSize, DEFAULT_LIMITS).value)
  {
    PlanPartsFails(fileId, fileSize, DEFAULT_LIMITS);
    PlanPartsSucceeds(fileId, fileSize, DEFAULT_LIMITS);
    DivCeilLeast(fileSize, DEFAULT_LIMITS.maximumParts, DEFAULT_LIMITS.targetPartSize);
    hide DivCeil, PlanParts;
  }

  lemma ExactDivision(a: nat, b: nat)
    requires 0 < b
    ensures DivCeil(a * b, b) == a
  {
    DivCeilLeast(a * b, b, a);
    DivCeilBounds(a * b, b);
    if DivCeil(a * b, b) < a {
      MulMonotone(DivCeil(a * b, b), a - 1, b);
    }
  }

  lemma {:induction false} EqualOffsets(rows: seq<PartRecord>, length: nat, size: nat, k: nat)
    requires Covers(rows, 0, size) && k < |rows| && forall i :: 0 <= i < |rows| ==> rows[i].sourceLength == length
    ensures rows[k].sourceOffset == k * length
  {
    if k == 0 {
      assert 0 * length == 0;
    } else {
      EqualOffsets(rows, length, size, k - 1);
      assert Adjacent(rows, k - 1);
      assert k * length == (k - 1) * length + length;
    }
  }

  /** A cut into a whole number of parts has equal parts. */
  lemma EqualCut(fileId: FileId, count: nat, length: u64, j: nat)
    requires 0 < length && j < count <= U32_MAX && count * length <= U64_MAX && 0 < count * length
    ensures |Cut(fileId, count * length, length)| == count
    ensures Cut(fileId, count * length, length)[j].sourceLength == length
  {
    ExactDivision(count, length);
    CutAt(fileId, count * length, length, j);
    assert count * length == (count - 1) * length + length;
  }

  /** So are all plans that use every one of the 10,000 parts at one size, however large: a plan
      need not be small to be safe. */
  lemma FullPlansKeep(rows: seq<PartRecord>, fileId: FileId, fileSize: u64, length: u64)
    requires PlanOk(rows, fileId, fileSize, DEFAULT_LIMITS) && |rows| == DEFAULT_LIMITS.maximumParts
    requires DEFAULT_LIMITS.targetPartSize < length && forall i :: 0 <= i < |rows| ==> rows[i].sourceLength == length
    ensures RecutsKeep(rows, fileId, fileSize) && !AllSmall(rows)
  {
    EqualOffsets(rows, length, fileSize, |rows| - 1);
    assert fileSize == |rows| * length;
    assert rows[0].sourceLength <= DEFAULT_LIMITS.maximumPartSize;
    hide PlanOk, WithinSizes, Numbered;
    forall p: nat | p < |rows|
      ensures RecutKeeps(rows, fileId, fileSize, p)
    {
      EqualOffsets(rows, length, fileSize, p);
      EqualRecut(fileId, length, p);
      assert fileSize - rows[p].sourceOffset == (|rows| - p) * length;
    }
  }

  /** `rest` parts of one size over the target are cut at that size again. */
  lemma EqualPartSize(length: u64, rest: nat)
    requires DEFAULT_LIMITS.targetPartSize < length <= DEFAULT_LIMITS.maximumPartSize
    requires 0 < rest <= DEFAULT_LIMITS.maximumParts
    ensures 0 < rest * length <= DEFAULT_LIMITS.maximumPartSize * rest && rest * length <= U64_MAX
    ensures DivCeil(rest * length, rest) == length
  {
    MulMonotone(1, rest, length);
    MulMonotone(length, DEFAULT_LIMITS.maximumPartSize, rest);
    assert rest * length == length * rest;
    ExactDivision(length, rest);
  }

  lemma EqualRecut(fileId: FileId, length: u64, p: nat)
    requires DEFAULT_LIMITS.targetPartSize < length <= DEFAULT_LIMITS.maximumPartSize && p < DEFAULT_LIMITS.maximumParts
    ensures var rest := DEFAULT_LIMITS.maximumParts - p;
      && 0 < rest * length <= U64_MAX
      && PlanParts(fileId, rest * length, TailLimits(p)).Success?
      && |PlanParts(fileId, rest * length, TailLimits(p)).value| == rest
      && forall j :: 0 <= j < rest ==> PlanParts(fileId, rest * length, TailLimits(p)).value[j].sourceLength == length
  {
    var rest: nat := DEFAULT_LIMITS.maximumParts - p;
    EqualPartSize(length, rest);
    var size: u64 := rest * length;
    EqualCut(fileId, rest, length, 0);
    hide DivCeil, Cut;
    PlannedAtSize(fileId, size, length, p);
    forall j | 0 <= j < rest
      ensures Cut(fileId, size, length)[j].sourceLength == length
    {
      EqualCut(fileId, rest, length, j);
    }
  }

  lemma PlannedAtSize(fileId: FileId, size: u64, length: u64, p: nat)
    requires DEFAULT_LIMITS.targetPartSize < length <= DEFAULT_LIMITS.maximumPartSize && p < DEFAULT_LIMITS.maximumParts
    requires 0 < size <= DEFAULT_LIMITS.maximumPartSize * TailLimits(p).maximumParts
    requires DivCeil(size, TailLimits(p).maximumParts) == length
    ensures PlanParts(fileId, size, TailLimits(p)) == Success(Cut(fileId, size, length))
  {
    hide DivCeil, Cut;
    PlanPartsFails(fileId, size, TailLimits(p));
    assert PartSize(size, TailLimits(p)) == length;
  }

  /** One byte more than 10,000 parts of the target size hold. */
  const JUST_OVER: u64 := DEFAULT_LIMITS.targetPartSize * DEFAULT_LIMITS.maximumParts + 1

  /** Courier's own default plan of such a file does not keep its ranges: after one part, the rest
      is cut into parts of the target size. */
  lemma DefaultPlanRecut(fileId: FileId)
    ensures PlanParts(fileId, JUST_OVER, DEFAULT_LIMITS).Success?
    ensures var rows := PlanParts(fileId, JUST_OVER, DEFAULT_LIMITS).value;
      1 < |rows| && OverTarget(rows, 1) && !RecutKeeps(rows, fileId, JUST_OVER, 1)
  {
    var target := DEFAULT_LIMITS.targetPartSize;
    PlanPartsFails(fileId, JUST_OVER, DEFAULT_LIMITS);
    assert DivCeil(JUST_OVER, 10_000) == target + 1;
    assert PartSize(JUST_OVER, DEFAULT_LIMITS) == target + 1;
    assert DivCeil(JUST_OVER, target + 1) == 10_000;
    var rows := PlanParts(fileId, JUST_OVER, DEFAULT_LIMITS).value;
    CutAt(fileId, JUST_OVER, target + 1, 1);
    var rest := JUST_OVER - (target + 1);
    assert DivCeil(rest, 9_999) == target;
    assert PartSize(rest, TailLimits(1)) == target;
    assert DivCeil(rest, target) == 9_999;
    CutAt(fileId, rest, target, 0);
    hide PartSize, DivCeil, Cut;
    assert rows[1].sourceOffset == target + 1 && rows[1].sourceLength == target + 1;
    var tail := PlanParts(fileId, rest, TailLimits(1)).value;
    assert tail[0].sourceLength == target;
  }

  /** So with listings of any length even a default plan can go wrong. */
  lemma DefaultPlanUnsafe(s: Setup)
    requires |s.source| == JUST_OVER
    ensures PlanParts(s.fileId, JUST_OVER, DEFAULT_LIMITS).Success?
    ensures !AlwaysSafe(s, PlanParts(s.fileId, JUST_OVER, DEFAULT_LIMITS).value)
  {
    hide *;
    DefaultPlanRecut(s.fileId);
    PlanPartsSucceeds(s.fileId, JUST_OVER, DEFAULT_LIMITS);
    var rows := PlanParts(s.fileId, JUST_OVER, DEFAULT_LIMITS).value;
    JustOverFits(s, rows);
    ChangedIsUnsafe(s, rows, 1);
  }

  lemma JustOverFits(s: Setup, rows: seq<PartRecord>)
    requires |s.source| == JUST_OVER
    ensures s.Valid() && 0 < JUST_OVER
    ensures rows != [] && 0 < rows[|rows| - 1].sourceLength ==> Trimmed(rows, |s.source|)
  {
  }
}
